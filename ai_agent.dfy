/**
 * The query responder (analysis/ai_agent.py): a free-text query is
 * lower-cased and matched against an ordered table of intents, each a
 * whole-word regular expression `\b(w1|w2|w3)\b`; every matching intent is
 * suggested, in table order, or a fixed help text is returned.
 *
 * Regular-expression search is modelled for this one shape of pattern.
 * Word characters are the ASCII letters, digits and '_' (the regex engine's
 * Unicode word characters and Unicode lower-casing are not modelled).
 */
module QueryResponder {
  import opened Geo
  import opened Text

  /** An intent and the alternatives of its pattern. */
  datatype Intent = Intent(name: string, words: seq<string>)

  /** The pattern table, in declaration order. */
  const AnalysisPatterns: seq<Intent> := [
    Intent("buffer", ["buffer", "distance", "proximity"]),
    Intent("intersection", ["intersect", "overlap", "cross"]),
    Intent("cluster", ["cluster", "group", "pattern"]),
    Intent("optimal", ["optimal", "best", "suitable"])
  ]

  const HelpMessage: string :=
    "I can help with buffer analysis, intersection, clustering, and optimal location finding. Please specify what you'd like to do."

  const ResponsePrefix: string := "Based on your query, I suggest: "

  const ResponseSuffix: string := " analysis.\n"

  // --------------------------------------------------- whole-word search

  /** A regex word character: ASCII letter, digit or underscore. */
  predicate IsWordChar(c: char) {
    'a' <= c <= 'z' || 'A' <= c <= 'Z' || '0' <= c <= '9' || c == '_'
  }

  /** `\b` holds at position `i`: a word character on exactly one side (outside the string counts as none). */
  predicate Boundary(s: string, i: nat)
    requires i <= |s|
  {
    (i > 0 && IsWordChar(s[i - 1])) != (i < |s| && IsWordChar(s[i]))
  }

  /** `\bw\b` matches `s` at position `i`. */
  predicate WholeWordAt(s: string, w: string, i: nat) {
    i + |w| <= |s| && s[i..i + |w|] == w && Boundary(s, i) && Boundary(s, i + |w|)
  }

  /** The pattern `\b(w1|...|wn)\b` matches somewhere in `s`. */
  ghost predicate PatternMatches(s: string, words: seq<string>) {
    exists k: nat, i: nat :: k < |words| && WholeWordAt(s, words[k], i)
  }

  /** Tries `\bw\b` at every position from `i` on. */
  function SearchFrom(s: string, w: string, i: nat): bool
    decreases |s| - i
  {
    if i + |w| > |s| then false
    else WholeWordAt(s, w, i) || SearchFrom(s, w, i + 1)
  }

  /** `re.search` for the pattern: tries every alternative. */
  function Search(s: string, words: seq<string>): bool {
    if words == [] then false
    else SearchFrom(s, words[0], 0) || Search(s, words[1..])
  }

  lemma {:induction false} SearchFromIff(s: string, w: string, i: nat)
    ensures SearchFrom(s, w, i) <==> exists j: nat :: i <= j && WholeWordAt(s, w, j)
    decreases |s| - i
  {
    if i + |w| <= |s| {
      SearchFromIff(s, w, i + 1);
      if j: nat :| i <= j && WholeWordAt(s, w, j) {
        if j != i {
          assert i + 1 <= j;
        }
      }
    }
  }

  /** The search succeeds exactly when the pattern matches somewhere. */
  lemma {:induction false} SearchIff(s: string, words: seq<string>)
    ensures Search(s, words) <==> PatternMatches(s, words)
  {
    if words != [] {
      SearchFromIff(s, words[0], 0);
      SearchIff(s, words[1..]);
      if Search(s, words[1..]) {
        var k: nat, i: nat :| k < |words[1..]| && WholeWordAt(s, words[1..][k], i);
        assert WholeWordAt(s, words[k + 1], i);
      }
      if SearchFrom(s, words[0], 0) {
        var i: nat :| WholeWordAt(s, words[0], i);
        assert WholeWordAt(s, words[0], i);
      }
      if k: nat, i: nat :| k < |words| && WholeWordAt(s, words[k], i) {
        if k > 0 {
          assert WholeWordAt(s, words[1..][k - 1], i);
        }
      }
    }
  }

  // ------------------------------------------------------------- intents

  /** The names of the intents, in table order. */
  function Names(table: seq<Intent>): (names: seq<string>)
    ensures |names| == |table|
    ensures forall k :: 0 <= k < |table| ==> names[k] == table[k].name
  {
    seq(|table|, k requires 0 <= k < |table| => table[k].name)
  }

  /** The names of the intents whose pattern matches `s`, in table order. */
  function MatchedIntents(table: seq<Intent>, s: string): seq<string> {
    if table == [] then []
    else
      var last := table[|table| - 1];
      MatchedIntents(table[..|table| - 1], s) + (if Search(s, last.words) then [last.name] else [])
  }

  /** The search for intent `k` of `table` succeeds on `s`. */
  predicate IntentMatches(table: seq<Intent>, k: int, s: string)
    requires 0 <= k < |table|
  {
    Search(s, table[k].words)
  }

  /** The search for each intent succeeds exactly when its pattern matches. */
  lemma IntentMatchesIff(table: seq<Intent>, s: string)
    ensures forall k :: 0 <= k < |table| ==> (IntentMatches(table, k, s) <==> PatternMatches(s, table[k].words))
  {
    forall k | 0 <= k < |table|
      ensures IntentMatches(table, k, s) <==> PatternMatches(s, table[k].words)
    {
      SearchIff(s, table[k].words);
    }
  }

  /** An intent is suggested exactly when the search of some entry of that name succeeds. */
  lemma {:induction false} MatchedIntentsMembers(table: seq<Intent>, s: string)
    ensures forall name :: name in MatchedIntents(table, s) <==>
              exists k :: 0 <= k < |table| && table[k].name == name && IntentMatches(table, k, s)
  {
    if table != [] {
      var n := |table| - 1;
      var init := table[..n];
      var m0 := MatchedIntents(init, s);
      var last := table[n];
      MatchedIntentsMembers(init, s);
      assert MatchedIntents(table, s) == m0 + (if Search(s, last.words) then [last.name] else []);
      forall name
        ensures name in MatchedIntents(table, s) <==>
                exists k :: 0 <= k < |table| && table[k].name == name && IntentMatches(table, k, s)
      {
        if name in m0 {
          var k :| 0 <= k < |init| && init[k].name == name && IntentMatches(init, k, s);
          assert table[k].name == name && IntentMatches(table, k, s);
        }
        if k :| 0 <= k < |table| && table[k].name == name && IntentMatches(table, k, s) {
          if k < n {
            assert init[k].name == name && IntentMatches(init, k, s);
          }
        }
      }
    }
  }

  /** With distinct intent names, the suggestions come in table order, so none comes twice. */
  lemma {:induction false} MatchedIntentsOrdered(table: seq<Intent>, s: string)
    requires Distinct(Names(table))
    ensures forall a :: 0 <= a < |MatchedIntents(table, s)| ==> MatchedIntents(table, s)[a] in Names(table)
    ensures forall a, b :: 0 <= a < b < |MatchedIntents(table, s)| ==>
              IndexOf(Names(table), MatchedIntents(table, s)[a]) < IndexOf(Names(table), MatchedIntents(table, s)[b])
  {
    if table != [] {
      var n := |table| - 1;
      var names := Names(table);
      var init := table[..n];
      var m0 := MatchedIntents(init, s);
      var m := MatchedIntents(table, s);
      var last := table[n];
      assert Names(init) == names[..n];
      MatchedIntentsOrdered(init, s);
      assert m == m0 + (if Search(s, last.words) then [last.name] else []);
      forall a | 0 <= a < |m0|
        ensures m0[a] in names && IndexOf(names, m0[a]) == IndexOf(names[..n], m0[a]) < n
      {
        IndexOfPrefix(names, n, m0[a]);
      }
      assert IndexOf(names, last.name) == n;
      forall a | 0 <= a < |m|
        ensures m[a] in names
      {
        if a < |m0| {
          assert m[a] == m0[a];
        }
      }
      forall a, b | 0 <= a < b < |m|
        ensures IndexOf(names, m[a]) < IndexOf(names, m[b])
      {
        assert m[a] == m0[a];
        if b < |m0| {
          assert m[b] == m0[b];
        }
      }
    }
  }

  /** The suggestions for a query: each matching intent once, in the table's order. */
  lemma SuggestionsFollowTable(query: string)
    ensures forall name :: name in MatchedIntents(AnalysisPatterns, ToLower(query)) <==>
              exists k :: 0 <= k < |AnalysisPatterns| && AnalysisPatterns[k].name == name
                          && PatternMatches(ToLower(query), AnalysisPatterns[k].words)
    ensures Distinct(MatchedIntents(AnalysisPatterns, ToLower(query)))
    ensures forall a :: 0 <= a < |MatchedIntents(AnalysisPatterns, ToLower(query))| ==>
              MatchedIntents(AnalysisPatterns, ToLower(query))[a] in Names(AnalysisPatterns)
    ensures forall a, b :: 0 <= a < b < |MatchedIntents(AnalysisPatterns, ToLower(query))| ==>
              IndexOf(Names(AnalysisPatterns), MatchedIntents(AnalysisPatterns, ToLower(query))[a])
              < IndexOf(Names(AnalysisPatterns), MatchedIntents(AnalysisPatterns, ToLower(query))[b])
  {
    assert Names(AnalysisPatterns) == ["buffer", "intersection", "cluster", "optimal"];
    IntentMatchesIff(AnalysisPatterns, ToLower(query));
    MatchedIntentsMembers(AnalysisPatterns, ToLower(query));
    MatchedIntentsOrdered(AnalysisPatterns, ToLower(query));
  }

  // ------------------------------------------------------------ response

  /** The reply to a query: the joined suggestions, or the help text when nothing matched. */
  function Response(query: string): string {
    var matched := MatchedIntents(AnalysisPatterns, ToLower(query));
    if matched == [] then HelpMessage else ResponsePrefix + Join(matched, ", ") + ResponseSuffix
  }

  /**
   * The help text comes back when no intent matches; otherwise the reply is
   * the suggestion sentence listing the matched intents, of which there is
   * at least one.
   */
  lemma HelpIffNoMatch(query: string)
    ensures (forall k :: 0 <= k < |AnalysisPatterns| ==> !PatternMatches(ToLower(query), AnalysisPatterns[k].words)) ==>
      Response(query) == HelpMessage
    ensures (exists k :: 0 <= k < |AnalysisPatterns| && PatternMatches(ToLower(query), AnalysisPatterns[k].words)) ==>
      && MatchedIntents(AnalysisPatterns, ToLower(query)) != []
      && Response(query) == ResponsePrefix + Join(MatchedIntents(AnalysisPatterns, ToLower(query)), ", ") + ResponseSuffix
  {
    var m := MatchedIntents(AnalysisPatterns, ToLower(query));
    IntentMatchesIff(AnalysisPatterns, ToLower(query));
    MatchedIntentsMembers(AnalysisPatterns, ToLower(query));
    if m != [] {
      assert m[0] in m;
      var k :| 0 <= k < |AnalysisPatterns| && AnalysisPatterns[k].name == m[0] && IntentMatches(AnalysisPatterns, k, ToLower(query));
      assert PatternMatches(ToLower(query), AnalysisPatterns[k].words);
    } else {
      forall k | 0 <= k < |AnalysisPatterns|
        ensures !PatternMatches(ToLower(query), AnalysisPatterns[k].words)
      {
        assert AnalysisPatterns[k].name !in m;
      }
    }
  }

  /** Matching ignores case: a query and its lower-cased form get the same reply. */
  lemma ResponseIgnoresCase(query: string)
    ensures Response(ToLower(query)) == Response(query)
  {
    ToLowerIdempotent(query);
  }

  /**
   * Answers a query from the pattern table. The available layers are
   * accepted and not consulted.
   */
  method ProcessQuery<L>(query: string, availableLayers: L) returns (response: string)
    ensures response == Response(query)
  {
    var queryLower := ToLower(query);
    var suggested: seq<string> := [];
    var k := 0;
    while k < |AnalysisPatterns|
      invariant 0 <= k <= |AnalysisPatterns|
      invariant suggested == MatchedIntents(AnalysisPatterns[..k], queryLower)
    {
      if Search(queryLower, AnalysisPatterns[k].words) {
        suggested := suggested + [AnalysisPatterns[k].name];
      }
      k := k + 1;
      assert AnalysisPatterns[..k][..k - 1] == AnalysisPatterns[..k - 1];
    }
    assert AnalysisPatterns[..k] == AnalysisPatterns;
    if |suggested| == 0 {
      return HelpMessage;
    }
    response := ResponsePrefix + Join(suggested, ", ") + ResponseSuffix;
  }

  // ------------------------------------------------------------ examples

  /** A keyword inside a longer word does not count: "intersection" is not `\bintersect\b`. */
  lemma IntersectionIsNotIntersect()
    ensures !PatternMatches("intersection", AnalysisPatterns[1].words)
  {
    SearchIff("intersection", AnalysisPatterns[1].words);
    IntersectionAvoidsIntersect();
    IntersectionAvoidsOverlap();
    IntersectionAvoidsCross();
  }

  /** "intersect" sits at the start of "intersection" but no word boundary follows it. */
  lemma IntersectionAvoidsIntersect()
    ensures !SearchFrom("intersection", "intersect", 0)
  {
    var s := "intersection";
    assert !WholeWordAt(s, "intersect", 0) by {
      assert IsWordChar(s[8]) && IsWordChar(s[9]);
    }
  }

  /** "overlap" occurs nowhere in "intersection". */
  lemma IntersectionAvoidsOverlap()
    ensures !SearchFrom("intersection", "overlap", 0)
  {
  }

  /** "cross" occurs nowhere in "intersection". */
  lemma IntersectionAvoidsCross()
    ensures !SearchFrom("intersection", "cross", 0)
  {
  }

  /** "buffers" is not the word "buffer". */
  lemma PluralIsNotKeyword()
    ensures !PatternMatches("buffers", AnalysisPatterns[0].words)
  {
    SearchIff("buffers", AnalysisPatterns[0].words);
    assert !Search("buffers", ["buffer", "distance", "proximity"]);
  }

  /** "distance" suggests a buffer analysis. */
  lemma DistanceMeansBuffer()
    ensures PatternMatches("distance", AnalysisPatterns[0].words)
  {
    assert WholeWordAt("distance", AnalysisPatterns[0].words[1], 0);
  }
}
