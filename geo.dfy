/**
 * Values shared by the map surface, the layer store, the feeds and the
 * application controller: optional values, the axis-aligned extents of
 * geo-data frames and their union, attribute rows and styles.
 *
 * A geo-data frame is not modelled geometrically: its total bounds and the
 * containment predicate of each row's geometry are inputs computed by the
 * vector-geometry library.
 */
module Geo {

  datatype Option<+T> = None | Some(value: T)

  /** No element of `s` occurs twice (the keys of a Python dict in insertion order). */
  predicate Distinct<T(==)>(s: seq<T>) {
    forall i, j :: 0 <= i < j < |s| ==> s[i] != s[j]
  }

  /** Position of `x` in `s`; the smallest one if `x` occurs more than once. */
  function IndexOf<T(==)>(s: seq<T>, x: T): (k: nat)
    requires x in s
    ensures k < |s| && s[k] == x
    ensures forall j :: 0 <= j < k ==> s[j] != x
  {
    if s[0] == x then 0 else 1 + IndexOf(s[1..], x)
  }

  /** Where the first occurrence of `x` in `s` lies in a prefix, it is the same in `s`. */
  lemma IndexOfPrefix<T>(s: seq<T>, m: nat, x: T)
    requires m <= |s| && x in s[..m]
    ensures IndexOf(s, x) == IndexOf(s[..m], x)
  {
    var b := IndexOf(s[..m], x);
    var c := IndexOf(s, x);
    assert s[b] == x;
    assert c <= b;
    assert s[..m][c] == x;
  }

  // ---------------------------------------------------------------- extents

  /** An axis-aligned box in the order of a frame's total bounds: [minx, miny, maxx, maxy]. */
  datatype Extent = Extent(minx: real, miny: real, maxx: real, maxy: real)

  /** `outer` covers `inner` on both axes. */
  predicate Encloses(outer: Extent, inner: Extent) {
    && outer.minx <= inner.minx && outer.miny <= inner.miny
    && inner.maxx <= outer.maxx && inner.maxy <= outer.maxy
  }

  function Min(a: real, b: real): real { if a <= b then a else b }

  function Max(a: real, b: real): real { if a <= b then b else a }

  /**
   * The componentwise minimum of the lower corners and maximum of the upper
   * corners of a non-empty list of extents (a column-wise min/max over the
   * stacked bounds).
   */
  function Union(es: seq<Extent>): Extent
    requires |es| > 0
  {
    if |es| == 1 then es[0]
    else
      var rest := Union(es[1..]);
      Extent(Min(es[0].minx, rest.minx), Min(es[0].miny, rest.miny),
             Max(es[0].maxx, rest.maxx), Max(es[0].maxy, rest.maxy))
  }

  /** The union covers every extent it was built from. */
  lemma {:induction false} UnionEncloses(es: seq<Extent>)
    requires |es| > 0
    ensures forall i :: 0 <= i < |es| ==> Encloses(Union(es), es[i])
  {
    if |es| > 1 {
      UnionEncloses(es[1..]);
      forall i | 1 <= i < |es|
        ensures Encloses(Union(es), es[i])
      {
        assert es[i] == es[1..][i - 1];
      }
    }
  }

  /** Any box covering every extent covers their union: the union is the least such box. */
  lemma {:induction false} UnionIsLeast(es: seq<Extent>, b: Extent)
    requires |es| > 0
    requires forall i :: 0 <= i < |es| ==> Encloses(b, es[i])
    ensures Encloses(b, Union(es))
  {
    if |es| > 1 {
      forall i | 0 <= i < |es| - 1
        ensures Encloses(b, es[1..][i])
      {
        assert es[1..][i] == es[i + 1];
      }
      UnionIsLeast(es[1..], b);
    }
  }

  /** Each side of the union is the corresponding side of one of the extents. */
  lemma {:induction false} UnionAttained(es: seq<Extent>)
    requires |es| > 0
    ensures exists i :: 0 <= i < |es| && es[i].minx == Union(es).minx
    ensures exists i :: 0 <= i < |es| && es[i].miny == Union(es).miny
    ensures exists i :: 0 <= i < |es| && es[i].maxx == Union(es).maxx
    ensures exists i :: 0 <= i < |es| && es[i].maxy == Union(es).maxy
  {
    if |es| > 1 {
      var u, rest := Union(es), es[1..];
      UnionAttained(rest);
      var a :| 0 <= a < |rest| && rest[a].minx == Union(rest).minx;
      var b :| 0 <= b < |rest| && rest[b].miny == Union(rest).miny;
      var c :| 0 <= c < |rest| && rest[c].maxx == Union(rest).maxx;
      var d :| 0 <= d < |rest| && rest[d].maxy == Union(rest).maxy;
      assert es[if u.minx == es[0].minx then 0 else a + 1].minx == u.minx;
      assert es[if u.miny == es[0].miny then 0 else b + 1].miny == u.miny;
      assert es[if u.maxx == es[0].maxx then 0 else c + 1].maxx == u.maxx;
      assert es[if u.maxy == es[0].maxy then 0 else d + 1].maxy == u.maxy;
    } else {
      assert Union(es) == es[0];
    }
  }

  /** The extent of a single point. */
  function PointExtent(x: real, y: real): Extent {
    Extent(x, y, x, y)
  }

  // ------------------------------------------------------- rows and frames

  /** An attribute value of a row. `Stamp` is a timestamp in microseconds. */
  datatype Value = Str(s: string) | Num(x: real) | Stamp(micros: int)

  /**
   * One row of a geo-data frame: its attributes and, when its geometry has a
   * containment test, that test as a predicate on (x, y).
   */
  datatype Row = Row(attrs: map<string, Value>, contains: Option<(real, real) -> bool>)

  /** A geo-data frame: rows in row order, total bounds and coordinate reference. */
  datatype Frame = Frame(rows: seq<Row>, extent: Extent, crs: Option<string>)

  /** The geometry of `row` has a containment test and it holds at (x, y). */
  predicate RowContains(row: Row, x: real, y: real) {
    row.contains.Some? && row.contains.value(x, y)
  }

  /** A point geometry contains exactly the point itself. */
  function PointGeometry(px: real, py: real): (real, real) -> bool {
    (x: real, y: real) => x == px && y == py
  }

  const Wgs84: string := "EPSG:4326"

  // ----------------------------------------------------------------- styles

  /**
   * A rendering option. `ColumnTimes(c, k)` is a per-feature value: column `c`
   * of the frame multiplied by `k`.
   */
  datatype StyleValue = Text(s: string) | Number(x: real) | ColumnTimes(column: string, factor: real)

  type Style = map<string, StyleValue>
}
