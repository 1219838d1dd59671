/**
 * The map surface (core/map_engine.py): an insertion-ordered table of
 * rendered layers, the view bounds recomputed as the union of every vector
 * layer's extent, and the pick-by-point query behind the click popup.
 *
 * Drawing (plot, axis limits, redraw) has no state the model keeps; only the
 * table, its order and the bounds are modelled.
 */
module MapSurface {
  import opened Geo

  /** A rendered layer: its type tag, its frame and the style it was drawn with. */
  datatype Layer = Layer(kind: string, data: Frame, style: Style)

  const Vector: string := "vector"

  /** The style used when none (or an empty one) is given. */
  const DefaultStyle: Style := map["color" := Text("blue"), "alpha" := Number(0.5)]

  /** Python's `style or {...}`: `None` and the empty dict are both falsy. */
  function EffectiveStyle(style: Option<Style>): Style {
    if style.Some? && style.value != map[] then style.value else DefaultStyle
  }

  // ------------------------------------------------------------- bounds

  /** The extents of the vector layers named in `order`, in that order. */
  function VectorExtents(order: seq<string>, layers: map<string, Layer>): seq<Extent>
    requires forall n :: n in order ==> n in layers
  {
    if order == [] then []
    else
      var last := order[|order| - 1];
      VectorExtents(order[..|order| - 1], layers)
        + (if layers[last].kind == Vector then [layers[last].data.extent] else [])
  }

  /** Every vector layer named in `order` contributes its extent, and nothing else does. */
  lemma {:induction false} VectorExtentsMembers(order: seq<string>, layers: map<string, Layer>)
    requires forall n :: n in order ==> n in layers
    ensures forall n :: n in order && layers[n].kind == Vector ==> layers[n].data.extent in VectorExtents(order, layers)
    ensures forall e :: e in VectorExtents(order, layers) ==>
              exists n :: n in order && layers[n].kind == Vector && layers[n].data.extent == e
  {
    if order != [] {
      var init := order[..|order| - 1];
      assert forall n :: n in order ==> n in init || n == order[|order| - 1];
      VectorExtentsMembers(init, layers);
    }
  }

  /** The new bounds enclose the extent of every vector layer in the table. */
  lemma BoundsEncloseEveryLayer(order: seq<string>, layers: map<string, Layer>)
    requires forall n :: n in order ==> n in layers
    requires VectorExtents(order, layers) != []
    ensures forall n :: n in order && layers[n].kind == Vector ==>
              Encloses(Union(VectorExtents(order, layers)), layers[n].data.extent)
  {
    var es := VectorExtents(order, layers);
    VectorExtentsMembers(order, layers);
    UnionEncloses(es);
    forall n | n in order && layers[n].kind == Vector
      ensures Encloses(Union(es), layers[n].data.extent)
    {
      var i :| 0 <= i < |es| && es[i] == layers[n].data.extent;
    }
  }

  // --------------------------------------------------------------- pick

  /** The rows whose geometry has a containment test that holds at (x, y), in row order. */
  function Hits(rows: seq<Row>, x: real, y: real): seq<Row> {
    if rows == [] then []
    else
      var last := rows[|rows| - 1];
      Hits(rows[..|rows| - 1], x, y) + (if RowContains(last, x, y) then [last] else [])
  }

  /**
   * Hits keeps only containing rows and keeps every one of them, so it is
   * empty exactly when no row contains the point.
   */
  lemma {:induction false} HitsSpec(rows: seq<Row>, x: real, y: real)
    ensures |Hits(rows, x, y)| <= |rows|
    ensures forall k :: 0 <= k < |Hits(rows, x, y)| ==> RowContains(Hits(rows, x, y)[k], x, y)
    ensures forall i :: 0 <= i < |rows| && RowContains(rows[i], x, y) ==> rows[i] in Hits(rows, x, y)
    ensures Hits(rows, x, y) != [] <==> exists i :: 0 <= i < |rows| && RowContains(rows[i], x, y)
  {
    if rows != [] {
      var init := rows[..|rows| - 1];
      HitsSpec(init, x, y);
      forall i | 0 <= i < |rows| && RowContains(rows[i], x, y)
        ensures rows[i] in Hits(rows, x, y)
      {
        if i < |init| {
          assert rows[i] == init[i];
        }
      }
      if i :| 0 <= i < |init| && RowContains(init[i], x, y) {
        assert RowContains(rows[i], x, y);
      }
    }
  }

  /** The positions of the rows that contain (x, y), in increasing order. */
  function HitPositions(rows: seq<Row>, x: real, y: real): seq<nat> {
    if rows == [] then []
    else HitPositions(rows[..|rows| - 1], x, y) + (if RowContains(rows[|rows| - 1], x, y) then [|rows| - 1] else [])
  }

  /**
   * Hits lists the containing rows in row order, once per position: its
   * k-th row sits at the k-th of the strictly increasing containing
   * positions, and a position is among them exactly when its row contains
   * the point.
   */
  lemma {:induction false} HitsInRowOrder(rows: seq<Row>, x: real, y: real)
    ensures var pos := HitPositions(rows, x, y);
      && |pos| == |Hits(rows, x, y)|
      && (forall k :: 0 <= k < |pos| ==> pos[k] < |rows| && Hits(rows, x, y)[k] == rows[pos[k]])
      && (forall k, l :: 0 <= k < l < |pos| ==> pos[k] < pos[l])
      && (forall i :: 0 <= i < |rows| ==> (i in pos <==> RowContains(rows[i], x, y)))
  {
    if rows != [] {
      var m := |rows| - 1;
      var init := rows[..m];
      HitsInRowOrder(init, x, y);
      var pos0 := HitPositions(init, x, y);
      var pos := HitPositions(rows, x, y);
      var hits0 := Hits(init, x, y);
      var hits := Hits(rows, x, y);
      assert pos == pos0 + (if RowContains(rows[m], x, y) then [m] else []);
      assert hits == hits0 + (if RowContains(rows[m], x, y) then [rows[m]] else []);
      forall k | 0 <= k < |pos|
        ensures pos[k] < |rows| && hits[k] == rows[pos[k]]
      {
        if k < |pos0| {
          assert pos[k] == pos0[k] && hits[k] == hits0[k];
          assert init[pos0[k]] == rows[pos0[k]];
        }
      }
      forall i | 0 <= i < |rows|
        ensures i in pos <==> RowContains(rows[i], x, y)
      {
        if i < m {
          assert rows[i] == init[i];
          assert i in pos <==> i in pos0;
        } else {
          assert m !in pos0 by {
            forall k | 0 <= k < |pos0| ensures pos0[k] != m {
              assert pos0[k] < |init|;
            }
          }
        }
      }
    }
  }

  /** The popup: for each vector layer in table order with at least one hit, its name and its hits. */
  function Pick(order: seq<string>, layers: map<string, Layer>, x: real, y: real): seq<(string, seq<Row>)>
    requires forall n :: n in order ==> n in layers
  {
    if order == [] then []
    else
      var name := order[|order| - 1];
      var p := Pick(order[..|order| - 1], layers, x, y);
      var hits := Hits(layers[name].data.rows, x, y);
      if layers[name].kind == Vector && hits != [] then p + [(name, hits)] else p
  }

  /** The names of a popup, in its order. */
  function PopupKeys(p: seq<(string, seq<Row>)>): (keys: seq<string>)
    ensures |keys| == |p|
    ensures forall k :: 0 <= k < |p| ==> keys[k] == p[k].0
  {
    seq(|p|, k requires 0 <= k < |p| => p[k].0)
  }

  /** A layer is in the popup exactly when it is a vector layer with a row containing the point. */
  predicate HasHit(layer: Layer, x: real, y: real) {
    layer.kind == Vector && exists i :: 0 <= i < |layer.data.rows| && RowContains(layer.data.rows[i], x, y)
  }

  /** Every popup entry is a layer of the table with its non-empty list of hits. */
  lemma {:induction false} PickEntries(order: seq<string>, layers: map<string, Layer>, x: real, y: real)
    requires forall n :: n in order ==> n in layers
    ensures var p := Pick(order, layers, x, y);
      forall k :: 0 <= k < |p| ==>
        && p[k].0 in order
        && p[k].1 == Hits(layers[p[k].0].data.rows, x, y)
        && p[k].1 != []
  {
    if order != [] {
      var init := order[..|order| - 1];
      var name := order[|order| - 1];
      var hits := Hits(layers[name].data.rows, x, y);
      assert forall n :: n in init ==> n in order;
      PickEntries(init, layers, x, y);
      forall k | 0 <= k < |Pick(order, layers, x, y)|
        ensures var e := Pick(order, layers, x, y)[k];
          e.0 in order && e.1 == Hits(layers[e.0].data.rows, x, y) && e.1 != []
      {
        if k < |Pick(init, layers, x, y)| {
          assert Pick(order, layers, x, y)[k] == Pick(init, layers, x, y)[k];
        }
      }
    }
  }

  /** A layer of the table has a popup entry exactly when it is a vector layer with a hit. */
  lemma {:induction false} PickKeys(order: seq<string>, layers: map<string, Layer>, x: real, y: real)
    requires Distinct(order)
    requires forall n :: n in order ==> n in layers
    ensures var p := Pick(order, layers, x, y);
      forall n :: n in order ==> (n in PopupKeys(p) <==> HasHit(layers[n], x, y))
  {
    if order != [] {
      var init := order[..|order| - 1];
      var name := order[|order| - 1];
      var p0 := Pick(init, layers, x, y);
      var p := Pick(order, layers, x, y);
      PickKeys(init, layers, x, y);
      PickEntries(init, layers, x, y);
      HitsSpec(layers[name].data.rows, x, y);
      assert forall j :: 0 <= j < |init| ==> init[j] == order[j] != name;
      assert PopupKeys(p) == PopupKeys(p0) || PopupKeys(p) == PopupKeys(p0) + [name];
      forall n | n in order
        ensures n in PopupKeys(p) <==> HasHit(layers[n], x, y)
      {
        if n != name {
          assert n in init;
          assert n in PopupKeys(p) <==> n in PopupKeys(p0);
        }
      }
    }
  }

  /** Entries of the popup for all layers but the last keep their positions in the whole table. */
  lemma PickPositions(order: seq<string>, layers: map<string, Layer>, x: real, y: real)
    requires order != [] && forall n :: n in order ==> n in layers
    ensures var init := order[..|order| - 1];
      forall k :: 0 <= k < |Pick(init, layers, x, y)| ==>
        var n := Pick(init, layers, x, y)[k].0;
        n in init && IndexOf(order, n) == IndexOf(init, n) < |order| - 1
  {
    var init := order[..|order| - 1];
    assert forall n :: n in init ==> n in order;
    PickEntries(init, layers, x, y);
    forall k | 0 <= k < |Pick(init, layers, x, y)|
      ensures var n := Pick(init, layers, x, y)[k].0;
        n in init && IndexOf(order, n) == IndexOf(init, n) < |order| - 1
    {
      assert Pick(init, layers, x, y)[k].0 in init;
      IndexOfPrefix(order, |order| - 1, Pick(init, layers, x, y)[k].0);
    }
  }

  /** Popup entries follow the table's order. */
  lemma {:induction false} PickOrdered(order: seq<string>, layers: map<string, Layer>, x: real, y: real)
    requires Distinct(order)
    requires forall n :: n in order ==> n in layers
    ensures var p := Pick(order, layers, x, y);
      forall k, l :: 0 <= k < l < |p| ==>
        p[k].0 in order && p[l].0 in order && IndexOf(order, p[k].0) < IndexOf(order, p[l].0)
  {
    if order != [] {
      var init := order[..|order| - 1];
      var name := order[|order| - 1];
      assert forall n :: n in init ==> n in order;
      PickOrdered(init, layers, x, y);
      PickPositions(order, layers, x, y);
      assert IndexOf(order, name) == |order| - 1;
      var hits := Hits(layers[name].data.rows, x, y);
      assert Pick(order, layers, x, y) == Pick(init, layers, x, y)
          || Pick(order, layers, x, y) == Pick(init, layers, x, y) + [(name, hits)];
      forall k, l | 0 <= k < l < |Pick(order, layers, x, y)|
        ensures var p := Pick(order, layers, x, y);
          p[k].0 in order && p[l].0 in order && IndexOf(order, p[k].0) < IndexOf(order, p[l].0)
      {
        assert Pick(order, layers, x, y)[k] == Pick(init, layers, x, y)[k];
        if l < |Pick(init, layers, x, y)| {
          assert Pick(order, layers, x, y)[l] == Pick(init, layers, x, y)[l];
        } else {
          assert Pick(order, layers, x, y)[l].0 == name;
        }
      }
    }
  }

  /**
   * The popup lists, for every vector layer with a row containing (x, y) and
   * for no other, that layer's non-empty list of hits; keys follow the layer
   * table's insertion order.
   */
  lemma PickSpec(order: seq<string>, layers: map<string, Layer>, x: real, y: real)
    requires Distinct(order)
    requires forall n :: n in order ==> n in layers
    ensures var p := Pick(order, layers, x, y);
      && (forall k :: 0 <= k < |p| ==>
            && p[k].0 in order
            && p[k].1 == Hits(layers[p[k].0].data.rows, x, y)
            && p[k].1 != [])
      && (forall n :: n in order ==> (n in PopupKeys(p) <==> HasHit(layers[n], x, y)))
      && (forall k, l :: 0 <= k < l < |p| ==> IndexOf(order, p[k].0) < IndexOf(order, p[l].0))
  {
    PickEntries(order, layers, x, y);
    PickKeys(order, layers, x, y);
    PickOrdered(order, layers, x, y);
  }

  // ---------------------------------------------------------- the engine

  class MapEngine {
    /** Layer name to layer record. */
    var layers: map<string, Layer>
    /** The names of `layers` in insertion order (the dict's iteration order). */
    var layerOrder: seq<string>
    /** [minx, miny, maxx, maxy] of the view; `None` until a vector layer has been added. */
    var currentBounds: Option<Extent>

    ghost predicate Valid()
      reads this
    {
      Distinct(layerOrder) && (forall n :: n in layers <==> n in layerOrder)
    }

    constructor ()
      ensures Valid()
      ensures layers == map[] && layerOrder == [] && currentBounds == None
    {
      layers := map[];
      layerOrder := [];
      currentBounds := None;
    }

    /**
     * Adds a vector layer unless the name is taken, in which case nothing
     * changes. On success the layer is appended to the table with the given
     * style (or the default one) and the bounds are recomputed.
     */
    method AddVectorLayer(data: Frame, layerName: string, style: Option<Style>)
      requires Valid()
      modifies this
      ensures Valid()
      ensures layerName in old(layers) ==>
        layers == old(layers) && layerOrder == old(layerOrder) && currentBounds == old(currentBounds)
      ensures layerName !in old(layers) ==>
        && layers == old(layers)[layerName := Layer(Vector, data, EffectiveStyle(style))]
        && layerOrder == old(layerOrder) + [layerName]
        && currentBounds == Some(Union(VectorExtents(layerOrder, layers)))
      ensures layerName !in old(layers) ==>
        forall n :: n in layers && layers[n].kind == Vector ==> Encloses(currentBounds.value, layers[n].data.extent)
    {
      if layerName in layers {
        return;
      }
      layers := layers[layerName := Layer(Vector, data, EffectiveStyle(style))];
      layerOrder := layerOrder + [layerName];
      assert layerOrder[..|layerOrder| - 1] == old(layerOrder);
      UpdateBounds();
      BoundsEncloseEveryLayer(layerOrder, layers);
    }

    /** Recomputes the bounds as the union of the vector layers' extents; keeps them when there are none. */
    method UpdateBounds()
      requires Valid()
      modifies this`currentBounds
      ensures var es := VectorExtents(layerOrder, layers);
        currentBounds == if es == [] then old(currentBounds) else Some(Union(es))
    {
      var allBounds: seq<Extent> := [];
      var i := 0;
      while i < |layerOrder|
        invariant 0 <= i <= |layerOrder|
        invariant allBounds == VectorExtents(layerOrder[..i], layers)
      {
        var layer := layers[layerOrder[i]];
        if layer.kind == Vector {
          allBounds := allBounds + [layer.data.extent];
        }
        i := i + 1;
        assert layerOrder[..i][..i - 1] == layerOrder[..i - 1];
      }
      assert layerOrder[..i] == layerOrder;
      if allBounds != [] {
        currentBounds := Some(Union(allBounds));
      }
    }

    /**
     * The click query: groups, by layer, the rows whose geometry contains
     * (x, y). `tolerance` is accepted and has no effect.
     */
    method ShowPopup(x: real, y: real, tolerance: real) returns (popup: seq<(string, seq<Row>)>)
      requires Valid()
      ensures popup == Pick(layerOrder, layers, x, y)
    {
      popup := [];
      var i := 0;
      while i < |layerOrder|
        invariant 0 <= i <= |layerOrder|
        invariant popup == Pick(layerOrder[..i], layers, x, y)
      {
        var name := layerOrder[i];
        var layer := layers[name];
        var rows := layer.data.rows;
        assert layerOrder[..i + 1][..i] == layerOrder[..i];
        if layer.kind == Vector {
          var found: seq<Row> := [];
          var j := 0;
          while j < |rows|
            invariant 0 <= j <= |rows|
            invariant found == Hits(rows[..j], x, y)
          {
            if rows[j].contains.Some? && rows[j].contains.value(x, y) {
              found := found + [rows[j]];
            }
            j := j + 1;
            assert rows[..j][..j - 1] == rows[..j - 1];
          }
          assert rows[..j] == rows;
          if |found| > 0 {
            popup := popup + [(name, found)];
          }
        }
        i := i + 1;
      }
      assert layerOrder[..i] == layerOrder;
    }

    /** The layer names in insertion order. */
    function LayerNames(): (names: seq<string>)
      reads this
      requires Valid()
      ensures Distinct(names)
      ensures forall n :: n in names <==> n in layers
    {
      layerOrder
    }
  }
}
