/** Shapes drawn on the map (`em_app.py`, `find_geo`): the edit control's
    GeoJSON as a JSON value, the walk over its features that keeps the
    coordinates of every 'Polygon' geometry, and the outer rings the
    reassignment tests points against. */
module Shapes {
  import opened Seqs

  /** A JSON value as the browser sends it. Numbers are whole numbers here. */
  datatype Json =
    | JNull
    | JBool(b: bool)
    | JNum(n: int)
    | JStr(s: string)
    | JList(items: seq<Json>)
    | JObj(fields: map<string, Json>)

  /** `x[key]` with a string key: defined on an object holding the key; a
      missing key (KeyError) or a value that is not an object (TypeError)
      raises, shown as None. */
  function Subscript(x: Json, key: string): (r: Option<Json>)
    ensures r.Some? <==> x.JObj? && key in x.fields
    ensures r.Some? ==> r.value == x.fields[key]
  {
    match x
    case JObj(f) => if key in f then Some(f[key]) else None
    case _ => None
  }

  /** Python truthiness: null, false, 0 and empty strings, lists and objects
      are false. */
  predicate Truthy(x: Json) {
    match x
    case JNull => false
    case JBool(b) => b
    case JNum(n) => n != 0
    case JStr(s) => s != ""
    case JList(items) => items != []
    case JObj(f) => f != map[]
  }

  /** The elements a `for` loop visits in `x`, or None when the loop raises
      before finishing. A list yields its items. A string yields
      one-character strings and an object yields its (string) keys; the loop
      body subscripts each element with 'geometry', which raises on a string,
      so either of these finishes only when it is empty. Any other value is
      not iterable. */
  function FeatureList(x: Json): (r: Option<seq<Json>>)
    ensures r.Some? ==> x.JList? || r.value == []
  {
    match x
    case JList(items) => Some(items)
    case JStr(s) => if s == "" then Some([]) else None
    case JObj(f) => if f == map[] then Some([]) else None
    case _ => None
  }

  /** What one loop iteration does with feature `v`: raise (None), skip it
      (Some(None)), or keep its coordinates (Some(Some(c))). */
  function Visit(v: Json): Option<Option<Json>> {
    match Subscript(v, "geometry")
    case None => None
    case Some(g) =>
      match Subscript(g, "type")
      case None => None
      case Some(t) =>
        if t != JStr("Polygon") then Some(None)
        else
          match Subscript(g, "coordinates")
          case None => None
          case Some(c) => Some(Some(c))
  }

  /** A feature the loop body gets through without raising. */
  predicate Readable(v: Json) {
    Visit(v).Some?
  }

  /** A readable feature whose geometry type is 'Polygon'. */
  predicate IsPolygon(v: Json) {
    Visit(v).Some? && Visit(v).value.Some?
  }

  function Coordinates(v: Json): Json
    requires IsPolygon(v)
  {
    Visit(v).value.value
  }

  /** The loop run over the features `vs`, one iteration at a time: the
      coordinates kept so far, or None once an iteration has raised. */
  function Walk(vs: seq<Json>): Option<seq<Json>>
    decreases |vs|
  {
    if vs == [] then Some([])
    else
      match Walk(vs[..|vs| - 1])
      case None => None
      case Some(res) =>
        match Visit(vs[|vs| - 1])
        case None => None
        case Some(None) => Some(res)
        case Some(Some(c)) => Some(res + [c])
  }

  /** `find_geo`: the coordinates of the 'Polygon' features of
      `d['features']`, in order; None when anything on the way raises (the
      bare `except` turns every error into None). */
  function FindGeo(d: Json): (r: Option<seq<Json>>)
    ensures !(d.JObj? && "features" in d.fields) ==> r.None?
    ensures r.Some? ==>
      && d.JObj? && "features" in d.fields
      && FeatureList(d.fields["features"]).Some?
      && r.value == PolygonCoords(FeatureList(d.fields["features"]).value)
  {
    match Subscript(d, "features")
    case None => None
    case Some(fs) =>
      match FeatureList(fs)
      case None => None
      case Some(vs) =>
        WalkKeepsPolygons(vs);
        Walk(vs)
  }

  /** The loop of `find_geo`, appending to `res` as it goes. */
  method FindGeoLoop(d: Json) returns (res: Option<seq<Json>>)
    ensures res == FindGeo(d)
  {
    var fs := Subscript(d, "features");
    if fs.None? {
      return None;
    }
    var vs := FeatureList(fs.value);
    if vs.None? {
      return None;
    }
    var features := vs.value;
    var acc: seq<Json> := [];
    var i := 0;
    while i < |features|
      invariant 0 <= i <= |features|
      invariant Walk(features[..i]) == Some(acc)
    {
      var v := features[i];
      assert features[..i + 1][..i] == features[..i];
      var step := Visit(v);
      if step.None? {
        Raising(features, i + 1);
        return None;
      }
      if step.value.Some? {
        acc := acc + [step.value.value];
      }
      i := i + 1;
    }
    assert features[..i] == features;
    return Some(acc);
  }

  /** Once an iteration raises, the whole walk does. */
  lemma {:induction false} Raising(vs: seq<Json>, n: nat)
    requires 0 < n <= |vs| && Visit(vs[n - 1]).None?
    ensures Walk(vs) == None
    decreases |vs|
  {
    if n < |vs| {
      assert vs[..|vs| - 1][n - 1] == vs[n - 1];
      Raising(vs[..|vs| - 1], n);
    }
  }

  /** The coordinates of the polygon features of `vs`, in order: the
      reference the walk is compared with. */
  function PolygonCoords(vs: seq<Json>): (cs: seq<Json>)
    ensures |cs| <= |vs|
  {
    if vs == [] then []
    else if IsPolygon(vs[0]) then [Coordinates(vs[0])] + PolygonCoords(vs[1..])
    else PolygonCoords(vs[1..])
  }

  lemma {:induction false} PolygonCoordsAppend(a: seq<Json>, b: seq<Json>)
    ensures PolygonCoords(a + b) == PolygonCoords(a) + PolygonCoords(b)
  {
    if a == [] {
      assert a + b == b;
    } else {
      assert (a + b)[1..] == a[1..] + b;
      PolygonCoordsAppend(a[1..], b);
    }
  }

  /** The walk raises exactly when some feature is unreadable, and otherwise
      keeps exactly the polygon coordinates, in order. */
  lemma {:induction false} WalkKeepsPolygons(vs: seq<Json>)
    ensures Walk(vs).Some? <==> forall i :: 0 <= i < |vs| ==> Readable(vs[i])
    ensures Walk(vs).Some? ==> Walk(vs).value == PolygonCoords(vs)
    decreases |vs|
  {
    if vs != [] {
      var front := vs[..|vs| - 1];
      var v := vs[|vs| - 1];
      assert vs == front + [v];
      WalkKeepsPolygons(front);
      PolygonCoordsAppend(front, [v]);
      assert forall i :: 0 <= i < |front| ==> front[i] == vs[i];
    }
  }

  /** `find_geo` returns None exactly when `d` has no 'features' key (or is
      no object), its features cannot be walked, or one of them lacks the
      geometry/type/coordinates structure; otherwise it returns the
      polygon coordinates in order. */
  lemma FindGeoSpec(d: Json)
    ensures FindGeo(d).Some? <==>
      && Subscript(d, "features").Some?
      && FeatureList(d.fields["features"]).Some?
      && forall i :: 0 <= i < |FeatureList(d.fields["features"]).value| ==>
           Readable(FeatureList(d.fields["features"]).value[i])
    ensures FindGeo(d).Some? ==>
      FindGeo(d).value == PolygonCoords(FeatureList(d.fields["features"]).value)
  {
    if Subscript(d, "features").Some? && FeatureList(d.fields["features"]).Some? {
      WalkKeepsPolygons(FeatureList(d.fields["features"]).value);
    }
  }

  /** The polygon at position `i` contributes its coordinates right after
      those of the polygons before it: the output keeps input order. */
  lemma PolygonPosition(vs: seq<Json>, i: nat)
    requires i < |vs| && IsPolygon(vs[i])
    ensures |PolygonCoords(vs[..i])| < |PolygonCoords(vs)|
    ensures PolygonCoords(vs)[|PolygonCoords(vs[..i])|] == Coordinates(vs[i])
  {
    assert vs == vs[..i] + [vs[i]] + vs[i + 1..];
    PolygonCoordsAppend(vs[..i] + [vs[i]], vs[i + 1..]);
    PolygonCoordsAppend(vs[..i], [vs[i]]);
  }

  /** Features that are not polygons contribute nothing: the count of kept
      coordinates grows by one exactly at each polygon. */
  lemma PolygonCount(vs: seq<Json>, i: nat)
    requires i < |vs|
    ensures |PolygonCoords(vs[..i + 1])|
         == |PolygonCoords(vs[..i])| + (if IsPolygon(vs[i]) then 1 else 0)
  {
    assert vs[..i + 1] == vs[..i] + [vs[i]];
    PolygonCoordsAppend(vs[..i], [vs[i]]);
  }

  /** A point as shapely builds it from (longitude, latitude). */
  datatype Point = Point(lon: int, lat: int)

  /** The outer boundary of a drawn polygon. */
  type Ring = seq<Point>

  /** A GeoJSON position: a list of two or more numbers, longitude first. */
  function Position(x: Json): Option<Point> {
    if x.JList? && |x.items| >= 2 && x.items[0].JNum? && x.items[1].JNum?
    then Some(Point(x.items[0].n, x.items[1].n))
    else None
  }

  function Positions(xs: seq<Json>): (r: Option<Ring>)
    ensures r.Some? <==> forall i :: 0 <= i < |xs| ==> Position(xs[i]).Some?
    ensures r.Some? ==> |r.value| == |xs|
    ensures r.Some? ==> forall i :: 0 <= i < |xs| ==> r.value[i] == Position(xs[i]).value
  {
    if xs == [] then Some([])
    else
      match (Position(xs[0]), Positions(xs[1..]))
      case (Some(p), Some(ps)) => Some([p] + ps)
      case _ => None
  }

  /** `Polygon(x[0])`: the first ring of a polygon's coordinates; None when
      `x` is not a non-empty list whose first element is a list of
      positions. */
  function OuterRing(x: Json): Option<Ring> {
    if x.JList? && |x.items| > 0 && x.items[0].JList? then Positions(x.items[0].items)
    else None
  }

  /** `[Polygon(x[0]) for x in coords]`: one ring per polygon, None if any
      of them cannot be built. */
  function OuterRings(coords: seq<Json>): (r: Option<seq<Ring>>)
    ensures r.Some? <==> forall i :: 0 <= i < |coords| ==> OuterRing(coords[i]).Some?
    ensures r.Some? ==> |r.value| == |coords|
    ensures r.Some? ==> forall i :: 0 <= i < |coords| ==> r.value[i] == OuterRing(coords[i]).value
  {
    if coords == [] then Some([])
    else
      match (OuterRing(coords[0]), OuterRings(coords[1..]))
      case (Some(ring), Some(rings)) => Some([ring] + rings)
      case _ => None
  }
}
