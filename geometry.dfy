/** The two vertex-average centroid functions of frontend/server/routes/claims.js:
    `centroidOfGeoJSON` (GeoJSON Polygon / MultiPolygon) and
    `centroidOfEsriGeometry` (Esri `rings` / `paths`). Both are loops that push
    vertices into a list and then accumulate two sums; each is a method proved
    equal to a specification function, and the properties of the centroid are
    lemmas about those functions. */
module Geometry {
  import opened Wrappers

  /** A JavaScript number after `Number(...)`: finite, or NaN / ±Infinity. */
  datatype Num = Finite(value: real) | NonFinite

  /** A longitude / latitude pair with finite coordinates. */
  datatype Point = Point(lon: real, lat: real)

  /** One entry of a ring or path: an array, whose entries have been coerced
      with `Number`, or a value that is not an array. */
  datatype Vertex = Coords(items: seq<Num>) | NotArray

  /** One entry of an Esri `rings` array: an array of vertices or some other
      value. */
  datatype Ring = Vertices(vertices: seq<Vertex>) | NotRing

  /** The `rings` member of an Esri geometry: absent or falsy, an array, or a
      truthy value that is not an array. */
  datatype RingsMember = NoRings | RingList(rings: seq<Ring>) | RingsNotArray

  /** An Esri geometry as returned by the boundary services: polygons carry
      `rings`, polylines `paths`. */
  datatype EsriGeometry = EsriGeometry(rings: RingsMember, paths: Option<seq<seq<Vertex>>>)

  /** A GeoJSON geometry: `coordinates` of a Polygon is a list of rings (the
      first the outer boundary, the others holes); a MultiPolygon holds a list
      of such polygons. An absent `coordinates` is the empty list. */
  datatype GeoJsonGeometry =
    | Polygon(rings: seq<seq<Vertex>>)
    | MultiPolygon(polygons: seq<seq<seq<Vertex>>>)
    | OtherType

  predicate InRange(p: Point) {
    -180.0 <= p.lon <= 180.0 && -90.0 <= p.lat <= 90.0
  }

  // ---------------------------------------------------------------------------
  // Sums and the vertex average
  // ---------------------------------------------------------------------------

  function Sum(xs: seq<real>): real
  {
    if xs == [] then 0.0 else Sum(xs[..|xs| - 1]) + xs[|xs| - 1]
  }

  function Lons(pts: seq<Point>): (r: seq<real>)
    ensures |r| == |pts| && forall i :: 0 <= i < |pts| ==> r[i] == pts[i].lon
  {
    seq(|pts|, i requires 0 <= i < |pts| => pts[i].lon)
  }

  function Lats(pts: seq<Point>): (r: seq<real>)
    ensures |r| == |pts| && forall i :: 0 <= i < |pts| ==> r[i] == pts[i].lat
  {
    seq(|pts|, i requires 0 <= i < |pts| => pts[i].lat)
  }

  function Avg(xs: seq<real>): real
    requires xs != []
  {
    Sum(xs) / (|xs| as real)
  }

  /** The arithmetic mean of the vertices, or None when there are none. */
  function Mean(pts: seq<Point>): (c: Option<Point>)
  {
    if pts == [] then None else Some(Point(Avg(Lons(pts)), Avg(Lats(pts))))
  }

  lemma {:induction false} SumBounds(xs: seq<real>, lo: real, hi: real)
    requires forall i :: 0 <= i < |xs| ==> lo <= xs[i] <= hi
    ensures (|xs| as real) * lo <= Sum(xs) <= (|xs| as real) * hi
    decreases |xs|
  {
    if xs != [] {
      var n := |xs| as real;
      SumBounds(xs[..|xs| - 1], lo, hi);
      assert (n - 1.0) * lo + lo == n * lo;
      assert (n - 1.0) * hi + hi == n * hi;
    }
  }

  lemma AverageBounds(s: real, n: real, lo: real, hi: real)
    requires n > 0.0 && n * lo <= s <= n * hi
    ensures lo <= s / n <= hi
  {
    assert (s / n) * n == s;
  }

  lemma AvgBounds(xs: seq<real>, lo: real, hi: real)
    requires xs != []
    requires forall i :: 0 <= i < |xs| ==> lo <= xs[i] <= hi
    ensures lo <= Avg(xs) <= hi
  {
    SumBounds(xs, lo, hi);
    AverageBounds(Sum(xs), |xs| as real, lo, hi);
  }

  lemma SumSnoc(xs: seq<real>, x: real)
    ensures Sum(xs + [x]) == Sum(xs) + x
  {
    assert (xs + [x])[..|xs|] == xs;
  }

  /** The vertex average lies inside every box that holds all the vertices. */
  lemma MeanWithinBounds(pts: seq<Point>, sw: Point, ne: Point)
    requires pts != []
    requires forall i :: 0 <= i < |pts| ==> sw.lon <= pts[i].lon <= ne.lon && sw.lat <= pts[i].lat <= ne.lat
    ensures Mean(pts).Some?
    ensures sw.lon <= Mean(pts).value.lon <= ne.lon && sw.lat <= Mean(pts).value.lat <= ne.lat
  {
    AvgBounds(Lons(pts), sw.lon, ne.lon);
    AvgBounds(Lats(pts), sw.lat, ne.lat);
  }

  /** The centroid of valid coordinates is a valid coordinate. */
  lemma MeanInRange(pts: seq<Point>)
    requires pts != []
    requires forall i :: 0 <= i < |pts| ==> InRange(pts[i])
    ensures Mean(pts).Some? && InRange(Mean(pts).value)
  {
    MeanWithinBounds(pts, Point(-180.0, -90.0), Point(180.0, 90.0));
  }

  // ---------------------------------------------------------------------------
  // centroidOfEsriGeometry
  // ---------------------------------------------------------------------------

  /** The guarded `push(p[0], p[1])`: an array of at least two entries whose
      first two coerce to finite numbers. */
  function FinitePair(v: Vertex): Option<Point>
  {
    match v
    case Coords(items) =>
      if |items| >= 2 && items[0].Finite? && items[1].Finite?
      then Some(Point(items[0].value, items[1].value))
      else None
    case NotArray => None
  }

  function AsSeq<T>(o: Option<T>): seq<T> {
    if o.Some? then [o.value] else []
  }

  /** The finite pairs of one ring or path, in order. */
  function PairsOf(vs: seq<Vertex>): seq<Point>
  {
    if vs == [] then [] else PairsOf(vs[..|vs| - 1]) + AsSeq(FinitePair(vs[|vs| - 1]))
  }

  function RingPairs(rings: seq<Ring>): seq<Point>
  {
    if rings == [] then []
    else
      var last := rings[|rings| - 1];
      RingPairs(rings[..|rings| - 1]) + (if last.Vertices? then PairsOf(last.vertices) else [])
  }

  function PathPairs(paths: seq<seq<Vertex>>): seq<Point>
  {
    if paths == [] then [] else PathPairs(paths[..|paths| - 1]) + PairsOf(paths[|paths| - 1])
  }

  /** Every vertex `centroidOfEsriGeometry` averages: the finite pairs of the
      rings when `rings` is present (truthy), else those of the paths. */
  function EsriPoints(g: EsriGeometry): seq<Point>
  {
    match g.rings
    case RingList(rs) => RingPairs(rs)
    case RingsNotArray => []
    case NoRings => if g.paths.Some? then PathPairs(g.paths.value) else []
  }

  /** What `centroidOfEsriGeometry` returns. */
  function EsriCentroid(geom: Option<EsriGeometry>): Option<Point>
  {
    if geom.None? then None else Mean(EsriPoints(geom.value))
  }

  /** The pairs collected from a ring are exactly its finite pairs. */
  lemma {:induction false} PairsOfMembers(vs: seq<Vertex>, p: Point)
    ensures p in PairsOf(vs) <==> exists k :: 0 <= k < |vs| && FinitePair(vs[k]) == Some(p)
    decreases |vs|
  {
    if vs != [] {
      var init := vs[..|vs| - 1];
      PairsOfMembers(init, p);
      if exists k :: 0 <= k < |vs| && FinitePair(vs[k]) == Some(p) {
        var k :| 0 <= k < |vs| && FinitePair(vs[k]) == Some(p);
        if k < |vs| - 1 {
          assert init[k] == vs[k];
        }
      }
      if exists k :: 0 <= k < |init| && FinitePair(init[k]) == Some(p) {
        var k :| 0 <= k < |init| && FinitePair(init[k]) == Some(p);
        assert vs[k] == init[k];
      }
    }
  }

  /** A ring whose vertices are all finite pairs contributes each of them, in
      order. */
  lemma {:induction false} PairsOfAllFinite(vs: seq<Vertex>)
    requires forall k :: 0 <= k < |vs| ==> FinitePair(vs[k]).Some?
    ensures |PairsOf(vs)| == |vs|
    ensures forall k :: 0 <= k < |vs| ==> PairsOf(vs)[k] == FinitePair(vs[k]).value
    decreases |vs|
  {
    if vs != [] {
      PairsOfAllFinite(vs[..|vs| - 1]);
    }
  }

  /** Appending a vertex that is not a finite pair changes nothing. */
  lemma PairsOfSkipsMalformed(vs: seq<Vertex>, v: Vertex)
    requires FinitePair(v).None?
    ensures PairsOf(vs + [v]) == PairsOf(vs)
  {
    assert (vs + [v])[..|vs|] == vs;
  }

  /** `rings` takes precedence: when it is present the paths are ignored. */
  lemma RingsTakePrecedence(rs: seq<Ring>, p1: Option<seq<seq<Vertex>>>, p2: Option<seq<seq<Vertex>>>)
    ensures EsriCentroid(Some(EsriGeometry(RingList(rs), p1))) == EsriCentroid(Some(EsriGeometry(RingList(rs), p2)))
    ensures EsriCentroid(Some(EsriGeometry(RingList(rs), p1))) == Mean(RingPairs(rs))
  {
  }

  /** A centroid exists exactly when some finite pair was collected, and it
      then lies in the bounding box of those pairs. */
  lemma EsriCentroidWithinBounds(g: EsriGeometry, sw: Point, ne: Point)
    requires forall p :: p in EsriPoints(g) ==> sw.lon <= p.lon <= ne.lon && sw.lat <= p.lat <= ne.lat
    ensures EsriCentroid(Some(g)).Some? <==> EsriPoints(g) != []
    ensures EsriCentroid(Some(g)).Some? ==>
      var c := EsriCentroid(Some(g)).value;
      sw.lon <= c.lon <= ne.lon && sw.lat <= c.lat <= ne.lat
  {
    var pts := EsriPoints(g);
    if pts != [] {
      forall i | 0 <= i < |pts| ensures sw.lon <= pts[i].lon <= ne.lon && sw.lat <= pts[i].lat <= ne.lat {
        assert pts[i] in pts;
      }
      MeanWithinBounds(pts, sw, ne);
    }
  }

  function SquareVertex(x: real, y: real): Vertex {
    Coords([Finite(x), Finite(y)])
  }

  /** A geometry with a single ring averages that ring's finite pairs. */
  lemma SingleRing(vs: seq<Vertex>)
    ensures EsriCentroid(Some(EsriGeometry(RingList([Vertices(vs)]), None))) == Mean(PairsOf(vs))
  {
    var rs := [Vertices(vs)];
    assert rs[..|rs| - 1] == [];
    assert RingPairs(rs) == PairsOf(vs);
    var g := EsriGeometry(RingList(rs), None);
    assert EsriPoints(g) == PairsOf(vs);
  }

  lemma SumOf4(a: real, b: real, c: real, d: real)
    ensures Sum([a, b, c, d]) == a + b + c + d
  {
    SumSnoc([], a);
    assert [] + [a] == [a];
    SumSnoc([a], b);
    assert [a] + [b] == [a, b];
    SumSnoc([a, b], c);
    assert [a, b] + [c] == [a, b, c];
    SumSnoc([a, b, c], d);
    assert [a, b, c] + [d] == [a, b, c, d];
  }

  /** The unit case: the four corners (0,0), (0,2), (2,2), (2,0) average to
      (1,1). */
  lemma SquareCentroid()
    ensures EsriCentroid(Some(EsriGeometry(RingList([Vertices([SquareVertex(0.0, 0.0), SquareVertex(0.0, 2.0), SquareVertex(2.0, 2.0), SquareVertex(2.0, 0.0)])]), None)))
         == Some(Point(1.0, 1.0))
  {
    var vs := [SquareVertex(0.0, 0.0), SquareVertex(0.0, 2.0), SquareVertex(2.0, 2.0), SquareVertex(2.0, 0.0)];
    SingleRing(vs);
    PairsOfAllFinite(vs);
    var pts := PairsOf(vs);
    assert pts == [Point(0.0, 0.0), Point(0.0, 2.0), Point(2.0, 2.0), Point(2.0, 0.0)];
    assert Lons(pts) == [0.0, 0.0, 2.0, 2.0];
    assert Lats(pts) == [0.0, 2.0, 2.0, 0.0];
    SumOf4(0.0, 0.0, 2.0, 2.0);
    SumOf4(0.0, 2.0, 2.0, 0.0);
    assert Avg(Lons(pts)) == 4.0 / 4.0;
    assert Avg(Lats(pts)) == 4.0 / 4.0;
  }

  /** Esri rings are closed (the first vertex is repeated at the end), so the
      closing vertex is counted twice: the same square written as a closed
      ring averages to (0.8, 0.8), not (1,1). */
  lemma ClosedSquareCentroid()
    ensures EsriCentroid(Some(EsriGeometry(RingList([Vertices([SquareVertex(0.0, 0.0), SquareVertex(0.0, 2.0), SquareVertex(2.0, 2.0), SquareVertex(2.0, 0.0), SquareVertex(0.0, 0.0)])]), None)))
         == Some(Point(0.8, 0.8))
  {
    var vs := [SquareVertex(0.0, 0.0), SquareVertex(0.0, 2.0), SquareVertex(2.0, 2.0), SquareVertex(2.0, 0.0), SquareVertex(0.0, 0.0)];
    SingleRing(vs);
    PairsOfAllFinite(vs);
    var pts := PairsOf(vs);
    assert |pts| == 5;
    assert pts[0] == Point(0.0, 0.0) && pts[1] == Point(0.0, 2.0) && pts[2] == Point(2.0, 2.0);
    assert pts[3] == Point(2.0, 0.0) && pts[4] == Point(0.0, 0.0);
    assert pts == [Point(0.0, 0.0), Point(0.0, 2.0), Point(2.0, 2.0), Point(2.0, 0.0), Point(0.0, 0.0)];
    assert Lons(pts) == [0.0, 0.0, 2.0, 2.0] + [0.0];
    assert Lats(pts) == [0.0, 2.0, 2.0, 0.0] + [0.0];
    SumOf4(0.0, 0.0, 2.0, 2.0);
    SumOf4(0.0, 2.0, 2.0, 0.0);
    SumSnoc([0.0, 0.0, 2.0, 2.0], 0.0);
    SumSnoc([0.0, 2.0, 2.0, 0.0], 0.0);
    assert Avg(Lons(pts)) == 4.0 / 5.0;
    assert Avg(Lats(pts)) == 4.0 / 5.0;
  }

  /** One pass over a ring or path, pushing its finite pairs. */
  method PushPairs(pts: seq<Point>, vs: seq<Vertex>) returns (out: seq<Point>)
    ensures out == pts + PairsOf(vs)
  {
    out := pts;
    var j := 0;
    while j < |vs|
      invariant 0 <= j <= |vs|
      invariant out == pts + PairsOf(vs[..j])
    {
      assert vs[..j + 1][..j] == vs[..j];
      match vs[j] {
        case Coords(items) =>
          if |items| >= 2 && items[0].Finite? && items[1].Finite? {
            out := out + [Point(items[0].value, items[1].value)];
          }
        case NotArray =>
      }
      j := j + 1;
    }
    assert vs[..j] == vs;
  }

  /** The closing loop `for (const [x, y] of pts) { sx += x; sy += y; }`
      and the division by the count. */
  method Average(pts: seq<Point>) returns (c: Option<Point>)
    ensures c == Mean(pts)
  {
    if |pts| == 0 {
      return None;
    }
    var sx, sy := 0.0, 0.0;
    var k := 0;
    while k < |pts|
      invariant 0 <= k <= |pts|
      invariant sx == Sum(Lons(pts[..k])) && sy == Sum(Lats(pts[..k]))
    {
      assert Lons(pts[..k + 1])[..k] == Lons(pts[..k]);
      assert Lats(pts[..k + 1])[..k] == Lats(pts[..k]);
      sx := sx + pts[k].lon;
      sy := sy + pts[k].lat;
      k := k + 1;
    }
    assert pts[..k] == pts;
    c := Some(Point(sx / (|pts| as real), sy / (|pts| as real)));
  }

  /** `centroidOfEsriGeometry`. */
  method CentroidOfEsriGeometry(geom: Option<EsriGeometry>) returns (c: Option<Point>)
    ensures c == EsriCentroid(geom)
  {
    if geom.None? {
      return None;
    }
    var g := geom.value;
    var pts: seq<Point> := [];
    match g.rings {
      case RingList(rings) =>
        var i := 0;
        while i < |rings|
          invariant 0 <= i <= |rings|
          invariant pts == RingPairs(rings[..i])
        {
          assert rings[..i + 1][..i] == rings[..i];
          if rings[i].Vertices? {
            pts := PushPairs(pts, rings[i].vertices);
          }
          i := i + 1;
        }
        assert rings[..i] == rings;
      case RingsNotArray =>
      case NoRings =>
        if g.paths.Some? {
          var paths := g.paths.value;
          var i := 0;
          while i < |paths|
            invariant 0 <= i <= |paths|
            invariant pts == PathPairs(paths[..i])
          {
            assert paths[..i + 1][..i] == paths[..i];
            pts := PushPairs(pts, paths[i]);
            i := i + 1;
          }
          assert paths[..i] == paths;
        }
    }
    c := Average(pts);
  }

  // ---------------------------------------------------------------------------
  // centroidOfGeoJSON
  // ---------------------------------------------------------------------------

  /** A pushed pair of `centroidOfGeoJSON`, whose coordinates are not checked
      for finiteness. */
  datatype NumPair = NumPair(x: Num, y: Num)

  /** `pushPt`: any array of at least two entries is pushed. */
  function RawPair(v: Vertex): Option<NumPair>
  {
    match v
    case Coords(items) => if |items| >= 2 then Some(NumPair(items[0], items[1])) else None
    case NotArray => None
  }

  function RawPairsOf(vs: seq<Vertex>): seq<NumPair>
  {
    if vs == [] then [] else RawPairsOf(vs[..|vs| - 1]) + AsSeq(RawPair(vs[|vs| - 1]))
  }

  /** The first ring of each member polygon, concatenated. */
  function OuterRingPairs(polygons: seq<seq<seq<Vertex>>>): seq<NumPair>
  {
    if polygons == [] then []
    else
      var last := polygons[|polygons| - 1];
      OuterRingPairs(polygons[..|polygons| - 1]) + (if last != [] then RawPairsOf(last[0]) else [])
  }

  /** Every pair `centroidOfGeoJSON` averages: only the first (outer) ring of a
      Polygon, or of each MultiPolygon member; holes are never read. */
  function GeoJsonPairs(g: GeoJsonGeometry): seq<NumPair>
  {
    match g
    case Polygon(rings) => if rings != [] then RawPairsOf(rings[0]) else []
    case MultiPolygon(polygons) => OuterRingPairs(polygons)
    case OtherType => []
  }

  /** IEEE addition seen through finiteness (overflow to Infinity is not
      modelled). */
  function AddNum(a: Num, b: Num): Num {
    if a.Finite? && b.Finite? then Finite(a.value + b.value) else NonFinite
  }

  function SumXs(ps: seq<NumPair>): Num
  {
    if ps == [] then Finite(0.0) else AddNum(SumXs(ps[..|ps| - 1]), ps[|ps| - 1].x)
  }

  function SumYs(ps: seq<NumPair>): Num
  {
    if ps == [] then Finite(0.0) else AddNum(SumYs(ps[..|ps| - 1]), ps[|ps| - 1].y)
  }

  function DivNum(a: Num, n: nat): Num
    requires n > 0
  {
    if a.Finite? then Finite(a.value / (n as real)) else NonFinite
  }

  /** What `centroidOfGeoJSON` returns: a pair of numbers, which are NaN or
      infinite as soon as one averaged coordinate is. */
  function GeoJsonCentroid(geom: Option<GeoJsonGeometry>): Option<NumPair>
  {
    if geom.None? then None
    else
      var ps := GeoJsonPairs(geom.value);
      if ps == [] then None else Some(NumPair(DivNum(SumXs(ps), |ps|), DivNum(SumYs(ps), |ps|)))
  }

  /** Holes do not move the GeoJSON centroid. */
  lemma GeoJsonIgnoresHoles(outer: seq<Vertex>, holes: seq<seq<Vertex>>)
    ensures GeoJsonCentroid(Some(Polygon([outer] + holes))) == GeoJsonCentroid(Some(Polygon([outer])))
  {
    assert ([outer] + holes)[0] == outer;
  }

  /** A finite last vertex adds the same pair to both lists. */
  lemma FiniteSnoc(vs: seq<Vertex>)
    requires vs != [] && FinitePair(vs[|vs| - 1]).Some?
    ensures PairsOf(vs) == PairsOf(vs[..|vs| - 1]) + [FinitePair(vs[|vs| - 1]).value]
    ensures RawPairsOf(vs) == RawPairsOf(vs[..|vs| - 1])
      + [NumPair(Finite(FinitePair(vs[|vs| - 1]).value.lon), Finite(FinitePair(vs[|vs| - 1]).value.lat))]
  {
  }

  /** Finite points as pairs of numbers. */
  function AsNums(ps: seq<Point>): (r: seq<NumPair>)
    ensures |r| == |ps|
  {
    seq(|ps|, i requires 0 <= i < |ps| => NumPair(Finite(ps[i].lon), Finite(ps[i].lat)))
  }

  /** When every vertex is finite, the two ways of reading a ring agree. */
  lemma {:induction false} RawPairsOfFiniteVertices(vs: seq<Vertex>)
    requires forall k :: 0 <= k < |vs| ==> FinitePair(vs[k]).Some?
    ensures RawPairsOf(vs) == AsNums(PairsOf(vs))
    decreases |vs|
  {
    if vs != [] {
      var init := vs[..|vs| - 1];
      var p := FinitePair(vs[|vs| - 1]).value;
      assert forall k :: 0 <= k < |init| ==> init[k] == vs[k];
      RawPairsOfFiniteVertices(init);
      FiniteSnoc(vs);
      assert AsNums(PairsOf(init) + [p]) == AsNums(PairsOf(init)) + [NumPair(Finite(p.lon), Finite(p.lat))];
    }
  }

  /** Summing finite numbers one by one never leaves the reals. */
  lemma {:induction false} SumsOfNums(ps: seq<Point>)
    ensures SumXs(AsNums(ps)) == Finite(Sum(Lons(ps)))
    ensures SumYs(AsNums(ps)) == Finite(Sum(Lats(ps)))
    decreases |ps|
  {
    if ps != [] {
      var init := ps[..|ps| - 1];
      SumsOfNums(init);
      assert AsNums(ps)[..|ps| - 1] == AsNums(init);
      assert Lons(ps)[..|ps| - 1] == Lons(init);
      assert Lats(ps)[..|ps| - 1] == Lats(init);
    }
  }

  lemma RawPairsOfFinite(vs: seq<Vertex>)
    requires forall k :: 0 <= k < |vs| ==> FinitePair(vs[k]).Some?
    ensures SumXs(RawPairsOf(vs)) == Finite(Sum(Lons(PairsOf(vs))))
    ensures SumYs(RawPairsOf(vs)) == Finite(Sum(Lats(PairsOf(vs))))
    ensures |RawPairsOf(vs)| == |PairsOf(vs)|
  {
    RawPairsOfFiniteVertices(vs);
    SumsOfNums(PairsOf(vs));
  }

  /** On a polygon whose outer ring holds only finite pairs the two centroid
      functions agree. */
  lemma GeoJsonAgreesWithEsri(outer: seq<Vertex>, holes: seq<seq<Vertex>>)
    requires forall k :: 0 <= k < |outer| ==> FinitePair(outer[k]).Some?
    ensures GeoJsonCentroid(Some(Polygon([outer] + holes))).Some?
        <==> EsriCentroid(Some(EsriGeometry(RingList([Vertices(outer)]), None))).Some?
    ensures EsriCentroid(Some(EsriGeometry(RingList([Vertices(outer)]), None))).Some? ==>
      var c := EsriCentroid(Some(EsriGeometry(RingList([Vertices(outer)]), None))).value;
      GeoJsonCentroid(Some(Polygon([outer] + holes))) == Some(NumPair(Finite(c.lon), Finite(c.lat)))
  {
    assert ([outer] + holes)[0] == outer;
    SingleRing(outer);
    RawPairsOfFinite(outer);
    PairsOfAllFinite(outer);
  }

  lemma {:induction false} SumXsPoisoned(ps: seq<NumPair>, k: nat)
    requires k < |ps| && ps[k].x.NonFinite?
    ensures SumXs(ps).NonFinite?
    decreases |ps|
  {
    if k < |ps| - 1 {
      SumXsPoisoned(ps[..|ps| - 1], k);
    }
  }

  lemma {:induction false} RawPairsOfMember(vs: seq<Vertex>, k: nat)
    requires k < |vs| && RawPair(vs[k]).Some?
    ensures exists m :: 0 <= m < |RawPairsOf(vs)| && RawPairsOf(vs)[m] == RawPair(vs[k]).value
    decreases |vs|
  {
    if k < |vs| - 1 {
      var init := vs[..|vs| - 1];
      assert init[k] == vs[k];
      RawPairsOfMember(init, k);
      var m :| 0 <= m < |RawPairsOf(init)| && RawPairsOf(init)[m] == RawPair(vs[k]).value;
      assert RawPairsOf(vs)[m] == RawPairsOf(init)[m];
    } else {
      assert RawPairsOf(vs)[|RawPairsOf(vs)| - 1] == RawPair(vs[k]).value;
    }
  }

  /** Unlike the Esri version, the GeoJSON version does not drop non-finite
      coordinates: one NaN longitude in the outer ring makes the centroid's
      longitude NaN. */
  lemma GeoJsonNonFinitePoisons(outer: seq<Vertex>, holes: seq<seq<Vertex>>, k: nat)
    requires k < |outer| && outer[k].Coords? && |outer[k].items| >= 2 && outer[k].items[0].NonFinite?
    ensures GeoJsonCentroid(Some(Polygon([outer] + holes))).Some?
    ensures GeoJsonCentroid(Some(Polygon([outer] + holes))).value.x.NonFinite?
  {
    assert ([outer] + holes)[0] == outer;
    RawPairsOfMember(outer, k);
    var ps := RawPairsOf(outer);
    var m :| 0 <= m < |ps| && ps[m] == RawPair(outer[k]).value;
    SumXsPoisoned(ps, m);
  }

  /** One pass of `for (const p of ring) pushPt(pts, p)`. */
  method PushRawPairs(pts: seq<NumPair>, vs: seq<Vertex>) returns (out: seq<NumPair>)
    ensures out == pts + RawPairsOf(vs)
  {
    out := pts;
    var j := 0;
    while j < |vs|
      invariant 0 <= j <= |vs|
      invariant out == pts + RawPairsOf(vs[..j])
    {
      assert vs[..j + 1][..j] == vs[..j];
      match vs[j] {
        case Coords(items) =>
          if |items| >= 2 {
            out := out + [NumPair(items[0], items[1])];
          }
        case NotArray =>
      }
      j := j + 1;
    }
    assert vs[..j] == vs;
  }

  /** The gathering half of `centroidOfGeoJSON`: every pair it pushes. */
  method GatherGeoJsonPairs(g: GeoJsonGeometry) returns (pts: seq<NumPair>)
    ensures pts == GeoJsonPairs(g)
  {
    pts := [];
    match g {
      case Polygon(rings) =>
        if rings != [] {
          pts := PushRawPairs(pts, rings[0]);
        }
      case MultiPolygon(polys) =>
        var i := 0;
        while i < |polys|
          invariant 0 <= i <= |polys|
          invariant pts == OuterRingPairs(polys[..i])
        {
          assert polys[..i + 1][..i] == polys[..i];
          if polys[i] != [] {
            pts := PushRawPairs(pts, polys[i][0]);
          }
          i := i + 1;
        }
        assert polys[..i] == polys;
      case OtherType =>
    }
  }

  /** The summing half of `centroidOfGeoJSON`: `sx += p[0]; sy += p[1]`. */
  method SumRawPairs(pts: seq<NumPair>) returns (sx: Num, sy: Num)
    ensures sx == SumXs(pts) && sy == SumYs(pts)
  {
    sx, sy := Finite(0.0), Finite(0.0);
    var k := 0;
    while k < |pts|
      invariant 0 <= k <= |pts|
      invariant sx == SumXs(pts[..k]) && sy == SumYs(pts[..k])
    {
      assert pts[..k + 1][..k] == pts[..k];
      sx := AddNum(sx, pts[k].x);
      sy := AddNum(sy, pts[k].y);
      k := k + 1;
    }
    assert pts[..k] == pts;
  }

  /** `centroidOfGeoJSON`. */
  method CentroidOfGeoJson(geom: Option<GeoJsonGeometry>) returns (c: Option<NumPair>)
    ensures c == GeoJsonCentroid(geom)
  {
    if geom.None? {
      return None;
    }
    var pts := GatherGeoJsonPairs(geom.value);
    if |pts| == 0 {
      return None;
    }
    var sx, sy := SumRawPairs(pts);
    c := Some(NumPair(DivNum(sx, |pts|), DivNum(sy, |pts|)));
  }
}
