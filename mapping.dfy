/** The boundary page, frontend/src/pages/Mapping.jsx: the state-code guard,
    the WHERE clauses sent to the state and district boundary services, the
    bounding box folded over the first ring of the first feature, and the
    district list built from the district service's reply. The services are
    oracles from a WHERE clause to the reply's `features`. */
module Mapping {
  import opened Wrappers
  import opened Text
  import opened Ordering
  import opened Sql
  import opened Geometry

  // ---------------------------------------------------------------------------
  // State codes
  // ---------------------------------------------------------------------------

  /** `STATE_CODE`. Unlike the server's table, Telangana is `TG` here. */
  const StateCodes: map<string, string> :=
    map["Odisha" := "OD", "Madhya Pradesh" := "MP", "Tripura" := "TR", "Telangana" := "TG"]

  function StateCode(stateName: string): Option<string> {
    if stateName in StateCodes then Some(StateCodes[stateName]) else None
  }

  /** Only the four states of the table have a code; no code holds a quote. */
  lemma StateCodeKnown(stateName: string)
    ensures StateCode(stateName).Some? <==>
      stateName in ["Odisha", "Madhya Pradesh", "Tripura", "Telangana"]
    ensures StateCode(stateName).Some? ==> NoQuote(StateCode(stateName).value) && StateCode(stateName).value != ""
  {
  }

  // ---------------------------------------------------------------------------
  // Bounding box
  // ---------------------------------------------------------------------------

  /** `[[west, south], [east, north]]`. */
  datatype Bounds = Bounds(sw: Point, ne: Point)

  /** The seed of the fold, `[[180, 90], [-180, -90]]`: an empty box. */
  const Seed: Bounds := Bounds(Point(180.0, 90.0), Point(-180.0, -90.0))

  function Min(a: real, b: real): real {
    if a <= b then a else b
  }

  function Max(a: real, b: real): real {
    if a >= b then a else b
  }

  /** One step of the reduce: the box widened to hold one more vertex. */
  function Widen(b: Bounds, c: Point): (r: Bounds)
    ensures r.sw.lon <= b.sw.lon && r.sw.lat <= b.sw.lat && r.ne.lon >= b.ne.lon && r.ne.lat >= b.ne.lat
    ensures r.sw.lon <= c.lon && r.sw.lat <= c.lat && r.ne.lon >= c.lon && r.ne.lat >= c.lat
  {
    Bounds(Point(Min(b.sw.lon, c.lon), Min(b.sw.lat, c.lat)), Point(Max(b.ne.lon, c.lon), Max(b.ne.lat, c.lat)))
  }

  /** `ring.reduce(widen, seed)`. */
  function BoundsOf(ring: seq<Point>): (r: Bounds)
    ensures r.sw.lon <= 180.0 && r.sw.lat <= 90.0 && r.ne.lon >= -180.0 && r.ne.lat >= -90.0
    ensures forall i :: 0 <= i < |ring| ==>
      r.sw.lon <= ring[i].lon && r.sw.lat <= ring[i].lat && r.ne.lon >= ring[i].lon && r.ne.lat >= ring[i].lat
  {
    if ring == [] then Seed
    else Widen(BoundsOf(ring[..|ring| - 1]), ring[|ring| - 1])
  }

  /** An empty ring leaves the seed as it is. */
  lemma EmptyRingGivesSeed()
    ensures BoundsOf([]) == Seed
  {
  }

  /** The box is the smallest one holding the vertices and the seed: every
      side is the seed's or a vertex's. */
  lemma {:induction false} BoundsAttained(ring: seq<Point>)
    ensures var b := BoundsOf(ring);
      && (b.sw.lon == 180.0 || exists i :: 0 <= i < |ring| && b.sw.lon == ring[i].lon)
      && (b.sw.lat == 90.0 || exists i :: 0 <= i < |ring| && b.sw.lat == ring[i].lat)
      && (b.ne.lon == -180.0 || exists i :: 0 <= i < |ring| && b.ne.lon == ring[i].lon)
      && (b.ne.lat == -90.0 || exists i :: 0 <= i < |ring| && b.ne.lat == ring[i].lat)
  {
    if ring != [] {
      var init := ring[..|ring| - 1];
      BoundsAttained(init);
      forall i | 0 <= i < |init| ensures init[i] == ring[i] {
      }
    }
  }

  /** A boundary feature: the rings of its polygon. */
  datatype Feature = Feature(rings: seq<seq<Point>>)

  /** `data.features[0].geometry.coordinates[0].reduce(...)`: None where that
      path is missing and the page's `try` catches the TypeError. */
  function FitOf(data: Option<seq<Feature>>): (r: Option<Bounds>)
    ensures r.Some? <==> data.Some? && data.value != [] && data.value[0].rings != []
    ensures r.Some? ==> r.value == BoundsOf(data.value[0].rings[0])
  {
    if data.Some? && data.value != [] && data.value[0].rings != [] then Some(BoundsOf(data.value[0].rings[0]))
    else None
  }

  // ---------------------------------------------------------------------------
  // Boundary WHERE clauses and highlights
  // ---------------------------------------------------------------------------

  /** The boundary service: the `features` of the reply to a WHERE clause,
      None when the reply or its `features` is missing. */
  type BoundarySource = string -> Option<seq<Feature>>

  /** `State_Name='${stateCode}'`. */
  function WhereByCode(code: string): string {
    "State_Name='" + code + "'"
  }

  /** `State_FSI='${stateName.replace(/'/g, "''")}'`. */
  function WhereByName(stateName: string): string {
    "State_FSI=" + Quote(stateName)
  }

  /** The code and the name each read back as the one literal of their
      clause. */
  lemma StateWheresQuote(stateName: string)
    requires StateCode(stateName).Some?
    ensures Literals(WhereByCode(StateCode(stateName).value)) == Some([StateCode(stateName).value])
    ensures Literals(WhereByName(stateName)) == Some([stateName])
  {
    var code := StateCode(stateName).value;
    StateCodeKnown(stateName);
    LiteralsOfClause("State_Name=", code, "");
    assert Quote(code) == "'" + code + "'" by {
      EscapeQuotesNoQuote(code);
    }
    assert WhereByCode(code) == "State_Name=" + Quote(code) + "";
    LiteralsOfClause("State_FSI=", stateName, "");
    assert WhereByName(stateName) == "State_FSI=" + Quote(stateName) + "";
  }

  /** What a highlight did: no query, a query that found nothing, or a
      layer added with the reply and the box the map was fitted to. */
  datatype Highlight = NotQueried | NotFound | Shown(data: Option<seq<Feature>>, fit: Option<Bounds>)

  predicate HasFeatures(data: Option<seq<Feature>>) {
    data.Some? && data.value != []
  }

  /** The WHERE clauses `showStateBoundary` sends, in order: by code, then by
      name only when the first reply has no feature. */
  function StateQueries(src: BoundarySource, stateName: string): (r: seq<string>)
    ensures StateCode(stateName).None? ==> r == []
    ensures StateCode(stateName).Some? ==> 1 <= |r| <= 2 && r[0] == WhereByCode(StateCode(stateName).value)
    ensures |r| == 2 <==> StateCode(stateName).Some? && !HasFeatures(src(WhereByCode(StateCode(stateName).value)))
  {
    match StateCode(stateName)
    case None => []
    case Some(code) =>
      if HasFeatures(src(WhereByCode(code))) then [WhereByCode(code)]
      else [WhereByCode(code), WhereByName(stateName)]
  }

  /** `showStateBoundary`. */
  function ShowStateBoundary(src: BoundarySource, stateName: string): Highlight {
    match StateCode(stateName)
    case None => NotQueried
    case Some(code) =>
      var first := src(WhereByCode(code));
      var data := if HasFeatures(first) then first else src(WhereByName(stateName));
      if HasFeatures(data) then Shown(data, FitOf(data)) else NotFound
  }

  /** The highlight shows the reply to the last WHERE clause sent, and only
      when it has a feature; the map is then always fitted. */
  lemma ShowStateBoundaryMeaning(src: BoundarySource, stateName: string)
    ensures var h := ShowStateBoundary(src, stateName);
      var qs := StateQueries(src, stateName);
      && (h.NotQueried? <==> qs == [])
      && (qs != [] ==> (h.Shown? <==> HasFeatures(src(qs[|qs| - 1]))))
      && (h.Shown? ==> h.data == src(qs[|qs| - 1]) && h.fit == FitOf(h.data))
  {
  }

  /** `state='${stateCode}'` followed, when a district is chosen, by
      ` AND district='${districtName}'`, the district as it is. */
  function DistrictBoundaryWhereAsWritten(code: string, districtName: string): string {
    "state=" + Quoted(code) + (if districtName != "" then " AND district=" + Quoted(districtName) else "")
  }

  /** A quoted text holding one quote of its own: the literal closes at that
      quote and the text's last quote opens a literal never closed. */
  lemma BrokenLiteral(a: string, b: string)
    requires NoQuote(a) && NoQuote(b) && b != []
    ensures Literals(Quoted(a + "'" + b)) == None
  {
    var inner := Quoted(a + "'" + b);
    assert inner[0] == '\'';
    assert inner[1..] == EscapeQuotes(a) + "'" + (b + "'") by {
      EscapeQuotesNoQuote(a);
    }
    ReadQuotedEscape(a, b + "'");
    LiteralsPlain(b, "'");
    assert "'"[1..] == [];
  }

  /** A district name holding one quote ends its literal early and leaves
      the last quote of the clause unclosed: the clause no longer reads as
      SQL literals at all. */
  lemma DistrictQuoteBreaksWhere(code: string, a: string, b: string)
    requires NoQuote(code) && NoQuote(a) && NoQuote(b) && b != []
    ensures Literals(DistrictBoundaryWhereAsWritten(code, a + "'" + b)) == None
  {
    var d := a + "'" + b;
    BrokenLiteral(a, b);
    var tail := " AND district=" + Quoted(d);
    LiteralsPlain(" AND district=", Quoted(d));
    assert Quote(code) == Quoted(code) by {
      EscapeQuotesNoQuote(code);
    }
    LiteralsQuote(code, tail);
    LiteralsPlain("state=", Quoted(code) + tail);
    assert DistrictBoundaryWhereAsWritten(code, d) == "state=" + (Quoted(code) + tail);
  }

  /** `Ma'a`, for one: the page sends `state='OD' AND district='Ma'a'`. */
  lemma DistrictQuoteExample()
    ensures Literals(DistrictBoundaryWhereAsWritten("OD", "Ma'a")) == None
  {
    DistrictQuoteBreaksWhere("OD", "Ma", "a");
    assert "Ma" + "'" + "a" == "Ma'a";
  }

  /** The district clause with the district's quotes doubled, as the state
      clause by name already does. */
  function DistrictBoundaryWhere(code: string, districtName: string): string {
    "state=" + Quote(code) + (if districtName != "" then " AND district=" + Quote(districtName) else "")
  }

  /** The code and the district, whatever they hold, read back as the
      clause's literals. */
  lemma DistrictBoundaryWhereQuotes(code: string, districtName: string)
    ensures Literals(DistrictBoundaryWhere(code, districtName)) ==
      Some(if districtName != "" then [code, districtName] else [code])
  {
    LiteralsOfClause("state=", code, "");
    assert "state=" + Quote(code) + "" == "state=" + Quote(code);
    if districtName != "" {
      LiteralsOfClause(" AND district=", districtName, "");
      assert " AND district=" + Quote(districtName) + "" == " AND district=" + Quote(districtName);
      LiteralsAppend("state=" + Quote(code), " AND district=" + Quote(districtName));
      assert DistrictBoundaryWhere(code, districtName) == ("state=" + Quote(code)) + (" AND district=" + Quote(districtName));
      assert [code] + [districtName] == [code, districtName];
    } else {
      assert DistrictBoundaryWhere(code, districtName) == "state=" + Quote(code);
    }
  }

  /** For a district without quotes the corrected clause is the one the page
      sends. */
  lemma DistrictBoundaryWhereAgrees(code: string, districtName: string)
    requires NoQuote(code) && NoQuote(districtName)
    ensures DistrictBoundaryWhere(code, districtName) == DistrictBoundaryWhereAsWritten(code, districtName)
  {
    EscapeQuotesNoQuote(code);
    EscapeQuotesNoQuote(districtName);
  }

  /** `showDistrictBoundary`: the clause is sent as the page builds it, the
      district unescaped; the reply is shown whatever it holds; the map is
      fitted only when a district is chosen. */
  function ShowDistrictBoundary(src: BoundarySource, stateName: string, districtName: string): (h: Highlight)
    ensures StateCode(stateName).None? <==> h.NotQueried?
    ensures h.Shown? ==> h.data == src(DistrictBoundaryWhereAsWritten(StateCode(stateName).value, districtName))
    ensures h.Shown? && h.fit.Some? ==> districtName != "" && HasFeatures(h.data)
    ensures !h.NotFound?
  {
    match StateCode(stateName)
    case None => NotQueried
    case Some(code) =>
      var data := src(DistrictBoundaryWhereAsWritten(code, districtName));
      Shown(data, if districtName != "" then FitOf(data) else None)
  }

  /** The same page with the district's quotes doubled: every clause it sends
      reads back as the state code and the district. */
  function ShowDistrictBoundaryCorrected(src: BoundarySource, stateName: string, districtName: string): (h: Highlight)
    ensures StateCode(stateName).None? <==> h.NotQueried?
    ensures h.Shown? ==> (exists w :: h.data == src(w) &&
                           Literals(w) == Some(if districtName != "" then [StateCode(stateName).value, districtName] else [StateCode(stateName).value]))
    ensures h.Shown? && h.fit.Some? ==> districtName != "" && HasFeatures(h.data)
    ensures !h.NotFound?
  {
    match StateCode(stateName)
    case None => NotQueried
    case Some(code) =>
      var w := DistrictBoundaryWhere(code, districtName);
      DistrictBoundaryWhereQuotes(code, districtName);
      var data := src(w);
      Shown(data, if districtName != "" then FitOf(data) else None)
  }

  /** For a district without quotes the page and its correction behave alike. */
  lemma ShowDistrictBoundaryAgrees(src: BoundarySource, stateName: string, districtName: string)
    requires NoQuote(districtName)
    ensures ShowDistrictBoundaryCorrected(src, stateName, districtName) == ShowDistrictBoundary(src, stateName, districtName)
  {
    if StateCode(stateName).Some? {
      StateCodeKnown(stateName);
      DistrictBoundaryWhereAgrees(StateCode(stateName).value, districtName);
    }
  }

  // ---------------------------------------------------------------------------
  // District list
  // ---------------------------------------------------------------------------

  /** `state='${STATE_CODE[selectedState]}'`: an unknown state is sent as the
      text `undefined`. */
  function DistrictListWhere(stateName: string): string {
    "state='" + (if StateCode(stateName).Some? then StateCode(stateName).value else "undefined") + "'"
  }

  /** `f.attributes && (f.attributes.district || f.attributes.District)`, with
      a missing or empty value as "". */
  function DistrictPick(attributes: Option<map<string, string>>): string {
    if attributes.None? then ""
    else
      var a := attributes.value;
      if "district" in a && a["district"] != "" then a["district"]
      else if "District" in a then a["District"]
      else ""
  }

  /** `.map(pick)`. */
  function Projected(features: seq<Option<map<string, string>>>): (r: seq<string>)
    ensures |r| == |features| && forall i :: 0 <= i < |features| ==> r[i] == DistrictPick(features[i])
  {
    if features == [] then [] else Projected(features[..|features| - 1]) + [DistrictPick(features[|features| - 1])]
  }

  /** The list `setDistricts` receives: the picks sorted, `json.features`
      missing counting as none. */
  function DistrictList(features: Option<seq<Option<map<string, string>>>>): (r: seq<string>)
    ensures Sorted(r)
    ensures multiset(r) == multiset(NonEmpty(Projected(if features.Some? then features.value else [])))
  {
    Sort(NonEmpty(Projected(if features.Some? then features.value else [])))
  }

  /** The list holds each non-empty pick exactly as often as the features
      give it: nothing is merged, nothing else is added. */
  lemma DistrictListCount(features: seq<Option<map<string, string>>>, x: string)
    ensures multiset(DistrictList(Some(features)))[x] == if x == "" then 0 else multiset(Projected(features))[x]
  {
    NonEmptyCount(Projected(features), x);
  }

  /** A value at two places of a list occurs at least twice in it. */
  lemma TwiceInList(s: seq<string>, i: nat, j: nat)
    requires i < j < |s| && s[i] == s[j]
    ensures multiset(s)[s[i]] >= 2
  {
    assert s == s[..j] + s[j..];
    assert s[i] in multiset(s[..j]) && s[j] in multiset(s[j..]);
  }

  /** Two features naming the same district give it twice. */
  lemma DistrictListKeepsDuplicates(features: seq<Option<map<string, string>>>, i: nat, j: nat)
    requires i < j < |features| && DistrictPick(features[i]) == DistrictPick(features[j]) != ""
    ensures multiset(DistrictList(Some(features)))[DistrictPick(features[i])] >= 2
  {
    var p := Projected(features);
    DistrictListCount(features, p[i]);
    TwiceInList(p, i, j);
  }
}
