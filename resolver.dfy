/** The cascading centroid resolver of frontend/server/routes/claims.js: the
    memo cache shared by the three tiers, the ordered WHERE variants each tier
    sends to its ArcGIS boundary service, and the state tier's fallback
    table. The boundary services are an oracle `Upstream`, a function from the
    service and the WHERE text to the parsed reply (None for a reply whose
    status is not ok or whose body is not JSON; a request that fails outright
    rejects and aborts the route, which the model does not cover). Each tier is a specification function
    returning the point, the new cache and the requests issued; the methods of
    `CentroidCache` update the cache in place and are proved to agree with
    them. */
module Resolver {
  import opened Wrappers
  import opened Text
  import opened Geometry
  import opened Sql

  datatype Service = StateBoundaries | DistrictBoundaries | VillageBoundaries

  /** A returned feature; only its geometry is read. */
  datatype Feature = Feature(geometry: Option<EsriGeometry>)

  /** A parsed reply: `features` is None when absent or not an array. */
  datatype Reply = Reply(features: Option<seq<Feature>>)

  /** `queryEsri(url, { where, ... })`. */
  type Upstream = (Service, string) -> Option<Reply>

  datatype Request = Request(service: Service, where: string)

  /** `data?.features?.length ? data.features[0] : nothing`. */
  function FirstFeature(reply: Option<Reply>): (f: Option<Feature>)
    ensures f.Some? <==> reply.Some? && reply.value.features.Some? && reply.value.features.value != []
    ensures f.Some? ==> f.value == reply.value.features.value[0]
  {
    if reply.Some? && reply.value.features.Some? && |reply.value.features.value| > 0
    then Some(reply.value.features.value[0])
    else None
  }

  /** What the loop over the WHERE variants leaves behind: the geometry of the
      first feature found (None when no variant found one, or when that
      feature had no geometry) and the requests sent. */
  datatype Search = Search(geometry: Option<EsriGeometry>, issued: seq<Request>)

  /** The loop over the variants, as a function. */
  function FirstHit(up: Upstream, svc: Service, tries: seq<string>): Search
    decreases |tries|
  {
    if tries == [] then Search(None, [])
    else
      var hit := FirstFeature(up(svc, tries[0]));
      if hit.Some? then Search(hit.value.geometry, [Request(svc, tries[0])])
      else
        var later := FirstHit(up, svc, tries[1..]);
        Search(later.geometry, [Request(svc, tries[0])] + later.issued)
  }

  /** The variants are sent in list order and the loop stops at the first
      reply holding a feature, whatever that feature's geometry is: later
      variants are sent only after every earlier one found nothing, and the
      geometry returned is that of the reply that stopped the loop. */
  lemma {:induction false} FirstHitInOrder(up: Upstream, svc: Service, tries: seq<string>)
    ensures var r := FirstHit(up, svc, tries);
      && |r.issued| <= |tries| && (tries != [] ==> r.issued != [])
      && (forall i :: 0 <= i < |r.issued| ==> r.issued[i] == Request(svc, tries[i]))
      && (forall i :: 0 <= i < |r.issued| - 1 ==> FirstFeature(up(svc, tries[i])).None?)
      && (0 < |r.issued| < |tries| ==> FirstFeature(up(svc, tries[|r.issued| - 1])).Some?)
      && (r.geometry.Some? ==> 0 < |r.issued| && FirstFeature(up(svc, tries[|r.issued| - 1])) == Some(Feature(r.geometry)))
    decreases |tries|
  {
    if tries != [] && FirstFeature(up(svc, tries[0])).None? {
      FirstHitInOrder(up, svc, tries[1..]);
    }
  }

  /** When no variant finds a feature every variant is sent and nothing is
      found. */
  lemma {:induction false} FirstHitAllMiss(up: Upstream, svc: Service, tries: seq<string>)
    requires forall i :: 0 <= i < |tries| ==> FirstFeature(up(svc, tries[i])).None?
    ensures FirstHit(up, svc, tries).geometry.None?
    ensures FirstHit(up, svc, tries).issued == seq(|tries|, i requires 0 <= i < |tries| => Request(svc, tries[i]))
    decreases |tries|
  {
    if tries != [] {
      FirstHitAllMiss(up, svc, tries[1..]);
    }
  }

  /** The loop `for (const where of tries) { ... break; }`. */
  method QueryInOrder(up: Upstream, svc: Service, tries: seq<string>) returns (geom: Option<EsriGeometry>, ghost issued: seq<Request>)
    ensures Search(geom, issued) == FirstHit(up, svc, tries)
  {
    geom, issued := None, [];
    var i := 0;
    while i < |tries|
      invariant 0 <= i <= |tries|
      invariant FirstHit(up, svc, tries) == Search(FirstHit(up, svc, tries[i..]).geometry, issued + FirstHit(up, svc, tries[i..]).issued)
    {
      assert tries[i..][1..] == tries[i + 1..];
      var data := up(svc, tries[i]);
      issued := issued + [Request(svc, tries[i])];
      if FirstFeature(data).Some? {
        geom := FirstFeature(data).value.geometry;
        return;
      }
      i := i + 1;
    }
    assert issued + [] == issued;
  }

  // ---------------------------------------------------------------------------
  // Tables and keys
  // ---------------------------------------------------------------------------

  /** `STATE_LABEL_TO_CODE`. */
  const StateLabelToCode: map<string, string> :=
    map["Madhya Pradesh" := "MP", "Tripura" := "TR", "Odisha" := "OD", "Telangana" := "TS"]

  /** `STATE_FALLBACK_CENTROIDS` (lon, lat). */
  const StateFallbackCentroids: map<string, Point> :=
    map[
      "Telangana" := Point(79.0193, 18.1124),
      "Odisha" := Point(85.0985, 20.9517),
      "Madhya Pradesh" := Point(78.6569, 22.9734),
      "Tripura" := Point(91.9790, 23.9408)
    ]

  /** `STATE_LABEL_TO_CODE[stateName] || stateName`. */
  function CodeOf(stateName: string): string {
    if stateName in StateLabelToCode then StateLabelToCode[stateName] else stateName
  }

  function Fallback(stateName: string): Option<Point> {
    if stateName in StateFallbackCentroids then Some(StateFallbackCentroids[stateName]) else None
  }

  /** One key part: `String(s || '').trim().toLowerCase()`. */
  function Normalize(s: string): string {
    Lower(Trim(s))
  }

  function NormalizeAll(parts: seq<string>): (r: seq<string>)
    ensures |r| == |parts| && forall i :: 0 <= i < |parts| ==> r[i] == Normalize(parts[i])
  {
    if parts == [] then [] else [Normalize(parts[0])] + NormalizeAll(parts[1..])
  }

  /** `cacheKey(parts)`. */
  function CacheKey(parts: seq<string>): string {
    Join(NormalizeAll(parts), "|")
  }

  /** A part without white space or upper-case letters is its own
      normal form. */
  predicate Plain(s: string) {
    forall i :: 0 <= i < |s| ==> !IsSpace(s[i]) && !('A' <= s[i] <= 'Z')
  }

  lemma NormalizePlain(s: string)
    requires Plain(s)
    ensures Normalize(s) == s
  {
    if s != [] {
      TrimmedAlready(s);
    }
    assert forall i :: 0 <= i < |s| ==> LowerChar(s[i]) == s[i];
  }

  // ---------------------------------------------------------------------------
  // WHERE variants
  // ---------------------------------------------------------------------------

  /** `UPPER(<f1>)<op>UPPER('<a>') AND UPPER(<f2>)<op>UPPER('<b>') AND
      UPPER(<f3>)<op>UPPER('<c>')`. */
  function MatchAll(f1: string, f2: string, f3: string, op: string, a: string, b: string, c: string): string {
    Template(["UPPER(" + f1 + ")" + op + "UPPER(", ") AND UPPER(" + f2 + ")" + op + "UPPER(", ") AND UPPER(" + f3 + ")" + op + "UPPER(", ")"],
             [a, b, c])
  }

  /** The three village variants: exact on the Living Atlas fields, exact on
      the alternative field names, then a case-insensitive LIKE. */
  function VillageWheres(state: string, district: string, village: string): seq<string> {
    [
      MatchAll("State", "District", "Name", "=", state, district, village),
      MatchAll("ST_NM", "DIST_NM", "VILL_NM", "=", state, district, village),
      MatchAll("State", "District", "Name", " LIKE ", LikePattern(state), LikePattern(district), LikePattern(village))
    ]
  }

  /** The body of `'%${esc}%'`. */
  function LikePattern(s: string): string {
    "%" + s + "%"
  }

  /** The state codes a district layer may use. */
  function DistrictCodes(stateName: string): (codes: seq<string>)
    ensures |codes| >= 2
    ensures CodeOf(stateName) == "TS" ==> codes == ["TS", "TG", "Telangana"]
    ensures CodeOf(stateName) != "TS" ==> codes == [CodeOf(stateName), stateName]
  {
    var code := CodeOf(stateName);
    if code == "TS" then ["TS", "TG", "Telangana"] else [code, stateName]
  }

  function DistrictWheres(stateName: string, district: string): seq<string> {
    var codes := DistrictCodes(stateName);
    [CodeListWhere(district, codes), UpperCodeListWhere(district, codes), Template(["UPPER(dtname)=UPPER(", ")"], [district])]
  }

  /** `UPPER(district)=UPPER('<d>') AND state IN ('<c>',...)`. */
  function CodeListWhere(district: string, codes: seq<string>): string
    requires |codes| >= 1
  {
    Template(["UPPER(district)=UPPER(", ") AND state IN ("] + Repeat(",", |codes| - 1) + [")"], [district] + codes)
  }

  /** `UPPER(District)=UPPER('<d>') AND UPPER(State) IN (UPPER('<c>'),...)`. */
  function UpperCodeListWhere(district: string, codes: seq<string>): string
    requires |codes| >= 1
  {
    Template(["UPPER(District)=UPPER(", ") AND UPPER(State) IN (UPPER("] + Repeat("),UPPER(", |codes| - 1) + ["))"], [district] + codes)
  }

  /** `UPPER(<field>)=UPPER('<value>')`. */
  function FieldEquals(field: string, value: string): string {
    Template(["UPPER(" + field + ")=UPPER(", ")"], [value])
  }

  /** The attribute names the state variants try after the first, in order. */
  const StateNameFields: seq<string> := ["State_Name", "State_FSI", "STATE_NAME", "STATE", "stname", "st_nm"]

  function StateWheres(stateName: string): (r: seq<string>)
    ensures |r| == 7
  {
    [Template(["(State_Name=", " OR State_FSI=", ")"], [CodeOf(stateName), stateName])]
    + seq(|StateNameFields|, i requires 0 <= i < |StateNameFields| => FieldEquals(StateNameFields[i], stateName))
  }

  // ---------------------------------------------------------------------------
  // The tiers
  // ---------------------------------------------------------------------------

  /** The result of one tier call: the point returned, the cache after the
      call and the requests sent. */
  datatype Outcome = Outcome(point: Option<Point>, cache: map<string, Point>, issued: seq<Request>)

  /** The part the three tiers share after their guards: a cached entry is
      returned without a request; otherwise the variants are tried, the
      centroid (or the fallback) is taken, and only a point is stored. */
  function Lookup(cache: map<string, Point>, key: string, up: Upstream, svc: Service, tries: seq<string>, fallback: Option<Point>): (r: Outcome)
    ensures key in cache ==> r.point == Some(cache[key]) && r.issued == []
    ensures forall k :: k in cache ==> k in r.cache && r.cache[k] == cache[k]
    ensures forall k :: k in r.cache ==> k in cache || k == key
    ensures r.point.Some? ==> key in r.cache && r.cache[key] == r.point.value
    ensures r.point.None? ==> r.cache == cache
    ensures key !in cache ==>
      var s := FirstHit(up, svc, tries);
      r.issued == s.issued &&
      r.point == (if EsriCentroid(s.geometry).Some? then EsriCentroid(s.geometry) else fallback)
  {
    if key in cache then Outcome(Some(cache[key]), cache, [])
    else
      var s := FirstHit(up, svc, tries);
      var c := EsriCentroid(s.geometry);
      var p := if c.Some? then c else fallback;
      Outcome(p, if p.Some? then cache[key := p.value] else cache, s.issued)
  }

  /** `geocodeVillageCentroid`. */
  function VillageTier(cache: map<string, Point>, up: Upstream, state: string, district: string, village: string): Outcome {
    if state == "" || district == "" || village == "" then Outcome(None, cache, [])
    else Lookup(cache, CacheKey(["v", state, district, village]), up, VillageBoundaries, VillageWheres(state, district, village), None)
  }

  /** `geocodeDistrictCentroid`. */
  function DistrictTier(cache: map<string, Point>, up: Upstream, state: string, district: string): Outcome {
    if state == "" || district == "" then Outcome(None, cache, [])
    else Lookup(cache, CacheKey(["d", state, district]), up, DistrictBoundaries, DistrictWheres(state, district), None)
  }

  /** `geocodeStateCentroid`. */
  function StateTier(cache: map<string, Point>, up: Upstream, state: string): Outcome {
    if state == "" then Outcome(None, cache, [])
    else Lookup(cache, CacheKey(["s", state]), up, StateBoundaries, StateWheres(state), Fallback(state))
  }

  /** The module-level `centroidCache` Map and the three tiers that read and
      write it. */
  class CentroidCache {
    var entries: map<string, Point>

    constructor()
      ensures entries == map[]
    {
      entries := map[];
    }

    method Resolve(up: Upstream, key: string, svc: Service, tries: seq<string>, fallback: Option<Point>)
      returns (c: Option<Point>, ghost issued: seq<Request>)
      modifies this
      ensures Outcome(c, entries, issued) == Lookup(old(entries), key, up, svc, tries, fallback)
    {
      if key in entries {
        return Some(entries[key]), [];
      }
      var geom;
      geom, issued := QueryInOrder(up, svc, tries);
      c := CentroidOfEsriGeometry(geom);
      if c.None? {
        c := fallback;
      }
      if c.Some? {
        entries := entries[key := c.value];
      }
    }

    method GeocodeVillageCentroid(up: Upstream, state: string, district: string, village: string)
      returns (c: Option<Point>, ghost issued: seq<Request>)
      modifies this
      ensures Outcome(c, entries, issued) == VillageTier(old(entries), up, state, district, village)
    {
      if state == "" || district == "" || village == "" {
        return None, [];
      }
      c, issued := Resolve(up, CacheKey(["v", state, district, village]), VillageBoundaries, VillageWheres(state, district, village), None);
    }

    method GeocodeDistrictCentroid(up: Upstream, state: string, district: string)
      returns (c: Option<Point>, ghost issued: seq<Request>)
      modifies this
      ensures Outcome(c, entries, issued) == DistrictTier(old(entries), up, state, district)
    {
      if state == "" || district == "" {
        return None, [];
      }
      c, issued := Resolve(up, CacheKey(["d", state, district]), DistrictBoundaries, DistrictWheres(state, district), None);
    }

    method GeocodeStateCentroid(up: Upstream, state: string)
      returns (c: Option<Point>, ghost issued: seq<Request>)
      modifies this
      ensures Outcome(c, entries, issued) == StateTier(old(entries), up, state)
    {
      if state == "" {
        return None, [];
      }
      c, issued := Resolve(up, CacheKey(["s", state]), StateBoundaries, StateWheres(state), Fallback(state));
    }
  }

  // ---------------------------------------------------------------------------
  // Properties of the tiers
  // ---------------------------------------------------------------------------

  /** A tier whose required name is empty returns null without a request and
      leaves the cache alone. */
  lemma EmptyNameNoQuery(cache: map<string, Point>, up: Upstream, state: string, district: string, village: string)
    ensures state == "" || district == "" || village == "" ==> VillageTier(cache, up, state, district, village) == Outcome(None, cache, [])
    ensures state == "" || district == "" ==> DistrictTier(cache, up, state, district) == Outcome(None, cache, [])
    ensures state == "" ==> StateTier(cache, up, state) == Outcome(None, cache, [])
  {
  }

  /** Calling a tier again with the same names: a point found the first time
      is returned from the cache with no request; a miss was not stored, so
      the second call sends the same requests again and misses again. */
  lemma RepeatedLookup(cache: map<string, Point>, key: string, up: Upstream, svc: Service, tries: seq<string>, fallback: Option<Point>)
    ensures var first := Lookup(cache, key, up, svc, tries, fallback);
            var second := Lookup(first.cache, key, up, svc, tries, fallback);
            second.point == first.point && second.cache == first.cache
            && (first.point.Some? ==> second.issued == [])
            && (first.point.None? ==> second.issued == first.issued)
  {
  }

  lemma RepeatedVillageLookup(cache: map<string, Point>, up: Upstream, state: string, district: string, village: string)
    ensures var first := VillageTier(cache, up, state, district, village);
            var second := VillageTier(first.cache, up, state, district, village);
            second.point == first.point && second.cache == first.cache
            && (first.point.Some? ==> second.issued == [])
            && (first.point.None? ==> second.issued == first.issued)
  {
    if state != "" && district != "" && village != "" {
      RepeatedLookup(cache, CacheKey(["v", state, district, village]), up, VillageBoundaries, VillageWheres(state, district, village), None);
    }
  }

  lemma RepeatedDistrictLookup(cache: map<string, Point>, up: Upstream, state: string, district: string)
    ensures var first := DistrictTier(cache, up, state, district);
            var second := DistrictTier(first.cache, up, state, district);
            second.point == first.point && second.cache == first.cache
            && (first.point.Some? ==> second.issued == [])
            && (first.point.None? ==> second.issued == first.issued)
  {
    if state != "" && district != "" {
      RepeatedLookup(cache, CacheKey(["d", state, district]), up, DistrictBoundaries, DistrictWheres(state, district), None);
    }
  }

  lemma RepeatedStateLookup(cache: map<string, Point>, up: Upstream, state: string)
    ensures var first := StateTier(cache, up, state);
            var second := StateTier(first.cache, up, state);
            second.point == first.point && second.cache == first.cache
            && (first.point.Some? ==> second.issued == [])
            && (first.point.None? ==> second.issued == first.issued)
  {
    if state != "" {
      RepeatedLookup(cache, CacheKey(["s", state]), up, StateBoundaries, StateWheres(state), Fallback(state));
    }
  }

  /** The state tier falls back to its table when no variant yields a
      centroid; the fallback is cached like a found point, and a state
      outside the table yields null and leaves the cache alone. */
  lemma StateFallbackWhenEveryQueryMisses(cache: map<string, Point>, up: Upstream, state: string)
    requires state != "" && CacheKey(["s", state]) !in cache
    requires forall i :: 0 <= i < |StateWheres(state)| ==> FirstFeature(up(StateBoundaries, StateWheres(state)[i])).None?
    ensures StateTier(cache, up, state).point == Fallback(state)
    ensures |StateTier(cache, up, state).issued| == 7
    ensures state in StateFallbackCentroids ==> StateTier(cache, up, state).cache == cache[CacheKey(["s", state]) := StateFallbackCentroids[state]]
    ensures state !in StateFallbackCentroids ==> StateTier(cache, up, state).cache == cache
  {
    FirstHitAllMiss(up, StateBoundaries, StateWheres(state));
  }

  /** Only the first variant whose reply holds a feature counts: if that
      feature has no usable geometry the tier returns null even when a later
      variant would have matched, and nothing is cached. */
  lemma FirstFeatureWins(cache: map<string, Point>, up: Upstream, state: string, district: string, village: string)
    requires state != "" && district != "" && village != ""
    requires CacheKey(["v", state, district, village]) !in cache
    requires FirstFeature(up(VillageBoundaries, VillageWheres(state, district, village)[0])) == Some(Feature(None))
    ensures VillageTier(cache, up, state, district, village)
         == Outcome(None, cache, [Request(VillageBoundaries, VillageWheres(state, district, village)[0])])
  {
  }

  /** The three tiers write under different keys: `v|...`, `d|...`, `s|...`. */
  lemma TierKeysDistinct(state: string, district: string, village: string, state': string, district': string)
    ensures CacheKey(["v", state, district, village]) != CacheKey(["d", state', district'])
    ensures CacheKey(["v", state, district, village]) != CacheKey(["s", state'])
    ensures CacheKey(["d", state, district]) != CacheKey(["s", state'])
  {
    KeyHead("v", [state, district, village]);
    KeyHead("d", [state', district']);
    KeyHead("s", [state']);
    KeyHead("d", [state, district]);
  }

  lemma KeyHead(tag: string, names: seq<string>)
    requires tag == "v" || tag == "d" || tag == "s"
    requires names != []
    ensures CacheKey([tag] + names)[0] == tag[0]
  {
    NormalizePlain(tag);
    var parts := NormalizeAll([tag] + names);
    assert parts[0] == tag;
    assert Join(parts, "|") == parts[0] + "|" + Join(parts[1..], "|");
  }

  /** Key parts ignore surrounding white space and letter case. */
  lemma NormalizeIgnoresPaddingAndCase(a: string, s: string, b: string)
    requires AllSpace(a) && AllSpace(b)
    ensures Normalize(a + s + b) == Normalize(s)
    ensures Normalize(Upper(s)) == Normalize(s)
  {
    TrimIgnoresPadding(a, s, b);
    LowerTrimCommute(Upper(s));
    LowerUpper(s);
    LowerTrimCommute(s);
  }

  /** Hence a state cached under one spelling is served to every spelling that
      differs from it only in case or outer white space, without a request. */
  lemma StateEntrySharedAcrossSpellings(cache: map<string, Point>, up: Upstream, a: string, state: string, b: string)
    requires AllSpace(a) && AllSpace(b) && state != ""
    requires CacheKey(["s", state]) in cache
    ensures StateTier(cache, up, Upper(a + state + b)) == Outcome(Some(cache[CacheKey(["s", state])]), cache, [])
  {
    StateKeyOfSpelling(a, state, b);
    var t := Upper(a + state + b);
    assert t != "" by {
      assert |t| == |a + state + b| >= |state| > 0;
    }
  }

  /** The state key of a spelling padded with white space and in upper case. */
  lemma StateKeyOfSpelling(a: string, state: string, b: string)
    requires AllSpace(a) && AllSpace(b)
    ensures CacheKey(["s", Upper(a + state + b)]) == CacheKey(["s", state])
  {
    var t := a + state + b;
    NormalizeIgnoresPaddingAndCase(a, state, b);
    NormalizeIgnoresPaddingAndCase([], t, []);
    SameNormalSameKey("s", Upper(t), state);
  }

  /** Two names with the same normal form give the same key. */
  lemma SameNormalSameKey(tag: string, x: string, y: string)
    requires Normalize(x) == Normalize(y)
    ensures CacheKey([tag, x]) == CacheKey([tag, y])
  {
    var l := NormalizeAll([tag, x]);
    var r := NormalizeAll([tag, y]);
    assert l[0] == r[0] && l[1] == r[1];
    assert l == r;
  }

  lemma MatchAllQuotesValues(f1: string, f2: string, f3: string, op: string, a: string, b: string, c: string)
    requires NoQuote(f1) && NoQuote(f2) && NoQuote(f3) && NoQuote(op)
    ensures Literals(MatchAll(f1, f2, f3, op, a, b, c)) == Some([a, b, c])
  {
    LiteralsOfTemplate3("UPPER(" + f1 + ")" + op + "UPPER(", ") AND UPPER(" + f2 + ")" + op + "UPPER(", ") AND UPPER(" + f3 + ")" + op + "UPPER(", ")",
                        a, b, c);
  }

  /** Every name sent to the village service is embedded as one SQL literal
      that reads back as exactly that name: a quote in a name is doubled and
      cannot end the literal early. */
  lemma VillageWheresQuoteNames(state: string, district: string, village: string)
    ensures Literals(VillageWheres(state, district, village)[0]) == Some([state, district, village])
    ensures Literals(VillageWheres(state, district, village)[1]) == Some([state, district, village])
    ensures Literals(VillageWheres(state, district, village)[2]) == Some([LikePattern(state), LikePattern(district), LikePattern(village)])
  {
    MatchAllQuotesValues("State", "District", "Name", "=", state, district, village);
    MatchAllQuotesValues("ST_NM", "DIST_NM", "VILL_NM", "=", state, district, village);
    MatchAllQuotesValues("State", "District", "Name", " LIKE ", LikePattern(state), LikePattern(district), LikePattern(village));
  }

  /** The district variants carry the district name and then each state code
      as literals, in order. */
  lemma DistrictWheresQuoteNames(state: string, district: string)
    ensures Literals(DistrictWheres(state, district)[0]) == Some([district] + DistrictCodes(state))
    ensures Literals(DistrictWheres(state, district)[1]) == Some([district] + DistrictCodes(state))
    ensures Literals(DistrictWheres(state, district)[2]) == Some([district])
  {
    CodeListWhereQuotes(district, DistrictCodes(state));
    UpperCodeListWhereQuotes(district, DistrictCodes(state));
    LiteralsOfTemplate1("UPPER(dtname)=UPPER(", ")", district);
  }

  lemma CodeListWhereQuotes(district: string, codes: seq<string>)
    requires |codes| >= 1
    ensures Literals(CodeListWhere(district, codes)) == Some([district] + codes)
  {
    InListLiterals("UPPER(district)=UPPER(", ") AND state IN (", ",", ")", district, codes);
  }

  lemma UpperCodeListWhereQuotes(district: string, codes: seq<string>)
    requires |codes| >= 1
    ensures Literals(UpperCodeListWhere(district, codes)) == Some([district] + codes)
  {
    InListLiterals("UPPER(District)=UPPER(", ") AND UPPER(State) IN (UPPER(", "),UPPER(", "))", district, codes);
  }

  lemma FieldEqualsQuotesValue(field: string, value: string)
    requires NoQuote(field)
    ensures Literals(FieldEquals(field, value)) == Some([value])
  {
    LiteralsOfTemplate1("UPPER(" + field + ")=UPPER(", ")", value);
  }

  lemma StateNameFieldsPlain()
    ensures forall i :: 0 <= i < |StateNameFields| ==> NoQuote(StateNameFields[i])
  {
  }

  /** The first state variant carries the code and then the name. */
  lemma StateWhereQuotesCodeAndName(state: string)
    ensures Literals(StateWheres(state)[0]) == Some([CodeOf(state), state])
  {
    LiteralsOfTemplate2("(State_Name=", " OR State_FSI=", ")", CodeOf(state), state);
  }

  /** The state variants carry the code and the name (first variant) or the
      name alone. */
  lemma StateWheresQuoteNames(state: string)
    ensures Literals(StateWheres(state)[0]) == Some([CodeOf(state), state])
    ensures forall i :: 1 <= i < 7 ==> Literals(StateWheres(state)[i]) == Some([state])
  {
    StateWhereQuotesCodeAndName(state);
    StateNameFieldsPlain();
    forall i | 1 <= i < 7 ensures Literals(StateWheres(state)[i]) == Some([state]) {
      assert StateWheres(state)[i] == FieldEquals(StateNameFields[i - 1], state);
      FieldEqualsQuotesValue(StateNameFields[i - 1], state);
    }
  }

  /** The LIKE literal `'%${esc}%'` is the quoted pattern `%name%`. */
  lemma LikeLiteralText(s: string)
    ensures Quote(LikePattern(s)) == "'%" + EscapeQuotes(s) + "%'"
  {
    EscapeQuotesAppend("%", s);
    EscapeQuotesAppend("%" + s, "%");
    assert EscapeQuotes("%") == "%";
  }

  /** Telangana's district variants try the codes TS, TG and the name. */
  lemma TelanganaDistrictCodes()
    ensures DistrictCodes("Telangana") == ["TS", "TG", "Telangana"]
    ensures DistrictCodes("Odisha") == ["OD", "Odisha"]
  {
  }
}
