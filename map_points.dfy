/** The `/map-points` route of frontend/server/routes/claims.js: the Mongo
    filter it assembles from the query string (with `escapeRegex`), and the
    per-record loop that keeps a stored coordinate when it is valid and
    otherwise resolves a centroid village → district → state, ending at a
    fixed point in central India. Also the `$set` document of the PATCH
    route. The database query itself is not modelled: the loop receives the
    list of records the query returned. */
module MapPoints {
  import opened Wrappers
  import opened Text
  import opened Geometry
  import opened Resolver

  // ---------------------------------------------------------------------------
  // escapeRegex
  // ---------------------------------------------------------------------------

  /** The characters of the class `[.*+?^${}()|[\]\\]`. */
  predicate IsRegexMeta(c: char) {
    c == '.' || c == '*' || c == '+' || c == '?' || c == '^' || c == '$' || c == '{' || c == '}'
    || c == '(' || c == ')' || c == '|' || c == '[' || c == ']' || c == '\\'
  }

  /** `escapeRegex(s)`: a backslash before every metacharacter. */
  function EscapeRegex(s: string): (r: string)
    ensures |r| >= |s|
  {
    if s == [] then [] else (if IsRegexMeta(s[0]) then ['\\', s[0]] else [s[0]]) + EscapeRegex(s[1..])
  }

  /** The text a regular expression made only of literal characters and
      escaped metacharacters matches, or None when the pattern uses any other
      regular-expression syntax. */
  function RegexLiteral(p: string): Option<string>
  {
    if p == [] then Some([])
    else if p[0] == '\\' then
      if |p| >= 2 && IsRegexMeta(p[1]) then
        match RegexLiteral(p[2..])
        case None => None
        case Some(t) => Some([p[1]] + t)
      else None
    else if IsRegexMeta(p[0]) then None
    else
      match RegexLiteral(p[1..])
      case None => None
      case Some(t) => Some([p[0]] + t)
  }

  /** An escaped string is a pattern without operators that matches exactly
      the string itself. */
  lemma {:induction false} RegexLiteralOfEscape(s: string)
    ensures RegexLiteral(EscapeRegex(s)) == Some(s)
  {
    if s != [] {
      RegexLiteralOfEscape(s[1..]);
      var e := EscapeRegex(s);
      if IsRegexMeta(s[0]) {
        assert e == ['\\', s[0]] + EscapeRegex(s[1..]);
        assert e[2..] == EscapeRegex(s[1..]);
      } else {
        assert e == [s[0]] + EscapeRegex(s[1..]);
        assert e[1..] == EscapeRegex(s[1..]);
      }
      assert [s[0]] + s[1..] == s;
    }
  }

  /** `new RegExp(pattern, 'i').test(s)` for a pattern without operators. */
  predicate RegexTest(pattern: string, s: string) {
    RegexLiteral(pattern).Some? && ContainsIgnoringCase(s, RegexLiteral(pattern).value)
  }

  // ---------------------------------------------------------------------------
  // Records and the filter
  // ---------------------------------------------------------------------------

  /** The fields of a claim the route selects; an absent string is "". The
      stored coordinate is None when `geoLocation.coordinates` is not an
      array. */
  datatype ClaimDoc = ClaimDoc(
    id: string,
    formType: string,
    status: string,
    state: string,
    district: string,
    village: string,
    address: string,
    coordinates: Option<seq<Num>>,
    submissionDate: string)

  datatype Field = StateField | DistrictField | VillageField | AddressField

  function FieldValue(d: ClaimDoc, f: Field): string {
    match f
    case StateField => d.state
    case DistrictField => d.district
    case VillageField => d.village
    case AddressField => d.address
  }

  /** One entry of `andClauses`. */
  datatype Clause =
    | AnyFieldMatches(fields: seq<Field>, pattern: string)  // { $or: [{ f: { $regex } }, ...] }
    | FormTypeIn(list: seq<string>)                          // { formType: { $in: list } }

  /** The query object: the status, plus either one clause merged into it
      (`Object.assign`) or several under `$and`. */
  datatype MongoFilter = MongoFilter(status: string, merged: Option<Clause>, and: seq<Clause>)

  /** The query string; an absent parameter is "". */
  datatype MapQuery = MapQuery(state: string, district: string, village: string, status: string, formTypes: string)

  /** An entry of the form-type list: not empty, trimmed, without a comma. */
  predicate FormTypeEntry(x: string) {
    x != [] && Trim(x) == x && ',' !in x
  }

  /** `String(formTypes).split(',').map(s => s.trim()).filter(Boolean)`. */
  function FormTypeList(s: string): (r: seq<string>)
    ensures forall i :: 0 <= i < |r| ==> FormTypeEntry(r[i])
  {
    TrimmedNonEmptyAvoids(Split(s, ','), ',');
    TrimmedNonEmpty(Split(s, ','))
  }

  function RegexClause(fields: seq<Field>, value: string): Clause {
    AnyFieldMatches(fields, EscapeRegex(Trim(value)))
  }

  /** The clauses in the order the route pushes them. */
  function AndClauses(q: MapQuery): seq<Clause> {
    NameClauses(StateField, q.state) + NameClauses(DistrictField, q.district) + NameClauses(VillageField, q.village)
    + FormTypeClauses(q.formTypes)
  }

  /** The `$or` of the named field and the address, when a name is given. */
  function NameClauses(field: Field, value: string): seq<Clause> {
    if value != "" then [RegexClause([field, AddressField], value)] else []
  }

  function FormTypeClauses(formTypes: string): seq<Clause> {
    if formTypes != "" && FormTypeList(formTypes) != [] then [FormTypeIn(FormTypeList(formTypes))] else []
  }

  /** The query object of `/map-points`; the status defaults to APPROVED. */
  function BuildFilter(q: MapQuery): MongoFilter {
    Assemble(if q.status != "" then q.status else "APPROVED", AndClauses(q))
  }

  /** One clause is merged into the query object, several go under `$and`. */
  function Assemble(status: string, clauses: seq<Clause>): MongoFilter {
    if |clauses| == 1 then MongoFilter(status, Some(clauses[0]), [])
    else MongoFilter(status, None, clauses)
  }

  predicate ClauseMatches(c: Clause, d: ClaimDoc) {
    match c
    case AnyFieldMatches(fields, pattern) => exists f | f in fields :: RegexTest(pattern, FieldValue(d, f))
    case FormTypeIn(list) => d.formType in list
  }

  predicate AllMatch(cs: seq<Clause>, d: ClaimDoc) {
    forall i :: 0 <= i < |cs| ==> ClauseMatches(cs[i], d)
  }

  /** How Mongo reads the query object. */
  predicate FilterMatches(m: MongoFilter, d: ClaimDoc) {
    d.status == m.status
    && (m.merged.Some? ==> ClauseMatches(m.merged.value, d))
    && AllMatch(m.and, d)
  }

  /** A name criterion selects a record when the trimmed criterion occurs,
      ignoring case, in the named field or in the address. */
  predicate NameCriterion(value: string, field: string, address: string) {
    value != "" ==> ContainsIgnoringCase(field, Trim(value)) || ContainsIgnoringCase(address, Trim(value))
  }

  lemma AllMatchAppend(a: seq<Clause>, b: seq<Clause>, d: ClaimDoc)
    ensures AllMatch(a + b, d) <==> AllMatch(a, d) && AllMatch(b, d)
  {
    if AllMatch(a, d) && AllMatch(b, d) {
      forall i | 0 <= i < |a + b| ensures ClauseMatches((a + b)[i], d) {
        if i >= |a| {
          assert (a + b)[i] == b[i - |a|];
        }
      }
    }
    if AllMatch(a + b, d) {
      forall i | 0 <= i < |a| ensures ClauseMatches(a[i], d) {
        assert (a + b)[i] == a[i];
      }
      forall i | 0 <= i < |b| ensures ClauseMatches(b[i], d) {
        assert (a + b)[|a| + i] == b[i];
      }
    }
  }

  /** Merging a single clause into the query object means the same as
      listing it under `$and`. */
  lemma AssembleMeaning(status: string, clauses: seq<Clause>, d: ClaimDoc)
    ensures FilterMatches(Assemble(status, clauses), d) <==> d.status == status && AllMatch(clauses, d)
  {
  }

  lemma NameClauseMeaning(field: Field, value: string, d: ClaimDoc)
    ensures AllMatch(NameClauses(field, value), d)
        <==> NameCriterion(value, FieldValue(d, field), d.address)
  {
    if value != "" {
      var c := RegexClause([field, AddressField], value);
      assert [c][0] == c;
      assert AllMatch([c], d) <==> ClauseMatches(c, d);
      OrOfTwoFields(field, EscapeRegex(Trim(value)), d);
      RegexLiteralOfEscape(Trim(value));
    }
  }

  /** The `$or` over a field and the address. */
  lemma OrOfTwoFields(field: Field, pattern: string, d: ClaimDoc)
    ensures ClauseMatches(AnyFieldMatches([field, AddressField], pattern), d)
        <==> RegexTest(pattern, FieldValue(d, field)) || RegexTest(pattern, d.address)
  {
    var fields := [field, AddressField];
    assert fields[0] in fields && fields[1] in fields;
    assert forall f :: f in fields ==> f == field || f == AddressField;
  }

  /** The assembled filter selects exactly the records with the requested
      status (APPROVED by default) that meet every given criterion: each name
      as a case-insensitive literal substring of its field or of the address,
      and the form type among the listed ones. */
  lemma BuildFilterMeaning(q: MapQuery, d: ClaimDoc)
    ensures FilterMatches(BuildFilter(q), d) <==>
      && d.status == (if q.status != "" then q.status else "APPROVED")
      && NameCriterion(q.state, d.state, d.address)
      && NameCriterion(q.district, d.district, d.address)
      && NameCriterion(q.village, d.village, d.address)
      && (q.formTypes != "" && FormTypeList(q.formTypes) != [] ==> d.formType in FormTypeList(q.formTypes))
  {
    var sc := NameClauses(StateField, q.state);
    var dc := NameClauses(DistrictField, q.district);
    var vc := NameClauses(VillageField, q.village);
    var fc := FormTypeClauses(q.formTypes);
    AssembleMeaning(if q.status != "" then q.status else "APPROVED", AndClauses(q), d);
    AllMatchAppend(sc + dc + vc, fc, d);
    AllMatchAppend(sc + dc, vc, d);
    AllMatchAppend(sc, dc, d);
    NameClauseMeaning(StateField, q.state, d);
    NameClauseMeaning(DistrictField, q.district, d);
    NameClauseMeaning(VillageField, q.village, d);
    FormTypeClauseMeaning(q.formTypes, d);
  }

  lemma FormTypeClauseMeaning(formTypes: string, d: ClaimDoc)
    ensures AllMatch(FormTypeClauses(formTypes), d)
        <==> (formTypes != "" && FormTypeList(formTypes) != [] ==> d.formType in FormTypeList(formTypes))
  {
    var fc := FormTypeClauses(formTypes);
    if fc != [] {
      assert fc[0] == FormTypeIn(FormTypeList(formTypes));
      assert AllMatch(fc, d) <==> ClauseMatches(fc[0], d);
    }
  }

  // ---------------------------------------------------------------------------
  // The per-record loop
  // ---------------------------------------------------------------------------

  /** The marker used when nothing else gives a finite coordinate. */
  const IndiaCentroid: Point := Point(78.9629, 20.5937)

  datatype Properties = Properties(
    id: string,
    formType: Option<string>,
    status: Option<string>,
    state: string,
    district: string,
    village: string,
    address: string,
    date: Option<string>)

  /** `{ type: 'Feature', geometry: Point(coordinates), properties }`. */
  datatype MapFeature = MapFeature(position: Point, properties: Properties)

  function OrNull(s: string): Option<string> {
    if s == "" then None else Some(s)
  }

  function PropertiesOf(d: ClaimDoc): Properties {
    Properties(d.id, OrNull(d.formType), OrNull(d.status), d.state, d.district, d.village, d.address, OrNull(d.submissionDate))
  }

  /** `lon`/`lat` after `Number(coords[0])`, `Number(coords[1])`; both stay
      `undefined` (not finite) without an array of two entries. */
  function StoredCoordinate(d: ClaimDoc): (Num, Num) {
    if d.coordinates.Some? && |d.coordinates.value| >= 2
    then (d.coordinates.value[0], d.coordinates.value[1])
    else (NonFinite, NonFinite)
  }

  predicate ValidCoordinate(lon: Num, lat: Num) {
    lon.Finite? && lat.Finite? && -180.0 <= lon.value <= 180.0 && -90.0 <= lat.value <= 90.0
  }

  /** Village, then district, then state: each tier is asked only when the
      earlier ones returned nothing, and the cache is threaded through. */
  function Ladder(cache: map<string, Point>, up: Upstream, state: string, district: string, village: string): Outcome {
    LadderBy(cache, VillageStep(up, state, district, village), DistrictStep(up, state, district), StateStep(up, state))
  }

  /** Three tiers chained: the next is asked only when the one before found
      nothing, on the cache it left. */
  function LadderBy(cache: map<string, Point>, first: map<string, Point> -> Outcome, second: map<string, Point> -> Outcome, third: map<string, Point> -> Outcome): Outcome {
    var o1 := first(cache);
    if o1.point.Some? then o1
    else
      var o2 := second(o1.cache);
      if o2.point.Some? then Outcome(o2.point, o2.cache, o1.issued + o2.issued)
      else
        var o3 := third(o2.cache);
        Outcome(o3.point, o3.cache, o1.issued + o2.issued + o3.issued)
  }

  /** `if (state && district && village) c = await geocodeVillageCentroid(...)`. */
  function VillageStep(up: Upstream, state: string, district: string, village: string): map<string, Point> -> Outcome {
    c => if state != "" && district != "" && village != "" then VillageTier(c, up, state, district, village) else Outcome(None, c, [])
  }

  /** `if (!c && state && district) c = await geocodeDistrictCentroid(...)`. */
  function DistrictStep(up: Upstream, state: string, district: string): map<string, Point> -> Outcome {
    c => if state != "" && district != "" then DistrictTier(c, up, state, district) else Outcome(None, c, [])
  }

  /** `if (!c && state) c = await geocodeStateCentroid(...)`. */
  function StateStep(up: Upstream, state: string): map<string, Point> -> Outcome {
    c => if state != "" then StateTier(c, up, state) else Outcome(None, c, [])
  }

  /** One iteration: the feature emitted, the cache after it, the requests
      sent. */
  datatype Step = Step(feature: MapFeature, cache: map<string, Point>, issued: seq<Request>)

  function Enrich(cache: map<string, Point>, up: Upstream, d: ClaimDoc): Step {
    var (lon, lat) := StoredCoordinate(d);
    if ValidCoordinate(lon, lat) then Step(MapFeature(Point(lon.value, lat.value), PropertiesOf(d)), cache, [])
    else
      var o := Ladder(cache, up, d.state, d.district, d.village);
      var (lon', lat') := if o.point.Some? then (Finite(o.point.value.lon), Finite(o.point.value.lat)) else (lon, lat);
      var position := if lon'.Finite? && lat'.Finite? then Point(lon'.value, lat'.value) else IndiaCentroid;
      Step(MapFeature(position, PropertiesOf(d)), o.cache, o.issued)
  }

  datatype Batch = Batch(features: seq<MapFeature>, cache: map<string, Point>, issued: seq<Request>)

  /** The loop over the records, as a left fold. */
  function EnrichAll(cache: map<string, Point>, up: Upstream, docs: seq<ClaimDoc>): Batch
  {
    if docs == [] then Batch([], cache, [])
    else
      var before := EnrichAll(cache, up, docs[..|docs| - 1]);
      var step := Enrich(before.cache, up, docs[|docs| - 1]);
      Batch(before.features + [step.feature], step.cache, before.issued + step.issued)
  }

  /** The three tier calls of one iteration, on the shared cache. */
  method ResolveLadder(cc: CentroidCache, up: Upstream, state: string, district: string, village: string)
    returns (c: Option<Point>, ghost issued: seq<Request>)
    modifies cc
    ensures Outcome(c, cc.entries, issued) == Ladder(old(cc.entries), up, state, district, village)
  {
    ghost var cache := cc.entries;
    c, issued := None, [];
    if state != "" && district != "" && village != "" {
      c, issued := cc.GeocodeVillageCentroid(up, state, district, village);
    }
    if c.Some? {
      return;
    }
    ghost var o1 := Outcome(c, cc.entries, issued);
    ghost var more: seq<Request> := [];
    if state != "" && district != "" {
      c, more := cc.GeocodeDistrictCentroid(up, state, district);
    }
    issued := issued + more;
    if c.Some? {
      return;
    }
    more := [];
    if state != "" {
      c, more := cc.GeocodeStateCentroid(up, state);
    }
    issued := issued + more;
  }

  /** One iteration of the loop body. */
  method EnrichRecord(cc: CentroidCache, up: Upstream, d: ClaimDoc) returns (f: MapFeature, ghost issued: seq<Request>)
    modifies cc
    ensures Step(f, cc.entries, issued) == Enrich(old(cc.entries), up, d)
  {
    var lon, lat := NonFinite, NonFinite;
    if d.coordinates.Some? && |d.coordinates.value| >= 2 {
      lon, lat := d.coordinates.value[0], d.coordinates.value[1];
    }
    issued := [];
    if !ValidCoordinate(lon, lat) {
      var c;
      c, issued := ResolveLadder(cc, up, d.state, d.district, d.village);
      if c.Some? {
        lon, lat := Finite(c.value.lon), Finite(c.value.lat);
      }
    }
    var position := if lon.Finite? && lat.Finite? then Point(lon.value, lat.value) else IndiaCentroid;
    f := MapFeature(position, PropertiesOf(d));
  }

  /** The loop `for (const d of items) { ... features.push(...) }`. */
  method MapPointFeatures(cc: CentroidCache, up: Upstream, docs: seq<ClaimDoc>) returns (features: seq<MapFeature>, ghost issued: seq<Request>)
    modifies cc
    ensures Batch(features, cc.entries, issued) == EnrichAll(old(cc.entries), up, docs)
  {
    features, issued := [], [];
    var i := 0;
    while i < |docs|
      invariant 0 <= i <= |docs|
      invariant Batch(features, cc.entries, issued) == EnrichAll(old(cc.entries), up, docs[..i])
    {
      assert docs[..i + 1][..i] == docs[..i];
      var f;
      ghost var more;
      f, more := EnrichRecord(cc, up, docs[i]);
      features := features + [f];
      issued := issued + more;
      i := i + 1;
    }
    assert docs[..i] == docs;
  }

  // ---------------------------------------------------------------------------
  // Properties of the loop
  // ---------------------------------------------------------------------------

  /** Exactly one feature per record, in order, carrying that record's
      properties. */
  lemma {:induction false} OneFeaturePerRecord(cache: map<string, Point>, up: Upstream, docs: seq<ClaimDoc>)
    ensures |EnrichAll(cache, up, docs).features| == |docs|
    ensures forall i :: 0 <= i < |docs| ==> EnrichAll(cache, up, docs).features[i].properties == PropertiesOf(docs[i])
  {
    if docs != [] {
      var init := docs[..|docs| - 1];
      OneFeaturePerRecord(cache, up, init);
      forall i | 0 <= i < |docs| - 1 ensures EnrichAll(cache, up, docs).features[i].properties == PropertiesOf(docs[i]) {
        assert init[i] == docs[i];
      }
    }
  }

  /** A finite, in-range stored coordinate is emitted as it is, with no
      request and no change to the cache. */
  lemma ValidStoredCoordinateKept(cache: map<string, Point>, up: Upstream, d: ClaimDoc)
    requires d.coordinates.Some? && |d.coordinates.value| >= 2
    requires ValidCoordinate(d.coordinates.value[0], d.coordinates.value[1])
    ensures Enrich(cache, up, d).feature.position == Point(d.coordinates.value[0].value, d.coordinates.value[1].value)
    ensures Enrich(cache, up, d).cache == cache && Enrich(cache, up, d).issued == []
  {
  }

  /** Every entry of `before` is in `after` with the same point. */
  predicate KeepsEntries(before: map<string, Point>, after: map<string, Point>) {
    forall k :: k in before ==> k in after && after[k] == before[k]
  }

  lemma LadderKeepsCache(cache: map<string, Point>, up: Upstream, state: string, district: string, village: string)
    ensures KeepsEntries(cache, Ladder(cache, up, state, district, village).cache)
  {
    StepsKeep(up, state, district, village);
    LadderByKeeps(cache, VillageStep(up, state, district, village), DistrictStep(up, state, district), StateStep(up, state));
  }

  /** Each tier step keeps the entries it was given (from `Lookup`). */
  lemma StepsKeep(up: Upstream, state: string, district: string, village: string)
    ensures forall c :: KeepsEntries(c, VillageStep(up, state, district, village)(c).cache)
    ensures forall c :: KeepsEntries(c, DistrictStep(up, state, district)(c).cache)
    ensures forall c :: KeepsEntries(c, StateStep(up, state)(c).cache)
  {
  }

  /** Chaining steps that keep entries keeps entries. */
  lemma LadderByKeeps(cache: map<string, Point>, first: map<string, Point> -> Outcome, second: map<string, Point> -> Outcome, third: map<string, Point> -> Outcome)
    requires forall c :: KeepsEntries(c, first(c).cache)
    requires forall c :: KeepsEntries(c, second(c).cache)
    requires forall c :: KeepsEntries(c, third(c).cache)
    ensures KeepsEntries(cache, LadderBy(cache, first, second, third).cache)
  {
    var o1 := first(cache);
    if o1.point.None? {
      KeepsTransitive(cache, o1.cache, second(o1.cache).cache);
      if second(o1.cache).point.None? {
        KeepsTransitive(cache, second(o1.cache).cache, third(second(o1.cache).cache).cache);
      }
    }
  }

  lemma KeepsTransitive(a: map<string, Point>, b: map<string, Point>, c: map<string, Point>)
    requires KeepsEntries(a, b) && KeepsEntries(b, c)
    ensures KeepsEntries(a, c)
  {
  }

  /** The cache only grows: no entry is removed or overwritten. */
  lemma {:induction false} CacheOnlyGrows(cache: map<string, Point>, up: Upstream, docs: seq<ClaimDoc>)
    ensures KeepsEntries(cache, EnrichAll(cache, up, docs).cache)
  {
    if docs != [] {
      var init := docs[..|docs| - 1];
      CacheOnlyGrows(cache, up, init);
      var before := EnrichAll(cache, up, init);
      var d := docs[|docs| - 1];
      LadderKeepsCache(before.cache, up, d.state, d.district, d.village);
    }
  }

  /** The village tier is asked first; when it answers, nothing else is. */
  lemma LadderPrefersVillage(cache: map<string, Point>, up: Upstream, state: string, district: string, village: string)
    requires state != "" && district != "" && village != ""
    requires VillageTier(cache, up, state, district, village).point.Some?
    ensures Ladder(cache, up, state, district, village) == VillageTier(cache, up, state, district, village)
  {
  }

  /** When the village tier finds nothing the district tier answers, on the
      same cache, after the village requests. */
  lemma LadderFallsToDistrict(cache: map<string, Point>, up: Upstream, state: string, district: string, village: string)
    requires state != "" && district != ""
    requires VillageTier(cache, up, state, district, village).point.None?
    requires DistrictTier(cache, up, state, district).point.Some?
    ensures Ladder(cache, up, state, district, village).point == DistrictTier(cache, up, state, district).point
    ensures Ladder(cache, up, state, district, village).issued
         == VillageTier(cache, up, state, district, village).issued + DistrictTier(cache, up, state, district).issued
  {
  }

  /** Without a state name no tier can answer: no request is sent. */
  lemma LadderNeedsState(cache: map<string, Point>, up: Upstream, district: string, village: string)
    ensures Ladder(cache, up, "", district, village) == Outcome(None, cache, [])
  {
  }

  /** Running the ladder again for the same names on the cache it left gives
      the same point and the same cache. A tier that answered is answered from
      the cache, so the second run sends only the requests of the tiers that
      found nothing (a prefix of the first run's), all of them again when
      nothing was found, and none when the village tier answered. */
  lemma RepeatedLadder(cache: map<string, Point>, up: Upstream, state: string, district: string, village: string)
    ensures var first := Ladder(cache, up, state, district, village);
            var second := Ladder(first.cache, up, state, district, village);
            second.point == first.point && second.cache == first.cache
            && second.issued <= first.issued
            && (first.point.None? ==> second.issued == first.issued)
            && (VillageStep(up, state, district, village)(cache).point.Some? ==> second.issued == [])
  {
    var k1, k2, k3 := CacheKey(["v", state, district, village]), CacheKey(["d", state, district]), CacheKey(["s", state]);
    TierKeysDistinct(state, district, village, state, district);
    VillageStepMemo(up, state, district, village);
    DistrictStepMemo(up, state, district);
    StateStepMemo(up, state);
    LadderByRepeats(cache, VillageStep(up, state, district, village), k1, DistrictStep(up, state, district), k2, StateStep(up, state), k3);
  }

  /** A tier step that memoises under the key `k`: asked again on the cache it
      left it answers the same, from the cache when it found a point; a miss
      leaves the cache alone and is repeated, requests and all, on any cache
      that did not gain `k`; and the only entry it may add is `k`. */
  ghost predicate Memo(s: map<string, Point> -> Outcome, k: string) {
    && (forall c {:trigger s(s(c).cache)} :: s(s(c).cache) == if s(c).point.Some? then Outcome(s(c).point, s(c).cache, []) else s(c))
    && (forall c :: s(c).point.None? ==> s(c).cache == c)
    && (forall c, c' :: s(c).point.None? && (k in c' ==> k in c) ==> s(c') == Outcome(None, c', s(c).issued))
    && (forall c, x :: x in s(c).cache && x != k ==> x in c)
  }

  lemma VillageStepMemo(up: Upstream, state: string, district: string, village: string)
    ensures Memo(VillageStep(up, state, district, village), CacheKey(["v", state, district, village]))
  {
    forall c ensures VillageStep(up, state, district, village)(VillageStep(up, state, district, village)(c).cache) ==
      if VillageStep(up, state, district, village)(c).point.Some? then Outcome(VillageStep(up, state, district, village)(c).point, VillageStep(up, state, district, village)(c).cache, []) else VillageStep(up, state, district, village)(c)
    {
      RepeatedVillageLookup(c, up, state, district, village);
    }
  }

  lemma DistrictStepMemo(up: Upstream, state: string, district: string)
    ensures Memo(DistrictStep(up, state, district), CacheKey(["d", state, district]))
  {
    forall c ensures DistrictStep(up, state, district)(DistrictStep(up, state, district)(c).cache) ==
      if DistrictStep(up, state, district)(c).point.Some? then Outcome(DistrictStep(up, state, district)(c).point, DistrictStep(up, state, district)(c).cache, []) else DistrictStep(up, state, district)(c)
    {
      RepeatedDistrictLookup(c, up, state, district);
    }
  }

  lemma StateStepMemo(up: Upstream, state: string)
    ensures Memo(StateStep(up, state), CacheKey(["s", state]))
  {
    forall c ensures StateStep(up, state)(StateStep(up, state)(c).cache) ==
      if StateStep(up, state)(c).point.Some? then Outcome(StateStep(up, state)(c).point, StateStep(up, state)(c).cache, []) else StateStep(up, state)(c)
    {
      RepeatedStateLookup(c, up, state);
    }
  }

  /** Three memoising steps under distinct keys, chained, repeat as the
      ladder does. */
  lemma LadderByRepeats(cache: map<string, Point>, s1: map<string, Point> -> Outcome, k1: string, s2: map<string, Point> -> Outcome, k2: string, s3: map<string, Point> -> Outcome, k3: string)
    requires k1 != k2 && k1 != k3 && k2 != k3
    requires Memo(s1, k1) && Memo(s2, k2) && Memo(s3, k3)
    ensures var first := LadderBy(cache, s1, s2, s3);
            var second := LadderBy(first.cache, s1, s2, s3);
            second.point == first.point && second.cache == first.cache
            && second.issued <= first.issued
            && (first.point.None? ==> second.issued == first.issued)
            && (s1(cache).point.Some? ==> second.issued == [])
  {
    var o1 := s1(cache);
    if o1.point.None? {
      var o2 := s2(cache);
      if o2.point.Some? {
        assert s1(o2.cache) == Outcome(None, o2.cache, o1.issued);
        assert o1.issued + [] == o1.issued;
      } else {
        var o3 := s3(cache);
        assert s1(o3.cache) == Outcome(None, o3.cache, o1.issued);
        assert s2(o3.cache) == Outcome(None, o3.cache, o2.issued);
        assert o1.issued + o2.issued + [] == o1.issued + o2.issued;
      }
    }
  }

  /** The same for one record: enriching it again on the cache the first
      pass left emits the same feature and leaves the same cache, sending at
      most the requests the first pass sent, in the same order. */
  lemma RepeatedEnrich(cache: map<string, Point>, up: Upstream, d: ClaimDoc)
    ensures var first := Enrich(cache, up, d);
            var second := Enrich(first.cache, up, d);
            second.feature == first.feature && second.cache == first.cache
            && second.issued <= first.issued
  {
    if !ValidCoordinate(StoredCoordinate(d).0, StoredCoordinate(d).1) {
      RepeatedLadder(cache, up, d.state, d.district, d.village);
      var o := Ladder(cache, up, d.state, d.district, d.village);
      assert Enrich(cache, up, d).cache == o.cache;
      assert Ladder(o.cache, up, d.state, d.district, d.village).point == o.point;
    }
  }

  /** When the stored coordinate is not finite and no tier answers, the
      feature is placed at the fixed India point. */
  lemma DefaultWhenUnresolved(cache: map<string, Point>, up: Upstream, d: ClaimDoc)
    requires !StoredCoordinate(d).0.Finite? || !StoredCoordinate(d).1.Finite?
    requires Ladder(cache, up, d.state, d.district, d.village).point.None?
    ensures Enrich(cache, up, d).feature.position == IndiaCentroid
  {
  }

  /** A stored coordinate that is finite but out of range triggers the ladder;
      when the ladder finds nothing, the final check only asks for
      finiteness, so the out-of-range coordinate is emitted as it is. */
  lemma OutOfRangeCoordinateSurvives(up: Upstream)
    ensures Enrich(map[], up, ClaimDoc("1", "", "APPROVED", "", "", "", "", Some([Finite(200.0), Finite(10.0)]), "")).feature.position
         == Point(200.0, 10.0)
  {
  }

  /** The resolved point replaces an invalid stored coordinate. */
  lemma ResolvedPointUsed(cache: map<string, Point>, up: Upstream, d: ClaimDoc)
    requires !ValidCoordinate(StoredCoordinate(d).0, StoredCoordinate(d).1)
    requires Ladder(cache, up, d.state, d.district, d.village).point.Some?
    ensures Enrich(cache, up, d).feature.position == Ladder(cache, up, d.state, d.district, d.village).point.value
  {
  }

  // ---------------------------------------------------------------------------
  // PATCH /:id
  // ---------------------------------------------------------------------------

  /** A value written by `$set`: a string, the approval time, or any other
      JSON value passed through from `updates`. */
  datatype SetValue = Text(s: string) | Timestamp(time: int) | Passed(json: string)

  /** The request body; an absent string is "", and `updates` is None when
      it is not an object. `Object.entries` order is kept. */
  datatype PatchBody = PatchBody(status: string, rejectionReason: string, updates: Option<seq<(string, SetValue)>>)

  /** The one key whose assignment `$set[k] = v` does not create a field:
      it reaches the setter `$set` inherits from `Object.prototype`. */
  const ProtoKey := "__proto__"

  /** `for (const [k, v] of Object.entries(updates)) $set[k] = v`; an entry
      under `ProtoKey` adds no field. */
  function Assign(m: map<string, SetValue>, entries: seq<(string, SetValue)>): map<string, SetValue>
    decreases |entries|
  {
    if entries == [] then m
    else Assign(Put(m, entries[0]), entries[1..])
  }

  /** One assignment `$set[k] = v`. */
  function Put(m: map<string, SetValue>, e: (string, SetValue)): map<string, SetValue> {
    if e.0 == ProtoKey then m else m[e.0 := e.1]
  }

  /** The value of the last entry for `k`. */
  function LastFor(entries: seq<(string, SetValue)>, k: string): Option<SetValue>
  {
    if entries == [] then None
    else if entries[|entries| - 1].0 == k then Some(entries[|entries| - 1].1)
    else LastFor(entries[..|entries| - 1], k)
  }

  /** The `$set` document; `now` is the clock reading `new Date()`. */
  function BuildSet(body: PatchBody, now: int): map<string, SetValue> {
    var m0 := if body.status != "" then map["status" := Text(body.status)] else map[];
    var m1 := if body.status == "APPROVED" then m0["approvalDate" := Timestamp(now)] else m0;
    var m2 := if body.status == "REJECTED" then m1["rejectionReason" := Text(body.rejectionReason)] else m1;
    if body.updates.Some? then Assign(m2, body.updates.value) else m2
  }

  /** Later entries win, and keys no entry names keep their earlier value;
      `ProtoKey` is never written. */
  lemma {:induction false} AssignLastWins(m: map<string, SetValue>, entries: seq<(string, SetValue)>, k: string)
    ensures k != ProtoKey && LastFor(entries, k).Some? ==> k in Assign(m, entries) && Assign(m, entries)[k] == LastFor(entries, k).value
    ensures k == ProtoKey || LastFor(entries, k).None? ==> (k in Assign(m, entries) <==> k in m) && (k in m ==> Assign(m, entries)[k] == m[k])
    decreases |entries|
  {
    if entries != [] {
      var e := entries[0];
      var rest := entries[1..];
      AssignLastWins(Put(m, e), rest, k);
      LastForCons(e, rest, k);
      assert [e] + rest == entries;
    }
  }

  lemma {:induction false} LastForCons(e: (string, SetValue), rest: seq<(string, SetValue)>, k: string)
    ensures LastFor([e] + rest, k) == if LastFor(rest, k).Some? then LastFor(rest, k) else if e.0 == k then Some(e.1) else None
    decreases |rest|
  {
    var all := [e] + rest;
    if rest == [] {
      assert all == [e];
      assert all[..0] == [];
    } else {
      assert all[..|all| - 1] == [e] + rest[..|rest| - 1];
      assert all[|all| - 1] == rest[|rest| - 1];
      LastForCons(e, rest[..|rest| - 1], k);
    }
  }

  /** The fields the status sets, unless `updates` names them too (the merge
      runs last and wins). */
  lemma BuildSetStatusFields(body: PatchBody, now: int)
    requires body.updates.None?
    ensures "status" in BuildSet(body, now) <==> body.status != ""
    ensures body.status != "" ==> BuildSet(body, now)["status"] == Text(body.status)
    ensures "approvalDate" in BuildSet(body, now) <==> body.status == "APPROVED"
    ensures body.status == "APPROVED" ==> BuildSet(body, now)["approvalDate"] == Timestamp(now)
    ensures "rejectionReason" in BuildSet(body, now) <==> body.status == "REJECTED"
    ensures body.status == "REJECTED" ==> BuildSet(body, now)["rejectionReason"] == Text(body.rejectionReason)
    ensures BuildSet(body, now).Keys <= {"status", "approvalDate", "rejectionReason"}
  {
  }

  /** Every key of `updates` ends up with its last value, overriding what the
      status set; a `__proto__` key of `updates` never becomes a field. */
  lemma BuildSetUpdatesWin(body: PatchBody, now: int, k: string)
    requires body.updates.Some? && LastFor(body.updates.value, k).Some?
    ensures k != ProtoKey ==> k in BuildSet(body, now) && BuildSet(body, now)[k] == LastFor(body.updates.value, k).value
    ensures k == ProtoKey ==> k !in BuildSet(body, now)
  {
    var m0 := if body.status != "" then map["status" := Text(body.status)] else map[];
    var m1 := if body.status == "APPROVED" then m0["approvalDate" := Timestamp(now)] else m0;
    var m2 := if body.status == "REJECTED" then m1["rejectionReason" := Text(body.rejectionReason)] else m1;
    AssignLastWins(m2, body.updates.value, k);
  }

  /** Assigning one more entry at the end. */
  lemma {:induction false} AssignSnoc(m: map<string, SetValue>, entries: seq<(string, SetValue)>, e: (string, SetValue))
    ensures Assign(m, entries + [e]) == if e.0 == ProtoKey then Assign(m, entries) else Assign(m, entries)[e.0 := e.1]
    decreases |entries|
  {
    if entries == [] {
      assert entries + [e] == [e];
    } else {
      assert (entries + [e])[1..] == entries[1..] + [e];
      AssignSnoc(Put(m, entries[0]), entries[1..], e);
    }
  }

  /** The route's own construction of `$set`, statement by statement. */
  method PatchSet(body: PatchBody, now: int) returns (fields: map<string, SetValue>)
    ensures fields == BuildSet(body, now)
  {
    fields := map[];
    if body.status != "" {
      fields := fields["status" := Text(body.status)];
      if body.status == "APPROVED" {
        fields := fields["approvalDate" := Timestamp(now)];
      }
      if body.status == "REJECTED" {
        fields := fields["rejectionReason" := Text(body.rejectionReason)];
      }
    }
    if body.updates.Some? {
      var entries := body.updates.value;
      ghost var base := fields;
      var j := 0;
      while j < |entries|
        invariant 0 <= j <= |entries|
        invariant fields == Assign(base, entries[..j])
      {
        AssignSnoc(base, entries[..j], entries[j]);
        assert entries[..j + 1] == entries[..j] + [entries[j]];
        if entries[j].0 != ProtoKey {
          fields := fields[entries[j].0 := entries[j].1];
        }
        j := j + 1;
      }
      assert entries[..j] == entries;
    }
  }
}
