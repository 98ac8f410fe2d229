# Forest-rights claims: centroid resolver, map points, DSS, mapping and OCR parsing

This project models the core of a forest-rights (FRA) claims application in
Dafny:

- **The claims API** (`frontend/server/routes/claims.js`).
  - The cascading centroid resolver: the cache key, the Esri and GeoJSON
    centroids, and the village, district and state tiers with their shared
    `centroidCache` and the state fallback table.
  - The `/map-points` endpoint: the Mongo filter it assembles from the query
    string (with `escapeRegex`), and the loop that gives every claim a
    marker. The marker is the stored coordinate when it is valid, else the
    village → district → state centroid, else the fixed India point.
  - The `$set` document of `PATCH /:id`.
- **The OCR text parser** (`frontend/server/services/parser.js`):
  - `pickAfterLabel`, with the regular expression it builds read exactly as
    JavaScript reads the template literal;
  - `detectFormType`, `normalizeGeoPoint` and the `Lat … Lon` match;
  - the claim object that `parseClaimFromText` assembles.
- **The decision-support page** (`frontend/src/pages/DSS.jsx`): `pickFirst`,
  the WHERE builders, the district option set, the paginated village crawl
  and the report query.
- **The mapping page** (`frontend/src/pages/Mapping.jsx`): the state and
  district boundary queries, the bounds fold and the district list.
- **The data-collection page** (`frontend/src/pages/DataCollection.jsx`): the
  per-state counts, the district cleaning, the claim-list query parameters
  and the address cell.

The upstream feature services are a function parameter. That function maps a
service and a WHERE text to an optional reply. The model can therefore state
which queries are sent, in which order, and what comes back.

Every WHERE text that interpolates a user value is read back by a small SQL
lexer (`Sql.Literals`). For the builders, the model proves that each value
becomes exactly one string literal holding exactly that value, with three
exceptions:

- the literal of `Dss.DistrictClause` holds the upper-cased name (`Dss.DistrictClauseQuotesName`);
- the LIKE variant of the village tier holds the pattern `%name%` (`Resolver.LikeLiteralText`);
- the district clause Mapping.jsx actually sends, `Mapping.DistrictBoundaryWhereAsWritten`, does not escape the name. For a name with a quote it cannot be read back at all (`Mapping.DistrictQuoteBreaksWhere`; see "## Findings").

The tiers are pure functions that return the point, the new cache and the
requests issued. The `Resolver.CentroidCache` class holds the cache as a
`map` field, and its methods are proved equal to those functions.

The loops of the source are methods with invariants, each proved against the
function that specifies it:

- the variant loop: `QueryInOrder`;
- the record loop: `MapPointFeatures`;
- the centroid accumulations: the `Geometry` methods;
- the `Set` loops: `AddNames`, `CollectVillageNames`;
- the `$set` loop: `PatchSet`.

Modules:

| module | models |
|---|---|
| `Wrappers` | Option and Result |
| `Text` | `trim`, `toLowerCase`/`toUpperCase`, `split`/`join`, `replace(/'/g, "''")` and the SQL reading of a quoted literal |
| `Sql` | template-literal WHERE texts and the literals they contain |
| `Ordering` | `localeCompare` order and sorting |
| `Geometry` | `centroidOfEsriGeometry`, `centroidOfGeoJSON` |
| `Resolver` | `cacheKey`, the tier WHERE variants, the three geocoding tiers, `centroidCache` |
| `MapPoints` | `escapeRegex`, the `/map-points` filter and loop, the PATCH `$set` |
| `Dss` | DSS.jsx |
| `Mapping` | Mapping.jsx |
| `Labels` | `pickAfterLabel` |
| `Parser` | the rest of parser.js |
| `DataCollection` | DataCollection.jsx |

Three facts about the code shape the model:

- claims.js keeps no time-limited report cache;
- `centroidCache` has no size bound: entries are only ever added;
- a miss is not stored, so a repeated call re-sends the queries of the tiers that found nothing (`Resolver.RepeatedLookup`, `MapPoints.RepeatedLadder`).

## Model

| member | source | states |
|---|---|---|
| Resolver.FirstFeature | frontend/server/routes/claims.js:95-98 | a feature is taken exactly when the reply has a non-empty `features` array, and it is the first one |
| Resolver.FirstHitInOrder | frontend/server/routes/claims.js:95-98 | the variants are sent in list order, each one only after every earlier variant came back empty, and the loop stops at the first variant that yields a feature, whose geometry it returns |
| Resolver.FirstHitAllMiss | frontend/server/routes/claims.js:95-98 | when no variant yields a feature, every variant is sent once, in order, and no geometry results |
| Resolver.QueryInOrder | frontend/server/routes/claims.js:95-98 | the `for … break` loop over the variants returns the geometry and the request sequence of the specification `FirstHit` |
| Resolver.NormalizeAll | frontend/server/routes/claims.js:30 | each key part is normalised on its own, position by position |
| Resolver.NormalizeIgnoresPaddingAndCase | frontend/server/routes/claims.js:29-31 | a key part ignores surrounding white space and upper case |
| Resolver.SameNormalSameKey | frontend/server/routes/claims.js:29-31 | names with the same normal form share one cache key |
| Resolver.NormalizePlain | frontend/server/routes/claims.js:30 | a part with no white space and no upper case is its own key part |
| Resolver.TierKeysDistinct | frontend/server/routes/claims.js:81-129 | the village, district and state tiers never write under each other's keys (`v\|`, `d\|`, `s\|` prefixes) |
| Resolver.KeyHead | frontend/server/routes/claims.js:29-31 | a key starts with its tier letter |
| Resolver.DistrictCodes | frontend/server/routes/claims.js:109-110 | Telangana's districts are tried under TS, TG and the name; any other state under its code and its name |
| Resolver.TelanganaDistrictCodes | frontend/server/routes/claims.js:109-110 | the code lists for Telangana and Odisha, read through `STATE_LABEL_TO_CODE` |
| Resolver.StateWheres | frontend/server/routes/claims.js:134-142 | the state tier has seven WHERE variants |
| Resolver.Lookup | frontend/server/routes/claims.js:82-100 | a cached key is answered with no request; an uncached key sends the variants' requests up to the first reply with a centroid, and yields that centroid or else the fallback; a found or fallback point is cached under the key and returned; a miss leaves the cache as it was; other entries are never changed or removed |
| Resolver.CentroidCache.constructor | frontend/server/routes/claims.js:27 | the cache starts empty |
| Resolver.CentroidCache.Resolve | frontend/server/routes/claims.js:82-100 | the shared cache-then-query-then-store step changes the cache field exactly as `Lookup` specifies |
| Resolver.CentroidCache.GeocodeVillageCentroid | frontend/server/routes/claims.js:79-102 | `geocodeVillageCentroid` returns the point and leaves the cache and requests that `VillageTier` specifies |
| Resolver.CentroidCache.GeocodeDistrictCentroid | frontend/server/routes/claims.js:104-125 | `geocodeDistrictCentroid` behaves as `DistrictTier` |
| Resolver.CentroidCache.GeocodeStateCentroid | frontend/server/routes/claims.js:127-156 | `geocodeStateCentroid` behaves as `StateTier` |
| Resolver.EmptyNameNoQuery | frontend/server/routes/claims.js:80-128 | a tier whose required name is empty returns null, sends nothing and keeps the cache |
| Resolver.RepeatedLookup | frontend/server/routes/claims.js:82-100 | after a hit, the same call is served from the cache with no request; after a miss, it sends the same requests again |
| Resolver.RepeatedVillageLookup | frontend/server/routes/claims.js:79-102 | the same for the village tier |
| Resolver.RepeatedDistrictLookup | frontend/server/routes/claims.js:104-125 | the same for the district tier |
| Resolver.RepeatedStateLookup | frontend/server/routes/claims.js:127-156 | the same for the state tier, where a fallback point is cached as well |
| Resolver.StateFallbackWhenEveryQueryMisses | frontend/server/routes/claims.js:144-154 | when all seven variants miss, the state tier returns the table's fallback centroid, if any, caches it, and has sent exactly seven requests |
| Resolver.FirstFeatureWins | frontend/server/routes/claims.js:95-98 | a first feature without a usable geometry still ends the loop: the tier returns null after one request |
| Resolver.StateEntrySharedAcrossSpellings | frontend/server/routes/claims.js:127-130 | a state cached under one spelling is served, without a request, to the same name padded or upper-cased |
| Resolver.StateKeyOfSpelling | frontend/server/routes/claims.js:29-31 | a padded upper-case spelling has the same state key |
| Resolver.MatchAllQuotesValues | frontend/server/routes/claims.js:86-93 | a three-field match reads back as exactly the three values, in order |
| Resolver.VillageWheresQuoteNames | frontend/server/routes/claims.js:83-93 | each village variant carries state, district and village as three literals (the LIKE variant as `%name%` patterns) |
| Resolver.DistrictWheresQuoteNames | frontend/server/routes/claims.js:111-116 | the district variants carry the district and then each state code as separate literals |
| Resolver.CodeListWhereQuotes | frontend/server/routes/claims.js:113 | `state IN (...)` reads back as the district and the codes |
| Resolver.UpperCodeListWhereQuotes | frontend/server/routes/claims.js:114 | `UPPER(State) IN (UPPER(...), ...)` reads back as the district and the codes |
| Resolver.FieldEqualsQuotesValue | frontend/server/routes/claims.js:135-141 | `UPPER(field)=UPPER('v')` reads back as the one value |
| Resolver.StateNameFieldsPlain | frontend/server/routes/claims.js:135-141 | the attribute names hold no quote |
| Resolver.StateWhereQuotesCodeAndName | frontend/server/routes/claims.js:132-134 | the first state variant carries the escaped code and then the escaped name |
| Resolver.StateWheresQuoteNames | frontend/server/routes/claims.js:132-142 | every state variant carries the state name (and the first also the code) as literals |
| Resolver.LikeLiteralText | frontend/server/routes/claims.js:90-92 | the LIKE literal is the quoted `%name%` pattern |
| Geometry.Lons | frontend/server/routes/claims.js:66-67 | the longitude of each point, in order |
| Geometry.Lats | frontend/server/routes/claims.js:66-68 | the latitude of each point, in order |
| Geometry.SumBounds | frontend/server/routes/claims.js:66-69 | a sum of n values within [lo, hi] lies within [n·lo, n·hi] |
| Geometry.AverageBounds | frontend/server/routes/claims.js:69 | a quotient by a positive count keeps the bounds |
| Geometry.AvgBounds | frontend/server/routes/claims.js:66-69 | an average lies within its values' bounds |
| Geometry.SumSnoc | frontend/server/routes/claims.js:66-68 | a sum extended by one value grows by that value |
| Geometry.MeanWithinBounds | frontend/server/routes/claims.js:66-69 | the centroid of points inside a box is inside the box |
| Geometry.MeanInRange | frontend/server/routes/claims.js:66-69 | the centroid of valid longitude/latitude pairs is a valid pair |
| Geometry.PairsOfMembers | frontend/server/routes/claims.js:53 | a point is pushed exactly when some vertex is an array of two finite numbers equal to it |
| Geometry.PairsOfAllFinite | frontend/server/routes/claims.js:53-60 | when every vertex is well formed, every vertex is pushed, in order |
| Geometry.PairsOfSkipsMalformed | frontend/server/routes/claims.js:53 | a malformed vertex contributes nothing |
| Geometry.RingsTakePrecedence | frontend/server/routes/claims.js:54-64 | when `rings` is an array, `paths` is never read and the centroid is the mean of the ring points |
| Geometry.EsriCentroidWithinBounds | frontend/server/routes/claims.js:50-70 | there is a centroid exactly when some point was pushed, and it lies inside any box holding every pushed point |
| Geometry.SingleRing | frontend/server/routes/claims.js:54-62 | the centroid of one ring is the mean of its well-formed vertices |
| Geometry.SquareCentroid | frontend/server/routes/claims.js:50-70 | an open 2×2 square has centroid (1, 1) |
| Geometry.ClosedSquareCentroid | frontend/server/routes/claims.js:50-70 | a closed ring counts its repeated first vertex twice: the closed 2×2 square gives (0.8, 0.8), not the area centroid |
| Geometry.PushPairs | frontend/server/routes/claims.js:56-60 | the vertex loop appends the well-formed pairs to the points gathered so far |
| Geometry.Average | frontend/server/routes/claims.js:65-69 | the summing loop returns null on no points and the mean otherwise |
| Geometry.CentroidOfEsriGeometry | frontend/server/routes/claims.js:50-70 | `centroidOfEsriGeometry` returns the specification centroid `EsriCentroid` |
| Geometry.GeoJsonIgnoresHoles | frontend/server/routes/claims.js:37-39 | a polygon's centroid uses its outer ring only |
| Geometry.FiniteSnoc | frontend/server/routes/claims.js:35-53 | a finite last vertex adds the same pair to the Esri and the GeoJSON point lists |
| Geometry.RawPairsOfFiniteVertices | frontend/server/routes/claims.js:35-53 | on finite vertices the GeoJSON push keeps the same pairs as the Esri push |
| Geometry.SumsOfNums | frontend/server/routes/claims.js:45-47 | summing finite numbers gives the finite real sum |
| Geometry.GeoJsonAgreesWithEsri | frontend/server/routes/claims.js:33-70 | on an outer ring of finite vertices the two centroid functions give the same point |
| Geometry.SumXsPoisoned | frontend/server/routes/claims.js:45-46 | one non-finite longitude makes the sum non-finite |
| Geometry.GeoJsonNonFinitePoisons | frontend/server/routes/claims.js:35-47 | `centroidOfGeoJSON` does not filter non-finite coordinates: one NaN vertex makes the centroid's longitude non-finite |
| Geometry.PushRawPairs | frontend/server/routes/claims.js:35-38 | the GeoJSON push loop appends each two-element vertex |
| Geometry.GatherGeoJsonPairs | frontend/server/routes/claims.js:36-43 | the Polygon and MultiPolygon branches gather the outer rings' pairs |
| Geometry.SumRawPairs | frontend/server/routes/claims.js:45-46 | the summing loop returns both coordinate sums |
| Geometry.CentroidOfGeoJson | frontend/server/routes/claims.js:33-48 | `centroidOfGeoJSON` returns the specification centroid `GeoJsonCentroid` |
| MapPoints.EscapeRegex | frontend/server/routes/claims.js:160-162 | escaping never shortens the text |
| MapPoints.RegexLiteralOfEscape | frontend/server/routes/claims.js:160-162 | the escaped text, read as a regular expression, matches exactly the original text literally |
| MapPoints.FormTypeList | frontend/server/routes/claims.js:211 | every listed form type is trimmed and non-empty |
| MapPoints.AllMatchAppend | frontend/server/routes/claims.js:214-215 | a conjunction of clause lists holds exactly when both hold |
| MapPoints.AssembleMeaning | frontend/server/routes/claims.js:187-215 | whether there is one clause (merged into the filter) or several (`$and`), a record matches exactly when its status matches and every clause holds |
| MapPoints.NameClauseMeaning | frontend/server/routes/claims.js:189-209 | a name parameter filters only when non-empty, and then on the field or the address |
| MapPoints.OrOfTwoFields | frontend/server/routes/claims.js:191-194 | `$or` of the two regex tests holds exactly when either field matches |
| MapPoints.FormTypeClauseMeaning | frontend/server/routes/claims.js:210-213 | form types filter only when the list is non-empty, and then by membership |
| MapPoints.BuildFilterMeaning | frontend/server/routes/claims.js:184-215 | a record matches the filter exactly when its status equals the requested status when one is given (APPROVED otherwise), each given name occurs (case-insensitively) in its field or the address, and its form type is listed |
| MapPoints.ResolveLadder | frontend/server/routes/claims.js:242-249 | the three guarded tier calls change the cache and return the point that `Ladder` specifies |
| MapPoints.EnrichRecord | frontend/server/routes/claims.js:235-268 | one loop iteration produces the feature and cache that `Enrich` specifies |
| MapPoints.MapPointFeatures | frontend/server/routes/claims.js:233-269 | the loop over the records produces the features, cache and requests of `EnrichAll` |
| MapPoints.OneFeaturePerRecord | frontend/server/routes/claims.js:233-269 | one feature per record, in order, whose properties are that record's |
| MapPoints.ValidStoredCoordinateKept | frontend/server/routes/claims.js:236-240 | a finite, in-range stored coordinate is used as it is, with no request and no cache change |
| MapPoints.LadderKeepsCache | frontend/server/routes/claims.js:246-248 | the ladder never removes or alters a cache entry |
| MapPoints.LadderByKeeps | frontend/server/routes/claims.js:246-248 | three steps that each keep the cache's entries keep them together |
| MapPoints.StepsKeep | frontend/server/routes/claims.js:246-248 | each guarded tier step keeps the cache's entries |
| MapPoints.KeepsTransitive | frontend/server/routes/claims.js:246-248 | keeping entries composes |
| MapPoints.CacheOnlyGrows | frontend/server/routes/claims.js:233-269 | over the whole request the cache only gains entries |
| MapPoints.LadderPrefersVillage | frontend/server/routes/claims.js:246 | a village hit ends the ladder: no district or state query |
| MapPoints.LadderFallsToDistrict | frontend/server/routes/claims.js:246-247 | after a village miss, a district hit gives the point, and the requests are the village tier's then the district tier's |
| MapPoints.LadderNeedsState | frontend/server/routes/claims.js:242-248 | with no state, no tier is asked |
| MapPoints.RepeatedLadder | frontend/server/routes/claims.js:242-248 | the ladder run again on the cache it left gives the same point and cache; it re-sends only a prefix of the first run's requests, all of them when nothing was found, none when the village tier answered |
| MapPoints.VillageStepMemo | frontend/server/routes/claims.js:246 | the village step memoises under its own key: a hit is served from the cache, a miss keeps the cache and repeats on any cache without that key, and no other entry is added |
| MapPoints.DistrictStepMemo | frontend/server/routes/claims.js:247 | the same for the district step |
| MapPoints.StateStepMemo | frontend/server/routes/claims.js:248 | the same for the state step |
| MapPoints.LadderByRepeats | frontend/server/routes/claims.js:246-248 | three memoising steps under distinct keys, chained, repeat as the ladder does |
| MapPoints.RepeatedEnrich | frontend/server/routes/claims.js:234-268 | enriching a record again on the cache the first pass left gives the same feature and cache, with a prefix of the first pass's requests |
| MapPoints.DefaultWhenUnresolved | frontend/server/routes/claims.js:251-254 | a record with no finite stored coordinate and no resolved point gets the India point (78.9629, 20.5937) |
| MapPoints.OutOfRangeCoordinateSurvives | frontend/server/routes/claims.js:240-251 | a finite but out-of-range stored coordinate (lon 200) that resolves to nothing is kept as the marker |
| MapPoints.ResolvedPointUsed | frontend/server/routes/claims.js:240-249 | an invalid stored coordinate is replaced by the resolved centroid |
| MapPoints.AssignLastWins | frontend/server/routes/claims.js:399-401 | after the entries loop, a key holds its last assigned value, and untouched keys keep theirs; `__proto__` is never written |
| MapPoints.LastForCons | frontend/server/routes/claims.js:399-401 | the last assignment of a key is found from the end |
| MapPoints.AssignSnoc | frontend/server/routes/claims.js:399-401 | one more entry overwrites one key, unless that key is `__proto__` |
| MapPoints.BuildSetStatusFields | frontend/server/routes/claims.js:392-396 | without updates, `status` is set exactly when given, `approvalDate` exactly when APPROVED (to the current time), `rejectionReason` exactly when REJECTED, and nothing else |
| MapPoints.BuildSetUpdatesWin | frontend/server/routes/claims.js:397-401 | a key in `updates` takes its last value in `updates`, overriding the status fields; a `__proto__` key goes to the inherited setter and never becomes a field |
| MapPoints.PatchSet | frontend/server/routes/claims.js:390-402 | the method building `$set` returns `BuildSet`, skipping a `__proto__` entry |
| Dss.PickFirstFindsFirstKey | frontend/src/pages/DSS.jsx:122-127 | `pickFirst` returns the value of the first candidate present |
| Dss.PickFirstUndefined | frontend/src/pages/DSS.jsx:122-127 | `pickFirst` is undefined exactly when no candidate is present |
| Dss.EmptyDistrictHidesVariant | frontend/src/pages/DSS.jsx:233 | an empty `district` attribute falls through to the candidates, but `pickFirst` then stops at the same empty key |
| Dss.DistrictVariantUsed | frontend/src/pages/DSS.jsx:233 | without `district`, the `District` attribute is used, trimmed |
| Dss.Added | frontend/src/pages/DSS.jsx:234 | `Set.add` keeps the elements distinct and adds exactly the one element |
| Dss.StateCodes | frontend/src/pages/DSS.jsx:151-152 | at least one code |
| Dss.StateCodesOfLabels | frontend/src/pages/DSS.jsx:151-152 | Telangana gives TS and TG; the other labels give their code; an unknown label is its own code |
| Dss.StateWhereQuotesCodes | frontend/src/pages/DSS.jsx:150-155 | the state clause reads back as exactly its codes |
| Dss.DistrictClauseQuotesName | frontend/src/pages/DSS.jsx:158-159 | the district clause reads back as the upper-cased district name, even with quotes |
| Dss.DistrictWhereQuotesNames | frontend/src/pages/DSS.jsx:156-161 | the combined clause reads back as the codes and then the district |
| Dss.VillagesWhereQuotesNames | frontend/src/pages/DSS.jsx:328-331 | the village-list WHERE reads back as the state and the district |
| Dss.VillageBoundaryWhereQuotesNames | frontend/src/pages/DSS.jsx:381-386 | the village-boundary WHERE reads back as state, district and village |
| Dss.NameSetMeaning | frontend/src/pages/DSS.jsx:231-235 | a name is collected exactly when some item yields it |
| Dss.Elems | frontend/src/pages/DSS.jsx:236 | `Array.from(set)` holds the same elements |
| Dss.AddNames | frontend/src/pages/DSS.jsx:232-235 | the `if (x) out.add(x)` loop keeps the collection distinct and adds exactly the items' names |
| Dss.LoadDistrictOptions | frontend/src/pages/DSS.jsx:220-242 | no state gives no options; a query that throws is reported and leaves the previous state's options in place; otherwise the options are sorted, distinct, and exactly the names the rows yield |
| Dss.DistrictOptionsMeaning | frontend/src/pages/DSS.jsx:233-234 | an option is a non-empty, trimmed district value of some row |
| Dss.RowDistrictTrimmed | frontend/src/pages/DSS.jsx:233 | a row's district value is trimmed |
| Dss.VillageName | frontend/src/pages/DSS.jsx:353-354 | a collected village name is trimmed |
| Dss.CrawlAdvancesByPageSize | frontend/src/pages/DSS.jsx:336-361 | pages are fetched from offset 0, each next offset is the previous plus the page's length, and the crawl stops at the first page that does not exceed the transfer limit |
| Dss.CrawlShape | frontend/src/pages/DSS.jsx:336-361 | the crawl requests at most `fuel` pages, the first at offset 0 of the call, and a crawl that stops early stops at a page that does not continue |
| Dss.CrawlSteps | frontend/src/pages/DSS.jsx:336-361 | each requested page but the last continues, and the next offset is the previous plus that page's length |
| Dss.CrawlNamesMeaning | frontend/src/pages/DSS.jsx:336-361 | a name is collected exactly when it is on a fetched page |
| Dss.CrawlNamesOfCrawl | frontend/src/pages/DSS.jsx:336-361 | the names collected recursively are those of the offsets crawled |
| Dss.NamesOfPagesMeaning | frontend/src/pages/DSS.jsx:352-355 | the names of a list of pages are those some page holds |
| Dss.CrawlNamesStep | frontend/src/pages/DSS.jsx:352-360 | one page's names plus the rest of the crawl are the crawl's names |
| Dss.AddPageNames | frontend/src/pages/DSS.jsx:352-355 | one loop iteration adds the page's names and keeps them distinct |
| Dss.CollectVillageNames | frontend/src/pages/DSS.jsx:334-361 | the `while (true)` loop collects distinct names, exactly those of the crawl |
| Dss.LoadVillages | frontend/src/pages/DSS.jsx:325-362 | with a missing name there are no villages; otherwise they are sorted, distinct and exactly the crawl's names |
| Dss.ReportParamsMeaning | frontend/src/pages/DSS.jsx:401-417 | no state is an error; otherwise the parameters are state first, then district and village exactly when selected |
| Mapping.StateCodeKnown | frontend/src/pages/Mapping.jsx:44-48 | the guard passes exactly for the four known states, whose codes are non-empty and quote-free |
| Mapping.Widen | frontend/src/pages/Mapping.jsx:81-86 | one reduce step gives a box holding the old box and the coordinate |
| Mapping.BoundsOf | frontend/src/pages/Mapping.jsx:81-86 | the folded box holds every coordinate of the ring, within the seed |
| Mapping.EmptyRingGivesSeed | frontend/src/pages/Mapping.jsx:86 | an empty ring leaves the inverted seed [[180, 90], [-180, -90]] |
| Mapping.BoundsAttained | frontend/src/pages/Mapping.jsx:81-86 | each corner coordinate is a ring coordinate or the seed's |
| Mapping.FitOf | frontend/src/pages/Mapping.jsx:81-88 | the map is fitted exactly when the first feature has a ring, to that ring's bounds |
| Mapping.StateWheresQuote | frontend/src/pages/Mapping.jsx:50-51 | both state WHERE texts read back as the code or the name |
| Mapping.StateQueries | frontend/src/pages/Mapping.jsx:44-62 | an unknown state sends nothing; otherwise by code first, then by name only when the first reply has no features |
| Mapping.ShowStateBoundaryMeaning | frontend/src/pages/Mapping.jsx:44-88 | the boundary is shown exactly when the last reply sent has features, and it is fitted to that reply |
| Mapping.BrokenLiteral | frontend/src/pages/Mapping.jsx:110 | a quote inside an unescaped literal leaves a literal that never closes |
| Mapping.DistrictQuoteBreaksWhere | frontend/src/pages/Mapping.jsx:109-110 | the district WHERE as written cannot be read when the district name holds a quote |
| Mapping.DistrictQuoteExample | frontend/src/pages/Mapping.jsx:109-110 | the district name "Ma'a" breaks it |
| Mapping.DistrictBoundaryWhereQuotes | frontend/src/pages/Mapping.jsx:109-110 | the corrected WHERE reads back as the code and, when given, the district name |
| Mapping.DistrictBoundaryWhereAgrees | frontend/src/pages/Mapping.jsx:109-110 | the correction changes nothing for names without quotes |
| Mapping.ShowDistrictBoundary | frontend/src/pages/Mapping.jsx:103-138 | an unknown state sends nothing; otherwise the clause is sent with the district unescaped, as written, and the layer shows the reply, fitted only for a named district with features |
| Mapping.ShowDistrictBoundaryCorrected | frontend/src/pages/Mapping.jsx:103-138 | with the district's quotes doubled, every clause sent reads back as the state code and the district |
| Mapping.ShowDistrictBoundaryAgrees | frontend/src/pages/Mapping.jsx:103-138 | for a district without quotes the page and its correction behave alike |
| Mapping.Projected | frontend/src/pages/Mapping.jsx:481 | each feature's `district \|\| District` attribute, in order |
| Text.NonEmptyCount | frontend/src/pages/Mapping.jsx:482 | `filter(Boolean)` drops every empty name and keeps every other with its multiplicity |
| Mapping.DistrictList | frontend/src/pages/Mapping.jsx:480-483 | the list is sorted and a permutation of the non-empty names |
| Mapping.DistrictListCount | frontend/src/pages/Mapping.jsx:480-483 | each non-empty name appears as often as in the reply |
| Mapping.TwiceInList | frontend/src/pages/Mapping.jsx:480-483 | a value at two positions counts twice |
| Mapping.DistrictListKeepsDuplicates | frontend/src/pages/Mapping.jsx:473-483 | duplicates are not removed (the distinct-values flag is left to the server) |
| DataCollection.FilteredStates | frontend/src/pages/DataCollection.jsx:29-33 | one entry per allowed state, in the fixed order |
| DataCollection.CountMapKeys | frontend/src/pages/DataCollection.jsx:31 | the map has exactly the reported states as keys |
| DataCollection.CountMapLast | frontend/src/pages/DataCollection.jsx:31 | a state's last entry gives its count |
| DataCollection.LaterCountWins | frontend/src/pages/DataCollection.jsx:31-32 | an allowed state shows the count of its last entry |
| DataCollection.MissingStateCountsZero | frontend/src/pages/DataCollection.jsx:32 | an allowed state with no entry shows 0 |
| DataCollection.OtherStatesIgnored | frontend/src/pages/DataCollection.jsx:29-33 | an entry for a state outside the list changes nothing |
| DataCollection.CleanDistrictTidy | frontend/src/pages/DataCollection.jsx:100 | the cleaned district holds no comma and is trimmed |
| DataCollection.CleanDistrictBeforeComma | frontend/src/pages/DataCollection.jsx:100 | it is the trimmed text before the first comma |
| DataCollection.CleanDistrictNoComma | frontend/src/pages/DataCollection.jsx:100 | without a comma it is the trimmed text |
| DataCollection.ParamCons | frontend/src/pages/DataCollection.jsx:98-102 | a parameter is looked up from the front |
| DataCollection.ListParam | frontend/src/pages/DataCollection.jsx:98-102 | the parameter of each key |
| DataCollection.ListParamKeys | frontend/src/pages/DataCollection.jsx:98-102 | status and state are always set; district and village only when non-empty |
| DataCollection.ClaimsListParamsMeaning | frontend/src/pages/DataCollection.jsx:90-102 | no request without a state; otherwise UNAPPROVED, the state, the cleaned district when non-empty, the village when selected |
| DataCollection.ApprovedParamsMeaning | frontend/src/pages/DataCollection.jsx:114-124 | no request without a state; otherwise APPROVED and the state only |
| Text.NonEmpty | frontend/src/pages/DataCollection.jsx:268 | `filter(Boolean)` keeps only non-empty strings, and never more than it was given |
| Text.NonEmptyCons | frontend/src/pages/DataCollection.jsx:268 | a string is kept exactly when non-empty, in order |
| DataCollection.NonEmptyThree | frontend/src/pages/DataCollection.jsx:265-268 | the three address parts filter independently |
| DataCollection.JoinNotEmpty | frontend/src/pages/DataCollection.jsx:268 | joining with a non-empty first part is non-empty |
| DataCollection.AddressDisplayMeaning | frontend/src/pages/DataCollection.jsx:265-268 | the cell is never empty: "-" exactly when all parts are empty, else the non-empty parts joined by ", " |
| DataCollection.FullAddress | frontend/src/pages/DataCollection.jsx:265-268 | all three parts give "village, district, state" |
| DataCollection.AddressWithoutVillage | frontend/src/pages/DataCollection.jsx:265-268 | a missing village leaves "district, state" |
| Labels.Lines | frontend/server/services/parser.js:10 | every line kept is trimmed and non-empty |
| Labels.CarriageReturnTrimmed | frontend/server/services/parser.js:10 | splitting on `\n` and trimming makes `\r\n` and `\n` the same |
| Labels.EscapeLabel | frontend/server/services/parser.js:11 | escaping never shortens a label |
| Labels.EscapeEach | frontend/server/services/parser.js:11 | every label is escaped, in order |
| Labels.ReadAlternation | frontend/server/services/parser.js:11 | a pattern reads as at least one alternative |
| Labels.Alternatives | frontend/server/services/parser.js:11 | there is always at least one alternative |
| Labels.ReadEscapedLabel | frontend/server/services/parser.js:11 | an escaped label reads back as itself in front of the following alternatives |
| Labels.ReadEscapedChar | frontend/server/services/parser.js:11 | one escaped character reads back as itself |
| Labels.LabelsMatchLiterally | frontend/server/services/parser.js:11 | the escaped labels joined by `\|` read back as exactly the labels, literally |
| Labels.AlternationOfOne | frontend/server/services/parser.js:11 | one label reads back as itself |
| Labels.AlternationOfMore | frontend/server/services/parser.js:11 | a longer list reads back as itself |
| Labels.SRun | frontend/server/services/parser.js:11 | the run of letters s that `s*` takes greedily |
| Labels.SepThen | frontend/server/services/parser.js:11 | the separator-then-`s*` part finds a capture exactly when the rest is capturable, after a filler |
| Labels.SeparatorFiller | frontend/server/services/parser.js:11 | a separator and letters s form a filler |
| Labels.SRunAllS | frontend/server/services/parser.js:11 | a string of letters s is all taken |
| Labels.SRunExact | frontend/server/services/parser.js:11 | the run length is exactly the letters-s prefix |
| Labels.FillerAfterS | frontend/server/services/parser.js:11 | letters s before a filler still form a filler |
| Labels.FirstStar | frontend/server/services/parser.js:11 | the backtracking over the first `s*` finds a capture after a filler |
| Labels.FirstStarFinds | frontend/server/services/parser.js:11 | it always finds one on a capturable rest |
| Labels.FirstStarTaken | frontend/server/services/parser.js:11 | the parts it skips make a filler |
| Labels.AfterLabel | frontend/server/services/parser.js:11 | there is a capture exactly when the rest is capturable, and it is a non-empty suffix after a filler |
| Labels.FillerCapturable | frontend/server/services/parser.js:11 | a filler before a capturable rest is capturable |
| Labels.CaptureWithoutSeparator | frontend/server/services/parser.js:11 | without a separator the capture is the value after the letters s |
| Labels.CaptureAfterSeparator | frontend/server/services/parser.js:11 | with a separator the capture is the value after the separator and letters s |
| Labels.MatchLine | frontend/server/services/parser.js:13 | a capture is a non-empty suffix of the line |
| Labels.MatchLineMatches | frontend/server/services/parser.js:11-13 | a line matches exactly when one of the labels begins it (ignoring case) with a capturable rest |
| Labels.MatchLineFirstLabel | frontend/server/services/parser.js:11-13 | the capture comes from the first label in list order that matches |
| Labels.TrimmedCaptureNotEmpty | frontend/server/services/parser.js:10-14 | a capture from a trimmed line never trims to nothing |
| Labels.LineMatches | frontend/server/services/parser.js:12-13 | the match of each line, in order |
| Labels.LineMatchesNonBlank | frontend/server/services/parser.js:10-14 | every capture on the kept lines trims to something |
| Labels.MatchLineNonBlank | frontend/server/services/parser.js:10-14 | the same for one line |
| Labels.FirstTrimmedTrimmed | frontend/server/services/parser.js:12-16 | the loop's result is trimmed |
| Labels.FirstTrimmedEmpty | frontend/server/services/parser.js:12-16 | the loop gives '' exactly when no line matched |
| Labels.FirstTrimmedAt | frontend/server/services/parser.js:12-16 | the loop gives the first matching line's trimmed capture |
| Labels.PickAfterLabel | frontend/server/services/parser.js:9-17 | the result is trimmed |
| Labels.PickAfterLabelEmpty | frontend/server/services/parser.js:9-17 | '' exactly when no kept line matches |
| Labels.PickAfterLabelFirstLine | frontend/server/services/parser.js:9-17 | the trimmed capture of the first matching line |
| Labels.SingleLine | frontend/server/services/parser.js:10 | a trimmed text with no line feed is one line |
| Labels.PickFromOneLine | frontend/server/services/parser.js:9-17 | a one-line text starting with the first label gives its capture, trimmed |
| Labels.OneLineText | frontend/server/services/parser.js:10 | a label and a clean value form one line |
| Labels.CleanAfter | frontend/server/services/parser.js:10-11 | text before a clean value keeps it clean |
| Labels.LabelStartsText | frontend/server/services/parser.js:11 | a label begins any text it starts |
| Labels.PaddedValueTrims | frontend/server/services/parser.js:14 | a space before a clean value is trimmed away |
| Labels.SpaceThenValue | frontend/server/services/parser.js:11 | a space then a clean value is capturable |
| Labels.ReadThroughFirstLabel | frontend/server/services/parser.js:9-17 | a text made of the first label and a capturable rest gives that capture |
| Labels.EndsLikeValue | frontend/server/services/parser.js:10 | text ending in a clean value is not trimmed at its end |
| Labels.SpacedValueIsRead | frontend/server/services/parser.js:9-17 | "Label: value" gives the value |
| Labels.GluedValueLosesLeadingS | frontend/server/services/parser.js:11 | because `\s` in the template literal is the letter s, "Label:Svalue" gives "value" |
| Labels.ValueAfterSpace | frontend/server/services/parser.js:9-17 | "Label value" with no separator gives the value |
| Labels.ReadAfterSpace | frontend/server/services/parser.js:9-17 | the same, for a given text |
| Labels.DashStaysInValue | frontend/server/services/parser.js:11 | `[:\-\=]` is the range `:`..`=`, so a dash after the label stays in the value |
| Labels.BlankFieldGivesColon | frontend/server/services/parser.js:11-14 | a blank "Label:" gives ":" as the value |
| Labels.ShorterLabelWins | frontend/server/services/parser.js:42 | "Name of Claimant: v" is read through "Name", giving "of Claimant: v" |
| Labels.NameLabelsPlain | frontend/server/services/parser.js:42 | the name labels start plainly |
| Labels.ClaimantTail | frontend/server/services/parser.js:42 | "Name of Claimant: v" splits after "Name" into a clean value |
| Labels.ClaimantSplit | frontend/server/services/parser.js:42 | the text splits after "Name" |
| Parser.SpaceRun | frontend/server/services/parser.js:21-23 | the greedy run of white space that `\s*` takes |
| Parser.DetectFormTypeIgnoresCase | frontend/server/services/parser.js:19-25 | the form type does not depend on letter case |
| Parser.FormCWins | frontend/server/services/parser.js:21 | text ending in "Form C" is a community resource claim, whatever precedes |
| Parser.LowerFormC | frontend/server/services/parser.js:20 | "Form C" lower-cases to "form c" |
| Parser.FormCAtEnd | frontend/server/services/parser.js:21 | "form c" at the end mentions form C |
| Parser.KeepNumeric | frontend/server/services/parser.js:28-29 | `replace(/[^0-9.\-]/g, '')` keeps only digits, dots and dashes, and changes nothing else |
| Parser.KeepNumericDrops | frontend/server/services/parser.js:28 | other characters vanish |
| Parser.KeepNumericAppend | frontend/server/services/parser.js:28 | the filter works character by character |
| Parser.DigitRun | frontend/server/services/parser.js:28 | the run of digits `parseFloat` reads |
| Parser.Pow10 | frontend/server/services/parser.js:28 | powers of ten are positive |
| Parser.DigitsAppend | frontend/server/services/parser.js:28 | digits concatenate to digits |
| Parser.DigitsValueAppend | frontend/server/services/parser.js:28 | the value of concatenated digits |
| Parser.ShiftByOneDigit | frontend/server/services/parser.js:28 | one more digit scales by ten |
| Parser.DigitRunExact | frontend/server/services/parser.js:28 | a digit run is read up to the first non-digit |
| Parser.DigitRunAtMost | frontend/server/services/parser.js:28 | the run length is exactly the digit prefix |
| Parser.AllKeptAppend | frontend/server/services/parser.js:28 | kept texts concatenate |
| Parser.DigitsKept | frontend/server/services/parser.js:28 | digits are kept |
| Parser.ParseFloatDecimal | frontend/server/services/parser.js:28-29 | `parseFloat` reads "w.f" and stops at the next non-digit |
| Parser.ParseFloatWhole | frontend/server/services/parser.js:28-29 | `parseFloat` reads a whole number |
| Parser.DecimalValueWhole | frontend/server/services/parser.js:28 | no fraction digits is the whole value |
| Parser.ParseFloatNegated | frontend/server/services/parser.js:28-29 | a leading dash negates |
| Parser.ParseFloatNeedsDigit | frontend/server/services/parser.js:28-30 | no digit gives NaN |
| Parser.NormalizeGeoPoint | frontend/server/services/parser.js:27-34 | a point exactly when both parse, with `coordinates: [lon, lat]` |
| Parser.NoDigitNoPoint | frontend/server/services/parser.js:27-34 | a latitude with no digit gives undefined |
| Parser.KeepNumericNoDigit | frontend/server/services/parser.js:28 | filtering adds no digit |
| Parser.DegreesAndMinutesRunTogether | frontend/server/services/parser.js:28 | degrees and minutes such as 21°30' run together into 2130, outside the latitude range |
| Parser.KeepNumericDegrees | frontend/server/services/parser.js:28 | the degree and minute signs vanish |
| Parser.DegreesText | frontend/server/services/parser.js:28 | the text regrouped |
| Parser.CoordRun | frontend/server/services/parser.js:54 | the greedy run of `[0-9.+-]` |
| Parser.NumberAt | frontend/server/services/parser.js:54 | `:\s*([0-9.+-]+)` captures a non-empty coordinate run |
| Parser.LabelledNumberAt | frontend/server/services/parser.js:54 | `Lat(?:itude)?` or `Lon(?:gitude)?` then a number |
| Parser.LonFrom | frontend/server/services/parser.js:54 | the lazy `.*?` finds the first Lon match, as a coordinate run |
| Parser.LonFromSameLine | frontend/server/services/parser.js:54 | `.` stops at a line end: a Lon on a later line is not found |
| Parser.LatLonAt | frontend/server/services/parser.js:54 | a match at a position starts with Lat and captures two coordinate runs |
| Parser.Attempts | frontend/server/services/parser.js:54 | the match attempted at each position |
| Parser.FirstSome | frontend/server/services/parser.js:54 | the leftmost success is one of the attempts |
| Parser.FirstSomeNone | frontend/server/services/parser.js:54 | nothing exactly when every attempt fails |
| Parser.FirstSomeAt | frontend/server/services/parser.js:54 | the leftmost success is taken |
| Parser.GeoMatch | frontend/server/services/parser.js:54 | both captures are non-empty coordinate runs |
| Parser.GeoMatchNone | frontend/server/services/parser.js:54-55 | no match exactly when no position matches |
| Parser.GeoMatchLeftmost | frontend/server/services/parser.js:54 | the match is the leftmost one |
| Parser.GeoLocation | frontend/server/services/parser.js:54-55 | a location comes from the match, normalised |
| Parser.ParseClaimFromText | frontend/server/services/parser.js:41-88 | the location comes from the geo match; all unparsed fields are empty, null or [] |
| Parser.ParsedFieldsTrimmed | frontend/server/services/parser.js:42-51 | every label-read field is trimmed |
| Ordering.LexLeReflexive | frontend/src/pages/DSS.jsx:236 | the `localeCompare` order is reflexive |
| Ordering.LexLeTotal | frontend/src/pages/DSS.jsx:236 | it is total |
| Ordering.LexLeAntisymmetric | frontend/src/pages/DSS.jsx:236 | it is antisymmetric |
| Ordering.LexLeTransitive | frontend/src/pages/DSS.jsx:236 | it is transitive |
| Ordering.InsertFrontSorted | frontend/src/pages/DSS.jsx:236 | a smaller head keeps the list sorted |
| Ordering.ConsSorted | frontend/src/pages/DSS.jsx:236 | a head below every element keeps it sorted |
| Ordering.Insert | frontend/src/pages/DSS.jsx:236 | insertion keeps the list sorted and adds the element |
| Ordering.Sort | frontend/src/pages/DSS.jsx:362 | `sort` gives a sorted permutation |
| Ordering.DistinctCountAtMostOne | frontend/src/pages/DSS.jsx:236 | a distinct list holds each element at most once |
| Ordering.PermutationKeepsDistinct | frontend/src/pages/DSS.jsx:236 | a permutation of a distinct list is distinct |
| Ordering.SortedDistinctUnique | frontend/src/pages/DSS.jsx:362 | a sorted, distinct list is determined by its elements |
| Sql.Repeat | frontend/server/routes/claims.js:113 | n copies of the separator |
| Sql.QuoteEach | frontend/src/pages/DSS.jsx:153 | each code quoted, in order |
| Sql.LiteralsOfQuotedList | frontend/src/pages/DSS.jsx:153 | a comma-joined list of quoted values reads back as the values |
| Sql.LiteralsOfTemplate | frontend/server/routes/claims.js:86-93 | a template whose fixed pieces hold no quote reads back as exactly its interpolated values |
| Sql.InListLiterals | frontend/server/routes/claims.js:113-114 | an equality then an `IN (...)` list reads back as the value and the list |
| Sql.LiteralsOfClause | frontend/src/pages/DSS.jsx:382-384 | a clause with one quoted value reads back as it |
| Sql.LiteralsOfQuote | frontend/server/routes/claims.js:83-85 | one quoted value reads back as it |
| Sql.LiteralsAppend | frontend/src/pages/DSS.jsx:160 | literals of a concatenation are concatenated |
| Sql.ReadQuotedAppend | frontend/server/routes/claims.js:83-85 | a closed literal stays closed |
| Sql.TemplateStartsPlain | frontend/server/routes/claims.js:86-93 | a template does not start with a quote |
| Sql.LiteralsPlain | frontend/server/routes/claims.js:86-93 | text without quotes holds no literal |
| Sql.LiteralsQuote | frontend/server/routes/claims.js:83-85 | a quoted value in front of text adds one literal |
| Text.Trim | frontend/server/routes/claims.js:30 | `trim` gives the empty text exactly when the text is all white space, and otherwise a text that neither starts nor ends with white space |
| Text.TrimIgnoresPadding | frontend/server/routes/claims.js:30 | padding does not change the trimmed text |
| Text.TrimIdempotent | frontend/server/routes/claims.js:30 | trimming twice is trimming once |
| Text.TrimAvoids | frontend/src/pages/DataCollection.jsx:100 | trimming keeps out a character the text does not hold |
| Text.TrimmedNonEmpty | frontend/server/routes/claims.js:211 | `map(s => s.trim()).filter(Boolean)` keeps only trimmed, non-empty pieces |
| Text.Lower | frontend/server/routes/claims.js:30 | `toLowerCase` keeps the length and lower-cases each character on its own |
| Text.Upper | frontend/src/pages/DSS.jsx:159 | `toUpperCase` keeps the length and upper-cases each character on its own |
| Text.LowerUpper | frontend/server/routes/claims.js:30 | lower-casing the upper-cased text is lower-casing it |
| Text.LowerTrimCommute | frontend/server/routes/claims.js:30 | trimming and lower-casing commute |
| Text.Split | frontend/src/pages/DataCollection.jsx:100 | `split(',')` gives at least one piece, and no piece holds the separator |
| Text.SplitFirstPiece | frontend/src/pages/DataCollection.jsx:100 | `split(',')[0]` is the text before the first comma |
| Text.SplitJoin | frontend/src/pages/DataCollection.jsx:100 | splitting a join of pieces without the separator gives the pieces back |
| Text.JoinSplit | frontend/src/pages/DataCollection.jsx:100 | joining the pieces of a split gives the text back |
| Text.JoinCons | frontend/src/pages/DataCollection.jsx:268 | `join` puts the separator between parts |
| Text.JoinTwo | frontend/src/pages/DataCollection.jsx:268 | join of two parts |
| Text.JoinThree | frontend/src/pages/DataCollection.jsx:268 | join of three parts |
| Text.IndexOf | frontend/src/pages/DataCollection.jsx:100 | the first occurrence of the separator |
| Text.EscapeQuotes | frontend/server/routes/claims.js:83-85 | `replace(/'/g, "''")` never shortens the text |
| Text.EscapeQuotesNoQuote | frontend/server/routes/claims.js:83-85 | text without quotes is unchanged |
| Text.EscapeQuotesAppend | frontend/server/routes/claims.js:83-85 | escaping works piece by piece |
| Text.ReadQuoted | frontend/server/routes/claims.js:83-85 | the SQL reading of a literal consumes at least its closing quote |
| Text.ReadQuotedEscape | frontend/server/routes/claims.js:83-85 | an escaped value, closed, reads back as the value |
| Text.UpperEscapeCommute | frontend/src/pages/DSS.jsx:158-159 | upper-casing and escaping commute |

## Left out

- The upstream services (`queryEsri`, `fetch`) are an oracle parameter. URL and `URLSearchParams` encoding and timeouts are not modelled. In claims.js an oracle reply of `None` is what `queryEsri` returns for a status that is not ok or a body that is not JSON (claims.js:75-76).
- A `fetch` that rejects is not modelled: claims.js:74 awaits it outside any `try`, so the rejection ends `/map-points` with status 500 (claims.js:272-274). The entries cached before it stay in `centroidCache`.
- `Dss.LoadVillages`: a failed request or body during the crawl lands in the `catch` of DSS.jsx:363-365, which sets the villages to the empty list and drops the pages already collected. The model's crawl has no failing request.
- `Mapping.StateQueries`, `Mapping.ShowStateBoundary`: a reply of `None` stands for a reply without features, after which the by-name query is sent. A first request or JSON parse that throws instead jumps to the `catch` of Mapping.jsx:89-91, and the by-name query is never sent; the model does not separate the two.
- `Mapping.ShowDistrictBoundary`: a district request or JSON parse that throws ends in the `catch` of Mapping.jsx:139-141 with nothing shown, where the model shows the `None` reply.
- `Geometry.CentroidOfEsriGeometry`, `Geometry.CentroidOfGeoJson`: inputs that make the source throw are not representable. In claims.js:64 a truthy `paths`, or one of its paths, that is not iterable throws. In claims.js:42 a null polygon throws at `poly[0]`. Either throw leaves the tier and ends `/map-points` with status 500. The model's geometry types hold only lists, so these inputs cannot be written.
- `MapPoints.PatchSet`, `MapPoints.BuildSetUpdatesWin`: an `updates` entry under `__proto__` is modelled as adding no field. In the source, an object or null value also replaces the prototype of `$set`; this is not modelled, nor is what the database driver makes of inherited fields.
- `Mapping.StateCodeKnown`, `Resolver.CodeOf`, `Resolver.Fallback`, `Dss.StateCodes`: the lookup tables (`STATE_CODE`, `STATE_LABEL_TO_CODE`, `STATE_FALLBACK_CENTROIDS`) are modelled as maps of their own keys. In the source they are JavaScript objects, so a name inherited from `Object.prototype` (`toString`, `constructor`, `__proto__`) also finds a value. For such a state name, the Mapping guard passes. The state fallback is then a function, so claims.js caches `{lon: undefined, lat: undefined}` and the record ends at the India point. The model does not cover such names.
- The Mongo store is left out: `Claim.find` is modelled by the filter's meaning on one record, without `select` or `.limit(2000)`. The ObjectId check of claims.js:388 and `findByIdAndUpdate` are left out too; `PatchSet` models only the `$set` document.
- `new Date()` in the PATCH handler is a parameter `now`.
- The other routes of claims.js, report.js, the React state, layers and UI, and the other context files are not part of this model.
- `async`/`await` is modelled as sequential calls, and concurrent requests sharing `centroidCache` are not modelled.
- The requests each tier issues are a ghost sequence, kept for the proofs about which queries are sent.
- `Dss.CollectVillageNames`, `Dss.CrawlNames`, `Dss.LoadVillages`: the `while (true)` pagination loop runs against an arbitrary server, so the model bounds it by a `fuel` count. A server that keeps answering "exceeded transfer limit" is cut off after `fuel` pages.
- Numbers are real numbers. IEEE-754 rounding and overflow in the centroid sums are not modelled; finite inputs give a finite sum here. `Number(x)` and `parseFloat` on arbitrary text are modelled only for the decimal forms that survive `replace(/[^0-9.\-]/g, '')` (exponents and `Infinity` cannot survive it).
- Letter case (`toLowerCase`, `toUpperCase`, the regular expressions' `i` flag) is folded for ASCII letters only, with no Unicode case mapping.
- `localeCompare` is modelled as code-unit lexicographic order.
- Mapping.jsx's bounds fold reads `coordinates[0]` of the first feature as one ring of points. A MultiPolygon feature, whose `coordinates[0]` is a polygon, is not modelled.
- URL query parameters are modelled as an ordered list of key/value pairs with at most one value per key.
- `MapPoints.Ladder` is written through a generic `LadderBy` over three step functions. Each step is the guarded tier call of claims.js:246-248.
- `Labels.MatchLine`: the regular-expression engine is modelled only for the pattern `pickAfterLabel` builds: an alternation of literal labels, then `s*[:-=]?s*(.+)$`.

## Findings

| source | as written | input that shows it | evidently intended | confidence | as-written member | corrected member |
|---|---|---|---|---|---|---|
| frontend/src/pages/Mapping.jsx:110 | the district name is interpolated into `district='...'` without doubling its quotes | district name `Ma'a` (state code OD): the WHERE text holds an unterminated literal | escape the name as the state name is escaped on line 51 | not executed | Mapping.DistrictQuoteExample | Mapping.ShowDistrictBoundaryCorrected |
