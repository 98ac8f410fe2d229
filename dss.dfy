/** The decision-support page, frontend/src/pages/DSS.jsx: the WHERE clauses
    it sends to the district and village services, the attribute picker, the
    district list, the paginated village-name crawl and the parameters of a
    report request. The services are oracles from a WHERE clause (and an
    offset) to their reply. */
module Dss {
  import opened Wrappers
  import opened Text
  import opened Ordering
  import opened Sql
  import Resolver

  // ---------------------------------------------------------------------------
  // Attribute rows
  // ---------------------------------------------------------------------------

  /** An attribute value: a string, or any other JSON value given by its
      truthiness and the text `String(...)` makes of it. */
  datatype Attr = Str(s: string) | Other(truthy: bool, text: string)

  predicate Truthy(a: Attr) {
    if a.Str? then a.s != "" else a.truthy
  }

  function AsString(a: Attr): string {
    if a.Str? then a.s else a.text
  }

  /** `pickFirst(attrs, candidates)`: the value of the first candidate that is
      a key of the row, whatever that value is; None for `undefined`. */
  function PickFirst(attrs: map<string, Attr>, candidates: seq<string>): Option<Attr>
  {
    if candidates == [] then None
    else if candidates[0] in attrs then Some(attrs[candidates[0]])
    else PickFirst(attrs, candidates[1..])
  }

  lemma {:induction false} PickFirstFindsFirstKey(attrs: map<string, Attr>, candidates: seq<string>, i: nat)
    requires i < |candidates| && candidates[i] in attrs
    requires forall j :: 0 <= j < i ==> candidates[j] !in attrs
    ensures PickFirst(attrs, candidates) == Some(attrs[candidates[i]])
  {
    if i > 0 {
      PickFirstFindsFirstKey(attrs, candidates[1..], i - 1);
    }
  }

  lemma {:induction false} PickFirstUndefined(attrs: map<string, Attr>, candidates: seq<string>)
    ensures PickFirst(attrs, candidates).None? <==> forall j :: 0 <= j < |candidates| ==> candidates[j] !in attrs
  {
    if candidates != [] {
      PickFirstUndefined(attrs, candidates[1..]);
      assert forall j :: 1 <= j < |candidates| ==> candidates[j] == candidates[1..][j - 1];
    }
  }

  const DistrictFieldCandidates: seq<string> := ["district", "District", "DISTRICT"]

  /** `String(r.district || pickFirst(r, candidates) || '').trim()`. */
  function RowDistrict(row: map<string, Attr>): string {
    Trim(DistrictValue(row))
  }

  /** `String(r.district || pickFirst(r, candidates) || '')`. */
  function DistrictValue(row: map<string, Attr>): string {
    if "district" in row && Truthy(row["district"]) then AsString(row["district"])
    else match PickFirst(row, DistrictFieldCandidates)
      case Some(a) => if Truthy(a) then AsString(a) else ""
      case None => ""
  }

  /** A key that is present with an empty value stops the search: an empty
      `district` hides a filled `District`, and the row gives no name. */
  lemma EmptyDistrictHidesVariant()
    ensures RowDistrict(map["district" := Str(""), "District" := Str("Khammam")]) == ""
  {
    var row := map["district" := Str(""), "District" := Str("Khammam")];
    PickFirstFindsFirstKey(row, DistrictFieldCandidates, 0);
  }

  /** Without a `district` key, the first later candidate present is used. */
  lemma DistrictVariantUsed(row: map<string, Attr>, name: string)
    requires "district" !in row && "District" in row && row["District"] == Str(name)
    ensures RowDistrict(row) == Trim(name)
  {
    PickFirstFindsFirstKey(row, DistrictFieldCandidates, 1);
  }

  /** `set.add(x)` on a set kept as its insertion-ordered list of members. */
  function Added(s: seq<string>, x: string): (r: seq<string>)
    requires Distinct(s)
    ensures Distinct(r)
    ensures forall y :: y in r <==> y in s || y == x
  {
    if x in s then s else s + [x]
  }

  // ---------------------------------------------------------------------------
  // WHERE clauses
  // ---------------------------------------------------------------------------

  /** The codes of a state on the district service: the label mapped through
      the label-to-code table (unknown labels unchanged), with `TS` widened
      to `TS` and `TG`. */
  function StateCodes(stateLabel: string): (codes: seq<string>)
    ensures |codes| >= 1
  {
    var code := Resolver.CodeOf(stateLabel);
    if code == "TS" then ["TS", "TG"] else [code]
  }

  /** `buildWhereForState_onDistrictsFS`. */
  function StateWhere(stateLabel: string): string {
    "state IN (" + Join(QuoteEach(StateCodes(stateLabel)), ",") + ")"
  }

  /** `buildWhereForDistrict_onDistrictsFS`. */
  function DistrictWhere(stateLabel: string, district: string): string {
    "(" + (StateWhere(stateLabel) + (") AND (" + (DistrictClause(district) + ")")))
  }

  /** The district is escaped first and then upper-cased. */
  function DistrictClause(district: string): string {
    "UPPER(district)=" + Quoted(Upper(EscapeQuotes(district)))
  }

  lemma StateCodesOfLabels(stateLabel: string)
    ensures StateCodes("Telangana") == ["TS", "TG"]
    ensures StateCodes("Odisha") == ["OD"] && StateCodes("Tripura") == ["TR"] && StateCodes("Madhya Pradesh") == ["MP"]
    ensures stateLabel !in Resolver.StateLabelToCode && stateLabel != "TS" ==> StateCodes(stateLabel) == [stateLabel]
  {
  }

  /** The state clause lists exactly the state's codes, each as one SQL
      literal. */
  lemma StateWhereQuotesCodes(stateLabel: string)
    ensures Literals(StateWhere(stateLabel)) == Some(StateCodes(stateLabel))
  {
    var list := Join(QuoteEach(StateCodes(stateLabel)), ",");
    LiteralsOfQuotedList(StateCodes(stateLabel), ",");
    LiteralsPlain(")", []);
    assert ")" + [] == ")";
    LiteralsAppend(list, ")");
    assert StateCodes(stateLabel) + [] == StateCodes(stateLabel);
    assert StateWhere(stateLabel) == "state IN (" + (list + ")");
    LiteralsPlain("state IN (", list + ")");
  }

  lemma DistrictClauseQuotesName(district: string)
    ensures Literals(DistrictClause(district)) == Some([Upper(district)])
  {
    UpperEscapeCommute(district);
    EscapedFieldClause("UPPER(district)=", Upper(EscapeQuotes(district)), Upper(district));
  }

  lemma EscapedFieldClause(field: string, e: string, x: string)
    requires NoQuote(field) && e == EscapeQuotes(x)
    ensures Literals(field + Quoted(e)) == Some([x])
  {
    FieldClauseQuotes(field, x);
  }

  /** `(<state clause>) AND (<district clause>)` has the literals of both. */
  lemma LiteralsOfConjunction(sw: string, dc: string, ls: seq<string>, ld: seq<string>)
    requires Literals(sw) == Some(ls) && Literals(dc) == Some(ld)
    requires dc == [] || dc[0] != '\''
    ensures Literals("(" + (sw + (") AND (" + (dc + ")")))) == Some(ls + ld)
  {
    var t1 := dc + ")";
    LiteralsPlain(")", []);
    assert ")" + [] == ")";
    LiteralsAppend(dc, ")");
    assert Literals(t1) == Some(ld) by {
      assert ld + [] == ld;
    }
    var t2 := ") AND (" + t1;
    LiteralsPlain(") AND (", t1);
    LiteralsAppend(sw, t2);
    LiteralsPlain("(", sw + t2);
  }

  /** The district clause carries the state's codes and then the upper-cased
      district, each as one literal: a quote in the district cannot end its
      literal early. */
  lemma DistrictWhereQuotesNames(stateLabel: string, district: string)
    ensures Literals(DistrictWhere(stateLabel, district)) == Some(StateCodes(stateLabel) + [Upper(district)])
  {
    StateWhereQuotesCodes(stateLabel);
    DistrictClauseQuotesName(district);
    assert DistrictClause(district)[0] == 'U';
    LiteralsOfConjunction(StateWhere(stateLabel), DistrictClause(district), StateCodes(stateLabel), [Upper(district)]);
  }

  /** The village-list clause of `loadVillagesForDistrict`. */
  function VillagesWhere(stateName: string, districtName: string): string {
    Join(["UPPER(State)=UPPER(" + Quote(stateName) + ")", "UPPER(District)=UPPER(" + Quote(districtName) + ")"], " AND ")
  }

  /** The village-boundary clause of `showVillageBoundary`. */
  function VillageBoundaryWhere(stateName: string, districtName: string, villageName: string): string {
    Join(["State=" + Quote(stateName), "District=" + Quote(districtName), "Name=" + Quote(villageName)], " AND ")
  }

  /** Clauses joined by ` AND ` have the literals of the clauses, in order. */
  lemma LiteralsOfAnd(c1: string, c2: string, l1: seq<string>, l2: seq<string>)
    requires Literals(c1) == Some(l1) && Literals(c2) == Some(l2)
    ensures Literals(c1 + (" AND " + c2)) == Some(l1 + l2)
  {
    LiteralsPlain(" AND ", c2);
    LiteralsAppend(c1, " AND " + c2);
  }

  lemma VillagesWhereQuotesNames(stateName: string, districtName: string)
    ensures Literals(VillagesWhere(stateName, districtName)) == Some([stateName, districtName])
  {
    var c1 := "UPPER(State)=UPPER(" + Quote(stateName) + ")";
    var c2 := "UPPER(District)=UPPER(" + Quote(districtName) + ")";
    JoinTwo(c1, c2, " AND ");
    LiteralsOfClause("UPPER(State)=UPPER(", stateName, ")");
    LiteralsOfClause("UPPER(District)=UPPER(", districtName, ")");
    LiteralsOfAnd(c1, c2, [stateName], [districtName]);
    assert [stateName] + [districtName] == [stateName, districtName];
  }

  lemma VillageBoundaryWhereQuotesNames(stateName: string, districtName: string, villageName: string)
    ensures Literals(VillageBoundaryWhere(stateName, districtName, villageName)) == Some([stateName, districtName, villageName])
  {
    var c1 := "State=" + Quote(stateName);
    var c2 := "District=" + Quote(districtName);
    var c3 := "Name=" + Quote(villageName);
    JoinThree(c1, c2, c3, " AND ");
    FieldClauseQuotes("State=", stateName);
    FieldClauseQuotes("District=", districtName);
    FieldClauseQuotes("Name=", villageName);
    LiteralsOfAnd(c2, c3, [districtName], [villageName]);
    assert [districtName] + [villageName] == [districtName, villageName];
    LiteralsOfAnd(c1, c2 + (" AND " + c3), [stateName], [districtName, villageName]);
    assert [stateName] + [districtName, villageName] == [stateName, districtName, villageName];
  }

  lemma FieldClauseQuotes(field: string, x: string)
    requires NoQuote(field)
    ensures Literals(field + Quote(x)) == Some([x])
  {
    assert field + Quote(x) == field + Quote(x) + "";
    LiteralsOfClause(field, x, "");
  }

  // ---------------------------------------------------------------------------
  // District options
  // ---------------------------------------------------------------------------

  /** The district service: the rows returned for a WHERE clause, or None
      when `queryFeatures` throws (a reply that is not ok, a failed request,
      a body that is not JSON). */
  type RowSource = string -> Option<seq<map<string, Attr>>>

  /** The names `name` keeps from the items: the members of the Set a loop
      fills. */
  function NameSet<T>(items: seq<T>, name: T -> Option<string>): set<string> {
    if items == [] then {}
    else
      var n := name(items[|items| - 1]);
      NameSet(items[..|items| - 1], name) + (if n.Some? then {n.value} else {})
  }

  lemma {:induction false} NameSetMeaning<T>(items: seq<T>, name: T -> Option<string>, x: string)
    ensures x in NameSet(items, name) <==> exists i :: 0 <= i < |items| && name(items[i]) == Some(x)
  {
    if items != [] {
      var init := items[..|items| - 1];
      NameSetMeaning(init, name, x);
      if x in NameSet(init, name) {
        var i :| 0 <= i < |init| && name(init[i]) == Some(x);
        assert items[i] == init[i];
      }
      if x !in NameSet(init, name) && name(items[|items| - 1]) != Some(x) {
        forall i | 0 <= i < |items| ensures name(items[i]) != Some(x) {
          if i < |init| {
            assert items[i] == init[i];
          }
        }
      }
    }
  }

  /** The members of a list. */
  function Elems(s: seq<string>): (r: set<string>)
    ensures forall x :: x in r <==> x in s
  {
    set x | x in s
  }

  /** The loop body `if (x) out.add(x)` over a list of items. */
  method AddNames<T>(names: seq<string>, items: seq<T>, name: T -> Option<string>) returns (out: seq<string>)
    requires Distinct(names)
    ensures Distinct(out)
    ensures Elems(out) == Elems(names) + NameSet(items, name)
  {
    out := names;
    for j := 0 to |items|
      invariant Distinct(out)
      invariant Elems(out) == Elems(names) + NameSet(items[..j], name)
    {
      assert items[..j + 1][..j] == items[..j];
      var n := name(items[j]);
      if n.Some? {
        out := Added(out, n.value);
      }
    }
    assert items[..|items|] == items;
  }

  /** The name a district row contributes, when it is not empty. */
  function DistrictOf(row: map<string, Attr>): Option<string> {
    var dt := RowDistrict(row);
    if dt != "" then Some(dt) else None
  }

  /** `loadDistrictsForState`: the non-empty trimmed names of the rows, each
      once, sorted. When the query throws, the `catch` only reports the
      error (`failed`), so the options of the state shown before,
      `previous`, stay on offer. */
  method LoadDistrictOptions(query: RowSource, stateName: string, previous: seq<string>) returns (options: seq<string>, failed: bool)
    ensures stateName == "" ==> options == [] && !failed
    ensures failed <==> stateName != "" && query(StateWhere(stateName)).None?
    ensures failed ==> options == previous
    ensures !failed ==> Sorted(options) && Distinct(options)
    ensures Sorted(previous) && Distinct(previous) ==> Sorted(options) && Distinct(options)
    ensures stateName != "" && query(StateWhere(stateName)).Some? ==>
      forall x :: x in options <==> x in NameSet(query(StateWhere(stateName)).value, DistrictOf)
  {
    if stateName == "" {
      return [], false;
    }
    var reply := query(StateWhere(stateName));
    if reply.None? {
      return previous, true;
    }
    failed := false;
    var rows := reply.value;
    var out := AddNames([], rows, DistrictOf);
    options := Sort(out);
    PermutationKeepsDistinct(out, options);
    assert forall x :: x in options <==> x in multiset(out);
  }

  /** The options are the non-empty trimmed district names of the rows. */
  lemma DistrictOptionsMeaning(rows: seq<map<string, Attr>>, x: string)
    ensures x in NameSet(rows, DistrictOf) <==> x != "" && Trim(x) == x && exists i :: 0 <= i < |rows| && RowDistrict(rows[i]) == x
  {
    NameSetMeaning(rows, DistrictOf, x);
    if exists i :: 0 <= i < |rows| && RowDistrict(rows[i]) == x {
      var i :| 0 <= i < |rows| && RowDistrict(rows[i]) == x;
      if x != "" {
        assert DistrictOf(rows[i]) == Some(x);
      }
    }
    if x in NameSet(rows, DistrictOf) {
      var i :| 0 <= i < |rows| && DistrictOf(rows[i]) == Some(x);
      RowDistrictTrimmed(rows[i]);
    }
  }

  lemma RowDistrictTrimmed(row: map<string, Attr>)
    ensures Trim(RowDistrict(row)) == RowDistrict(row)
  {
    TrimIdempotent(DistrictValue(row));
  }

  // ---------------------------------------------------------------------------
  // Village crawl
  // ---------------------------------------------------------------------------

  /** One page of the village service: `features` is None when it is not an
      array. */
  datatype VillagePage = VillagePage(features: Option<seq<Feature>>, exceededTransferLimit: bool)

  /** One feature of a page and its `attributes`. */
  datatype Feature = Feature(attributes: map<string, Attr>)

  /** The village service: the page for a WHERE clause and a result offset. */
  type VillageSource = (string, nat) -> VillagePage

  /** `feat.attributes.Name || feat.attributes.name`, kept, trimmed, when it is
      a non-empty string. */
  function VillageName(feat: Feature): (r: Option<string>)
    ensures r.Some? ==> Trim(r.value) == r.value
  {
    var attrs := feat.attributes;
    var n :=
      if "Name" in attrs && Truthy(attrs["Name"]) then Some(attrs["Name"])
      else if "name" in attrs then Some(attrs["name"])
      else None;
    if n.Some? && n.value.Str? && n.value.s != "" then
      TrimIdempotent(n.value.s);
      Some(Trim(n.value.s))
    else None
  }

  /** The loop goes on only after a non-empty page that reports more. */
  predicate Continues(p: VillagePage) {
    p.features.Some? && p.exceededTransferLimit && |p.features.value| > 0
  }

  /** The offsets the loop requests, at most `fuel` of them. */
  function Crawl(src: VillageSource, where: string, offset: nat, fuel: nat): seq<nat>
    decreases fuel
  {
    if fuel == 0 then []
    else
      var p := src(where, offset);
      [offset] + (if Continues(p) then Crawl(src, where, offset + |p.features.value|, fuel - 1) else [])
  }

  /** The names on one page, none when its features are not an array. */
  function PageNames(p: VillagePage): set<string> {
    if p.features.Some? then NameSet(p.features.value, VillageName) else {}
  }

  /** The names the loop collects from the crawl from `offset`. */
  function CrawlNames(src: VillageSource, where: string, offset: nat, fuel: nat): set<string> {
    CrawlNamesBy(src, where, offset, fuel, PageNames)
  }

  /** The names collected from the crawl from `offset`, `names` giving those
      of one page. */
  function CrawlNamesBy(src: VillageSource, where: string, offset: nat, fuel: nat, names: VillagePage -> set<string>): set<string>
    decreases fuel
  {
    if fuel == 0 then {}
    else
      var p := src(where, offset);
      names(p) + (if Continues(p) then CrawlNamesBy(src, where, offset + |p.features.value|, fuel - 1, names) else {})
  }

  /** Each request asks for the page at the previous offset plus the number
      of features the previous page returned, and only after a page that
      continues; the crawl stops early only at a page that does not. */
  lemma CrawlAdvancesByPageSize(src: VillageSource, where: string, offset: nat, fuel: nat)
    ensures var c := Crawl(src, where, offset, fuel);
      && |c| <= fuel
      && (fuel > 0 ==> c != [] && c[0] == offset)
      && (forall k :: 0 <= k < |c| - 1 ==>
            Continues(src(where, c[k])) && c[k + 1] == c[k] + |src(where, c[k]).features.value|)
      && (0 < |c| < fuel ==> !Continues(src(where, c[|c| - 1])))
  {
    CrawlShape(src, where, offset, fuel);
    CrawlSteps(src, where, offset, fuel);
  }

  /** The crawl requests at most `fuel` pages, the first at `offset`, and
      when it stops early its last page does not continue. */
  lemma {:induction false} CrawlShape(src: VillageSource, where: string, offset: nat, fuel: nat)
    ensures var c := Crawl(src, where, offset, fuel);
      && |c| <= fuel
      && (fuel > 0 ==> c != [] && c[0] == offset)
      && (0 < |c| < fuel ==> !Continues(src(where, c[|c| - 1])))
    decreases fuel
  {
    if fuel > 0 {
      var p := src(where, offset);
      if Continues(p) {
        var next := offset + |p.features.value|;
        CrawlShape(src, where, next, fuel - 1);
        var rest := Crawl(src, where, next, fuel - 1);
        var c := Crawl(src, where, offset, fuel);
        assert c == [offset] + rest;
        if 0 < |c| < fuel {
          assert c[|c| - 1] == rest[|rest| - 1];
        }
      } else {
        assert Crawl(src, where, offset, fuel) == [offset];
      }
    }
  }

  /** Each offset but the last is of a page that continues, and the next
      offset is it plus that page's length. */
  predicate Advancing(src: VillageSource, where: string, c: seq<nat>) {
    forall k :: 0 <= k < |c| - 1 ==>
      Continues(src(where, c[k])) && c[k + 1] == c[k] + |src(where, c[k]).features.value|
  }

  /** The crawl advances page by page. */
  lemma {:induction false} CrawlSteps(src: VillageSource, where: string, offset: nat, fuel: nat)
    ensures Advancing(src, where, Crawl(src, where, offset, fuel))
    decreases fuel
  {
    if fuel > 0 {
      var p := src(where, offset);
      if Continues(p) {
        var next := offset + |p.features.value|;
        CrawlSteps(src, where, next, fuel - 1);
        var rest := Crawl(src, where, next, fuel - 1);
        var c := Crawl(src, where, offset, fuel);
        assert c == [offset] + rest;
        forall k | 0 <= k < |c| - 1
          ensures Continues(src(where, c[k])) && c[k + 1] == c[k] + |src(where, c[k]).features.value|
        {
          if k > 0 {
            assert c[k] == rest[k - 1] && c[k + 1] == rest[k];
          } else {
            assert c[1] == rest[0] == next;
          }
        }
      } else {
        assert Crawl(src, where, offset, fuel) == [offset];
      }
    }
  }

  /** One of the pages at the given offsets holds `x`. */
  predicate SomePageHolds(src: VillageSource, where: string, offsets: seq<nat>, names: VillagePage -> set<string>, x: string) {
    exists k :: 0 <= k < |offsets| && x in names(src(where, offsets[k]))
  }

  /** One of the pages the crawl from `offset` requests holds `x`. */
  predicate OnRequestedPage(src: VillageSource, where: string, offset: nat, fuel: nat, x: string) {
    SomePageHolds(src, where, Crawl(src, where, offset, fuel), PageNames, x)
  }

  /** The names on the pages at the given offsets. */
  function NamesOfPages(src: VillageSource, where: string, offsets: seq<nat>, names: VillagePage -> set<string>): set<string> {
    if offsets == [] then {} else names(src(where, offsets[0])) + NamesOfPages(src, where, offsets[1..], names)
  }

  /** A name is collected exactly when one of the requested pages holds it. */
  lemma CrawlNamesMeaning(src: VillageSource, where: string, offset: nat, fuel: nat, x: string)
    ensures x in CrawlNames(src, where, offset, fuel) <==> OnRequestedPage(src, where, offset, fuel, x)
  {
    CrawlNamesOfCrawl(src, where, offset, fuel, PageNames, x);
    NamesOfPagesMeaning(src, where, Crawl(src, where, offset, fuel), PageNames, x);
  }

  /** The names the loop collects are those of the pages it requests. */
  lemma {:induction false} CrawlNamesOfCrawl(src: VillageSource, where: string, offset: nat, fuel: nat,
                                             names: VillagePage -> set<string>, x: string)
    ensures x in CrawlNamesBy(src, where, offset, fuel, names) <==>
      x in NamesOfPages(src, where, Crawl(src, where, offset, fuel), names)
    decreases fuel
  {
    if fuel > 0 {
      var p := src(where, offset);
      var rest := if Continues(p) then Crawl(src, where, offset + |p.features.value|, fuel - 1) else [];
      if Continues(p) {
        CrawlNamesOfCrawl(src, where, offset + |p.features.value|, fuel - 1, names, x);
      }
      assert ([offset] + rest)[0] == offset && ([offset] + rest)[1..] == rest;
    }
  }

  lemma {:induction false} NamesOfPagesMeaning(src: VillageSource, where: string, offsets: seq<nat>,
                                               names: VillagePage -> set<string>, x: string)
    ensures x in NamesOfPages(src, where, offsets, names) <==> SomePageHolds(src, where, offsets, names, x)
    decreases |offsets|
  {
    if offsets != [] {
      NamesOfPagesMeaning(src, where, offsets[1..], names, x);
      assert [offsets[0]] + offsets[1..] == offsets;
      SomePageHoldsCons(src, where, offsets[0], offsets[1..], names, x);
    }
  }

  lemma SomePageHoldsCons(src: VillageSource, where: string, o: nat, rest: seq<nat>, names: VillagePage -> set<string>, x: string)
    ensures SomePageHolds(src, where, [o] + rest, names, x) <==>
      x in names(src(where, o)) || SomePageHolds(src, where, rest, names, x)
  {
    var c := [o] + rest;
    if x in names(src(where, o)) {
      assert c[0] == o;
    }
    if SomePageHolds(src, where, rest, names, x) {
      var k :| 0 <= k < |rest| && x in names(src(where, rest[k]));
      assert c[k + 1] == rest[k];
    }
    if SomePageHolds(src, where, c, names, x) {
      var k :| 0 <= k < |c| && x in names(src(where, c[k]));
      if k > 0 {
        assert c[k] == rest[k - 1];
      }
    }
  }

  /** One request of the loop for the names: once the names of the requested
      page are collected, what is left are those of the later requests. */
  lemma CrawlNamesStep(src: VillageSource, where: string, offset: nat, fuel: nat,
                       all: set<string>, before: set<string>, after: set<string>)
    requires fuel > 0
    requires all == before + CrawlNames(src, where, offset, fuel)
    requires after == before + PageNames(src(where, offset))
    ensures var p := src(where, offset);
      all == after + (if Continues(p) then CrawlNames(src, where, offset + |p.features.value|, fuel - 1) else {})
  {
  }

  /** The names of the page at `offset` added to those collected so far: what
      is still to be collected is what the later requests hold. */
  method AddPageNames(names: seq<string>, ghost all: set<string>, src: VillageSource, where: string, offset: nat, fuel: nat)
    returns (out: seq<string>)
    requires fuel > 0
    requires Distinct(names) && all == Elems(names) + CrawlNames(src, where, offset, fuel)
    ensures var p := src(where, offset);
      && Distinct(out)
      && all == Elems(out) + (if Continues(p) then CrawlNames(src, where, offset + |p.features.value|, fuel - 1) else {})
  {
    var page := src(where, offset);
    if page.features.Some? {
      out := AddNames(names, page.features.value, VillageName);
    } else {
      out := names;
    }
    CrawlNamesStep(src, where, offset, fuel, all, Elems(names), Elems(out));
  }

  /** The `while (true)` loop: pages are requested until one does not
      continue, at most `fuel` of them; every name is added to the set. */
  method CollectVillageNames(src: VillageSource, where: string, fuel: nat) returns (names: seq<string>)
    ensures Distinct(names) && forall x :: x in names <==> x in CrawlNames(src, where, 0, fuel)
  {
    names := [];
    var resultOffset: nat := 0;
    var remaining := fuel;
    ghost var all := CrawlNames(src, where, 0, fuel);
    while remaining > 0
      invariant Distinct(names)
      invariant all == Elems(names) + CrawlNames(src, where, resultOffset, remaining)
      decreases remaining
    {
      var page := src(where, resultOffset);
      names := AddPageNames(names, all, src, where, resultOffset, remaining);
      remaining := remaining - 1;
      if !Continues(page) {
        assert all == Elems(names);
        break;
      }
      resultOffset := resultOffset + |page.features.value|;
    }
    assert all == Elems(names) by {
      if remaining == 0 {
        assert CrawlNames(src, where, resultOffset, remaining) == {};
      }
    }
  }

  /** `loadVillagesForDistrict`: `fuel` bounds the number of pages requested,
      where the page loops until the service stops reporting more. */
  method LoadVillages(src: VillageSource, stateName: string, districtName: string, fuel: nat)
    returns (villages: seq<string>)
    ensures stateName == "" || districtName == "" ==> villages == []
    ensures stateName != "" && districtName != "" ==>
      forall x :: x in villages <==> x in CrawlNames(src, VillagesWhere(stateName, districtName), 0, fuel)
    ensures Sorted(villages) && Distinct(villages)
  {
    if stateName == "" || districtName == "" {
      return [];
    }
    var names := CollectVillageNames(src, VillagesWhere(stateName, districtName), fuel);
    villages := Sort(names);
    PermutationKeepsDistinct(names, villages);
    assert forall x :: x in villages <==> x in multiset(names);
  }


  // ---------------------------------------------------------------------------
  // Report request
  // ---------------------------------------------------------------------------

  /** `onFetchData`: an error without a state, otherwise the query
      parameters in the order they are set. */
  function ReportParams(state: string, district: string, village: string): Result<seq<(string, string)>, string> {
    if state == "" then Err("Please select a State first.")
    else Ok([("state", state)] + (if district != "" then [("district", district)] else [])
                               + (if village != "" then [("village", village)] else []))
  }

  lemma ReportParamsMeaning(state: string, district: string, village: string)
    ensures ReportParams(state, district, village).Err? <==> state == ""
    ensures ReportParams(state, district, village).Ok? ==>
      var ps := ReportParams(state, district, village).value;
      && ps[0] == ("state", state)
      && (forall x :: ("state", x) in ps <==> x == state)
      && (forall x :: ("district", x) in ps <==> district != "" && x == district)
      && (forall x :: ("village", x) in ps <==> village != "" && x == village)
      && |ps| == 1 + (if district != "" then 1 else 0) + (if village != "" then 1 else 0)
  {
  }
}
