/** The pure parts of the claims desk in frontend/src/pages/DataCollection.jsx:
    the state list with its counts, the district cleaning and query
    parameters of the two claim lists, and the address column. */
module DataCollection {
  import opened Wrappers
  import opened Text

  // ---------------------------------------------------------------------------
  // filteredStates
  // ---------------------------------------------------------------------------

  /** The only states the page offers, in the order it shows them. */
  const AllowedStates: seq<string> := ["Odisha", "Tripura", "Telangana", "Madhya Pradesh"]

  /** One `{ state, count }` entry, from the API or shown on the page. */
  datatype StateCount = StateCount(state: string, count: int)

  /** `new Map(states.map(s => [s.state, s.count]))`: the entries are set in
      order, so a later entry for the same state replaces an earlier one. */
  function CountMap(entries: seq<StateCount>): map<string, int>
  {
    if entries == [] then map[]
    else
      var e := entries[|entries| - 1];
      CountMap(entries[..|entries| - 1])[e.state := e.count]
  }

  /** `map.get(s) || 0`. */
  function CountOf(m: map<string, int>, s: string): int {
    if s in m then m[s] else 0
  }

  /** `allowedStates.map(s => ({ state: s, count: map.get(s) || 0 }))`. */
  function FilteredStates(entries: seq<StateCount>): (r: seq<StateCount>)
    ensures |r| == |AllowedStates|
    ensures forall k :: 0 <= k < |r| ==> r[k].state == AllowedStates[k]
  {
    var m := CountMap(entries);
    seq(|AllowedStates|, k requires 0 <= k < |AllowedStates| => StateCount(AllowedStates[k], CountOf(m, AllowedStates[k])))
  }

  /** No entry after position `i` names the same state. */
  predicate LastEntryFor(entries: seq<StateCount>, i: int) {
    0 <= i < |entries| && forall j :: i < j < |entries| ==> entries[j].state != entries[i].state
  }

  /** A state is in the map exactly when some entry names it. */
  lemma {:induction false} CountMapKeys(entries: seq<StateCount>, s: string)
    ensures s in CountMap(entries) <==> exists i :: 0 <= i < |entries| && entries[i].state == s
    decreases |entries|
  {
    if entries != [] {
      var init := entries[..|entries| - 1];
      CountMapKeys(init, s);
      if exists i :: 0 <= i < |init| && init[i].state == s {
        var i :| 0 <= i < |init| && init[i].state == s;
        assert entries[i] == init[i];
      }
      if exists i :: 0 <= i < |entries| && entries[i].state == s {
        var i :| 0 <= i < |entries| && entries[i].state == s;
        if i < |init| {
          assert init[i] == entries[i];
        }
      }
    }
  }

  /** The count stored for a state is the one of its last entry. */
  lemma {:induction false} CountMapLast(entries: seq<StateCount>, i: int)
    requires LastEntryFor(entries, i)
    ensures entries[i].state in CountMap(entries)
    ensures CountMap(entries)[entries[i].state] == entries[i].count
    decreases |entries|
  {
    var init := entries[..|entries| - 1];
    if i < |entries| - 1 {
      assert entries[|entries| - 1].state != entries[i].state;
      assert init[i] == entries[i];
      CountMapLast(init, i);
    }
  }

  /** Each allowed state shows the count of the last entry naming it. */
  lemma LaterCountWins(entries: seq<StateCount>, i: int, k: int)
    requires LastEntryFor(entries, i)
    requires 0 <= k < |AllowedStates| && entries[i].state == AllowedStates[k]
    ensures FilteredStates(entries)[k] == StateCount(AllowedStates[k], entries[i].count)
  {
    CountMapLast(entries, i);
  }

  /** An allowed state the API does not list shows 0. */
  lemma MissingStateCountsZero(entries: seq<StateCount>, k: int)
    requires 0 <= k < |AllowedStates|
    requires forall i :: 0 <= i < |entries| ==> entries[i].state != AllowedStates[k]
    ensures FilteredStates(entries)[k] == StateCount(AllowedStates[k], 0)
  {
    CountMapKeys(entries, AllowedStates[k]);
  }

  /** An entry for a state the page does not offer changes nothing. */
  lemma OtherStatesIgnored(entries: seq<StateCount>, e: StateCount)
    requires e.state !in AllowedStates
    ensures FilteredStates(entries + [e]) == FilteredStates(entries)
  {
    assert (entries + [e])[..|entries|] == entries;
    var a := FilteredStates(entries + [e]);
    var b := FilteredStates(entries);
    forall k | 0 <= k < |AllowedStates| ensures a[k] == b[k] {
      assert AllowedStates[k] != e.state;
    }
  }

  // ---------------------------------------------------------------------------
  // The claim-list query parameters
  // ---------------------------------------------------------------------------

  /** `districtSel ? String(districtSel).split(',')[0].trim() : ''`. */
  function CleanDistrict(sel: string): string {
    if sel == "" then "" else Trim(Split(sel, ',')[0])
  }

  /** The cleaned district holds no comma and is already trimmed. */
  lemma CleanDistrictTidy(sel: string)
    ensures ',' !in CleanDistrict(sel)
    ensures Trim(CleanDistrict(sel)) == CleanDistrict(sel)
  {
    if sel != "" {
      var first := Split(sel, ',')[0];
      TrimAvoids(first, ',');
      TrimIdempotent(first);
    }
  }

  /** Only the text before the first comma is kept, trimmed. */
  lemma CleanDistrictBeforeComma(a: string, b: string)
    requires ',' !in a
    ensures CleanDistrict(a + "," + b) == Trim(a)
  {
    SplitFirstPiece(a, ',', b);
  }

  /** A district without a comma is only trimmed. */
  lemma CleanDistrictNoComma(s: string)
    requires ',' !in s
    ensures CleanDistrict(s) == Trim(s)
  {
  }

  /** The parameters of one request, in insertion order. */
  type Params = seq<(string, string)>

  /** `qs.get(key)`: the first value set under the key. */
  function Param(ps: Params, key: string): Option<string>
  {
    if ps == [] then None else if ps[0].0 == key then Some(ps[0].1) else Param(ps[1..], key)
  }

  /** `[(key, value)]` when the value is not empty. */
  function IfSet(key: string, value: string): Params {
    if value != "" then [(key, value)] else []
  }

  /** The UNAPPROVED claim list: no request without a selected state;
      otherwise status and state, the cleaned district and the village when
      they are not empty. */
  function ClaimsListParams(stateSel: string, districtSel: string, villageSel: string): Option<Params>
  {
    if stateSel == "" then None
    else Some(ListOf("UNAPPROVED", stateSel, CleanDistrict(districtSel), villageSel))
  }

  /** Status and state, then the district and the village when they are not
      empty. */
  function ListOf(status: string, stateSel: string, district: string, villageSel: string): Params {
    [("status", status), ("state", stateSel)] + IfSet("district", district) + IfSet("village", villageSel)
  }

  /** The APPROVED list of the selected state. */
  function ApprovedParams(stateSel: string): Option<Params>
  {
    if stateSel == "" then None else Some(ListOf("APPROVED", stateSel, "", ""))
  }

  lemma ParamCons(p: (string, string), rest: Params, key: string)
    ensures Param([p] + rest, key) == if p.0 == key then Some(p.1) else Param(rest, key)
  {
    assert ([p] + rest)[1..] == rest;
  }

  /** The value a key has in a list made of status, state and the two
      optional parameters. */
  lemma ListParam(status: string, stateSel: string, clean: string, villageSel: string, key: string)
    ensures Param(ListOf(status, stateSel, clean, villageSel), key)
      == if key == "status" then Some(status)
         else if key == "state" then Some(stateSel)
         else if key == "district" && clean != "" then Some(clean)
         else if key == "village" && villageSel != "" then Some(villageSel)
         else None
  {
    var v := IfSet("village", villageSel);
    var tail := IfSet("district", clean) + v;
    assert [("status", status), ("state", stateSel)] + IfSet("district", clean) + v
      == [("status", status)] + ([("state", stateSel)] + tail);
    ParamCons(("status", status), [("state", stateSel)] + tail, key);
    ParamCons(("state", stateSel), tail, key);
    if clean != "" {
      assert tail == [("district", clean)] + v;
      ParamCons(("district", clean), v, key);
    } else {
      assert tail == v;
    }
    if villageSel != "" {
      assert v == [("village", villageSel)] + [];
      ParamCons(("village", villageSel), [], key);
    }
  }

  /** The four keys of such a list. */
  lemma ListParamKeys(status: string, stateSel: string, clean: string, villageSel: string)
    ensures var ps := ListOf(status, stateSel, clean, villageSel);
      && Param(ps, "status") == Some(status)
      && Param(ps, "state") == Some(stateSel)
      && Param(ps, "district") == (if clean != "" then Some(clean) else None)
      && Param(ps, "village") == (if villageSel != "" then Some(villageSel) else None)
  {
    ListParam(status, stateSel, clean, villageSel, "status");
    ListParam(status, stateSel, clean, villageSel, "state");
    ListParam(status, stateSel, clean, villageSel, "district");
    ListParam(status, stateSel, clean, villageSel, "village");
  }

  /** What the claim-list request asks for. */
  lemma ClaimsListParamsMeaning(stateSel: string, districtSel: string, villageSel: string)
    ensures ClaimsListParams(stateSel, districtSel, villageSel).Some? <==> stateSel != ""
    ensures stateSel != "" ==>
      var ps := ClaimsListParams(stateSel, districtSel, villageSel).value;
      && Param(ps, "status") == Some("UNAPPROVED")
      && Param(ps, "state") == Some(stateSel)
      && Param(ps, "district") == (if CleanDistrict(districtSel) != "" then Some(CleanDistrict(districtSel)) else None)
      && Param(ps, "village") == (if villageSel != "" then Some(villageSel) else None)
  {
    ListParamKeys("UNAPPROVED", stateSel, CleanDistrict(districtSel), villageSel);
  }

  /** The approved list ignores the district and village selection. */
  lemma ApprovedParamsMeaning(stateSel: string)
    ensures ApprovedParams(stateSel).Some? <==> stateSel != ""
    ensures stateSel != "" ==>
      var ps := ApprovedParams(stateSel).value;
      && Param(ps, "status") == Some("APPROVED")
      && Param(ps, "state") == Some(stateSel)
      && Param(ps, "district") == None
      && Param(ps, "village") == None
  {
    ListParamKeys("APPROVED", stateSel, "", "");
  }

  // ---------------------------------------------------------------------------
  // The address column
  // ---------------------------------------------------------------------------

  /** `[village, district, state].filter(Boolean).join(', ') || '-'`; an
      absent part is "". */
  function AddressDisplay(village: string, district: string, state: string): string
  {
    var joined := Join(NonEmpty([village, district, state]), ", ");
    if joined == "" then "-" else joined
  }

  lemma NonEmptyThree(x: string, y: string, z: string)
    ensures NonEmpty([x, y, z]) == Kept(x) + Kept(y) + Kept(z)
  {
    var zs: seq<string> := [z];
    var yzs := [y] + zs;
    NonEmptyCons(z, []);
    assert [z] + [] == zs;
    NonEmptyCons(y, zs);
    NonEmptyCons(x, yzs);
    assert [x] + yzs == [x, y, z];
  }

  lemma {:induction false} JoinNotEmpty(parts: seq<string>, sep: string)
    requires parts != [] && parts[0] != ""
    ensures Join(parts, sep) != ""
  {
    if |parts| > 1 {
      assert Join(parts, sep) == parts[0] + sep + Join(parts[1..], sep);
    }
  }

  /** The column is never blank: a dash when every part is empty, otherwise
      the non-empty parts in order, separated by a comma and a space. */
  lemma AddressDisplayMeaning(village: string, district: string, state: string)
    ensures AddressDisplay(village, district, state) != ""
    ensures village == "" && district == "" && state == "" ==> AddressDisplay(village, district, state) == "-"
    ensures village != "" || district != "" || state != "" ==>
      AddressDisplay(village, district, state) == Join(NonEmpty([village, district, state]), ", ")
  {
    var parts := NonEmpty([village, district, state]);
    NonEmptyThree(village, district, state);
    if parts != [] {
      JoinNotEmpty(parts, ", ");
    }
  }

  /** All three parts present. */
  lemma FullAddress(village: string, district: string, state: string)
    requires village != "" && district != "" && state != ""
    ensures AddressDisplay(village, district, state) == village + ", " + district + ", " + state
  {
    NonEmptyThree(village, district, state);
    assert Kept(village) + Kept(district) + Kept(state) == [village, district, state];
    JoinThree(village, district, state, ", ");
    assert village + (", " + (district + (", " + state))) == village + ", " + district + ", " + state;
  }

  /** A missing village leaves no leading separator. */
  lemma AddressWithoutVillage(district: string, state: string)
    requires district != "" && state != ""
    ensures AddressDisplay("", district, state) == district + ", " + state
  {
    NonEmptyThree("", district, state);
    assert Kept("") + Kept(district) + Kept(state) == [district, state];
    JoinTwo(district, state, ", ");
  }
}
