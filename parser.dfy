/** The rest of frontend/server/services/parser.js: the form-type detector
    `detectFormType`, the coordinate reader (`normalizeGeoPoint` and the
    `Lat … Lon …` search) and `parseClaimFromText`, which assembles the claim
    record from them and from the label extractor of module Labels. */
module Parser {
  import opened Wrappers
  import opened Text
  import opened Geometry
  import opened Labels

  // ---------------------------------------------------------------------------
  // detectFormType
  // ---------------------------------------------------------------------------

  datatype FormType = IndividualClaimA | CommunityRightsClaimB | CommunityResourceClaimC

  /** The characters `\b` counts as word characters. */
  predicate IsWordChar(c: char) {
    'a' <= c <= 'z' || 'A' <= c <= 'Z' || '0' <= c <= '9' || c == '_'
  }

  /** The longest run of white space at the start. */
  function SpaceRun(s: string): (n: nat)
    ensures n <= |s| && (forall i :: 0 <= i < n ==> IsSpace(s[i])) && (n == |s| || !IsSpace(s[n]))
  {
    if s != [] && IsSpace(s[0]) then 1 + SpaceRun(s[1..]) else 0
  }

  /** `/form\s*x\b/` matching at `i`: the white space is taken greedily and the
      letter cannot be white space, so only the longest run can work. */
  predicate FormLetterAt(t: string, i: nat, x: char) {
    OccursAt(t, "form", i) &&
    var j := i + 4 + SpaceRun(t[i + 4..]);
    j < |t| && t[j] == x && (j + 1 == |t| || !IsWordChar(t[j + 1]))
  }

  /** `/form\s*x\b/.test(t)`: there is no word boundary before "form". */
  predicate MentionsForm(t: string, x: char) {
    exists i: nat | i < |t| :: FormLetterAt(t, i, x)
  }

  /** `/individual\s+claim/i.test(t)`. */
  predicate MentionsIndividualClaim(t: string) {
    exists i: nat | i < |t| :: OccursAt(Upper(t), "INDIVIDUAL", i) &&
      var j := i + 10 + SpaceRun(t[i + 10..]);
      j > i + 10 && OccursAt(Upper(t), "CLAIM", j)
  }

  predicate ClaimsFormC(t: string) {
    MentionsForm(t, 'c') || ContainsIgnoringCase(t, "community resource claim")
  }

  predicate ClaimsFormB(t: string) {
    MentionsForm(t, 'b') || ContainsIgnoringCase(t, "community rights claim")
  }

  predicate ClaimsFormA(t: string) {
    MentionsForm(t, 'a') || MentionsIndividualClaim(t)
  }

  /** `detectFormType(text)`: the tests run on the lower-cased text. */
  function DetectFormType(text: string): Option<FormType> {
    DetectLowered(Lower(text))
  }

  /** The tests on the lower-cased text: C is checked before B and B before
      A, and None stands for `null` when no test matches. */
  function DetectLowered(t: string): Option<FormType> {
    if ClaimsFormC(t) then Some(CommunityResourceClaimC)
    else if ClaimsFormB(t) then Some(CommunityRightsClaimB)
    else if ClaimsFormA(t) then Some(IndividualClaimA)
    else None
  }

  /** The detector ignores the case of the text. */
  lemma DetectFormTypeIgnoresCase(text: string)
    ensures DetectFormType(Upper(text)) == DetectFormType(text)
  {
    LowerUpper(text);
  }

  /** Whatever comes before it, a text that ends with "Form C" is a form C
      claim: C is checked first, so an earlier "Form A" does not count, and
      nothing asks for a word boundary before "form", so "Platform C" counts
      too. */
  lemma FormCWins(a: string)
    ensures DetectFormType(a + "Form C") == Some(CommunityResourceClaimC)
  {
    LowerAppend(a, "Form C");
    LowerFormC();
    FormCAtEnd(Lower(a));
  }

  lemma LowerFormC()
    ensures Lower("Form C") == "form c"
  {
  }

  lemma FormCAtEnd(b: string)
    ensures MentionsForm(b + "form c", 'c')
  {
    var t := b + "form c";
    var i := |b|;
    assert t[i..i + 4] == "form";
    assert t[i + 4..] == " c";
    assert SpaceRun(" c") == 1 by {
      assert " c"[1..] == "c";
      assert SpaceRun("c") == 0;
    }
    assert t[i + 5] == 'c' && i + 6 == |t|;
    assert FormLetterAt(t, i, 'c');
  }

  // ---------------------------------------------------------------------------
  // normalizeGeoPoint
  // ---------------------------------------------------------------------------

  predicate IsDigit(c: char) {
    '0' <= c <= '9'
  }

  predicate AllDigits(s: string) {
    forall i :: 0 <= i < |s| ==> IsDigit(s[i])
  }

  /** The characters `/[^0-9.\-]/g` leaves in place. */
  predicate IsKept(c: char) {
    IsDigit(c) || c == '.' || c == '-'
  }

  predicate AllKept(s: string) {
    forall i :: 0 <= i < |s| ==> IsKept(s[i])
  }

  /** `String(x).replace(/[^0-9.\-]/g, '')`: the digits, points and minus
      signs, in order; text made of those alone is left as it is. */
  function KeepNumeric(s: string): (r: string)
    ensures |r| <= |s| && AllKept(r)
    ensures AllKept(s) ==> r == s
  {
    if s == [] then []
    else
      var rest := KeepNumeric(s[1..]);
      assert AllKept(s) ==> AllKept(s[1..]) by {
        if AllKept(s) { forall i | 0 <= i < |s| - 1 ensures IsKept(s[1..][i]) { assert s[1..][i] == s[i + 1]; } }
      }
      if IsKept(s[0]) then
        assert AllKept(s) ==> [s[0]] + rest == s by {
          if AllKept(s) { assert [s[0]] + s[1..] == s; }
        }
        [s[0]] + rest
      else rest
  }

  /** The filter removes text made only of other characters, such as a `+`
      sign, a degree sign or a quote, wherever it stands. */
  lemma {:induction false} KeepNumericDrops(a: string, b: string)
    requires forall i :: 0 <= i < |a| ==> !IsKept(a[i])
    ensures KeepNumeric(a + b) == KeepNumeric(b)
    decreases |a|
  {
    if a == [] {
      assert a + b == b;
    } else {
      assert (a + b)[0] == a[0] && (a + b)[1..] == a[1..] + b;
      assert forall i :: 0 <= i < |a| - 1 ==> a[1..][i] == a[i + 1];
      KeepNumericDrops(a[1..], b);
    }
  }

  /** The filter works piece by piece. */
  lemma {:induction false} KeepNumericAppend(a: string, b: string)
    ensures KeepNumeric(a + b) == KeepNumeric(a) + KeepNumeric(b)
    decreases |a|
  {
    if a == [] {
      assert a + b == b;
    } else {
      assert (a + b)[0] == a[0] && (a + b)[1..] == a[1..] + b;
      KeepNumericAppend(a[1..], b);
    }
  }

  /** The longest run of digits at the start. */
  function DigitRun(s: string): (n: nat)
    ensures n <= |s| && AllDigits(s[..n]) && (n == |s| || !IsDigit(s[n]))
  {
    if s != [] && IsDigit(s[0]) then
      var n := 1 + DigitRun(s[1..]);
      assert forall i :: 1 <= i < n ==> s[..n][i] == s[1..][..n - 1][i - 1];
      n
    else 0
  }

  /** The value of a string of decimal digits. */
  function DigitsValue(d: string): nat
    requires AllDigits(d)
  {
    if d == [] then 0 else DigitsValue(d[..|d| - 1]) * 10 + (d[|d| - 1] as int - '0' as int)
  }

  function Pow10(n: nat): (r: nat)
    ensures r >= 1
  {
    if n == 0 then 1 else 10 * Pow10(n - 1)
  }

  lemma DigitsAppend(d: string, m: string)
    requires AllDigits(d) && AllDigits(m)
    ensures AllDigits(d + m)
  {
    var s := d + m;
    forall i | 0 <= i < |s| ensures IsDigit(s[i]) {
      if i < |d| { assert s[i] == d[i]; } else { assert s[i] == m[i - |d|]; }
    }
  }

  /** Digits written after other digits shift them left. */
  lemma {:induction false} DigitsValueAppend(d: string, m: string)
    requires AllDigits(d) && AllDigits(m)
    ensures AllDigits(d + m) && DigitsValue(d + m) == DigitsValue(d) * Pow10(|m|) + DigitsValue(m)
    decreases |m|
  {
    DigitsAppend(d, m);
    if m == [] {
      assert d + m == d;
    } else {
      var m' := m[..|m| - 1];
      var last := m[|m| - 1] as int - '0' as int;
      assert AllDigits(m') by {
        assert forall i :: 0 <= i < |m'| ==> m'[i] == m[i];
      }
      DigitsValueAppend(d, m');
      assert (d + m)[..|d + m| - 1] == d + m';
      assert (d + m)[|d + m| - 1] == m[|m| - 1];
      assert DigitsValue(d + m) == DigitsValue(d + m') * 10 + last;
      assert DigitsValue(m) == DigitsValue(m') * 10 + last;
      assert Pow10(|m|) == 10 * Pow10(|m'|);
      ShiftByOneDigit(DigitsValue(d), Pow10(|m'|), DigitsValue(m'), last);
    }
  }

  lemma ShiftByOneDigit(a: int, p: int, b: int, c: int)
    ensures (a * p + b) * 10 + c == a * (10 * p) + (b * 10 + c)
  {
  }

  /** The value of a decimal written with the digits `whole`, a point and the
      digits `frac`. */
  function DecimalValue(whole: string, frac: string): real
    requires AllDigits(whole) && AllDigits(frac)
  {
    DigitsValue(whole) as real + DigitsValue(frac) as real / Pow10(|frac|) as real
  }

  /** `parseFloat` on text made of digits, points and minus signs: one
      leading minus sign, the integer digits and, after a point, the fraction
      digits; reading stops at the first character that does not fit, and the
      result is NaN (None) when neither part has a digit. */
  function ParseFloat(s: string): (r: Option<real>)
    requires AllKept(s)
  {
    var neg := s != [] && s[0] == '-';
    var body := if neg then s[1..] else s;
    var n := DigitRun(body);
    var after := body[n..];
    var frac := if after != [] && after[0] == '.' then after[1..][..DigitRun(after[1..])] else [];
    if n == 0 && frac == [] then None
    else
      var v := DecimalValue(body[..n], frac);
      Some(if neg then -v else v)
  }

  /** The run of digits of `d + v` is `d` when `v` does not start with a digit. */
  lemma DigitRunExact(d: string, v: string)
    requires AllDigits(d) && (v == [] || !IsDigit(v[0]))
    ensures DigitRun(d + v) == |d| && (d + v)[..|d|] == d && (d + v)[|d|..] == v
  {
    var s := d + v;
    assert s[..|d|] == d;
    assert forall i :: 0 <= i < |d| ==> s[i] == d[i];
    if v != [] { assert s[|d|] == v[0]; }
    DigitRunAtMost(s, |d|);
  }

  lemma {:induction false} DigitRunAtMost(s: string, n: nat)
    requires n <= |s| && (forall i :: 0 <= i < n ==> IsDigit(s[i])) && (n == |s| || !IsDigit(s[n]))
    ensures DigitRun(s) == n
    decreases n
  {
    if n > 0 {
      assert IsDigit(s[0]);
      forall i | 0 <= i < n - 1 ensures IsDigit(s[1..][i]) {
        assert s[1..][i] == s[i + 1];
      }
      if n < |s| { assert s[1..][n - 1] == s[n]; }
      DigitRunAtMost(s[1..], n - 1);
    }
  }

  lemma AllKeptAppend(a: string, b: string)
    requires AllKept(a) && AllKept(b)
    ensures AllKept(a + b)
  {
    var s := a + b;
    forall i | 0 <= i < |s| ensures IsKept(s[i]) {
      if i < |a| { assert s[i] == a[i]; } else { assert s[i] == b[i - |a|]; }
    }
  }

  lemma DigitsKept(d: string)
    requires AllDigits(d)
    ensures AllKept(d)
  {
  }

  /** A decimal with a point reads back as its value, whatever follows it
      that is not a digit; a second point, for one, ends the number. */
  lemma ParseFloatDecimal(whole: string, frac: string, tail: string)
    requires AllDigits(whole) && AllDigits(frac) && whole != []
    requires AllKept(tail) && (tail == [] || !IsDigit(tail[0]))
    ensures AllKept(whole + ("." + (frac + tail)))
    ensures ParseFloat(whole + ("." + (frac + tail))) == Some(DecimalValue(whole, frac))
  {
    var ft := frac + tail;
    var after := "." + ft;
    var s := whole + after;
    DigitsKept(whole);
    DigitsKept(frac);
    AllKeptAppend(frac, tail);
    assert AllKept(after) by {
      AllKeptAppend(".", ft);
    }
    AllKeptAppend(whole, after);
    assert s[0] == whole[0];
    DigitRunExact(whole, after);
    assert after[1..] == ft;
    DigitRunExact(frac, tail);
  }

  /** Digits alone, or digits followed by a minus sign, read as a whole
      number. */
  lemma ParseFloatWhole(whole: string, tail: string)
    requires AllDigits(whole) && whole != []
    requires AllKept(tail) && (tail == [] || tail[0] == '-')
    ensures AllKept(whole + tail)
    ensures ParseFloat(whole + tail) == Some(DigitsValue(whole) as real)
  {
    var s := whole + tail;
    DigitsKept(whole);
    AllKeptAppend(whole, tail);
    assert s[0] == whole[0];
    DigitRunExact(whole, tail);
    DecimalValueWhole(whole);
  }

  /** A number without fraction digits is its integer part. */
  lemma DecimalValueWhole(whole: string)
    requires AllDigits(whole)
    ensures DecimalValue(whole, []) == DigitsValue(whole) as real
  {
    assert DigitsValue([]) == 0;
  }

  /** A leading minus sign negates the number that follows. */
  lemma ParseFloatNegated(body: string)
    requires AllKept(body) && (body == [] || body[0] != '-')
    ensures AllKept("-" + body)
    ensures ParseFloat("-" + body) == if ParseFloat(body).Some? then Some(-ParseFloat(body).value) else None
  {
    AllKeptAppend("-", body);
    assert ("-" + body)[1..] == body;
  }

  /** Without a digit there is no number. */
  lemma ParseFloatNeedsDigit(s: string)
    requires AllKept(s) && forall i :: 0 <= i < |s| ==> !IsDigit(s[i])
    ensures ParseFloat(s).None?
  {
    var body := if s != [] && s[0] == '-' then s[1..] else s;
    if body != [] {
      assert !IsDigit(body[0]);
    }
    var after := body[DigitRun(body)..];
    if after != [] && after[0] == '.' && after[1..] != [] {
      assert after[1..][0] == s[|s| - |after| + 1];
    }
  }

  /** `normalizeGeoPoint(latStr, lonStr)`: a Point whose coordinates are
      longitude first, when both strings parse, and undefined (None)
      otherwise. */
  function NormalizeGeoPoint(latStr: string, lonStr: string): (r: Option<Point>)
    ensures r.Some? <==> ParseFloat(KeepNumeric(latStr)).Some? && ParseFloat(KeepNumeric(lonStr)).Some?
    ensures r.Some? ==>
      r.value.lon == ParseFloat(KeepNumeric(lonStr)).value && r.value.lat == ParseFloat(KeepNumeric(latStr)).value
  {
    var lat := ParseFloat(KeepNumeric(latStr));
    var lon := ParseFloat(KeepNumeric(lonStr));
    if lat.Some? && lon.Some? then Some(Point(lon.value, lat.value)) else None
  }

  /** A coordinate string with no digit at all gives no point. */
  lemma NoDigitNoPoint(latStr: string, lonStr: string)
    requires forall i :: 0 <= i < |latStr| ==> !IsDigit(latStr[i])
    ensures NormalizeGeoPoint(latStr, lonStr).None?
  {
    var k := KeepNumeric(latStr);
    KeepNumericNoDigit(latStr);
    ParseFloatNeedsDigit(k);
  }

  lemma {:induction false} KeepNumericNoDigit(s: string)
    requires forall i :: 0 <= i < |s| ==> !IsDigit(s[i])
    ensures forall i :: 0 <= i < |KeepNumeric(s)| ==> !IsDigit(KeepNumeric(s)[i])
    decreases |s|
  {
    if s != [] {
      assert forall i :: 0 <= i < |s[1..]| ==> s[1..][i] == s[i + 1];
      KeepNumericNoDigit(s[1..]);
    }
  }

  /** Nothing checks the range: degrees and minutes written as `20°30'` run
      together into one number, 2030 for that example, which is no
      latitude. */
  lemma DegreesAndMinutesRunTogether(d: string, m: string, lonStr: string)
    requires AllDigits(d) && AllDigits(m) && |m| == 2 && DigitsValue(d) >= 1
    requires NormalizeGeoPoint(d + "°" + m + "'", lonStr).Some?
    ensures NormalizeGeoPoint(d + "°" + m + "'", lonStr).value.lat == (DigitsValue(d) * 100 + DigitsValue(m)) as real
    ensures !InRange(NormalizeGeoPoint(d + "°" + m + "'", lonStr).value)
  {
    KeepNumericDegrees(d, m);
    DigitsValueAppend(d, m);
    assert Pow10(2) == 100;
    ParseFloatWhole(d + m, []);
    assert d + m + [] == d + m;
  }

  /** The degree sign and the minute mark are dropped, the digits kept. */
  lemma KeepNumericDegrees(d: string, m: string)
    requires AllDigits(d) && AllDigits(m)
    ensures KeepNumeric(d + "°" + m + "'") == d + m + []
  {
    DegreesText(d, m);
    KeepNumericAppend(d, "°" + (m + "'"));
    KeepNumericDrops("°", m + "'");
    KeepNumericAppend(m, "'");
    KeepNumericDrops("'", []);
    assert "'" + [] == "'";
    DigitsKept(d);
    DigitsKept(m);
    assert KeepNumeric(m + "'") == m + [];
  }

  lemma DegreesText(d: string, m: string)
    ensures d + "°" + m + "'" == d + ("°" + (m + "'"))
  {
  }

  // ---------------------------------------------------------------------------
  // The Lat … Lon … search
  // ---------------------------------------------------------------------------

  /** The class `[0-9.+-]`. */
  predicate IsCoordChar(c: char) {
    IsDigit(c) || c == '.' || c == '+' || c == '-'
  }

  predicate AllCoord(s: string) {
    forall i :: 0 <= i < |s| ==> IsCoordChar(s[i])
  }

  function CoordRun(s: string): (n: nat)
    ensures n <= |s| && AllCoord(s[..n]) && (n == |s| || !IsCoordChar(s[n]))
  {
    if s != [] && IsCoordChar(s[0]) then
      var n := 1 + CoordRun(s[1..]);
      assert forall i :: 1 <= i < n ==> s[..n][i] == s[1..][..n - 1][i - 1];
      n
    else 0
  }

  /** `w` stands at `i`, compared as the `i` flag compares. */
  predicate WordAt(text: string, i: nat, w: string) {
    i + |w| <= |text| && SameIgnoringCase(text[i..i + |w|], w)
  }

  /** `\s*([0-9.+-]+)` from `p`: the captured number and where it ends. Both
      stars are greedy; giving back white space leaves a space where a digit
      is needed, and a shorter number only moves where the rest of the
      pattern starts looking, over characters that cannot begin it, so the
      longest runs are the only ones that matter. */
  function NumberAt(text: string, p: nat): (r: Option<(string, nat)>)
    requires p <= |text|
    ensures r.Some? ==> r.value.0 != [] && AllCoord(r.value.0) && p < r.value.1 <= |text|
  {
    var q := p + SpaceRun(text[p..]);
    var n := CoordRun(text[q..]);
    if n == 0 then None
    else
      assert text[q..q + n] == text[q..][..n];
      Some((text[q..q + n], q + n))
  }

  /** `<word>(?:<ending>)?:\s*([0-9.+-]+)` at `i`: the optional ending is
      tried first. */
  function LabelledNumberAt(text: string, i: nat, word: string, ending: string): (r: Option<(string, nat)>)
    requires i <= |text|
    ensures r.Some? ==> WordAt(text, i, word) && r.value.0 != [] && AllCoord(r.value.0) && i < r.value.1 <= |text|
  {
    if !WordAt(text, i, word) then None
    else
      var j := i + |word|;
      var long := if WordAt(text, j, ending + ":") then NumberAt(text, j + |ending| + 1) else None;
      if long.Some? then long
      else if WordAt(text, j, ":") then NumberAt(text, j + 1)
      else None
  }

  /** `.*?Lon(?:gitude)?:\s*([0-9.+-]+)` from `r`: the lazy star tries the
      nearest position first and cannot pass a line terminator. */
  function LonFrom(text: string, r: nat): (lon: Option<string>)
    requires r <= |text|
    ensures lon.Some? ==> lon.value != [] && AllCoord(lon.value)
    decreases |text| - r
  {
    match LabelledNumberAt(text, r, "Lon", "gitude")
    case Some(x) => Some(x.0)
    case None => if r < |text| && !IsLineTerminator(text[r]) then LonFrom(text, r + 1) else None
  }

  /** The longitude is looked for on the latitude's line only: once the lazy
      star meets a line terminator, the search ends. */
  lemma {:induction false} LonFromSameLine(text: string, r: nat, e: nat)
    requires r <= e < |text| && IsLineTerminator(text[e])
    requires forall k :: r <= k <= e ==> LabelledNumberAt(text, k, "Lon", "gitude").None?
    ensures LonFrom(text, r).None?
    decreases e - r
  {
    if r < e {
      LonFromSameLine(text, r + 1, e);
    }
  }

  /** The whole pattern matching at `i`: it starts with the latitude label. */
  function LatLonAt(text: string, i: nat): (r: Option<(string, string)>)
    requires i <= |text|
    ensures r.Some? ==> WordAt(text, i, "Lat")
    ensures r.Some? ==> r.value.0 != [] && AllCoord(r.value.0) && r.value.1 != [] && AllCoord(r.value.1)
  {
    match LabelledNumberAt(text, i, "Lat", "itude")
    case None => None
    case Some(x) =>
      match LonFrom(text, x.1)
      case None => None
      case Some(lon) => Some((x.0, lon))
  }

  /** What the pattern matches at each position of the text, in order. */
  function Attempts(text: string): (a: seq<Option<(string, string)>>)
    ensures |a| == |text| + 1 && forall j :: 0 <= j <= |text| ==> a[j] == LatLonAt(text, j)
  {
    seq(|text| + 1, j requires 0 <= j <= |text| => LatLonAt(text, j))
  }

  /** The first present value of a sequence. */
  function FirstSome<T>(s: seq<Option<T>>): (r: Option<T>)
    ensures r.Some? ==> r in s
  {
    if s == [] then None else if s[0].Some? then s[0] else FirstSome(s[1..])
  }

  /** There is a first present value exactly when some value is present. */
  lemma {:induction false} FirstSomeNone<T>(s: seq<Option<T>>)
    ensures FirstSome(s).None? <==> forall k :: 0 <= k < |s| ==> s[k].None?
  {
    if s != [] && s[0].None? {
      FirstSomeNone(s[1..]);
      assert forall k :: 1 <= k < |s| ==> s[k] == s[1..][k - 1];
    }
  }

  /** The first present value is the one with no present value before it. */
  lemma {:induction false} FirstSomeAt<T>(s: seq<Option<T>>, k: nat)
    requires k < |s| && s[k].Some? && forall j :: 0 <= j < k ==> s[j].None?
    ensures FirstSome(s) == s[k]
    decreases k
  {
    if k > 0 {
      assert s[0].None?;
      forall j | 0 <= j < k - 1 ensures s[1..][j].None? {
        assert s[1..][j] == s[j + 1];
      }
      FirstSomeAt(s[1..], k - 1);
    }
  }

  /** `text.match(/Lat(?:itude)?:\s*([0-9.+-]+).*?Lon(?:gitude)?:\s*([0-9.+-]+)/i)`:
      the two captures of the leftmost match. */
  function GeoMatch(text: string): (r: Option<(string, string)>)
    ensures r.Some? ==> r.value.0 != [] && AllCoord(r.value.0) && r.value.1 != [] && AllCoord(r.value.1)
  {
    FirstSome(Attempts(text))
  }

  /** The search finds nothing exactly when the pattern matches at no
      position. */
  lemma GeoMatchNone(text: string)
    ensures GeoMatch(text).None? <==> forall j :: 0 <= j <= |text| ==> LatLonAt(text, j).None?
  {
    FirstSomeNone(Attempts(text));
  }

  /** The search returns the match at the leftmost position where the pattern
      matches. */
  lemma GeoMatchLeftmost(text: string, j: nat)
    requires j <= |text| && LatLonAt(text, j).Some?
    requires forall k :: 0 <= k < j ==> LatLonAt(text, k).None?
    ensures GeoMatch(text) == LatLonAt(text, j)
  {
    FirstSomeAt(Attempts(text), j);
  }

  // ---------------------------------------------------------------------------
  // parseClaimFromText
  // ---------------------------------------------------------------------------

  datatype Location = Location(
    state: string, district: string, tehsilTaluka: string, gramPanchayat: string,
    villageGramSabha: string, geoLocation: Option<Point>)

  datatype ClaimantType = ST | OTFD

  datatype FamilyMember = FamilyMember(name: string, age: real)

  datatype ClaimantInfo = ClaimantInfo(
    name: string, spouseName: string, parentName: string, address: string,
    claimantType: Option<ClaimantType>, stCertificateReference: string,
    familyMembers: seq<FamilyMember>)

  datatype IndividualClaimDetails = IndividualClaimDetails(
    landForHabitation: string, landForCultivation: string, disputedLands: string,
    pattasLeasesGrants: string, inSituRehabilitation: string, displacedLand: string,
    forestVillageLand: string)

  datatype CommunityType = FdstCommunity | OtfdCommunity

  datatype CommunityInfo = CommunityInfo(communityType: Option<CommunityType>, membersListReference: string)

  datatype CommunityClaimDetails = CommunityClaimDetails(
    nistarRights: string, minorForestProduceRights: string, usesOrEntitlements: string,
    grazingRights: string, nomadicPastoralistAccess: string, ptgCommunityTenure: string,
    biodiversityAccessAndIP: string, mapReference: string, khasraCompartmentNo: string,
    borderingVillages: string)

  datatype ParsedClaim = ParsedClaim(
    formType: Option<FormType>, location: Location, claimantInfo: ClaimantInfo,
    individualClaimDetails: IndividualClaimDetails, communityInfo: CommunityInfo,
    communityClaimDetails: CommunityClaimDetails, otherTraditionalRight: string)

  // The label lists of parseClaimFromText; the claimant's name labels are
  // Labels.NameLabels.
  const SpouseLabels: seq<string> := ["Spouse Name", "Husband Name", "Wife Name"]
  const ParentLabels: seq<string> := ["Father's Name", "Parent Name", "Guardian Name"]
  const AddressLabels: seq<string> := ["Address", "Residential Address"]
  const StateLabels: seq<string> := ["State", "State/UT", "State Name"]
  const DistrictLabels: seq<string> := ["District"]
  const TehsilLabels: seq<string> := ["Tehsil", "Taluka", "Tehsil/Taluka"]
  const PanchayatLabels: seq<string> := ["Gram Panchayat", "GP"]
  const VillageLabels: seq<string> := ["Village", "Gram Sabha", "Village/Gram Sabha"]

  /** `geoMatch ? normalizeGeoPoint(geoMatch[1], geoMatch[2]) : undefined`. */
  function GeoLocation(text: string): (r: Option<Point>)
    ensures r.Some? ==> GeoMatch(text).Some? && r == NormalizeGeoPoint(GeoMatch(text).value.0, GeoMatch(text).value.1)
  {
    match GeoMatch(text)
    case None => None
    case Some(m) => NormalizeGeoPoint(m.0, m.1)
  }

  /** `parseClaimFromText(text)`: the nine label fields, the coordinates and
      the form type read from the text; every other detail left blank. */
  function ParseClaimFromText(text: string): (c: ParsedClaim)
    ensures c.location.geoLocation.Some? ==>
      GeoMatch(text).Some? && c.location.geoLocation == NormalizeGeoPoint(GeoMatch(text).value.0, GeoMatch(text).value.1)
    ensures c.claimantInfo.claimantType.None? && c.claimantInfo.stCertificateReference == ""
      && c.claimantInfo.familyMembers == []
    ensures c.communityInfo.communityType.None? && c.communityInfo.membersListReference == ""
    ensures c.otherTraditionalRight == ""
    ensures c.individualClaimDetails.landForHabitation == "" && c.individualClaimDetails.landForCultivation == ""
      && c.individualClaimDetails.disputedLands == "" && c.individualClaimDetails.pattasLeasesGrants == ""
      && c.individualClaimDetails.inSituRehabilitation == "" && c.individualClaimDetails.displacedLand == ""
      && c.individualClaimDetails.forestVillageLand == ""
    ensures c.communityClaimDetails.nistarRights == "" && c.communityClaimDetails.minorForestProduceRights == ""
      && c.communityClaimDetails.usesOrEntitlements == "" && c.communityClaimDetails.grazingRights == ""
      && c.communityClaimDetails.nomadicPastoralistAccess == "" && c.communityClaimDetails.ptgCommunityTenure == ""
      && c.communityClaimDetails.biodiversityAccessAndIP == "" && c.communityClaimDetails.mapReference == ""
      && c.communityClaimDetails.khasraCompartmentNo == "" && c.communityClaimDetails.borderingVillages == ""
  {
    ParsedClaim(
      DetectFormType(text),
      Location(
        PickAfterLabel(text, StateLabels), PickAfterLabel(text, DistrictLabels),
        PickAfterLabel(text, TehsilLabels), PickAfterLabel(text, PanchayatLabels),
        PickAfterLabel(text, VillageLabels), GeoLocation(text)),
      ClaimantInfo(
        PickAfterLabel(text, NameLabels), PickAfterLabel(text, SpouseLabels),
        PickAfterLabel(text, ParentLabels), PickAfterLabel(text, AddressLabels),
        None, "", []),
      IndividualClaimDetails("", "", "", "", "", "", ""),
      CommunityInfo(None, ""),
      CommunityClaimDetails("", "", "", "", "", "", "", "", "", ""),
      "")
  }

  /** Every text field the parser fills is trimmed, and the claim's name
      is empty exactly when no line carries one of its labels with text
      after it. */
  lemma ParsedFieldsTrimmed(text: string)
    ensures var c := ParseClaimFromText(text);
      Trim(c.claimantInfo.name) == c.claimantInfo.name && Trim(c.claimantInfo.spouseName) == c.claimantInfo.spouseName
      && Trim(c.claimantInfo.parentName) == c.claimantInfo.parentName && Trim(c.claimantInfo.address) == c.claimantInfo.address
      && Trim(c.location.state) == c.location.state && Trim(c.location.district) == c.location.district
      && Trim(c.location.tehsilTaluka) == c.location.tehsilTaluka && Trim(c.location.gramPanchayat) == c.location.gramPanchayat
      && Trim(c.location.villageGramSabha) == c.location.villageGramSabha
  {
  }

}
