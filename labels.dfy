/** The label extractor `pickAfterLabel` of frontend/server/services/parser.js.

    The pattern is built in a template literal, where `\s` is not an escape
    and becomes the letter `s`, and `[:\-\=]` becomes the class `[:-=]`, the
    range from `:` to `=`. So the pattern the engine runs is
    `^(?:<labels>)s*[:-=]?s*(.+)$` with the `i` flag. The matcher below runs it
    as the regular-expression engine does: the alternatives in order, every
    quantifier greedy, giving back one character at a time when the rest of
    the pattern fails. */
module Labels {
  import opened Wrappers
  import opened Text

  // ---------------------------------------------------------------------------
  // Lines
  // ---------------------------------------------------------------------------

  /** A line as the loop sees it: trimmed and not empty. */
  predicate IsLine(s: string) {
    s != [] && Trim(s) == s
  }

  predicate AllLines(lines: seq<string>) {
    forall k :: 0 <= k < |lines| ==> IsLine(lines[k])
  }

  /** The trimmed, non-empty lines of `text.split(/\r?\n/)`. The text is cut
      at line feeds; a carriage return left at the end of a piece is removed
      by the trim (`CarriageReturnTrimmed`). */
  function Lines(text: string): (r: seq<string>)
    ensures AllLines(r)
  {
    TrimmedNonEmpty(Split(text, '\n'))
  }

  /** A carriage return before the line feed makes no difference to a line. */
  lemma CarriageReturnTrimmed(s: string)
    ensures Trim(s + "\r") == Trim(s)
  {
    TrimIgnoresPadding([], s, "\r");
    assert [] + s + "\r" == s + "\r";
  }

  // ---------------------------------------------------------------------------
  // The label alternation and its escaping
  // ---------------------------------------------------------------------------

  /** The pattern characters that are operators when they stand unescaped. */
  predicate IsSyntax(c: char) {
    c == '^' || c == '$' || c == '\\' || c == '.' || c == '*' || c == '+' || c == '?'
    || c == '(' || c == ')' || c == '[' || c == ']' || c == '{' || c == '}' || c == '|'
  }

  /** The characters `/[-/\\^$*+?.()|[\]{}]/g` prefixes with a backslash: the
      operators, `-` and `/`. */
  predicate IsEscaped(c: char) {
    IsSyntax(c) || c == '-' || c == '/'
  }

  /** `l.replace(/[-/\\^$*+?.()|[\]{}]/g, "\\$&")`. */
  function EscapeLabel(l: string): (r: string)
    ensures |r| >= |l|
  {
    if l == [] then [] else (if IsEscaped(l[0]) then ['\\', l[0]] else [l[0]]) + EscapeLabel(l[1..])
  }

  function EscapeEach(labels: seq<string>): (r: seq<string>)
    ensures |r| == |labels| && forall k :: 0 <= k < |labels| ==> r[k] == EscapeLabel(labels[k])
  {
    if labels == [] then [] else [EscapeLabel(labels[0])] + EscapeEach(labels[1..])
  }

  /** The text placed inside `(?:…)`. */
  function AlternationSource(labels: seq<string>): string {
    Join(EscapeEach(labels), "|")
  }

  /** Adds a character in front of the first alternative read so far. */
  function Prefixed(c: char, o: Option<seq<string>>): (r: Option<seq<string>>)
    requires o.Some? ==> |o.value| >= 1
    ensures r.Some? <==> o.Some?
    ensures r.Some? ==> |r.value| == |o.value| && r.value[0] == [c] + o.value[0] && r.value[1..] == o.value[1..]
  {
    match o
    case None => None
    case Some(alts) => Some([[c] + alts[0]] + alts[1..])
  }

  /** How the regular-expression engine reads an alternation of literal text:
      an unescaped `|` starts the next alternative, a backslash before one of
      the escaped characters stands for that character, and any other
      operator makes the text something other than a list of literals (None). */
  function ReadAlternation(p: string): (r: Option<seq<string>>)
    ensures r.Some? ==> |r.value| >= 1
    decreases |p|
  {
    if p == [] then Some([""])
    else if p[0] == '|' then
      match ReadAlternation(p[1..])
      case None => None
      case Some(rest) => Some([""] + rest)
    else if p[0] == '\\' then
      if |p| >= 2 && IsEscaped(p[1]) then Prefixed(p[1], ReadAlternation(p[2..])) else None
    else if IsSyntax(p[0]) then None
    else Prefixed(p[0], ReadAlternation(p[1..]))
  }

  /** The alternatives the pattern holds: the labels, or the one empty
      alternative of `(?:)` when the list is empty. */
  function Alternatives(labels: seq<string>): (r: seq<string>)
    ensures |r| >= 1
  {
    if labels == [] then [""] else labels
  }

  /** An escaped label in front of an alternation becomes the start of its
      first alternative. */
  lemma {:induction false} ReadEscapedLabel(l: string, tail: string)
    requires ReadAlternation(tail).Some?
    ensures ReadAlternation(EscapeLabel(l) + tail) ==
      Some([l + ReadAlternation(tail).value[0]] + ReadAlternation(tail).value[1..])
    decreases |l|
  {
    var alts := ReadAlternation(tail).value;
    if l == [] {
      assert EscapeLabel(l) + tail == tail;
      assert l + alts[0] == alts[0];
      assert [alts[0]] + alts[1..] == alts;
    } else {
      var rest := EscapeLabel(l[1..]) + tail;
      ReadEscapedLabel(l[1..], tail);
      var inner := ReadAlternation(rest);
      assert inner == Some([l[1..] + alts[0]] + alts[1..]);
      var head := if IsEscaped(l[0]) then ['\\', l[0]] else [l[0]];
      assert EscapeLabel(l) + tail == head + rest;
      ReadEscapedChar(l[0], rest);
      ConsAppend(l, alts[0]);
    }
  }

  /** One character of a label, escaped when it must be, adds itself in
      front of the first alternative. */
  lemma ReadEscapedChar(c: char, rest: string)
    ensures ReadAlternation((if IsEscaped(c) then ['\\', c] else [c]) + rest) == Prefixed(c, ReadAlternation(rest))
  {
    if IsEscaped(c) {
      var p := ['\\', c] + rest;
      assert p[0] == '\\' && p[1] == c && p[2..] == rest;
    } else {
      var p := [c] + rest;
      assert p[0] == c && p[1..] == rest;
    }
  }

  lemma ConsAppend(l: string, a: string)
    requires l != []
    ensures [l[0]] + (l[1..] + a) == l + a
  {
    assert l == [l[0]] + l[1..];
  }

  /** Labels match literally: the escaped labels joined by `|` read back as
      exactly the list of labels, so no label character acts as an operator
      and no label is split into two alternatives. */
  lemma {:induction false} LabelsMatchLiterally(labels: seq<string>)
    ensures ReadAlternation(AlternationSource(labels)) == Some(Alternatives(labels))
    decreases |labels|
  {
    if |labels| == 0 {
      assert AlternationSource(labels) == "";
    } else if |labels| == 1 {
      AlternationOfOne(labels[0]);
      assert [labels[0]] == labels;
    } else {
      LabelsMatchLiterally(labels[1..]);
      AlternationOfMore(labels);
    }
  }

  lemma AlternationOfOne(l: string)
    ensures ReadAlternation(AlternationSource([l])) == Some([l])
  {
    var src := EscapeLabel(l) + "";
    ReadEscapedLabel(l, "");
    var ra := ReadAlternation("").value;
    assert ra == [""];
    assert l + ra[0] == l && ra[1..] == [];
    assert [l + ra[0]] + ra[1..] == [l];
    assert EscapeEach([l]) == [EscapeLabel(l)];
    assert AlternationSource([l]) == src;
  }

  /** The first label, escaped and followed by `|` and the rest of the
      alternation, adds itself in front of the rest's alternatives. */
  lemma AlternationOfMore(labels: seq<string>)
    requires |labels| >= 2
    requires ReadAlternation(AlternationSource(labels[1..])) == Some(labels[1..])
    ensures ReadAlternation(AlternationSource(labels)) == Some(labels)
  {
    var tail := "|" + AlternationSource(labels[1..]);
    var rest := [""] + labels[1..];
    SourceCons(labels);
    ReadBar(AlternationSource(labels[1..]));
    ReadEscapedLabel(labels[0], tail);
    assert rest[0] == "" && rest[1..] == labels[1..];
    assert [labels[0] + rest[0]] + rest[1..] == labels by {
      assert labels[0] + "" == labels[0];
    }
  }

  lemma SourceCons(labels: seq<string>)
    requires |labels| >= 2
    ensures AlternationSource(labels) == EscapeLabel(labels[0]) + ("|" + AlternationSource(labels[1..]))
  {
    assert EscapeEach(labels)[1..] == EscapeEach(labels[1..]);
  }

  /** A `|` in front of an alternation starts with an empty alternative. */
  lemma ReadBar(p: string)
    requires ReadAlternation(p).Some?
    ensures ReadAlternation("|" + p) == Some([""] + ReadAlternation(p).value)
  {
    assert ("|" + p)[0] == '|' && ("|" + p)[1..] == p;
  }

  // ---------------------------------------------------------------------------
  // The line matcher
  // ---------------------------------------------------------------------------

  /** The letter `s` under the `i` flag. */
  predicate IsLetterS(c: char) {
    c == 's' || c == 'S'
  }

  /** The class `[:-=]`: the colon, the semicolon, `<` and `=`. */
  predicate IsSeparator(c: char) {
    ':' <= c <= '='
  }

  /** The characters `.` does not match. */
  predicate IsLineTerminator(c: char) {
    c == '\n' || c == '\r' || c == '\U{2028}' || c == '\U{2029}'
  }

  /** `(.+)$` matches all of `v`. */
  predicate Capturable(v: string) {
    v != [] && forall i :: 0 <= i < |v| ==> !IsLineTerminator(v[i])
  }

  predicate AllS(s: string) {
    forall i :: 0 <= i < |s| ==> IsLetterS(s[i])
  }

  /** The longest run of letters s at the start. */
  function SRun(s: string): (n: nat)
    ensures n <= |s| && (forall i :: 0 <= i < n ==> IsLetterS(s[i])) && (n == |s| || !IsLetterS(s[n]))
  {
    if s != [] && IsLetterS(s[0]) then 1 + SRun(s[1..]) else 0
  }

  /** What `s*[:-=]?s*` can consume: a run of letters s, then possibly one
      separator followed by more letters s. */
  predicate Filler(f: string) {
    var a := SRun(f);
    a == |f| || (IsSeparator(f[a]) && AllS(f[a + 1..]))
  }

  /** `s*(.+)$` on `u` once the star has taken `n` letters: greedy, so it
      starts with all of them and gives one back each time the capture fails.
      The result is where the capture starts. */
  function SecondStar(u: string, n: nat): (r: Option<nat>)
    requires n <= SRun(u)
    ensures r.Some? ==> r.value <= n && Capturable(u[r.value..])
    ensures Capturable(u) ==> r.Some?
    decreases n
  {
    if Capturable(u[n..]) then Some(n)
    else if n == 0 then None
    else SecondStar(u, n - 1)
  }

  /** `[:-=]?s*(.+)$` on `t`: the separator is taken when it is there, and
      left out when the rest fails with it taken. */
  function SepThen(t: string): (r: Option<nat>)
    ensures r.Some? ==> r.value <= |t| && Capturable(t[r.value..]) && Filler(t[..r.value])
    ensures Capturable(t) ==> r.Some?
  {
    var taken := if t != [] && IsSeparator(t[0]) then SecondStar(t[1..], SRun(t[1..])) else None;
    if taken.Some? then
      var m := taken.value;
      SeparatorFiller(t, m);
      assert t[1..][m..] == t[m + 1..];
      Some(m + 1)
    else
      var r := SecondStar(t, SRun(t));
      if r.Some? then
        SRunAllS(t[..r.value]);
        r
      else r
  }

  lemma SeparatorFiller(t: string, m: nat)
    requires t != [] && IsSeparator(t[0]) && m <= SRun(t[1..])
    ensures Filler(t[..m + 1])
  {
    var f := t[..m + 1];
    assert SRun(f) == 0;
    assert AllS(f[1..]) by {
      forall i | 0 <= i < |f[1..]| ensures IsLetterS(f[1..][i]) {
        assert f[1..][i] == t[1..][i];
      }
    }
  }

  /** A string of letters s is its own run. */
  lemma {:induction false} SRunAllS(s: string)
    requires AllS(s)
    ensures SRun(s) == |s|
    decreases |s|
  {
    if s != [] {
      assert AllS(s[1..]) by {
        forall i | 0 <= i < |s[1..]| ensures IsLetterS(s[1..][i]) {
          assert s[1..][i] == s[i + 1];
        }
      }
      SRunAllS(s[1..]);
    }
  }

  /** The run of letters s is exactly `n` long when the first `n` characters
      are letters s and the next one is not. */
  lemma {:induction false} SRunExact(s: string, n: nat)
    requires n <= |s| && (forall i :: 0 <= i < n ==> IsLetterS(s[i])) && (n == |s| || !IsLetterS(s[n]))
    ensures SRun(s) == n
    decreases n
  {
    if n > 0 {
      assert IsLetterS(s[0]);
      forall i | 0 <= i < n - 1 ensures IsLetterS(s[1..][i]) {
        assert s[1..][i] == s[i + 1];
      }
      if n < |s| { assert s[1..][n - 1] == s[n]; }
      SRunExact(s[1..], n - 1);
    }
  }

  /** A run of letters s in front of a filler is still a filler. */
  lemma FillerAfterS(p: string, f: string)
    requires AllS(p) && Filler(f)
    ensures Filler(p + f)
  {
    var a := SRun(f);
    var s := p + f;
    forall i | 0 <= i < |p| + a ensures IsLetterS(s[i]) {
      if i < |p| { assert s[i] == p[i]; } else { assert s[i] == f[i - |p|]; }
    }
    if |p| + a < |s| { assert s[|p| + a] == f[a]; }
    SRunExact(s, |p| + a);
    if |p| + a < |s| {
      assert s[|p| + a + 1..] == f[a + 1..];
    }
  }

  /** `s*[:-=]?s*(.+)$` on `r` once the first star has taken `n` letters;
      the result is where the capture starts. */
  function FirstStar(r: string, n: nat): (c: Option<nat>)
    requires n <= SRun(r)
    ensures c.Some? ==> c.value <= |r| && Capturable(r[c.value..]) && Filler(r[..c.value])
    decreases n
  {
    match SepThen(r[n..])
    case Some(m) =>
      FirstStarTaken(r, n, m);
      Some(n + m)
    case None =>
      if n == 0 then None else FirstStar(r, n - 1)
  }

  /** On a capturable rest the first star always ends in a match: at worst
      it gives back every letter and `(.+)` takes the whole rest. */
  lemma {:induction false} FirstStarFinds(r: string, n: nat)
    requires n <= SRun(r)
    ensures Capturable(r) ==> FirstStar(r, n).Some?
    decreases n
  {
    if Capturable(r) && SepThen(r[n..]).None? {
      if n > 0 {
        FirstStarFinds(r, n - 1);
      }
    }
  }

  /** The letters s the first star took, then what `SepThen` skipped, make a
      filler in front of the capture. */
  lemma FirstStarTaken(r: string, n: nat, m: nat)
    requires n <= SRun(r) && m <= |r[n..]|
    requires Capturable(r[n..][m..]) && Filler(r[n..][..m])
    ensures n + m <= |r| && Capturable(r[n + m..]) && Filler(r[..n + m])
  {
    assert r[n..][m..] == r[n + m..];
    assert AllS(r[..n]) by {
      forall i | 0 <= i < n ensures IsLetterS(r[..n][i]) {
        assert r[..n][i] == r[i];
      }
    }
    FillerAfterS(r[..n], r[n..][..m]);
    assert r[..n] + r[n..][..m] == r[..n + m];
  }

  /** What follows a label: the capture group, when the rest of the pattern
      matches. It matches exactly when the rest of the line is not empty and
      holds no line terminator; the capture is a non-empty end of the line,
      and what it leaves out is letters s with at most one separator. */
  function AfterLabel(r: string): (c: Option<string>)
    ensures c.Some? <==> Capturable(r)
    ensures c.Some? ==> c.value != [] && |c.value| <= |r| && c.value == r[|r| - |c.value|..]
    ensures c.Some? ==> Filler(r[..|r| - |c.value|])
  {
    FirstStarFinds(r, SRun(r));
    match FirstStar(r, SRun(r))
    case Some(m) =>
      FillerCapturable(r, m);
      Some(r[m..])
    case None => None
  }

  /** A filler followed by a capturable rest is capturable as a whole: none
      of the filler's characters is a line terminator. */
  lemma FillerCapturable(r: string, m: nat)
    requires m <= |r| && Filler(r[..m]) && Capturable(r[m..])
    ensures Capturable(r)
  {
    var f := r[..m];
    var a := SRun(f);
    forall i | 0 <= i < |r| ensures !IsLineTerminator(r[i]) {
      if i >= m {
        assert r[i] == r[m..][i - m];
      } else if i < a {
        assert r[i] == f[i];
      } else if i > a {
        assert r[i] == f[a + 1..][i - a - 1];
      }
    }
  }

  /** Without a separator the capture is everything after the run of letters
      s: `-`, a space or any other character is part of the value. */
  lemma CaptureWithoutSeparator(p: string, v: string)
    requires AllS(p) && Capturable(v)
    requires !IsLetterS(v[0]) && !IsSeparator(v[0])
    ensures AfterLabel(p + v) == Some(v)
  {
    var r := p + v;
    assert r[|p|] == v[0];
    assert forall i :: 0 <= i < |p| ==> r[i] == p[i];
    SRunExact(r, |p|);
    assert r[|p|..] == v;
    assert SRun(v) == 0;
    assert SepThen(v) == Some(0);
  }

  /** With a separator the capture starts after the letters s that follow it,
      so a value glued to the separator loses a leading `s` or `S`. */
  lemma CaptureAfterSeparator(p: string, c: char, q: string, v: string)
    requires AllS(p) && IsSeparator(c) && AllS(q)
    requires Capturable(v) && !IsLetterS(v[0])
    ensures AfterLabel(p + [c] + q + v) == Some(v)
  {
    var r := p + [c] + q + v;
    assert r[|p|] == c;
    assert forall i :: 0 <= i < |p| ==> r[i] == p[i];
    SRunExact(r, |p|);
    var t := r[|p|..];
    assert t == [c] + (q + v);
    var u := t[1..];
    assert u == q + v;
    assert u[|q|] == v[0];
    assert forall i :: 0 <= i < |q| ==> u[i] == q[i];
    SRunExact(u, |q|);
    assert u[|q|..] == v;
    assert SecondStar(u, |q|) == Some(|q|);
    assert SepThen(t) == Some(|q| + 1);
    assert r[|p| + |q| + 1..] == v;
  }

  /** The label `name` begins the line, compared as the `i` flag compares. */
  predicate StartsWithIgnoringCase(line: string, name: string) {
    |name| <= |line| && SameIgnoringCase(line[..|name|], name)
  }

  /** The pattern matches the line through this alternative. */
  predicate MatchesVia(line: string, name: string) {
    StartsWithIgnoringCase(line, name) && Capturable(line[|name|..])
  }

  /** `line.match(pattern)[1]`: the alternatives are tried in order, and the
      first one through which the whole pattern matches gives the capture,
      a non-empty end of the line. */
  function MatchLine(line: string, alts: seq<string>): (r: Option<string>)
    ensures r.Some? ==> r.value != [] && |r.value| <= |line| && r.value == line[|line| - |r.value|..]
    decreases |alts|
  {
    if alts == [] then None
    else if StartsWithIgnoringCase(line, alts[0]) && AfterLabel(line[|alts[0]|..]).Some? then
      AfterLabel(line[|alts[0]|..])
    else MatchLine(line, alts[1..])
  }

  /** The pattern matches a line exactly when one of the labels begins it and
      a non-empty rest without line terminators follows. */
  lemma {:induction false} MatchLineMatches(line: string, alts: seq<string>)
    ensures MatchLine(line, alts).Some? <==> exists k :: 0 <= k < |alts| && MatchesVia(line, alts[k])
    decreases |alts|
  {
    if alts != [] {
      MatchLineMatches(line, alts[1..]);
      if exists k :: 0 <= k < |alts| && MatchesVia(line, alts[k]) {
        var k :| 0 <= k < |alts| && MatchesVia(line, alts[k]);
        if k > 0 { assert alts[1..][k - 1] == alts[k]; }
      }
      if MatchLine(line, alts[1..]).Some? {
        var k :| 0 <= k < |alts[1..]| && MatchesVia(line, alts[1..][k]);
        assert alts[k + 1] == alts[1..][k];
      }
    }
  }

  /** The capture comes from the first label in the list through which the
      pattern matches. */
  lemma {:induction false} MatchLineFirstLabel(line: string, alts: seq<string>, k: nat)
    requires k < |alts| && MatchesVia(line, alts[k])
    requires forall j :: 0 <= j < k ==> !MatchesVia(line, alts[j])
    ensures MatchLine(line, alts) == AfterLabel(line[|alts[k]|..])
    decreases k
  {
    if k > 0 {
      assert !MatchesVia(line, alts[0]);
      forall j | 0 <= j < k - 1 ensures !MatchesVia(line, alts[1..][j]) {
        assert alts[1..][j] == alts[j + 1];
      }
      MatchLineFirstLabel(line, alts[1..], k - 1);
    }
  }

  /** The capture of a trimmed line never trims to nothing: it ends where the
      line ends, on a character that is not white space. */
  lemma TrimmedCaptureNotEmpty(line: string, c: string)
    requires IsLine(line)
    requires c != [] && |c| <= |line| && c == line[|line| - |c|..]
    ensures Trim(c) != []
  {
    assert c[|c| - 1] == line[|line| - 1];
    assert !IsSpace(c[|c| - 1]);
  }

  /** The match of each line, in order. */
  function LineMatches(lines: seq<string>, alts: seq<string>): (caps: seq<Option<string>>)
    ensures |caps| == |lines|
    ensures forall k :: 0 <= k < |lines| ==> caps[k] == MatchLine(lines[k], alts)
  {
    seq(|lines|, k requires 0 <= k < |lines| => MatchLine(lines[k], alts))
  }

  /** Every capture trims to something. */
  predicate NonBlankCaptures(caps: seq<Option<string>>) {
    forall k :: 0 <= k < |caps| && caps[k].Some? ==> Trim(caps[k].value) != []
  }

  lemma LineMatchesNonBlank(lines: seq<string>, alts: seq<string>)
    requires AllLines(lines)
    ensures NonBlankCaptures(LineMatches(lines, alts))
  {
    var caps := LineMatches(lines, alts);
    forall k | 0 <= k < |caps| && caps[k].Some? ensures Trim(caps[k].value) != [] {
      MatchLineNonBlank(lines[k], alts);
    }
  }

  lemma MatchLineNonBlank(line: string, alts: seq<string>)
    requires IsLine(line)
    ensures MatchLine(line, alts).Some? ==> Trim(MatchLine(line, alts).value) != []
  {
    if MatchLine(line, alts).Some? {
      TrimmedCaptureNotEmpty(line, MatchLine(line, alts).value);
    }
  }

  /** The loop over the lines' matches: the trimmed capture of the first line
      that matched, or `''` when none did. */
  function FirstTrimmed(caps: seq<Option<string>>): string
    decreases |caps|
  {
    if caps == [] then ""
    else match caps[0]
      case Some(c) => Trim(c)
      case None => FirstTrimmed(caps[1..])
  }

  /** Whatever the loop returns is already trimmed. */
  lemma {:induction false} FirstTrimmedTrimmed(caps: seq<Option<string>>)
    ensures Trim(FirstTrimmed(caps)) == FirstTrimmed(caps)
    decreases |caps|
  {
    if caps != [] {
      match caps[0]
      case Some(c) => TrimIdempotent(c);
      case None => FirstTrimmedTrimmed(caps[1..]);
    }
  }

  /** The loop gives `''` exactly when no line matched, because no capture
      trims to nothing. */
  lemma {:induction false} FirstTrimmedEmpty(caps: seq<Option<string>>)
    requires NonBlankCaptures(caps)
    ensures FirstTrimmed(caps) == "" <==> forall k :: 0 <= k < |caps| ==> caps[k].None?
    decreases |caps|
  {
    if caps != [] {
      var tail := caps[1..];
      assert NonBlankCaptures(tail) by {
        forall k | 0 <= k < |tail| && tail[k].Some? ensures Trim(tail[k].value) != [] {
          assert tail[k] == caps[k + 1];
        }
      }
      FirstTrimmedEmpty(tail);
      if caps[0].None? {
        assert forall k :: 1 <= k < |caps| ==> caps[k] == tail[k - 1];
      }
    }
  }

  /** The loop stops at the first line that matched: the result is that
      line's trimmed capture, whatever later lines hold. */
  lemma {:induction false} FirstTrimmedAt(caps: seq<Option<string>>, k: nat)
    requires k < |caps| && caps[k].Some?
    requires forall j :: 0 <= j < k ==> caps[j].None?
    ensures FirstTrimmed(caps) == Trim(caps[k].value)
    decreases k
  {
    if k > 0 {
      var tail := caps[1..];
      assert caps[0].None?;
      forall j | 0 <= j < k - 1 ensures tail[j].None? {
        assert tail[j] == caps[j + 1];
      }
      assert tail[k - 1] == caps[k];
      FirstTrimmedAt(tail, k - 1);
    }
  }

  /** `pickAfterLabel(text, labels)`. */
  function PickAfterLabel(text: string, labels: seq<string>): (r: string)
    ensures Trim(r) == r
  {
    var caps := LineMatches(Lines(text), Alternatives(labels));
    FirstTrimmedTrimmed(caps);
    FirstTrimmed(caps)
  }

  /** `pickAfterLabel` gives `''` exactly when no line matches. */
  lemma PickAfterLabelEmpty(text: string, labels: seq<string>)
    ensures PickAfterLabel(text, labels) == "" <==>
      forall k :: 0 <= k < |Lines(text)| ==> MatchLine(Lines(text)[k], Alternatives(labels)).None?
  {
    var lines := Lines(text);
    var caps := LineMatches(lines, Alternatives(labels));
    LineMatchesNonBlank(lines, Alternatives(labels));
    FirstTrimmedEmpty(caps);
  }

  /** What `pickAfterLabel` promises: the trimmed capture of the first line,
      among the trimmed non-empty lines in order, that begins with a label
      and has text after it. */
  lemma PickAfterLabelFirstLine(text: string, labels: seq<string>, k: nat)
    requires k < |Lines(text)| && MatchLine(Lines(text)[k], Alternatives(labels)).Some?
    requires forall j :: 0 <= j < k ==> MatchLine(Lines(text)[j], Alternatives(labels)).None?
    ensures PickAfterLabel(text, labels) == Trim(MatchLine(Lines(text)[k], Alternatives(labels)).value)
  {
    var caps := LineMatches(Lines(text), Alternatives(labels));
    FirstTrimmedAt(caps, k);
  }

  // ---------------------------------------------------------------------------
  // Behaviour on single lines
  // ---------------------------------------------------------------------------

  /** A line with no white space at its ends and no line feed is the text's
      only line. */
  lemma SingleLine(text: string)
    requires '\n' !in text && text != [] && !IsSpace(text[0]) && !IsSpace(text[|text| - 1])
    ensures Lines(text) == [text]
  {
    TrimmedAlready(text);
    assert Split(text, '\n') == [text];
    assert [text][1..] == [];
    assert TrimmedNonEmpty([text]) == [text] + TrimmedNonEmpty([]);
  }

  /** The value read from a one-line text through its first label. */
  lemma PickFromOneLine(text: string, labels: seq<string>, c: string)
    requires '\n' !in text && text != [] && !IsSpace(text[0]) && !IsSpace(text[|text| - 1])
    requires labels != [] && StartsWithIgnoringCase(text, labels[0])
    requires AfterLabel(text[|labels[0]|..]) == Some(c)
    ensures PickAfterLabel(text, labels) == Trim(c)
  {
    SingleLine(text);
    assert MatchLine(text, labels) == Some(c);
    var caps := LineMatches([text], labels);
    assert caps[0] == Some(c);
    FirstTrimmedAt(caps, 0);
  }

  /** A value as it may follow a label: a trimmed line without line
      terminators. */
  predicate CleanValue(v: string) {
    IsLine(v) && Capturable(v)
  }

  /** A label and a filler in front of a clean value make a one-line text
      that ends where the value ends. */
  lemma OneLineText(head: string, v: string)
    requires head != [] && !IsSpace(head[0]) && '\n' !in head && CleanValue(v)
    ensures var text := head + v;
      '\n' !in text && text != [] && !IsSpace(text[0]) && !IsSpace(text[|text| - 1])
  {
    var text := head + v;
    assert text[0] == head[0];
    assert text[|text| - 1] == v[|v| - 1];
    assert !IsSpace(v[|v| - 1]);
    forall i | 0 <= i < |text| ensures text[i] != '\n' {
      if i < |head| { assert text[i] == head[i]; } else { assert text[i] == v[i - |head|]; }
    }
  }

  /** Text without line terminators that starts with a character other
      than white space, in front of a clean value, is a clean value. */
  lemma CleanAfter(p: string, v: string)
    requires p != [] && !IsSpace(p[0]) && CleanValue(v)
    requires forall i :: 0 <= i < |p| ==> !IsLineTerminator(p[i])
    ensures CleanValue(p + v)
  {
    var pv := p + v;
    assert pv[0] == p[0];
    assert pv[|pv| - 1] == v[|v| - 1];
    assert !IsSpace(v[|v| - 1]);
    TrimmedAlready(pv);
    forall i | 0 <= i < |pv| ensures !IsLineTerminator(pv[i]) {
      if i < |p| { assert pv[i] == p[i]; } else { assert pv[i] == v[i - |p|]; }
    }
  }

  /** A label is its own prefix, whatever its case. */
  lemma LabelStartsText(name: string, rest: string)
    ensures StartsWithIgnoringCase(name + rest, name)
  {
    assert (name + rest)[..|name|] == name;
  }

  /** A clean value after a space trims back to the value. */
  lemma PaddedValueTrims(v: string)
    requires CleanValue(v)
    ensures Trim(" " + v) == v
  {
    TrimIgnoresPadding(" ", v, "");
    assert " " + v + "" == " " + v;
  }

  /** A clean value after a space is still capturable. */
  lemma SpaceThenValue(v: string)
    requires CleanValue(v)
    ensures Capturable(" " + v) && !IsLetterS((" " + v)[0]) && !IsSeparator((" " + v)[0])
  {
    var s := " " + v;
    forall i | 0 <= i < |s| ensures !IsLineTerminator(s[i]) {
      if i > 0 { assert s[i] == v[i - 1]; }
    }
  }

  /** A text made of the first label and a rest that the pattern after the
      label captures `c` from is read through that label. */
  lemma ReadThroughFirstLabel(labels: seq<string>, rest: string, c: string)
    requires labels != [] && labels[0] != [] && !IsSpace(labels[0][0]) && '\n' !in labels[0]
    requires rest != [] && !IsSpace(rest[|rest| - 1])
    requires AfterLabel(rest) == Some(c)
    ensures PickAfterLabel(labels[0] + rest, labels) == Trim(c)
  {
    var name := labels[0];
    var text := name + rest;
    LabelStartsText(name, rest);
    assert text[0] == name[0] && text[|text| - 1] == rest[|rest| - 1];
    assert text[|name|..] == rest;
    PickFromOneLine(text, labels, c);
  }

  /** A clean value ends on a character other than white space, wherever it
      is placed. */
  lemma EndsLikeValue(p: string, v: string)
    requires CleanValue(v)
    ensures p + v != [] && !IsSpace((p + v)[|p + v| - 1])
  {
    assert (p + v)[|p + v| - 1] == v[|v| - 1];
  }

  /** The first label starts with a character other than white space and
      holds no line feed, so a line it begins is one line of the text. */
  predicate PlainFirstLabel(labels: seq<string>) {
    labels != [] && labels[0] != [] && !IsSpace(labels[0][0]) && '\n' !in labels[0]
  }

  /** The intended layout, a space after the colon, gives the value. */
  lemma SpacedValueIsRead(labels: seq<string>, v: string)
    requires PlainFirstLabel(labels) && CleanValue(v)
    ensures PickAfterLabel(labels[0] + ": " + v, labels) == v
  {
    var rest := ": " + v;
    var c := " " + v;
    assert labels[0] + ": " + v == labels[0] + rest;
    PaddedValueTrims(v);
    SpaceThenValue(v);
    assert rest == [] + [':'] + [] + c;
    CaptureAfterSeparator([], ':', [], c);
    EndsLikeValue(": ", v);
    ReadThroughFirstLabel(labels, rest, c);
  }

  /** Because `\s` became the letter `s`, a value glued to the colon loses a
      leading `s` or `S`: "Name:Sita" gives "ita". */
  lemma GluedValueLosesLeadingS(labels: seq<string>, v: string)
    requires PlainFirstLabel(labels) && CleanValue(v) && !IsLetterS(v[0])
    ensures PickAfterLabel(labels[0] + ":S" + v, labels) == v
  {
    var rest := ":S" + v;
    assert labels[0] + ":S" + v == labels[0] + rest;
    assert rest == [] + [':'] + "S" + v;
    assert AllS("S");
    CaptureAfterSeparator([], ':', "S", v);
    EndsLikeValue(":S", v);
    ReadThroughFirstLabel(labels, rest, v);
    TrimmedAlready(v);
  }

  /** A space and no separator after the label: the value is everything
      after the space. */
  lemma ValueAfterSpace(labels: seq<string>, w: string)
    requires PlainFirstLabel(labels) && CleanValue(w)
    ensures PickAfterLabel(labels[0] + " " + w, labels) == w
  {
    var rest := " " + w;
    assert labels[0] + " " + w == labels[0] + rest;
    PaddedValueTrims(w);
    SpaceThenValue(w);
    assert rest == [] + rest;
    CaptureWithoutSeparator([], rest);
    EndsLikeValue(" ", w);
    ReadThroughFirstLabel(labels, rest, rest);
  }

  lemma ReadAfterSpace(labels: seq<string>, w: string, text: string)
    requires PlainFirstLabel(labels) && CleanValue(w) && text == labels[0] + " " + w
    ensures PickAfterLabel(text, labels) == w
  {
    ValueAfterSpace(labels, w);
  }

  /** `-` lies outside the range `:`..`=`, so a dash after the label stays in
      the value. */
  lemma DashStaysInValue(labels: seq<string>, v: string)
    requires PlainFirstLabel(labels) && CleanValue(v)
    ensures PickAfterLabel(labels[0] + " - " + v, labels) == "- " + v
  {
    assert labels[0] + " - " + v == labels[0] + " " + ("- " + v);
    CleanAfter("- ", v);
    ValueAfterSpace(labels, "- " + v);
  }

  /** A label left blank gives its own colon as the value. */
  lemma BlankFieldGivesColon(labels: seq<string>)
    requires PlainFirstLabel(labels)
    ensures PickAfterLabel(labels[0] + ":", labels) == ":"
  {
    assert SRun(":") == 0;
    assert SRun(":"[1..]) == 0;
    assert SecondStar(":"[1..], 0) == None;
    assert SecondStar(":", 0) == Some(0);
    assert AfterLabel(":") == Some(":");
    ReadThroughFirstLabel(labels, ":", ":");
    TrimmedAlready(":");
  }

  const NameLabels: seq<string> := ["Name", "Applicant Name", "Name of Claimant"]

  /** The alternatives are tried in list order and "Name" comes first, so a
      line labelled "Name of Claimant" is read through "Name". */
  lemma ShorterLabelWins(v: string)
    requires CleanValue(v)
    ensures PickAfterLabel("Name of Claimant: " + v, NameLabels) == "of Claimant: " + v
  {
    NameLabelsPlain();
    ClaimantTail(v);
    ReadAfterSpace(NameLabels, "of Claimant: " + v, "Name of Claimant: " + v);
  }

  lemma NameLabelsPlain()
    ensures PlainFirstLabel(NameLabels)
  {
  }

  lemma ClaimantTail(v: string)
    requires CleanValue(v)
    ensures "Name of Claimant: " + v == NameLabels[0] + " " + ("of Claimant: " + v)
    ensures CleanValue("of Claimant: " + v)
  {
    ClaimantSplit(v);
    CleanAfter("of Claimant: ", v);
  }

  lemma ClaimantSplit(v: string)
    ensures "Name of Claimant: " + v == NameLabels[0] + " " + ("of Claimant: " + v)
  {
  }
}
