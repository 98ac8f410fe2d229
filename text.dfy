/** The string operations the JavaScript code relies on: `trim`, ASCII case
    folding (`toLowerCase`, `toUpperCase`, the regular-expression `i` flag),
    `join`, `split` on one character, `indexOf`, substring search, and the
    SQL string-literal escaping `s.replace(/'/g, "''")` used in every WHERE
    clause, together with the reader that undoes it. */
module Text {
  import opened Wrappers

  // ---------------------------------------------------------------------------
  // White space and trim
  // ---------------------------------------------------------------------------

  /** The characters `String.prototype.trim` removes and the regular-expression
      class `\s` matches: the ASCII white space and line terminators, the
      Unicode space separators, the byte-order mark and the Unicode line and
      paragraph separators. */
  predicate IsSpace(c: char) {
    c == ' ' || c == '\t' || c == '\n' || c == '\r' || c == '\U{000B}' || c == '\U{000C}'
    || c == '\U{00A0}' || c == '\U{1680}' || '\U{2000}' <= c <= '\U{200A}' || c == '\U{202F}'
    || c == '\U{205F}' || c == '\U{3000}' || c == '\U{FEFF}' || c == '\U{2028}' || c == '\U{2029}'
  }

  predicate AllSpace(s: string) {
    forall i :: 0 <= i < |s| ==> IsSpace(s[i])
  }

  function TrimStart(s: string): (r: string)
    ensures |r| <= |s| && r == s[|s| - |r|..]
    ensures AllSpace(s[..|s| - |r|])
    ensures r == [] || !IsSpace(r[0])
  {
    if s != [] && IsSpace(s[0]) then TrimStart(s[1..]) else s
  }

  function TrimEnd(s: string): (r: string)
    ensures |r| <= |s| && r == s[..|r|]
    ensures AllSpace(s[|r|..])
    ensures r == [] || !IsSpace(r[|r| - 1])
  {
    if s != [] && IsSpace(s[|s| - 1]) then TrimEnd(s[..|s| - 1]) else s
  }

  /** `String.prototype.trim`: the result is empty exactly for all-space input,
      and otherwise begins and ends with a non-space character. */
  function Trim(s: string): (r: string)
    ensures |r| <= |s|
    ensures r == [] <==> AllSpace(s)
    ensures r == [] || (!IsSpace(r[0]) && !IsSpace(r[|r| - 1]))
  {
    var t := TrimStart(s);
    TrimStartEmpty(s);
    TrimEndEmpty(t);
    TrimEnd(t)
  }

  lemma TrimStartEmpty(s: string)
    ensures TrimStart(s) == [] <==> AllSpace(s)
    ensures TrimStart(s) != [] ==> !AllSpace(TrimStart(s))
  {
    var r := TrimStart(s);
    if r == [] {
      assert s[..|s|] == s;
    } else {
      assert r[0] == s[|s| - |r|];
    }
  }

  lemma TrimEndEmpty(t: string)
    ensures TrimEnd(t) == [] <==> AllSpace(t)
    ensures TrimEnd(t) != [] ==> TrimEnd(t)[0] == t[0]
  {
    var r := TrimEnd(t);
    if r == [] {
      assert t[0..] == t;
    } else {
      assert r[|r| - 1] == t[|r| - 1];
    }
  }

  lemma {:induction false} TrimStartSpacePrefix(a: string, s: string)
    requires AllSpace(a)
    ensures TrimStart(a + s) == TrimStart(s)
    decreases |a|
  {
    if a != [] {
      assert (a + s)[1..] == a[1..] + s;
      TrimStartSpacePrefix(a[1..], s);
    } else {
      assert a + s == s;
    }
  }

  lemma {:induction false} TrimEndSpaceSuffix(s: string, b: string)
    requires AllSpace(b)
    ensures TrimEnd(s + b) == TrimEnd(s)
    decreases |b|
  {
    if b != [] {
      var b' := b[..|b| - 1];
      assert (s + b)[..|s + b| - 1] == s + b';
      TrimEndSpaceSuffix(s, b');
    } else {
      assert s + b == s;
    }
  }

  lemma {:induction false} TrimStartAppend(s: string, b: string)
    requires !AllSpace(s)
    ensures TrimStart(s + b) == TrimStart(s) + b
    decreases |s|
  {
    if IsSpace(s[0]) {
      assert (s + b)[1..] == s[1..] + b;
      assert !AllSpace(s[1..]) by {
        var i :| 0 <= i < |s| && !IsSpace(s[i]);
        assert s[1..][i - 1] == s[i];
      }
      TrimStartAppend(s[1..], b);
    }
  }

  /** Surrounding white space does not change the trimmed value: strings that
      differ only in outer white space trim to the same string. */
  lemma TrimIgnoresPadding(a: string, s: string, b: string)
    requires AllSpace(a) && AllSpace(b)
    ensures Trim(a + s + b) == Trim(s)
  {
    assert a + s + b == a + (s + b);
    TrimStartSpacePrefix(a, s + b);
    if AllSpace(s) {
      assert AllSpace(s + b) by {
        forall i | 0 <= i < |s + b| ensures IsSpace((s + b)[i]) {
          if i < |s| { assert (s + b)[i] == s[i]; } else { assert (s + b)[i] == b[i - |s|]; }
        }
      }
    } else {
      TrimStartAppend(s, b);
      TrimEndSpaceSuffix(TrimStart(s), b);
    }
  }

  /** Trimming twice is trimming once. */
  lemma TrimIdempotent(s: string)
    ensures Trim(Trim(s)) == Trim(s)
  {
    var r := Trim(s);
    if r != [] {
      assert TrimStart(r) == r;
      assert TrimEnd(r) == r;
    }
  }

  /** A string with no white space at either end is its own trim. */
  lemma TrimmedAlready(s: string)
    requires s != [] && !IsSpace(s[0]) && !IsSpace(s[|s| - 1])
    ensures Trim(s) == s
  {
    assert TrimStart(s) == s;
    assert TrimEnd(s) == s;
  }

  /** Trimming adds no character: one the string lacks, its trim lacks. */
  lemma TrimAvoids(p: string, c: char)
    requires c !in p
    ensures c !in Trim(p)
  {
    var t := TrimStart(p);
    assert Trim(p) == TrimEnd(t);
    assert TrimEnd(t) == t[..|Trim(p)|];
    assert t == p[|p| - |t|..];
    assert Trim(p) == p[|p| - |t|..][..|Trim(p)|];
  }

  /** Every entry is trimmed and not empty. */
  predicate AllTrimmedNonEmpty(r: seq<string>) {
    forall k :: 0 <= k < |r| ==> r[k] != [] && Trim(r[k]) == r[k]
  }

  /** `.map(s => s.trim()).filter(Boolean)`: the trimmed pieces that are not
      empty, in order. */
  function TrimmedNonEmpty(pieces: seq<string>): (r: seq<string>)
    ensures AllTrimmedNonEmpty(r)
  {
    if pieces == [] then []
    else
      var t := Trim(pieces[0]);
      var rest := TrimmedNonEmpty(pieces[1..]);
      TrimIdempotent(pieces[0]);
      if t == [] then rest else [t] + rest
  }

  /** `.filter(Boolean)` on strings: the non-empty ones, in order. */
  function NonEmpty(parts: seq<string>): (r: seq<string>)
    ensures forall k :: 0 <= k < |r| ==> r[k] != ""
    ensures |r| <= |parts|
  {
    if parts == [] then []
    else if parts[0] == "" then NonEmpty(parts[1..])
    else [parts[0]] + NonEmpty(parts[1..])
  }

  /** A string, or nothing when it is empty. */
  function Kept(x: string): seq<string> {
    if x == "" then [] else [x]
  }

  lemma NonEmptyCons(x: string, rest: seq<string>)
    ensures NonEmpty([x] + rest) == Kept(x) + NonEmpty(rest)
  {
    assert ([x] + rest)[1..] == rest;
  }

  /** The filter drops the empty strings and nothing else: every other value
      is kept as often as it occurs. */
  lemma {:induction false} NonEmptyCount(s: seq<string>, x: string)
    ensures multiset(NonEmpty(s))[x] == if x == "" then 0 else multiset(s)[x]
  {
    if s != [] {
      NonEmptyCount(s[1..], x);
      assert s == [s[0]] + s[1..];
    }
  }

  /** A character no piece holds is in no entry of the list. */
  lemma {:induction false} TrimmedNonEmptyAvoids(pieces: seq<string>, c: char)
    requires forall k :: 0 <= k < |pieces| ==> c !in pieces[k]
    ensures forall k :: 0 <= k < |TrimmedNonEmpty(pieces)| ==> c !in TrimmedNonEmpty(pieces)[k]
  {
    if pieces != [] {
      TrimAvoids(pieces[0], c);
      TrimmedNonEmptyAvoids(pieces[1..], c);
    }
  }

  // ---------------------------------------------------------------------------
  // ASCII case folding
  // ---------------------------------------------------------------------------

  function LowerChar(c: char): char {
    if 'A' <= c <= 'Z' then (c as int - 'A' as int + 'a' as int) as char else c
  }

  function UpperChar(c: char): char {
    if 'a' <= c <= 'z' then (c as int - 'a' as int + 'A' as int) as char else c
  }

  /** `toLowerCase`, restricted to the ASCII letters. */
  function Lower(s: string): (r: string)
    ensures |r| == |s|
    ensures forall i :: 0 <= i < |s| ==> r[i] == LowerChar(s[i])
  {
    if s == [] then [] else [LowerChar(s[0])] + Lower(s[1..])
  }

  /** `toUpperCase`, restricted to the ASCII letters. */
  function Upper(s: string): (r: string)
    ensures |r| == |s|
    ensures forall i :: 0 <= i < |s| ==> r[i] == UpperChar(s[i])
  {
    if s == [] then [] else [UpperChar(s[0])] + Upper(s[1..])
  }

  /** Case-insensitive equality of two strings, as the regular-expression `i`
      flag compares characters (both sides brought to upper case). */
  predicate SameIgnoringCase(a: string, b: string) {
    Upper(a) == Upper(b)
  }

  /** No white-space character is an ASCII letter. */
  lemma LowerCharSpace(c: char)
    ensures IsSpace(LowerChar(c)) == IsSpace(c)
    ensures IsSpace(c) ==> LowerChar(c) == c
  {
  }

  lemma {:induction false} LowerTrimStartCommute(s: string)
    ensures Lower(TrimStart(s)) == TrimStart(Lower(s))
    decreases |s|
  {
    if s != [] {
      var l := Lower(s);
      assert l[0] == LowerChar(s[0]) && l[1..] == Lower(s[1..]);
      LowerCharSpace(s[0]);
      if IsSpace(s[0]) {
        LowerTrimStartCommute(s[1..]);
      }
    }
  }

  lemma LowerInit(s: string)
    requires s != []
    ensures Lower(s)[|s| - 1] == LowerChar(s[|s| - 1]) && Lower(s)[..|s| - 1] == Lower(s[..|s| - 1])
  {
  }

  lemma {:induction false} LowerTrimEndCommute(s: string)
    ensures Lower(TrimEnd(s)) == TrimEnd(Lower(s))
    decreases |s|
  {
    if s != [] {
      LowerInit(s);
      LowerCharSpace(s[|s| - 1]);
      if IsSpace(s[|s| - 1]) {
        LowerTrimEndCommute(s[..|s| - 1]);
      }
    }
  }

  /** Lower-casing an upper-cased string is lower-casing the string. */
  lemma LowerUpper(s: string)
    ensures Lower(Upper(s)) == Lower(s)
  {
  }

  /** Lower-casing and trimming commute (no white-space character is an ASCII
      letter). */
  lemma LowerTrimCommute(s: string)
    ensures Lower(Trim(s)) == Trim(Lower(s))
  {
    LowerTrimEndCommute(TrimStart(s));
    LowerTrimStartCommute(s);
  }

  // ---------------------------------------------------------------------------
  // join / split / indexOf
  // ---------------------------------------------------------------------------

  /** `Array.prototype.join(sep)` on strings. */
  function Join(parts: seq<string>, sep: string): string
  {
    if |parts| == 0 then "" else if |parts| == 1 then parts[0] else parts[0] + sep + Join(parts[1..], sep)
  }

  lemma JoinTwo(a: string, b: string, sep: string)
    ensures Join([a, b], sep) == a + (sep + b)
  {
    assert [a, b][1..] == [b];
  }

  lemma JoinThree(a: string, b: string, c: string, sep: string)
    ensures Join([a, b, c], sep) == a + (sep + (b + (sep + c)))
  {
    assert [a, b, c][1..] == [b, c];
    JoinTwo(b, c, sep);
  }

  /** `indexOf` of a character known to occur. */
  function IndexOf(s: string, c: char): (i: nat)
    requires c in s
    ensures i < |s| && s[i] == c && c !in s[..i]
  {
    if s[0] == c then 0 else 1 + IndexOf(s[1..], c)
  }

  /** `String.prototype.split` on a one-character separator. */
  function Split(s: string, c: char): (r: seq<string>)
    ensures |r| >= 1
    ensures forall k :: 0 <= k < |r| ==> c !in r[k]
    decreases |s|
  {
    if c !in s then [s] else var i := IndexOf(s, c); [s[..i]] + Split(s[i + 1..], c)
  }

  /** The first piece of a split is the text before the first separator. */
  lemma SplitFirstPiece(a: string, c: char, b: string)
    requires c !in a
    ensures Split(a + [c] + b, c)[0] == a
  {
    var s := a + [c] + b;
    assert s[|a|] == c;
    var i := IndexOf(s, c);
    assert i <= |a| by {
      assert s[..|a| + 1][|a|] == c;
    }
    assert forall j :: 0 <= j < |a| ==> s[j] == a[j];
    assert s[..i] == a;
  }

  /** Splitting a joined list gives the list back, as long as no part holds
      the separator. */
  lemma {:induction false} SplitJoin(parts: seq<string>, c: char)
    requires |parts| >= 1
    requires forall k :: 0 <= k < |parts| ==> c !in parts[k]
    ensures Split(Join(parts, [c]), c) == parts
  {
    if |parts| == 1 {
    } else {
      var rest := Join(parts[1..], [c]);
      var s := parts[0] + [c] + rest;
      assert Join(parts, [c]) == s;
      assert c in s by { assert s[|parts[0]|] == c; }
      var i := IndexOf(s, c);
      assert s[..|parts[0]|] == parts[0];
      assert i <= |parts[0]| by {
        assert s[..|parts[0]| + 1][|parts[0]|] == c;
        assert c in s[..|parts[0]| + 1];
      }
      assert i >= |parts[0]| by {
        assert s[..i + 1][i] == c;
        assert c in s[..i + 1];
      }
      assert s[..i] == parts[0];
      assert s[i + 1..] == rest;
      SplitJoin(parts[1..], c);
    }
  }

  /** Joining the pieces of a split gives the string back. */
  lemma {:induction false} JoinSplit(s: string, c: char)
    ensures Join(Split(s, c), [c]) == s
    decreases |s|
  {
    if c in s {
      var i := IndexOf(s, c);
      var tail := Split(s[i + 1..], c);
      JoinSplit(s[i + 1..], c);
      assert Split(s, c) == [s[..i]] + tail;
      JoinCons(s[..i], tail, [c]);
      assert s == s[..i] + [c] + s[i + 1..];
    }
  }

  lemma JoinCons(a: string, rest: seq<string>, sep: string)
    requires rest != []
    ensures Join([a] + rest, sep) == a + sep + Join(rest, sep)
  {
    assert ([a] + rest)[1..] == rest;
  }

  // ---------------------------------------------------------------------------
  // Substring search
  // ---------------------------------------------------------------------------

  predicate IsPrefix(p: string, s: string) {
    |p| <= |s| && s[..|p|] == p
  }

  predicate OccursAt(s: string, p: string, i: int) {
    0 <= i <= |s| - |p| && s[i..i + |p|] == p
  }

  /** `s.includes(p)`. */
  predicate Contains(s: string, p: string) {
    exists i | 0 <= i <= |s| - |p| :: OccursAt(s, p, i)
  }

  /** A case-insensitive literal search, as a regular expression made of an
      escaped literal with the `i` flag performs it. */
  predicate ContainsIgnoringCase(s: string, p: string) {
    Contains(Upper(s), Upper(p))
  }

  // ---------------------------------------------------------------------------
  // SQL string literals
  // ---------------------------------------------------------------------------

  /** `s.replace(/'/g, "''")`: every single quote doubled. */
  function EscapeQuotes(s: string): (r: string)
    ensures |r| >= |s|
  {
    if s == [] then [] else (if s[0] == '\'' then "''" else [s[0]]) + EscapeQuotes(s[1..])
  }

  /** A text without quotes is left as it is. */
  lemma {:induction false} EscapeQuotesNoQuote(s: string)
    requires '\'' !in s
    ensures EscapeQuotes(s) == s
  {
    if s != [] {
      assert s[0] != '\'' && '\'' !in s[1..];
      EscapeQuotesNoQuote(s[1..]);
      assert [s[0]] + s[1..] == s;
    }
  }

  /** Escaping distributes over concatenation. */
  lemma {:induction false} EscapeQuotesAppend(a: string, b: string)
    ensures EscapeQuotes(a + b) == EscapeQuotes(a) + EscapeQuotes(b)
  {
    if a == [] {
      assert a + b == b;
    } else {
      assert (a + b)[0] == a[0] && (a + b)[1..] == a[1..] + b;
      EscapeQuotesAppend(a[1..], b);
    }
  }

  /** How a SQL parser reads the body of a quoted literal whose opening quote
      has been consumed: `''` stands for one quote and a lone `'` closes the
      literal. Yields the literal's value and the text after the closing
      quote, or None when the literal is never closed. */
  function ReadQuoted(s: string): (r: Option<(string, string)>)
    ensures r.Some? ==> |r.value.1| < |s|
  {
    if s == [] then None
    else if s[0] == '\'' then
      if |s| > 1 && s[1] == '\'' then
        match ReadQuoted(s[2..])
        case None => None
        case Some(p) => Some(("'" + p.0, p.1))
      else Some(("", s[1..]))
    else
      match ReadQuoted(s[1..])
      case None => None
      case Some(p) => Some(([s[0]] + p.0, p.1))
  }

  lemma ReadQuotedDoubledQuote(tail: string)
    ensures ReadQuoted("''" + tail) ==
      match ReadQuoted(tail)
      case None => None
      case Some(p) => Some(("'" + p.0, p.1))
  {
    assert ("''" + tail)[2..] == tail;
  }

  lemma ReadQuotedPlainChar(c: char, tail: string)
    requires c != '\''
    ensures ReadQuoted([c] + tail) ==
      match ReadQuoted(tail)
      case None => None
      case Some(p) => Some(([c] + p.0, p.1))
  {
    assert ([c] + tail)[1..] == tail;
  }

  /** An escaped value placed between quotes is read back as exactly that
      value, and the reader stops at the closing quote: no value can end the
      literal early or inject text after it. */
  lemma {:induction false} ReadQuotedEscape(x: string, rest: string)
    requires rest == [] || rest[0] != '\''
    ensures ReadQuoted(EscapeQuotes(x) + "'" + rest) == Some((x, rest))
  {
    if x == [] {
      assert EscapeQuotes(x) + "'" + rest == "'" + rest;
      ReadQuotedClose(rest);
    } else {
      ReadQuotedEscape(x[1..], rest);
      ReadQuotedEscapeStep(x, rest);
    }
  }

  /** One character of the escaped value: a doubled quote or a plain
      character is read back as the value's first character. */
  lemma ReadQuotedEscapeStep(x: string, rest: string)
    requires x != []
    requires ReadQuoted(EscapeQuotes(x[1..]) + "'" + rest) == Some((x[1..], rest))
    ensures ReadQuoted(EscapeQuotes(x) + "'" + rest) == Some((x, rest))
  {
    var tail := EscapeQuotes(x[1..]) + "'" + rest;
    if x[0] == '\'' {
      EscapedHead(x, "''", rest);
      ReadQuotedDoubledQuote(tail);
      assert "'" + x[1..] == x;
    } else {
      EscapedHead(x, [x[0]], rest);
      ReadQuotedPlainChar(x[0], tail);
      assert [x[0]] + x[1..] == x;
    }
  }

  lemma EscapedHead(x: string, head: string, rest: string)
    requires x != [] && head == if x[0] == '\'' then "''" else [x[0]]
    ensures EscapeQuotes(x) + "'" + rest == head + (EscapeQuotes(x[1..]) + "'" + rest)
  {
    assert EscapeQuotes(x) == head + EscapeQuotes(x[1..]);
  }

  /** A lone quote closes the literal. */
  lemma ReadQuotedClose(rest: string)
    requires rest == [] || rest[0] != '\''
    ensures ReadQuoted("'" + rest) == Some(("", rest))
  {
    assert ("'" + rest)[1..] == rest;
  }

  /** Upper-casing an escaped value is escaping the upper-cased value. */
  lemma {:induction false} UpperEscapeCommute(x: string)
    ensures Upper(EscapeQuotes(x)) == EscapeQuotes(Upper(x))
  {
    if x != [] {
      UpperEscapeCommute(x[1..]);
      var head := if x[0] == '\'' then "''" else [x[0]];
      var ux := Upper(x);
      assert ux[0] == UpperChar(x[0]) && ux[1..] == Upper(x[1..]);
      assert EscapeQuotes(x) == head + EscapeQuotes(x[1..]);
      UpperAppend(head, EscapeQuotes(x[1..]));
      assert EscapeQuotes(ux) == (if ux[0] == '\'' then "''" else [ux[0]]) + EscapeQuotes(ux[1..]);
      assert Upper(head) == (if ux[0] == '\'' then "''" else [ux[0]]);
    }
  }

  lemma UpperAppend(a: string, b: string)
    ensures Upper(a + b) == Upper(a) + Upper(b)
  {
  }

  lemma LowerAppend(a: string, b: string)
    ensures Lower(a + b) == Lower(a) + Lower(b)
  {
  }
}
