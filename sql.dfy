/** WHERE clauses written as JavaScript template literals in which every
    interpolated value sits between single quotes with its own quotes doubled,
    and the SQL reading of such a text: the sequence of string literals a
    lexer finds in it. Every builder in claims.js and DSS.jsx is a `Template`;
    `LiteralsOfTemplate` proves that each interpolated value is read back as
    exactly one literal holding exactly that value. */
module Sql {
  import opened Wrappers
  import opened Text

  /** `'${String(x).replace(/'/g, "''")}'`. */
  function Quote(x: string): string {
    Quoted(EscapeQuotes(x))
  }

  /** Text placed between single quotes as it is. */
  function Quoted(e: string): string {
    "'" + e + "'"
  }

  /** A template literal: the fixed text pieces with the quoted values between
      them. */
  function Template(fixed: seq<string>, values: seq<string>): string
    requires |fixed| == |values| + 1
  {
    if values == [] then fixed[0] else fixed[0] + Quote(values[0]) + Template(fixed[1..], values[1..])
  }

  /** `n` copies of one fixed piece, for the separators of an `IN (...)`
      list. */
  function Repeat(piece: string, n: nat): (r: seq<string>)
    ensures |r| == n && forall i :: 0 <= i < n ==> r[i] == piece
  {
    if n == 0 then [] else [piece] + Repeat(piece, n - 1)
  }

  /** The string literals of a WHERE text, in order, or None when a literal is
      never closed. */
  function Literals(w: string): Option<seq<string>>
    decreases |w|
  {
    if w == [] then Some([])
    else if w[0] != '\'' then Literals(w[1..])
    else
      match ReadQuoted(w[1..])
      case None => None
      case Some(p) =>
        match Literals(p.1)
        case None => None
        case Some(ls) => Some([p.0] + ls)
  }

  predicate NoQuote(s: string) {
    '\'' !in s
  }

  lemma {:induction false} LiteralsPlain(t: string, w: string)
    requires NoQuote(t)
    ensures Literals(t + w) == Literals(w)
    decreases |t|
  {
    if t == [] {
      assert t + w == w;
    } else {
      assert (t + w)[0] == t[0] && (t + w)[1..] == t[1..] + w;
      LiteralsPlain(t[1..], w);
    }
  }

  lemma LiteralsQuote(x: string, w: string)
    requires w == [] || w[0] != '\''
    ensures Literals(Quote(x) + w) ==
      match Literals(w)
      case None => None
      case Some(ls) => Some([x] + ls)
  {
    var t := Quote(x) + w;
    assert t[0] == '\'';
    assert t[1..] == EscapeQuotes(x) + "'" + w;
    ReadQuotedEscape(x, w);
  }

  /** A literal that was closed stays closed when text not starting with a
      quote follows. */
  lemma {:induction false} ReadQuotedAppend(s: string, b: string)
    requires ReadQuoted(s).Some?
    requires ReadQuoted(s).value.1 != [] || b == [] || b[0] != '\''
    ensures ReadQuoted(s + b) == Some((ReadQuoted(s).value.0, ReadQuoted(s).value.1 + b))
    decreases |s|
  {
    assert (s + b)[0] == s[0];
    if s[0] == '\'' {
      if |s| > 1 && s[1] == '\'' {
        assert (s + b)[2..] == s[2..] + b;
        ReadQuotedAppend(s[2..], b);
      } else {
        assert (s + b)[1..] == s[1..] + b;
      }
    } else {
      assert (s + b)[1..] == s[1..] + b;
      ReadQuotedAppend(s[1..], b);
    }
  }

  /** The literals of a text whose own literals are all closed, followed by
      text that does not start with a quote, are those of the two parts. */
  lemma {:induction false} LiteralsAppend(a: string, b: string)
    requires Literals(a).Some?
    requires b == [] || b[0] != '\''
    ensures Literals(a + b) ==
      match Literals(b)
      case None => None
      case Some(lb) => Some(Literals(a).value + lb)
    decreases |a|
  {
    if a == [] {
      assert a + b == b;
      if Literals(b).Some? {
        assert [] + Literals(b).value == Literals(b).value;
      }
    } else {
      assert (a + b)[0] == a[0] && (a + b)[1..] == a[1..] + b;
      if a[0] != '\'' {
        LiteralsAppend(a[1..], b);
      } else {
        var p := ReadQuoted(a[1..]).value;
        ReadQuotedAppend(a[1..], b);
        assert Literals(a) == Some([p.0] + Literals(p.1).value);
        LiteralsAppend(p.1, b);
        assert ReadQuoted((a + b)[1..]) == Some((p.0, p.1 + b));
        if Literals(b).Some? {
          assert Literals(a + b) == Some([p.0] + (Literals(p.1).value + Literals(b).value));
          assert [p.0] + (Literals(p.1).value + Literals(b).value) == ([p.0] + Literals(p.1).value) + Literals(b).value;
        } else {
          assert Literals(p.1 + b).None?;
        }
      }
    }
  }

  /** A quoted value on its own reads back as that value. */
  lemma LiteralsOfQuote(x: string)
    ensures Literals(Quote(x)) == Some([x])
  {
    LiteralsQuote(x, []);
    assert Quote(x) + [] == Quote(x);
    assert [x] + [] == [x];
  }

  /** A clause with one quoted value between fixed text without quotes. */
  lemma LiteralsOfClause(prefix: string, x: string, suffix: string)
    requires NoQuote(prefix) && NoQuote(suffix)
    ensures Literals(prefix + Quote(x) + suffix) == Some([x])
  {
    LiteralsPlain(suffix, []);
    assert suffix + [] == suffix;
    LiteralsQuote(x, suffix);
    assert prefix + Quote(x) + suffix == prefix + (Quote(x) + suffix);
    LiteralsPlain(prefix, Quote(x) + suffix);
    assert [x] + [] == [x];
  }

  /** `values.map(v => quote(v))`. */
  function QuoteEach(values: seq<string>): (r: seq<string>)
    ensures |r| == |values| && forall i :: 0 <= i < |values| ==> r[i] == Quote(values[i])
  {
    if values == [] then [] else [Quote(values[0])] + QuoteEach(values[1..])
  }

  /** A list of quoted values joined by a separator without quotes reads back
      as the list. */
  lemma {:induction false} LiteralsOfQuotedList(values: seq<string>, sep: string)
    requires |values| >= 1
    requires NoQuote(sep) && sep != []
    ensures Literals(Join(QuoteEach(values), sep)) == Some(values)
    decreases |values|
  {
    var parts := QuoteEach(values);
    LiteralsOfQuote(values[0]);
    if |values| > 1 {
      var rest := Join(parts[1..], sep);
      assert parts[1..] == QuoteEach(values[1..]);
      LiteralsOfQuotedList(values[1..], sep);
      assert Join(parts, sep) == parts[0] + (sep + rest);
      LiteralsPlain(sep, rest);
      LiteralsAppend(Quote(values[0]), sep + rest);
      assert [values[0]] + values[1..] == values;
    } else {
      assert Join(parts, sep) == Quote(values[0]);
      assert values == [values[0]];
    }
  }

  /** A template whose fixed pieces hold no quote, and whose inner pieces are
      not empty (so that two literals never touch and read as one doubled
      quote), has exactly its interpolated values as its literals. */
  lemma {:induction false} LiteralsOfTemplate(fixed: seq<string>, values: seq<string>)
    requires |fixed| == |values| + 1
    requires forall i :: 0 <= i < |fixed| ==> NoQuote(fixed[i])
    requires forall i :: 0 < i < |values| ==> fixed[i] != []
    ensures Literals(Template(fixed, values)) == Some(values)
    decreases |values|
  {
    if values == [] {
      LiteralsPlain(fixed[0], []);
      assert fixed[0] + [] == fixed[0];
    } else {
      var rest := Template(fixed[1..], values[1..]);
      LiteralsOfTemplate(fixed[1..], values[1..]);
      TemplateStartsPlain(fixed[1..], values[1..]);
      LiteralsQuote(values[0], rest);
      assert Template(fixed, values) == fixed[0] + (Quote(values[0]) + rest);
      LiteralsPlain(fixed[0], Quote(values[0]) + rest);
      assert [values[0]] + values[1..] == values;
    }
  }

  /** A template does not start with a quote when its first fixed piece is
      not empty, or when it is the whole template. */
  lemma TemplateStartsPlain(fixed: seq<string>, values: seq<string>)
    requires |fixed| == |values| + 1
    requires forall i :: 0 <= i < |fixed| ==> NoQuote(fixed[i])
    requires values != [] ==> fixed[0] != []
    ensures Template(fixed, values) == [] || Template(fixed, values)[0] != '\''
  {
    if values != [] {
      assert NoQuote(fixed[0]);
      assert Template(fixed, values)[0] == fixed[0][0];
    }
  }

  /** A value compared for equality, then an `IN (...)` list of the others
      with a non-empty separator between them. */
  lemma InListLiterals(f0: string, f1: string, sep: string, close: string, first: string, rest: seq<string>)
    requires |rest| >= 1
    requires NoQuote(f0) && NoQuote(f1) && NoQuote(sep) && NoQuote(close) && f1 != [] && sep != []
    ensures Literals(Template([f0, f1] + Repeat(sep, |rest| - 1) + [close], [first] + rest)) == Some([first] + rest)
  {
    var values := [first] + rest;
    var fixed := [f0, f1] + Repeat(sep, |rest| - 1) + [close];
    forall i | 0 <= i < |fixed| ensures NoQuote(fixed[i]) && (0 < i < |values| ==> fixed[i] != []) {
      if 2 <= i < |fixed| - 1 {
        assert fixed[i] == Repeat(sep, |rest| - 1)[i - 2];
      }
    }
    LiteralsOfTemplate(fixed, values);
  }

  lemma LiteralsOfTemplate1(f0: string, f1: string, a: string)
    requires NoQuote(f0) && NoQuote(f1)
    ensures Literals(Template([f0, f1], [a])) == Some([a])
  {
    LiteralsOfTemplate([f0, f1], [a]);
  }

  lemma LiteralsOfTemplate2(f0: string, f1: string, f2: string, a: string, b: string)
    requires NoQuote(f0) && NoQuote(f1) && NoQuote(f2) && f1 != []
    ensures Literals(Template([f0, f1, f2], [a, b])) == Some([a, b])
  {
    LiteralsOfTemplate([f0, f1, f2], [a, b]);
  }

  lemma LiteralsOfTemplate3(f0: string, f1: string, f2: string, f3: string, a: string, b: string, c: string)
    requires NoQuote(f0) && NoQuote(f1) && NoQuote(f2) && NoQuote(f3) && f1 != [] && f2 != []
    ensures Literals(Template([f0, f1, f2, f3], [a, b, c])) == Some([a, b, c])
  {
    LiteralsOfTemplate([f0, f1, f2, f3], [a, b, c]);
  }
}
