/**
  Spreadsheet cell values and the quote escaping the sync step applies to
  them before it splices them into a SQL string literal
  (`escape_special_chars`, excel_database.py:142-148).
*/
module Values {
  import opened Text

  /**
    A cell as the script sees it. Text cells are Python strings; integer
    cells are compared and printed as integers; a floating-point cell is
    kept opaque as the text Python prints for it, so two floats are equal
    exactly when that text is.
  */
  datatype Value = Str(text: string) | Int(n: int) | Float(literal: string)

  /** A row of cells, in column order. */
  type Row = seq<Value>

  /** `s.replace("'", "''")`. */
  function EscapeQuotes(s: string): string
  {
    Replace(s, '\'', "''")
  }

  /**
    `escape_special_chars`: a string has every single quote doubled, so it
    grows by one character per quote; any other value is returned as it is.
  */
  function Escape(v: Value): (r: Value)
    ensures v.Str? <==> r.Str?
    ensures v.Str? ==> |r.text| == |v.text| + Count(v.text, '\'')
    ensures !v.Str? ==> r == v
  {
    match v
    case Str(s) =>
      ReplaceLength(s, '\'', "''");
      Str(EscapeQuotes(s))
    case _ => v
  }

  /**
    The body of a well-formed single-quoted SQL literal: every quote in it
    is immediately doubled, so the literal ends at the closing quote.
  */
  predicate QuotesDoubled(s: string)
    decreases |s|
  {
    if s == [] then true
    else if s[0] == '\'' then |s| >= 2 && s[1] == '\'' && QuotesDoubled(s[2..])
    else QuotesDoubled(s[1..])
  }

  /**
    How SQL reads the body of a single-quoted literal back: each doubled
    quote stands for one quote (`s.replace("''", "'")`, scanning from the
    left).
  */
  function UnescapeQuotes(s: string): string
    decreases |s|
  {
    if s == [] then []
    else if |s| >= 2 && s[0] == '\'' && s[1] == '\'' then "'" + UnescapeQuotes(s[2..])
    else [s[0]] + UnescapeQuotes(s[1..])
  }

  /** Escaping peels off one character of the input at a time. */
  lemma EscapeQuotesCons(s: string)
    requires s != []
    ensures EscapeQuotes(s) == (if s[0] == '\'' then "''" else [s[0]]) + EscapeQuotes(s[1..])
  {
  }

  /** An escaped string is a well-formed literal body. */
  lemma {:induction false} EscapeQuotesDoubled(s: string)
    ensures QuotesDoubled(EscapeQuotes(s))
  {
    if s != [] {
      EscapeQuotesDoubled(s[1..]);
      var e := EscapeQuotes(s);
      var rest := EscapeQuotes(s[1..]);
      EscapeQuotesCons(s);
      if s[0] == '\'' {
        assert e[2..] == rest;
      } else {
        assert e[1..] == rest;
      }
    }
  }

  /** Reading an escaped string back gives the original string. */
  lemma {:induction false} UnescapeEscape(s: string)
    ensures UnescapeQuotes(EscapeQuotes(s)) == s
  {
    if s != [] {
      UnescapeEscape(s[1..]);
      var e := EscapeQuotes(s);
      var rest := EscapeQuotes(s[1..]);
      EscapeQuotesCons(s);
      if s[0] == '\'' {
        assert e[2..] == rest;
      } else {
        assert e[1..] == rest;
        assert e[0] == s[0];
      }
      assert s == [s[0]] + s[1..];
    }
  }

  /** Every well-formed literal body is the escaping of what it reads as. */
  lemma {:induction false} EscapeUnescape(t: string)
    requires QuotesDoubled(t)
    ensures EscapeQuotes(UnescapeQuotes(t)) == t
    decreases |t|
  {
    if t != [] {
      var u := UnescapeQuotes(t);
      if t[0] == '\'' {
        EscapeUnescape(t[2..]);
        assert u == "'" + UnescapeQuotes(t[2..]);
        EscapeQuotesCons(u);
        assert u[1..] == UnescapeQuotes(t[2..]);
        assert t == "''" + t[2..];
      } else {
        EscapeUnescape(t[1..]);
        assert u == [t[0]] + UnescapeQuotes(t[1..]);
        EscapeQuotesCons(u);
        assert u[1..] == UnescapeQuotes(t[1..]);
        assert t == [t[0]] + t[1..];
      }
    }
  }

  /** A text without quotes is a well-formed literal body. */
  lemma {:induction false} NoQuotesDoubled(s: string)
    requires '\'' !in s
    ensures QuotesDoubled(s)
  {
    if s != [] {
      assert s[0] in s;
      assert forall k :: 0 <= k < |s[1..]| ==> s[1..][k] == s[k + 1];
      NoQuotesDoubled(s[1..]);
    }
  }

  /** The text an f-string writes for a value (`str(value)`). */
  function Render(v: Value): string
  {
    match v
    case Str(s) => s
    case Int(n) => IntToDecimal(n)
    case Float(literal) => literal
  }

  /**
    A cell as pandas hands it over: the text Python prints for a float is
    made of digits, a sign, a point, an exponent or `inf`/`nan`, and never
    holds a single quote.
  */
  predicate ValidCell(v: Value)
  {
    v.Float? ==> '\'' !in v.literal
  }

  /**
    Escaping makes the rendered text of every cell a well-formed literal
    body, and SQL reads the text of a string back as that string.
  */
  lemma RenderedEscapeIsLiteral(v: Value)
    requires ValidCell(v)
    ensures QuotesDoubled(Render(Escape(v)))
    ensures v.Str? ==> UnescapeQuotes(Render(Escape(v))) == v.text
  {
    match v
    case Str(s) =>
      EscapeQuotesDoubled(s);
      UnescapeEscape(s);
    case Int(n) =>
      NoQuotesDoubled(IntToDecimal(n));
    case Float(literal) =>
      NoQuotesDoubled(literal);
  }
}
