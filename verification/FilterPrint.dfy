/**
 Printing filter terms, and the parser as its inverse, whatever white space is put between
 the tokens.
 */
module FilterPrint {
  import opened Wrappers
  import opened Filter

  predicate Identifier(s: string) {
    |s| > 0 && IdentChar(s[0], true) && forall i :: 0 < i < |s| ==> IdentChar(s[i], false)
  }

  predicate Blank(s: string) {
    forall i :: 0 <= i < |s| ==> Space(s[i])
  }

  predicate Word(s: string) {
    |s| > 0 && forall i :: 0 <= i < |s| ==> WordChar(s[i])
  }

  /** White space around a term's tokens: before the field, the operator, the value, and after it. */
  datatype Gaps = Gaps(field: string, op: string, value: string, end: string)

  predicate BlankGaps(g: Gaps) {
    Blank(g.field) && Blank(g.op) && Blank(g.value) && Blank(g.end)
  }

  /** How texts are quoted and numbers written. */
  datatype Style = Style(quote: char, digits: real -> string) {
    function Digits(n: real): string {
      digits(n)
    }
  }

  /** Backslashes before backslashes and quotes. */
  function Escape(s: string, q: char): string {
    if |s| == 0 then "" else (if s[0] == q || s[0] == '\\' then ['\\', s[0]] else [s[0]]) + Escape(s[1..], q)
  }

  function PrintValue(v: Value, style: Style): string {
    match v
    case Null => "null"
    case Bool(b) => if b then "true" else "false"
    case Num(n) => style.Digits(n)
    case Str(s) => [style.quote] + (Escape(s, style.quote) + [style.quote])
  }

  function PrintTerm(t: Term, g: Gaps, style: Style): string {
    g.field + (t.field + (g.op + ((if t.negate then "!=" else "=") + (g.value + (PrintValue(t.value, style) + g.end)))))
  }

  function PrintTerms(terms: seq<Term>, gaps: seq<Gaps>, style: Style): string
    requires |terms| == |gaps|
  {
    if |terms| == 0 then ""
    else if |terms| == 1 then PrintTerm(terms[0], gaps[0], style)
    else PrintTerm(terms[0], gaps[0], style) + ("&&" + PrintTerms(terms[1..], gaps[1..], style))
  }

  /** A number's digits are a word the parser reads back as that number. */
  predicate Readable(num: Numbers, style: Style, v: Value) {
    v.Num? ==> Word(style.Digits(v.n)) && WordValue(num, style.Digits(v.n)) == Some(v)
  }

  // ---------------------------------------------------------------------
  // Token by token
  // ---------------------------------------------------------------------

  lemma {:induction false} SkipBlank(gap: string, s: string)
    requires Blank(gap) && (|s| > 0 ==> !Space(s[0]))
    ensures Skip(gap + s) == s
  {
    if |gap| == 0 {
      assert gap + s == s;
    } else {
      assert (gap + s)[1..] == gap[1..] + s;
      SkipBlank(gap[1..], s);
    }
  }

  lemma {:induction false} IdentRead(word: string, s: string, first: bool)
    requires forall i :: 0 <= i < |word| ==> IdentChar(word[i], first && i == 0)
    requires |s| > 0 ==> !IdentChar(s[0], first && |word| == 0)
    ensures IdentLength(word + s, first) == |word|
  {
    if |word| == 0 {
      assert word + s == s;
    } else {
      assert (word + s)[1..] == word[1..] + s;
      IdentRead(word[1..], s, false);
    }
  }

  lemma {:induction false} WordRead(word: string, s: string)
    requires forall i :: 0 <= i < |word| ==> WordChar(word[i])
    requires |s| > 0 ==> !WordChar(s[0])
    ensures WordLength(word + s) == |word|
  {
    if |word| == 0 {
      assert word + s == s;
    } else {
      assert (word + s)[1..] == word[1..] + s;
      WordRead(word[1..], s);
    }
  }

  lemma UnquoteSteps(c: char, rest: string, q: char)
    requires q != '\\'
    ensures Unquote([q] + rest, q) == Some(("", rest))
    ensures Unquote(['\\', c] + rest, q) == Read([c], Unquote(rest, q))
    ensures c != q && c != '\\' ==> Unquote([c] + rest, q) == Read([c], Unquote(rest, q))
  {
    assert ([q] + rest)[1..] == rest && ([c] + rest)[1..] == rest && (['\\', c] + rest)[2..] == rest;
  }

  /** Unquoting undoes escaping. */
  lemma {:induction false} UnquoteEscape(text: string, q: char, s: string)
    requires q != '\\'
    ensures Unquote(Escape(text, q) + ([q] + s), q) == Some((text, s))
  {
    hide Unquote;
    if |text| == 0 {
      UnquoteSteps(q, s, q);
      assert Escape(text, q) + ([q] + s) == [q] + s;
    } else {
      var c, rest := text[0], Escape(text[1..], q) + ([q] + s);
      UnquoteEscape(text[1..], q, s);
      UnquoteSteps(c, rest, q);
      assert Escape(text, q) + ([q] + s) == (if c == q || c == '\\' then ['\\', c] else [c]) + rest;
      assert text == [c] + text[1..];
    }
  }

  /** What may follow a value: the end, white space or a conjunction. */
  predicate AfterValue(s: string) {
    |s| > 0 ==> Space(s[0]) || s[0] == '&'
  }

  lemma ValueRead(num: Numbers, style: Style, v: Value, s: string, size: nat)
    requires Quote(style.quote) && Readable(num, style, v) && AfterValue(s)
    ensures ValueAt(num, PrintValue(v, style) + s, size) == Success((v, s))
  {
    var text := PrintValue(v, style);
    if v.Str? {
      var body := Escape(v.s, style.quote) + ([style.quote] + s);
      assert (text + s)[1..] == body;
      UnquoteEscape(v.s, style.quote, s);
    } else {
      assert Word(text);
      WordRead(text, s);
      assert (text + s)[..|text|] == text && (text + s)[|text|..] == s;
      assert WordValue(num, text) == Some(v);
    }
  }

  lemma OperatorRead(negate: bool, s: string)
    ensures var op := (if negate then "!=" else "=") + s;
            && ("!=" <= op <==> negate) && (!negate ==> "=" <= op)
            && op[if negate then 2 else 1..] == s && !Space(op[0]) && !IdentChar(op[0], false)
  {
  }

  lemma TermRead(num: Numbers, style: Style, t: Term, g: Gaps, s: string, size: nat)
    requires Quote(style.quote) && Readable(num, style, t.value) && Identifier(t.field) && BlankGaps(g)
             && AfterValue(g.end + s)
    ensures var text := PrintTerm(t, g, style) + s;
            |Skip(text)| > 0 && TermAt(num, Skip(text), size) == Success((t, g.end + s))
  {
    hide Escape, WordValue, Unquote, IdentLength;
    var value := PrintValue(t.value, style) + (g.end + s);
    var op := (if t.negate then "!=" else "=") + (g.value + value);
    var field := t.field + (g.op + op);
    assert PrintTerm(t, g, style) + s == g.field + field;
    SkipBlank(g.field, field);
    OperatorRead(t.negate, g.value + value);
    assert |g.op| > 0 ==> (g.op + op)[0] == g.op[0];
    IdentRead(t.field, g.op + op, true);
    assert field[..|t.field|] == t.field && field[|t.field|..] == g.op + op;
    SkipBlank(g.op, op);
    ValueStart(num, style, t.value, g.end + s);
    SkipBlank(g.value, value);
    ValueRead(num, style, t.value, g.end + s, size);
  }

  lemma ValueStart(num: Numbers, style: Style, v: Value, s: string)
    requires Quote(style.quote) && Readable(num, style, v)
    ensures |PrintValue(v, style) + s| > 0 && !Space((PrintValue(v, style) + s)[0])
  {
    var text := PrintValue(v, style);
    assert |text| > 0 && (text + s)[0] == text[0];
  }

  // ---------------------------------------------------------------------
  // Whole filters
  // ---------------------------------------------------------------------

  predicate Printable(num: Numbers, style: Style, terms: seq<Term>) {
    Quote(style.quote) && forall i :: 0 <= i < |terms| ==>
        Identifier(terms[i].field) && Readable(num, style, terms[i].value)
  }

  predicate AllBlank(gaps: seq<Gaps>) {
    forall i :: 0 <= i < |gaps| ==> BlankGaps(gaps[i])
  }

  lemma LastTermRead(num: Numbers, style: Style, t: Term, g: Gaps, size: nat)
    requires Quote(style.quote) && Readable(num, style, t.value) && Identifier(t.field) && BlankGaps(g)
    ensures |Skip(PrintTerm(t, g, style))| > 0 && TermsAt(num, Skip(PrintTerm(t, g, style)), size) == Success([t])
  {
    var text := PrintTerm(t, g, style);
    TermRead(num, style, t, g, "", size);
    assert text + "" == text && g.end + "" == g.end;
    SkipBlank(g.end, "");
    TermsUnfold(num, Skip(text), size);
  }

  lemma NextTermRead(num: Numbers, style: Style, t: Term, g: Gaps, more: string, size: nat)
    requires Quote(style.quote) && Readable(num, style, t.value) && Identifier(t.field) && BlankGaps(g)
    ensures var text := PrintTerm(t, g, style) + ("&&" + more);
            |Skip(text)| > 0 && TermsAt(num, Skip(text), size) == Parsed([t], TermsAt(num, Skip(more), size))
  {
    var rest := "&&" + more;
    var text := PrintTerm(t, g, style) + rest;
    TermRead(num, style, t, g, rest, size);
    SkipBlank(g.end, rest);
    assert rest[2..] == more && "&&" <= rest;
    hide TermsAt, TermAt, Skip, PrintTerm, Readable, Identifier;
    TermsUnfold(num, Skip(text), size);
  }

  lemma {:induction false} TermsRead(num: Numbers, style: Style, terms: seq<Term>, gaps: seq<Gaps>, size: nat)
    requires |terms| == |gaps| > 0 && Printable(num, style, terms) && AllBlank(gaps)
    ensures var text := PrintTerms(terms, gaps, style);
            |Skip(text)| > 0 && TermsAt(num, Skip(text), size) == Success(terms)
  {
    hide TermsAt, TermAt, Skip, PrintTerm, Readable, Identifier, BlankGaps;
    if |terms| == 1 {
      LastTermRead(num, style, terms[0], gaps[0], size);
      assert terms == [terms[0]];
    } else {
      NextTermRead(num, style, terms[0], gaps[0], PrintTerms(terms[1..], gaps[1..], style), size);
      TermsRead(num, style, terms[1..], gaps[1..], size);
      assert terms == [terms[0]] + terms[1..];
    }
  }

  /**
   The parser inverts printing: every non-empty list of terms, printed in either quotes with
   any white space between the tokens, parses back to the same list.
   */
  lemma ParseInvertsPrint(num: Numbers, style: Style, terms: seq<Term>, gaps: seq<Gaps>)
    requires |terms| == |gaps| > 0 && Printable(num, style, terms) && AllBlank(gaps)
    ensures ParseOf(num, PrintTerms(terms, gaps, style)) == Success(terms)
  {
    TermsRead(num, style, terms, gaps, |PrintTerms(terms, gaps, style)|);
  }

  // ---------------------------------------------------------------------
  // What the parser lets through
  // ---------------------------------------------------------------------

  lemma {:induction false} IdentIs(s: string, first: bool)
    ensures forall i :: 0 <= i < IdentLength(s, first) ==> IdentChar(s[i], first && i == 0)
  {
    if |s| > 0 && IdentChar(s[0], first) {
      IdentIs(s[1..], false);
      forall i | 0 <= i < IdentLength(s, first)
        ensures IdentChar(s[i], first && i == 0)
      {
        assert i > 0 ==> s[i] == s[1..][i - 1];
      }
    }
  }

  lemma {:induction false} ParsedFieldsAreIdentifiers(num: Numbers, s: string, size: nat)
    requires TermsAt(num, s, size).Success?
    ensures var terms := TermsAt(num, s, size).value;
            |terms| > 0 && forall i :: 0 <= i < |terms| ==> Identifier(terms[i].field)
    decreases |s|
  {
    TermsUnfold(num, s, size);
    IdentIs(s, true);
    var t := TermAt(num, s, size).value;
    assert Identifier(t.0.field);
    var rest := Skip(t.1);
    if |rest| > 0 {
      ParsedFieldsAreIdentifiers(num, Skip(rest[2..]), size);
    }
  }

  /** Whatever filter parses, printing its terms afresh gives a filter with the same meaning. */
  lemma ReprintedParsesTheSame(num: Numbers, style: Style, src: string, gaps: seq<Gaps>)
    requires ParseOf(num, src).Success? && |gaps| == |ParseOf(num, src).value| && AllBlank(gaps) && Quote(style.quote)
    requires forall i :: 0 <= i < |gaps| ==> Readable(num, style, ParseOf(num, src).value[i].value)
    ensures ParseOf(num, PrintTerms(ParseOf(num, src).value, gaps, style)) == ParseOf(num, src)
  {
    var terms := ParseOf(num, src).value;
    if |Skip(src)| > 0 {
      ParsedFieldsAreIdentifiers(num, Skip(src), |src|);
      ParseInvertsPrint(num, style, terms, gaps);
    }
  }
}
