/**
 The filters a projection may put to its own simulated rows: a lexer over a position, a
 parser of `field = value` terms joined by `&&`, and the language they accept as functions
 of the text still ahead.
 */
module Filter {
  import opened Wrappers

  datatype Value = Null | Bool(b: bool) | Num(n: real) | Str(s: string)

  datatype Term = Term(field: string, negate: bool, value: Value)

  /** at counts from the start of the filter. */
  datatype Error = NoField(at: int) | NoOperator(at: int) | NoValue(at: int) | Unterminated | NoAnd(at: int)

  /** strconv.ParseFloat on a word; None when it is not a number. */
  datatype Numbers = Numbers(parse: string -> Option<real>) {
    function Parse(word: string): Option<real> {
      parse(word)
    }
  }

  predicate Space(c: char) {
    c == ' ' || c == '\t' || c == '\n' || c == '\r'
  }

  predicate IdentChar(c: char, first: bool) {
    c == '_' || 'a' <= c <= 'z' || 'A' <= c <= 'Z' || (!first && '0' <= c <= '9')
  }

  predicate WordChar(c: char) {
    IdentChar(c, false) || c == '.' || c == '-'
  }

  predicate Quote(c: char) {
    c == '\'' || c == '"'
  }

  // ---------------------------------------------------------------------
  // On the text still ahead
  // ---------------------------------------------------------------------

  function Skip(s: string): (rest: string)
    ensures |rest| <= |s|
  {
    if |s| > 0 && Space(s[0]) then Skip(s[1..]) else s
  }

  function IdentLength(s: string, first: bool): (n: nat)
    ensures n <= |s|
  {
    if |s| > 0 && IdentChar(s[0], first) then 1 + IdentLength(s[1..], false) else 0
  }

  function WordLength(s: string): (n: nat)
    ensures n <= |s|
  {
    if |s| > 0 && WordChar(s[0]) then 1 + WordLength(s[1..]) else 0
  }

  /** A quoted text after its opening quote, and what follows it; a backslash takes the next character as it is. */
  function Unquote(s: string, q: char): (r: Option<(string, string)>)
    ensures r.Some? ==> |r.value.1| < |s|
    decreases |s|
  {
    if |s| == 0 then None
    else if s[0] == '\\' && |s| > 1 then Read([s[1]], Unquote(s[2..], q))
    else if s[0] == q then Some(("", s[1..]))
    else Read([s[0]], Unquote(s[1..], q))
  }

  function WordValue(num: Numbers, word: string): Option<Value> {
    if word == "true" then Some(Bool(true))
    else if word == "false" then Some(Bool(false))
    else if word == "null" then Some(Null)
    else if num.Parse(word).Some? then Some(Num(num.Parse(word).value))
    else None
  }

  /** A value and what follows it; size is the length of the whole filter, for the error. */
  function ValueAt(num: Numbers, s: string, size: nat): (r: Result<(Value, string), Error>)
    ensures r.Success? ==> |r.value.1| <= |s|
  {
    if |s| == 0 then Failure(NoValue(size))
    else if Quote(s[0]) then
      var text := Unquote(s[1..], s[0]);
      if text.None? then Failure(Unterminated) else Success((Str(text.value.0), text.value.1))
    else
      var n := WordLength(s);
      var v := WordValue(num, s[..n]);
      if v.None? then Failure(NoValue(size - |s|)) else Success((v.value, s[n..]))
  }

  lemma ValueUnfolds(num: Numbers, s: string, size: nat)
    ensures |s| == 0 ==> ValueAt(num, s, size) == Failure(NoValue(size))
    ensures |s| > 0 && Quote(s[0]) ==>
              var text := Unquote(s[1..], s[0]);
              ValueAt(num, s, size) ==
              if text.None? then Failure(Unterminated) else Success((Str(text.value.0), text.value.1))
    ensures |s| > 0 && !Quote(s[0]) ==>
              var n := WordLength(s);
              var v := WordValue(num, s[..n]);
              ValueAt(num, s, size) == if v.None? then Failure(NoValue(size - |s|)) else Success((v.value, s[n..]))
  {
  }

  lemma WordUnfolds(s: string)
    ensures WordLength(s) == if |s| > 0 && WordChar(s[0]) then 1 + WordLength(s[1..]) else 0
  {
  }

  /** One term and what follows it. */
  function TermAt(num: Numbers, s: string, size: nat): (r: Result<(Term, string), Error>)
    ensures r.Success? ==> |r.value.1| < |s|
  {
    var n := IdentLength(s, true);
    if n == 0 then Failure(NoField(size - |s|))
    else
      var op := Skip(s[n..]);
      var negate := "!=" <= op;
      if !negate && !("=" <= op) then Failure(NoOperator(size - |op|))
      else
        var v := ValueAt(num, Skip(op[if negate then 2 else 1..]), size);
        if v.Failure? then Failure(v.error) else Success((Term(s[..n], negate, v.value.0), v.value.1))
  }

  function TermsAt(num: Numbers, s: string, size: nat): Result<seq<Term>, Error>
    decreases |s|
  {
    var first := TermAt(num, s, size);
    if first.Failure? then Failure(first.error)
    else
      var rest := Skip(first.value.1);
      if |rest| == 0 then Success([first.value.0])
      else if !("&&" <= rest) then Failure(NoAnd(size - |rest|))
      else
        Parsed([first.value.0], TermsAt(num, Skip(rest[2..]), size))
  }

  function ParseOf(num: Numbers, src: string): Result<seq<Term>, Error> {
    if |Skip(src)| == 0 then Success([]) else TermsAt(num, Skip(src), |src|)
  }

  /** A reading put after what was read before it. */
  function Read(before: string, r: Option<(string, string)>): Option<(string, string)> {
    if r.None? then None else Some((before + r.value.0, r.value.1))
  }

  lemma ReadOne(before: string, c: char, r: Option<(string, string)>)
    ensures Read(before, Read([c], r)) == Read(before + [c], r) && Read("", r) == r
  {
    if r.Some? {
      assert before + ([c] + r.value.0) == before + [c] + r.value.0 && "" + r.value.0 == r.value.0;
    }
  }

  /** One step of reading a quoted text, at a position of the source. */
  lemma UnquoteStep(src: string, pos: nat, before: string, q: char)
    requires pos < |src|
    ensures var whole := Read(before, Unquote(src[pos..], q));
            if src[pos] == '\\' && pos + 1 < |src|
                then whole == Read(before + [src[pos + 1]], Unquote(src[pos + 2..], q))
            else if src[pos] == q then whole == Some((before, src[pos + 1..]))
            else whole == Read(before + [src[pos]], Unquote(src[pos + 1..], q))
  {
    var s := src[pos..];
    assert s[1..] == src[pos + 1..];
    if src[pos] == '\\' && pos + 1 < |src| {
      assert s[2..] == src[pos + 2..];
      ReadOne(before, src[pos + 1], Unquote(src[pos + 2..], q));
    } else if src[pos] == q {
      assert before + "" == before;
    } else {
      ReadOne(before, src[pos], Unquote(src[pos + 1..], q));
    }
  }

  lemma UnquoteEnds(before: string, q: char, whole: Option<(string, string)>)
    ensures Read("", whole) == whole && Read(before, Unquote("", q)) == None
  {
    ReadOne("", q, whole);
  }

  function Parsed(before: seq<Term>, r: Result<seq<Term>, Error>): Result<seq<Term>, Error> {
    if r.Failure? then r else Success(before + r.value)
  }

  lemma ParsedOne(before: seq<Term>, t: Term, r: Result<seq<Term>, Error>)
    ensures Parsed(before, Parsed([t], r)) == Parsed(before + [t], r) && Parsed([], r) == r
  {
    if r.Success? {
      assert before + ([t] + r.value) == before + [t] + r.value && [] + r.value == r.value;
    }
  }

  lemma TermsUnfold(num: Numbers, s: string, size: nat)
    ensures var first := TermAt(num, s, size);
            if first.Failure? then TermsAt(num, s, size) == Failure(first.error)
            else
              var rest := Skip(first.value.1);
              TermsAt(num, s, size) ==
              if |rest| == 0 then Success([first.value.0])
              else if !("&&" <= rest) then Failure(NoAnd(size - |rest|))
              else Parsed([first.value.0], TermsAt(num, Skip(rest[2..]), size))
  {
  }

  // ---------------------------------------------------------------------
  // The lexer and the parser
  // ---------------------------------------------------------------------

  class FilterLexer {
    const src: string
    var pos: nat

    constructor (src: string)
      ensures this.src == src && pos == 0 && Valid() && Ahead() == src
    {
      this.src, pos := src, 0;
    }

    predicate Valid()
      reads this
    {
      pos <= |src|
    }

    function Ahead(): string
      reads this
      requires Valid()
    {
      src[pos..]
    }

    method SkipSpace()
      requires Valid()
      modifies this`pos
      ensures Valid() && Ahead() == Skip(old(Ahead()))
    {
      while pos < |src| && Space(src[pos])
        invariant Valid() && Skip(Ahead()) == Skip(old(Ahead()))
      {
        assert Ahead()[1..] == src[pos + 1..];
        pos := pos + 1;
      }
    }

    method Take(s: string) returns (ok: bool)
      requires Valid()
      modifies this`pos
      ensures Valid() && ok == (s <= old(Ahead()))
      ensures Ahead() == if ok then old(Ahead())[|s|..] else old(Ahead())
    {
      ok := s <= src[pos..];
      if ok {
        pos := pos + |s|;
      }
    }

    method Ident() returns (word: string, ok: bool)
      requires Valid()
      modifies this`pos
      ensures var n := IdentLength(old(Ahead()), true);
              Valid() && word == old(Ahead())[..n] && ok == (n > 0) && Ahead() == old(Ahead())[n..]
    {
      var start := pos;
      while pos < |src| && IdentChar(src[pos], pos == start)
        invariant start <= pos <= |src|
        invariant IdentLength(src[start..], true) == pos - start + IdentLength(src[pos..], pos == start)
      {
        assert src[pos..][1..] == src[pos + 1..];
        pos := pos + 1;
      }
      word, ok := src[start..pos], pos > start;
    }

    method Value(num: Numbers) returns (r: Result<Value, Error>)
      requires Valid()
      modifies this`pos
      ensures Valid()
      ensures var v := ValueAt(num, old(Ahead()), |src|);
              if v.Success? then r == Success(v.value.0) && Ahead() == v.value.1 else r == Failure(v.error)
    {
      hide ValueAt, Unquote, WordValue, WordLength, WordChar, Quote;
      ValueUnfolds(num, src[pos..], |src|);
      if pos >= |src| {
        return Failure(NoValue(pos));
      }
      if Quote(src[pos]) {
        r := QuotedValue(src[pos]);
        return;
      }
      var start := pos;
      while pos < |src| && WordChar(src[pos])
        invariant start <= pos <= |src|
        invariant WordLength(src[start..]) == pos - start + WordLength(src[pos..])
      {
        assert src[pos..][1..] == src[pos + 1..];
        WordUnfolds(src[pos..]);
        pos := pos + 1;
      }
      WordUnfolds(src[pos..]);
      var v := WordValue(num, src[start..pos]);
      assert src[start..][..pos - start] == src[start..pos] && src[start..][pos - start..] == src[pos..];
      r := if v.Some? then Success(v.value) else Failure(NoValue(start));
    }

    /** value's loop over a quoted text. */
    method QuotedValue(q: char) returns (r: Result<Value, Error>)
      requires Valid() && pos < |src|
      modifies this`pos
      ensures Valid()
      ensures var text := Unquote(old(Ahead())[1..], q);
              if text.Some? then r == Success(Str(text.value.0)) && Ahead() == text.value.1
                  else r == Failure(Unterminated)
    {
      hide Unquote, Read;
      var b: string := "";
      ghost var whole := Unquote(src[pos + 1..], q);
      UnquoteEnds("", q, whole);
      pos := pos + 1;
      while pos < |src|
        invariant Valid() && Read(b, Unquote(src[pos..], q)) == whole
      {
        UnquoteStep(src, pos, b, q);
        var c := src[pos];
        if c == '\\' && pos + 1 < |src| {
          b := b + [src[pos + 1]];
          pos := pos + 2;
          continue;
        }
        pos := pos + 1;
        if c == q {
          return Success(Str(b));
        }
        b := b + [c];
      }
      assert src[pos..] == "";
      UnquoteEnds(b, q, whole);
      r := Failure(Unterminated);
    }

    /** One turn of parseFilter's loop. */
    method ParseTerm(num: Numbers) returns (r: Result<Term, Error>)
      requires Valid()
      modifies this`pos
      ensures Valid()
      ensures var t := TermAt(num, old(Ahead()), |src|);
              if t.Success? then r == Success(t.value.0) && Ahead() == t.value.1 else r == Failure(t.error)
    {
      var field, ok := Ident();
      if !ok {
        return Failure(NoField(pos));
      }
      SkipSpace();
      var negate := Take("!=");
      if !negate {
        var equal := Take("=");
        if !equal {
          return Failure(NoOperator(pos));
        }
      }
      SkipSpace();
      var v := Value(num);
      if v.Failure? {
        return Failure(v.error);
      }
      r := Success(Term(field, negate, v.value));
    }

    /** parseFilter's loop: ends on every text, and its position never passes the end. */
    method ParseFilter(num: Numbers) returns (r: Result<seq<Term>, Error>)
      requires pos == 0
      modifies this`pos
      ensures Valid() && r == ParseOf(num, src)
    {
      hide TermsAt, Skip;
      SkipSpace();
      if pos >= |src| {
        return Success([]);
      }
      r := ParseTerms(num);
    }

    method ParseTerms(num: Numbers) returns (r: Result<seq<Term>, Error>)
      requires Valid()
      modifies this`pos
      ensures Valid() && r == TermsAt(num, old(Ahead()), |src|)
    {
      hide TermAt, Skip, TermsAt;
      var terms: seq<Term> := [];
      ghost var whole := TermsAt(num, Ahead(), |src|);
      ParsedOne([], Term("", false, Null), whole);
      while true
        invariant Valid() && Parsed(terms, TermsAt(num, Ahead(), |src|)) == whole
        decreases |src| - pos
      {
        TermsUnfold(num, Ahead(), |src|);
        var t := ParseTerm(num);
        if t.Failure? {
          return Failure(t.error);
        }
        SkipSpace();
        if pos >= |src| {
          return Success(terms + [t.value]);
        }
        var and := Take("&&");
        if !and {
          return Failure(NoAnd(pos));
        }
        SkipSpace();
        ParsedOne(terms, t.value, TermsAt(num, Ahead(), |src|));
        terms := terms + [t.value];
      }
    }
  }
}
