/**
 The filters that parse, and what they parse to, as a grammar over their characters: the
 parser accepts exactly the texts the grammar spells, and where it refuses one it says what
 is missing, and at which character.
 */
module FilterGrammar {
  import opened Wrappers
  import opened Filter
  import opened FilterPrint

  // ---------------------------------------------------------------------
  // The grammar
  // ---------------------------------------------------------------------

  predicate Letter(c: char) {
    'a' <= c <= 'z' || 'A' <= c <= 'Z' || c == '_'
  }

  predicate Digit(c: char) {
    '0' <= c <= '9'
  }

  predicate Wordy(c: char) {
    Letter(c) || Digit(c) || c == '.' || c == '-'
  }

  predicate White(c: char) {
    c == ' ' || c == '\t' || c == '\n' || c == '\r'
  }

  predicate Name(s: string) {
    |s| > 0 && Letter(s[0]) && forall i :: 0 < i < |s| ==> Letter(s[i]) || Digit(s[i])
  }

  predicate Gap(s: string) {
    forall i :: 0 <= i < |s| ==> White(s[i])
  }

  /** What stands between two quotes q: a backslash takes the next character as it is, and no other q occurs. */
  predicate Decodes(body: string, q: char, text: string)
    decreases |body|
  {
    if |body| == 0 then text == ""
    else if body[0] == '\\' then
      |body| > 1 && |text| > 0 && text[0] == body[1] && Decodes(body[2..], q, text[1..])
    else body[0] != q && |text| > 0 && text[0] == body[0] && Decodes(body[1..], q, text[1..])
  }

  predicate WordSpells(num: Numbers, word: string, v: Value) {
    && |word| > 0 && (forall i :: 0 <= i < |word| ==> Wordy(word[i]))
    && match word
       case "true" => v == Bool(true)
       case "false" => v == Bool(false)
       case "null" => v == Null
       case _ => num.parse(word).Some? && v == Num(num.parse(word).value)
  }

  predicate Spells(num: Numbers, literal: string, v: Value) {
    || WordSpells(num, literal, v)
    || (|literal| >= 2 && (literal[0] == '\'' || literal[0] == '"') && literal[|literal| - 1] == literal[0]
        && v.Str? && Decodes(literal[1..|literal| - 1], literal[0], v.s))
  }

  /** How one term is written, but for its field: the white space in it, and its value. */
  datatype Form = Form(before: string, op: string, value: string, literal: string, end: string)

  predicate TermForm(num: Numbers, t: Term, f: Form) {
    Name(t.field) && Gap(f.before) && Gap(f.op) && Gap(f.value) && Gap(f.end) && Spells(num, f.literal, t.value)
  }

  function TermText(t: Term, f: Form): string {
    f.before + (t.field + (f.op + ((if t.negate then "!=" else "=") + (f.value + (f.literal + f.end)))))
  }

  function TermsText(terms: seq<Term>, forms: seq<Form>): string
    requires |terms| == |forms|
  {
    if |terms| == 0 then ""
    else if |terms| == 1 then TermText(terms[0], forms[0])
    else TermText(terms[0], forms[0]) + ("&&" + TermsText(terms[1..], forms[1..]))
  }

  predicate TermForms(num: Numbers, terms: seq<Term>, forms: seq<Form>) {
    |terms| == |forms| && forall i :: 0 <= i < |terms| ==> TermForm(num, terms[i], forms[i])
  }

  /** The filter spells these terms; one that spells none is white space. */
  ghost predicate Spelled(num: Numbers, src: string, terms: seq<Term>) {
    if |terms| == 0 then Gap(src) else exists forms :: TermForms(num, terms, forms) && src == TermsText(terms, forms)
  }

  // ---------------------------------------------------------------------
  // The lexer's characters are the grammar's
  // ---------------------------------------------------------------------

  lemma SameCharacters(c: char)
    ensures IdentChar(c, true) <==> Letter(c)
    ensures IdentChar(c, false) <==> Letter(c) || Digit(c)
    ensures WordChar(c) <==> Wordy(c)
    ensures Space(c) <==> White(c)
    ensures Quote(c) <==> c == '\'' || c == '"'
  {
  }

  lemma SameWords(s: string)
    ensures Name(s) <==> Identifier(s)
    ensures Gap(s) <==> Blank(s)
  {
    forall i | 0 <= i < |s|
      ensures IdentChar(s[i], true) <==> Letter(s[i])
      ensures IdentChar(s[i], false) <==> Letter(s[i]) || Digit(s[i])
      ensures Space(s[i]) <==> White(s[i])
    {
      SameCharacters(s[i]);
    }
  }

  lemma SameWord(num: Numbers, word: string, v: Value)
    ensures WordSpells(num, word, v) <==> Word(word) && WordValue(num, word) == Some(v)
  {
    forall i | 0 <= i < |word|
      ensures WordChar(word[i]) <==> Wordy(word[i])
    {
      SameCharacters(word[i]);
    }
  }

  // ---------------------------------------------------------------------
  // What the grammar spells is read
  // ---------------------------------------------------------------------

  lemma {:induction false} QuotedRead(body: string, q: char, text: string, s: string)
    requires Decodes(body, q, text) && q != '\\'
    ensures Unquote(body + ([q] + s), q) == Some((text, s))
  {
    hide Unquote;
    if |body| == 0 {
      UnquoteSteps(q, s, q);
      assert body + ([q] + s) == [q] + s;
    } else if body[0] == '\\' {
      var rest := body[2..] + ([q] + s);
      QuotedRead(body[2..], q, text[1..], s);
      UnquoteSteps(body[1], rest, q);
      assert body + ([q] + s) == ['\\', body[1]] + rest && text == [text[0]] + text[1..];
    } else {
      var rest := body[1..] + ([q] + s);
      QuotedRead(body[1..], q, text[1..], s);
      UnquoteSteps(body[0], rest, q);
      assert body + ([q] + s) == [body[0]] + rest && text == [text[0]] + text[1..];
    }
  }

  lemma LiteralRead(num: Numbers, literal: string, v: Value, s: string, size: nat)
    requires Spells(num, literal, v) && AfterValue(s)
    ensures ValueAt(num, literal + s, size) == Success((v, s))
    ensures |literal| > 0 && !Space(literal[0])
  {
    hide Unquote, Decodes, WordValue, WordSpells;
    if WordSpells(num, literal, v) {
      SameWord(num, literal, v);
      WordRead(literal, s);
      assert (literal + s)[..|literal|] == literal && (literal + s)[|literal|..] == s;
    } else {
      var q, n := literal[0], |literal| - 1;
      QuotedRead(literal[1..n], q, v.s, s);
      assert (literal + s)[1..] == literal[1..n] + ([q] + s);
    }
  }

  lemma GapRead(gap: string, s: string)
    requires Gap(gap) && (|s| > 0 ==> !Space(s[0]))
    ensures Skip(gap + s) == s
  {
    SameWords(gap);
    SkipBlank(gap, s);
  }

  lemma NameRead(name: string, gap: string, op: string)
    requires Name(name) && Gap(gap) && |op| > 0 && !IdentChar(op[0], false)
    ensures IdentLength(name + (gap + op), true) == |name| > 0 && !Space((name + (gap + op))[0])
  {
    SameWords(name);
    SameWords(gap);
    assert (gap + op)[0] == if |gap| > 0 then gap[0] else op[0];
    IdentRead(name, gap + op, true);
    assert (name + (gap + op))[0] == name[0];
  }

  /** A term in its parts: field, operator, value. */
  lemma TermInParts(num: Numbers, name: string, rest: string, negate: bool, more: string, size: nat)
    requires IdentLength(name + rest, true) == |name| > 0 && Skip(rest) == (if negate then "!=" else "=") + more
    ensures var v := ValueAt(num, Skip(more), size);
            TermAt(num, name + rest, size) ==
            if v.Failure? then Failure(v.error) else Success((Term(name, negate, v.value.0), v.value.1))
  {
    OperatorRead(negate, more);
    assert (name + rest)[..|name|] == name && (name + rest)[|name|..] == rest;
    hide ValueAt, IdentLength, Skip;
  }

  lemma TermFormRead(num: Numbers, t: Term, f: Form, s: string, size: nat)
    requires TermForm(num, t, f) && AfterValue(f.end + s)
    ensures var text := TermText(t, f) + s;
            |Skip(text)| > 0 && TermAt(num, Skip(text), size) == Success((t, f.end + s))
  {
    var value := f.literal + (f.end + s);
    var more := f.value + value;
    var op := (if t.negate then "!=" else "=") + more;
    var field := t.field + (f.op + op);
    assert TermText(t, f) + s == f.before + field by {
      hide AfterValue, TermForm;
    }
    assert Name(t.field) && Gap(f.before) && Gap(f.op) && Gap(f.value) && Spells(num, f.literal, t.value);
    hide *;
    OperatorRead(t.negate, more);
    NameRead(t.field, f.op, op);
    GapRead(f.before, field);
    GapRead(f.op, op);
    LiteralRead(num, f.literal, t.value, f.end + s, size);
    assert value[0] == f.literal[0];
    GapRead(f.value, value);
    TermInParts(num, t.field, f.op + op, t.negate, more, size);
  }

  lemma BlankThenAnd(end: string, more: string)
    requires Gap(end)
    ensures AfterValue(end + ("&&" + more)) && AfterValue(end)
    ensures Skip(end + ("&&" + more)) == "&&" + more && Skip(end) == ""
  {
    SameWords(end);
    SkipBlank(end, "&&" + more);
    SkipBlank(end, "");
    assert end + "" == end;
    assert |end| > 0 ==> (end + ("&&" + more))[0] == end[0];
  }

  lemma {:induction false} FormsRead(num: Numbers, terms: seq<Term>, forms: seq<Form>, size: nat)
    requires |terms| > 0 && TermForms(num, terms, forms)
    ensures var text := TermsText(terms, forms);
            |Skip(text)| > 0 && TermsAt(num, Skip(text), size) == Success(terms)
  {
    hide TermsAt, TermAt, Skip, TermText, AfterValue;
    var t, f, text := terms[0], forms[0], TermsText(terms, forms);
    assert TermForm(num, t, f);
    if |terms| == 1 {
      BlankThenAnd(f.end, "");
      assert text + "" == text && f.end + "" == f.end;
      TermFormRead(num, t, f, "", size);
      TermsUnfold(num, Skip(text), size);
      assert terms == [t];
    } else {
      var more := TermsText(terms[1..], forms[1..]);
      BlankThenAnd(f.end, more);
      TermFormRead(num, t, f, "&&" + more, size);
      FormsRead(num, terms[1..], forms[1..], size);
      TermsUnfold(num, Skip(text), size);
      assert ("&&" + more)[2..] == more && "&&" <= "&&" + more && terms == [t] + terms[1..];
    }
  }

  // ---------------------------------------------------------------------
  // What is read is what the grammar spells
  // ---------------------------------------------------------------------

  lemma {:induction false} SkipSplits(s: string) returns (gap: string)
    ensures Gap(gap) && s == gap + Skip(s) && (|Skip(s)| > 0 ==> !White(Skip(s)[0]))
  {
    gap := "";
    if |s| > 0 {
      SameCharacters(s[0]);
      if Space(s[0]) {
        var more := SkipSplits(s[1..]);
        gap := [s[0]] + more;
        assert s == [s[0]] + s[1..];
      }
    }
  }

  lemma {:induction false} IdentSplits(s: string, first: bool)
    ensures var n := IdentLength(s, first);
            && (forall i :: 0 <= i < n ==> Letter(s[i]) || Digit(s[i])) && (first && n > 0 ==> Letter(s[0]))
            && (n < |s| && (n > 0 || !first) ==> !Letter(s[n]) && !Digit(s[n]))
            && (first && n == 0 && |s| > 0 ==> !Letter(s[0]))
  {
    if |s| > 0 {
      SameCharacters(s[0]);
      if IdentChar(s[0], first) {
        IdentSplits(s[1..], false);
        assert forall i :: 0 < i < |s| ==> s[i] == s[1..][i - 1];
      }
    }
  }

  lemma {:induction false} WordSplits(s: string)
    ensures var n := WordLength(s);
            (forall i :: 0 <= i < n ==> Wordy(s[i])) && (n < |s| ==> !Wordy(s[n]))
  {
    if |s| > 0 {
      SameCharacters(s[0]);
      if WordChar(s[0]) {
        WordSplits(s[1..]);
        assert forall i :: 0 < i < |s| ==> s[i] == s[1..][i - 1];
      }
    }
  }

  /** A text that goes on to the end of the filter without its closing quote. */
  predicate Unclosed(s: string, q: char)
    decreases |s|
  {
    |s| == 0
    || (if s[0] == '\\' then |s| == 1 || Unclosed(s[2..], q) else s[0] != q && Unclosed(s[1..], q))
  }

  lemma {:induction false} QuotedSplits(s: string, q: char) returns (body: string)
    requires q != '\\'
    ensures var text := Unquote(s, q);
            if text.Some? then s == body + ([q] + text.value.1) && Decodes(body, q, text.value.0) else Unclosed(s, q)
    decreases |s|
  {
    body := "";
    if |s| > 1 && s[0] == '\\' {
      var more := QuotedSplits(s[2..], q);
      body := ['\\', s[1]] + more;
      assert s == ['\\', s[1]] + s[2..] && body[2..] == more;
    } else if |s| > 0 && s[0] != q {
      var more := QuotedSplits(s[1..], q);
      body := [s[0]] + more;
      assert s == [s[0]] + s[1..] && body[1..] == more;
    }
  }

  /** What stands where a value should, and is none. */
  predicate NoLiteral(num: Numbers, s: string, word: string) {
    && word <= s && (forall i :: 0 <= i < |word| ==> Wordy(word[i])) && (|word| < |s| ==> !Wordy(s[|word|]))
    && (|s| > 0 ==> s[0] != '\'' && s[0] != '"')
    && word != "true" && word != "false" && word != "null" && (word == "" || num.parse(word).None?)
  }

  lemma ValueSplits(num: Numbers, s: string, size: nat) returns (part: string)
    requires num.parse("").None?
    ensures var v := ValueAt(num, s, size);
            if v.Success? then s == part + v.value.1 && Spells(num, part, v.value.0)
            else if |s| > 0 && (s[0] == '\'' || s[0] == '"') then v.error == Unterminated && Unclosed(s[1..], s[0])
            else v.error == NoValue(size - |s|) && NoLiteral(num, s, part)
  {
    hide Unquote, Decodes, Unclosed;
    part := "";
    if |s| > 0 && Quote(s[0]) {
      var body := QuotedSplits(s[1..], s[0]);
      part := [s[0]] + (body + [s[0]]);
      if ValueAt(num, s, size).Success? {
        var rest := ValueAt(num, s, size).value.1;
        assert s == [s[0]] + s[1..] && part[1..|part| - 1] == body;
        assert part + rest == [s[0]] + (body + ([s[0]] + rest));
      }
    } else if |s| > 0 {
      WordSplits(s);
      part := s[..WordLength(s)];
      var v := WordValue(num, part);
      if v.Some? {
        assert part != "";
        assert WordSpells(num, part, v.value);
        assert s == part + s[|part|..];
      }
    }
  }

  /** A term from its field to where its value should stand. */
  predicate HeadSpelled(head: string, name: string, op: string, negate: bool, value: string) {
    Name(name) && Gap(op) && Gap(value) && head == name + (op + ((if negate then "!=" else "=") + value))
  }

  ghost predicate Headed(head: string) {
    exists name, op, negate, value :: HeadSpelled(head, name, op, negate, value)
  }

  /** Where a term stops short of its operator. */
  ghost predicate NoOperatorAt(s: string, name: string, gap: string, ahead: string) {
    && s == name + (gap + ahead) && Name(name) && Gap(gap) && !("=" <= ahead) && !("!=" <= ahead)
    && (|ahead| > 0 ==> !White(ahead[0]) && (gap == "" ==> !Letter(ahead[0]) && !Digit(ahead[0])))
  }

  ghost predicate NoOperatorIn(s: string, size: nat, at: int) {
    exists name, gap, ahead :: NoOperatorAt(s, name, gap, ahead) && at == size - |ahead|
  }

  ghost predicate NoValueIn(num: Numbers, s: string, size: nat, at: int) {
    exists head, ahead, word ::
      Headed(head) && s == head + ahead && NoLiteral(num, ahead, word) && at == size - |ahead|
      && (|ahead| > 0 ==> !White(ahead[0]))
  }

  ghost predicate UnclosedIn(s: string) {
    exists head, ahead ::
      Headed(head) && s == head + ahead && |ahead| > 0 && (ahead[0] == '\'' || ahead[0] == '"')
      && Unclosed(ahead[1..], ahead[0])
  }

  /** Why no term can be read from a text that does not start with white space. */
  ghost predicate TermRefused(num: Numbers, s: string, size: nat, e: Error) {
    match e
    case NoField(at) => at == size - |s| && (|s| > 0 ==> !Letter(s[0]))
    case NoOperator(at) => NoOperatorIn(s, size, at)
    case NoValue(at) => NoValueIn(num, s, size, at)
    case Unterminated => UnclosedIn(s)
    case NoAnd(_) => false
  }

  predicate Bare(f: Form) {
    f.before == "" && f.end == ""
  }

  lemma TermSplits(num: Numbers, s: string, size: nat) returns (f: Form)
    requires num.parse("").None?
    ensures var r := TermAt(num, s, size);
            if r.Success? then TermForm(num, r.value.0, f) && Bare(f) && s == TermText(r.value.0, f) + r.value.1
            else TermRefused(num, s, size, r.error)
  {
    hide WordValue, Unquote, Decodes, Unclosed, ValueAt, NoLiteral, Spells, Skip, IdentLength;
    var n := IdentLength(s, true);
    IdentSplits(s, true);
    f := Form("", "", "", "", "");
    if n > 0 {
      var name, after := s[..n], s[n..];
      assert Name(name) && s == name + after;
      var gap := SkipSplits(after);
      var op := Skip(after);
      var negate := "!=" <= op;
      if negate || "=" <= op {
        f := OperatorSplits(num, s, name, gap, op, negate, size);
      } else {
        assert gap == "" && |op| > 0 ==> op[0] == s[n];
        assert NoOperatorAt(s, name, gap, op);
      }
    }
  }

  /** A term from its operator on. */
  lemma OperatorSplits(num: Numbers, s: string, name: string, gap: string, op: string, negate: bool, size: nat)
      returns (f: Form)
    requires num.parse("").None? && Name(name) && Gap(gap) && s == name + (gap + op)
    requires (if negate then "!=" else "=") <= op
    ensures var v := ValueAt(num, Skip(op[if negate then 2 else 1..]), size);
            if v.Success? then
              var t := Term(name, negate, v.value.0);
              TermForm(num, t, f) && Bare(f) && s == TermText(t, f) + v.value.1
            else TermRefused(num, s, size, v.error)
  {
    var sign := if negate then "!=" else "=";
    var more := op[|sign|..];
    assert op == sign + more && more == op[if negate then 2 else 1..];
    hide *;
    var value := SkipSplits(more);
    var ahead := Skip(more);
    var part := ValueSplits(num, ahead, size);
    var v := ValueAt(num, ahead, size);
    if v.Success? {
      f := TermMade(num, name, gap, negate, value, part, v.value.0, v.value.1);
      assert op == sign + (value + (part + v.value.1));
    } else {
      f := Form("", gap, value, part, "");
      ValueRefused(num, name, gap, negate, value, ahead, part, size, v.error);
    }
  }

  lemma TermMade(num: Numbers, name: string, gap: string, negate: bool, value: string, part: string, v: Value,
                 rest: string) returns (f: Form)
    requires Name(name) && Gap(gap) && Gap(value) && Spells(num, part, v)
    ensures var t := Term(name, negate, v);
            && TermForm(num, t, f) && Bare(f)
            && name + (gap + ((if negate then "!=" else "=") + (value + (part + rest)))) == TermText(t, f) + rest
  {
    hide Spells, Name;
    f := Form("", gap, value, part, "");
    var sign := if negate then "!=" else "=";
    assert part + "" == part;
    assert "" + (name + (gap + (sign + (value + (part + ""))))) + rest
           == name + (gap + (sign + (value + (part + rest))));
  }

  lemma ValueRefused(num: Numbers, name: string, gap: string, negate: bool, value: string, ahead: string,
                     part: string, size: nat, e: Error)
    requires Name(name) && Gap(gap) && Gap(value) && (|ahead| > 0 ==> !White(ahead[0]))
    requires if |ahead| > 0 && (ahead[0] == '\'' || ahead[0] == '"')
             then e == Unterminated && Unclosed(ahead[1..], ahead[0])
             else e == NoValue(size - |ahead|) && NoLiteral(num, ahead, part)
    ensures TermRefused(num, name + (gap + ((if negate then "!=" else "=") + (value + ahead))), size, e)
  {
    hide Name, Gap, Unclosed, NoLiteral;
    var head := name + (gap + ((if negate then "!=" else "=") + value));
    assert head + ahead == name + (gap + ((if negate then "!=" else "=") + (value + ahead)));
    assert HeadSpelled(head, name, gap, negate, value);
  }

  // ---------------------------------------------------------------------
  // Whole filters
  // ---------------------------------------------------------------------

  /** The text opens with this term, and what follows does not open with white space. */
  predicate Opens(num: Numbers, s: string, t: Term, f: Form, ahead: string) {
    TermForm(num, t, f) && f.before == "" && s == TermText(t, f) + ahead && (|ahead| > 0 ==> !White(ahead[0]))
  }

  ghost predicate NoAndIn(num: Numbers, s: string, size: nat, at: int) {
    exists t, f, ahead :: Opens(num, s, t, f, ahead) && |ahead| > 0 && !("&&" <= ahead) && at == size - |ahead|
  }

  /** What follows one term and the conjunction after it. */
  ghost predicate GoesOn(num: Numbers, s: string, more: string) {
    exists t, f, gap :: Opens(num, s, t, f, "&&" + (gap + more)) && Gap(gap) && (|more| > 0 ==> !White(more[0]))
  }

  /** Why a text that does not start with white space is refused: after some whole terms, one that is none. */
  ghost predicate Refused(num: Numbers, s: string, size: nat, e: Error)
    decreases |s|
  {
    || TermRefused(num, s, size, e)
    || (e.NoAnd? && NoAndIn(num, s, size, e.at))
    || exists more :: GoesOn(num, s, more) && |more| < |s| && Refused(num, more, size, e)
  }

  lemma OpensWith(num: Numbers, s: string, t: Term, f: Form, rest: string) returns (f': Form)
    requires TermForm(num, t, f) && Bare(f) && s == TermText(t, f) + rest
    ensures Opens(num, s, t, f', Skip(rest))
  {
    hide Spells, Name, Skip;
    var end := SkipSplits(rest);
    var ahead := Skip(rest);
    f' := f.(end := end);
    assert f.literal + "" == f.literal;
    var sign := if t.negate then "!=" else "=";
    assert TermText(t, f') + ahead == f.before + (t.field + (f.op + (sign + (f.value + (f.literal + (end + ahead))))));
  }

  lemma AndSplits(s: string) returns (gap: string)
    requires "&&" <= s
    ensures Gap(gap) && s == "&&" + (gap + Skip(s[2..])) && (|Skip(s[2..])| > 0 ==> !White(Skip(s[2..])[0]))
  {
    gap := SkipSplits(s[2..]);
    assert s == "&&" + s[2..];
  }

  /** What parses is spelled by the grammar, and what does not is refused for the reason given. */
  lemma {:induction false} TermsSplit(num: Numbers, s: string, size: nat) returns (forms: seq<Form>)
    requires num.parse("").None?
    ensures var r := TermsAt(num, s, size);
            if r.Success? then
              |r.value| > 0 && TermForms(num, r.value, forms) && forms[0].before == "" && s == TermsText(r.value, forms)
            else Refused(num, s, size, r.error)
    decreases |s|
  {
    hide TermsAt, TermAt, Skip, TermText, TermRefused, Opens, TermForm, Gap;
    forms := [];
    TermsUnfold(num, s, size);
    var f := TermSplits(num, s, size);
    var first := TermAt(num, s, size);
    if first.Success? {
      var t, ahead := first.value.0, Skip(first.value.1);
      f := OpensWith(num, s, t, f, first.value.1);
      if |ahead| == 0 {
        LastOpens(num, s, t, f);
        forms := [f];
      } else if "&&" <= ahead {
        var gap := AndSplits(ahead);
        var more := Skip(ahead[2..]);
        var rest := TermsSplit(num, more, size);
        if TermsAt(num, more, size).Success? {
          forms := NextOpens(num, s, t, f, gap, more, TermsAt(num, more, size).value, rest);
        } else {
          assert GoesOn(num, s, more);
        }
      } else {
        assert NoAndIn(num, s, size, size - |ahead|);
      }
    }
  }

  lemma LastOpens(num: Numbers, s: string, t: Term, f: Form)
    requires Opens(num, s, t, f, "")
    ensures TermForms(num, [t], [f]) && f.before == "" && s == TermsText([t], [f])
  {
    assert TermText(t, f) + "" == TermText(t, f);
  }

  lemma NextOpens(num: Numbers, s: string, t: Term, f: Form, gap: string, more: string, terms: seq<Term>,
                  forms: seq<Form>)
      returns (all: seq<Form>)
    requires Opens(num, s, t, f, "&&" + (gap + more)) && Gap(gap)
    requires |terms| > 0 && TermForms(num, terms, forms) && forms[0].before == "" && more == TermsText(terms, forms)
    ensures TermForms(num, [t] + terms, all) && all[0].before == "" && s == TermsText([t] + terms, all)
  {
    hide Spells, Name;
    var forms' := forms[0 := forms[0].(before := gap)];
    all := [f] + forms';
    Indented(terms, forms, gap);
    assert ([t] + terms)[1..] == terms && all[1..] == forms';
    forall i | 0 <= i < |terms|
      ensures TermForm(num, terms[i], forms'[i])
    {
      assert TermForm(num, terms[i], forms[i]);
    }
  }

  lemma Indented(terms: seq<Term>, forms: seq<Form>, gap: string)
    requires |terms| == |forms| > 0 && forms[0].before == ""
    ensures TermsText(terms, forms[0 := forms[0].(before := gap)]) == gap + TermsText(terms, forms)
  {
    var forms' := forms[0 := forms[0].(before := gap)];
    assert TermText(terms[0], forms'[0]) == gap + TermText(terms[0], forms[0]);
    if |terms| > 1 {
      assert forms'[1..] == forms[1..];
    }
  }

  /**
   The parser accepts exactly what the grammar spells, as exactly the terms it spells, for
   every text; no characters but the grammar's are read as names, words, quotes or white space.
   */
  lemma ParsesIffSpelled(num: Numbers, src: string, terms: seq<Term>)
    requires num.parse("").None?
    ensures ParseOf(num, src) == Success(terms) <==> Spelled(num, src, terms)
  {
    hide TermsAt, TermsText, TermForm, Skip, Gap;
    var gap := SkipSplits(src);
    var s := Skip(src);
    if |s| == 0 {
      assert gap + "" == gap;
    }
    if Spelled(num, src, terms) {
      if |terms| == 0 {
        AllBlankSkips(src);
      } else {
        var forms :| TermForms(num, terms, forms) && src == TermsText(terms, forms);
        FormsRead(num, terms, forms, |src|);
      }
    }
    if ParseOf(num, src) == Success(terms) && |s| > 0 {
      var forms := TermsSplit(num, s, |src|);
      Indented(terms, forms, gap);
      IndentedForms(num, terms, forms, gap);
    }
  }

  lemma IndentedForms(num: Numbers, terms: seq<Term>, forms: seq<Form>, gap: string)
    requires |terms| > 0 && TermForms(num, terms, forms) && Gap(gap)
    ensures TermForms(num, terms, forms[0 := forms[0].(before := gap)])
  {
    hide Spells, Name;
    var forms' := forms[0 := forms[0].(before := gap)];
    forall i | 0 <= i < |terms|
      ensures TermForm(num, terms[i], forms'[i])
    {
      assert TermForm(num, terms[i], forms[i]);
    }
  }

  lemma AllBlankSkips(src: string)
    requires Gap(src)
    ensures Skip(src) == ""
  {
    SameWords(src);
    SkipBlank(src, "");
    assert src + "" == src;
  }

  /** And where it refuses a filter it says why and where: after white space and whole terms, at what is none. */
  lemma RefusedWithReason(num: Numbers, src: string) returns (gap: string, s: string)
    requires num.parse("").None? && ParseOf(num, src).Failure?
    ensures src == gap + s && Gap(gap) && |s| > 0 && !White(s[0])
    ensures Refused(num, s, |src|, ParseOf(num, src).error)
  {
    gap := SkipSplits(src);
    s := Skip(src);
    hide TermsAt, Refused, Skip;
    var forms := TermsSplit(num, s, |src|);
  }
}
