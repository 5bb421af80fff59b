/**
 Splitting type names into words and putting them back together, over any alphabet: ids and
 display names lose nothing that the type name needs.
 */
module Names {
  /** What the program asks of Unicode's tables. */
  datatype Alphabet = Alphabet(
    isUpper: char -> bool,
    isLower: char -> bool,
    isLetter: char -> bool,
    isDigit: char -> bool,
    toLower: char -> char,
    toUpper: char -> char
  ) {
    predicate Upper(c: char) { isUpper(c) }
    predicate Lower(c: char) { isLower(c) }
    predicate Letter(c: char) { isLetter(c) }
    predicate Digit(c: char) { isDigit(c) }
    function ToLower(c: char): char { toLower(c) }
    function ToUpper(c: char): char { toUpper(c) }

    predicate Alnum(c: char) {
      Letter(c) || Digit(c)
    }

    /** A capital is a letter, and comes back from its small letter; a small letter stays one. */
    predicate Regular(c: char) {
      && Alnum(c) && Alnum(ToLower(c)) && !Upper(ToLower(c)) && ToLower(ToLower(c)) == ToLower(c)
      && (Lower(c) ==> !Upper(c) && ToLower(c) == c)
      && (Upper(c) ==>
            && Letter(c) && !Digit(c) && ToUpper(c) == c
            && Letter(ToLower(c)) && !Digit(ToLower(c)) && Lower(ToLower(c)) && ToUpper(ToLower(c)) == c)
    }

    /** Spaces and dashes separate words. */
    predicate Separates() {
      !Alnum(' ') && !Alnum('-')
    }
  }

  /** Unicode's tables as far as ASCII goes. */
  const ASCII := Alphabet(
    c => 'A' <= c <= 'Z',
    c => 'a' <= c <= 'z',
    c => 'A' <= c <= 'Z' || 'a' <= c <= 'z',
    c => '0' <= c <= '9',
    c => if 'A' <= c <= 'Z' then 'a' + (c - 'A') else c,
    c => if 'a' <= c <= 'z' then 'A' + (c - 'a') else c
  )

  /** Of ASCII every letter and digit is regular. */
  lemma AsciiIsRegular(c: char)
    ensures ASCII.Separates() && (ASCII.Alnum(c) ==> ASCII.Regular(c))
  {
    if 'A' <= c <= 'Z' {
      assert ASCII.ToLower(c) as int == 'a' as int + (c as int - 'A' as int);
    }
  }

  function LowerAll(u: Alphabet, s: string): (r: string)
    ensures |r| == |s| && forall i :: 0 <= i < |s| ==> r[i] == u.ToLower(s[i])
  {
    seq(|s|, i requires 0 <= i < |s| => u.ToLower(s[i]))
  }

  // ---------------------------------------------------------------------
  // Splitting
  // ---------------------------------------------------------------------

  /** A new word starts at i: lower to upper, or the last capital of a run. */
  predicate Starts(u: Alphabet, s: string, i: nat)
    requires i < |s|
  {
    i > 0 && u.Upper(s[i]) && (!u.Upper(s[i - 1]) || (i + 1 < |s| && u.Lower(s[i + 1])))
  }

  datatype Cutting = Cutting(words: seq<string>, cur: string) {
    function Flush(): seq<string> {
      if |cur| > 0 then words + [cur] else words
    }
  }

  /** The words found and the one in hand after the first n characters. */
  function Cut(u: Alphabet, s: string, n: nat): Cutting
    requires n <= |s|
  {
    if n == 0 then Cutting([], "")
    else
      var c := Cut(u, s, n - 1);
      if Starts(u, s, n - 1) then Cutting(c.Flush(), [s[n - 1]]) else Cutting(c.words, c.cur + [s[n - 1]])
  }

  function SplitWords(u: Alphabet, s: string): seq<string> {
    Cut(u, s, |s|).Flush()
  }

  function Concat(words: seq<string>): string {
    if |words| == 0 then "" else Concat(words[..|words| - 1]) + words[|words| - 1]
  }

  function Join(words: seq<string>, sep: char): string {
    if |words| == 0 then ""
    else if |words| == 1 then words[0]
    else words[0] + ([sep] + Join(words[1..], sep))
  }

  // ---------------------------------------------------------------------
  // Pascal case
  // ---------------------------------------------------------------------

  /** What pascal writes for the rest of a text, given whether the next letter is raised and anything was written. */
  function Render(u: Alphabet, s: string, upperNext: bool, started: bool): string {
    if |s| == 0 then ""
    else if u.Letter(s[0]) then [if upperNext then u.ToUpper(s[0]) else s[0]] + Render(u, s[1..], false, true)
    else if u.Digit(s[0]) then
      if started then [s[0]] + Render(u, s[1..], false, true) else Render(u, s[1..], upperNext, false)
    else Render(u, s[1..], true, started)
  }

  function Pascal(u: Alphabet, s: string): string {
    Render(u, s, true, false)
  }

  function Spaced(id: string): (r: string)
    ensures |r| == |id| && forall i :: 0 <= i < |id| ==> r[i] == if id[i] == '-' then ' ' else id[i]
  {
    seq(|id|, i requires 0 <= i < |id| => if id[i] == '-' then ' ' else id[i])
  }

  function TypeName(u: Alphabet, name: string, id: string): string {
    if Pascal(u, name) != "" then Pascal(u, name) else Pascal(u, Spaced(id))
  }

  function LowerWords(u: Alphabet, words: seq<string>): (r: seq<string>)
    ensures |r| == |words| && forall i :: 0 <= i < |words| ==> r[i] == LowerAll(u, words[i])
  {
    seq(|words|, i requires 0 <= i < |words| => LowerAll(u, words[i]))
  }

  function DeriveID(u: Alphabet, typeName: string): string {
    Join(LowerWords(u, SplitWords(u, typeName)), '-')
  }

  function DeriveName(u: Alphabet, typeName: string): string {
    Join(SplitWords(u, typeName), ' ')
  }

  // ---------------------------------------------------------------------
  // The loops
  // ---------------------------------------------------------------------

  method SplitWordsLoop(u: Alphabet, s: string) returns (words: seq<string>)
    ensures words == SplitWords(u, s)
  {
    words := [];
    var cur: string := "";
    for i := 0 to |s|
      invariant Cutting(words, cur) == Cut(u, s, i)
    {
      var r := s[i];
      if i > 0 && u.Upper(r) && (!u.Upper(s[i - 1]) || (i + 1 < |s| && u.Lower(s[i + 1]))) {
        if |cur| > 0 {
          words := words + [cur];
        }
        cur := [r];
      } else {
        cur := cur + [r];
      }
    }
    if |cur| > 0 {
      words := words + [cur];
    }
  }

  method PascalLoop(u: Alphabet, s: string) returns (b: string)
    ensures b == Pascal(u, s)
  {
    b := "";
    var upperNext := true;
    for i := 0 to |s|
      invariant b + Render(u, s[i..], upperNext, |b| > 0) == Pascal(u, s)
    {
      var r := s[i];
      assert s[i..][0] == r && s[i..][1..] == s[i + 1..];
      if u.Letter(r) {
        ghost var written := [if upperNext then u.ToUpper(r) else r];
        assert b + (written + Render(u, s[i + 1..], false, true)) == b + written + Render(u, s[i + 1..], false, true);
        b := b + [if upperNext then u.ToUpper(r) else r];
        upperNext := false;
      } else if u.Digit(r) {
        if |b| > 0 {
          assert b + ([r] + Render(u, s[i + 1..], false, true)) == b + [r] + Render(u, s[i + 1..], false, true);
          b := b + [r];
          upperNext := false;
        }
      } else {
        upperNext := true;
      }
    }
    assert b + "" == b;
  }

  // ---------------------------------------------------------------------
  // Splitting loses nothing
  // ---------------------------------------------------------------------

  lemma ConcatMore(words: seq<string>, w: string)
    ensures Concat(words + [w]) == Concat(words) + w
  {
    assert (words + [w])[..|words|] == words;
  }

  predicate NoneEmpty(words: seq<string>) {
    forall i :: 0 <= i < |words| ==> |words[i]| > 0
  }

  /** The words and the one in hand are the text so far. */
  predicate Kept(c: Cutting, text: string) {
    Concat(c.words) + c.cur == text && NoneEmpty(c.words) && (|text| > 0 ==> |c.cur| > 0)
  }

  lemma FlushKeeps(c: Cutting, text: string, r: char)
    requires Kept(c, text) && |text| > 0
    ensures Kept(Cutting(c.Flush(), [r]), text + [r])
  {
    ConcatMore(c.words, c.cur);
    hide Concat;
  }

  lemma GrowKeeps(c: Cutting, text: string, r: char)
    requires Kept(c, text)
    ensures Kept(Cutting(c.words, c.cur + [r]), text + [r])
  {
    hide Concat, NoneEmpty;
    assert Concat(c.words) + (c.cur + [r]) == Concat(c.words) + c.cur + [r];
  }

  lemma {:induction false} CutKeepsAll(u: Alphabet, s: string, n: nat)
    requires n <= |s|
    ensures Kept(Cut(u, s, n), s[..n])
  {
    CutNext(u, s, n);
    assert Kept(Cutting([], ""), "");
    hide *;
    if n > 0 {
      CutKeepsAll(u, s, n - 1);
      var c := Cut(u, s, n - 1);
      assert s[..n] == s[..n - 1] + [s[n - 1]];
      if Starts(u, s, n - 1) {
        FlushKeeps(c, s[..n - 1], s[n - 1]);
      } else {
        GrowKeeps(c, s[..n - 1], s[n - 1]);
      }
    }
  }

  lemma CutNext(u: Alphabet, s: string, n: nat)
    requires n <= |s|
    ensures n == 0 ==> Cut(u, s, n) == Cutting([], "")
    ensures n > 0 ==>
              var c := Cut(u, s, n - 1);
              Cut(u, s, n) == if Starts(u, s, n - 1) then Cutting(c.Flush(), [s[n - 1]])
                  else Cutting(c.words, c.cur + [s[n - 1]])
    ensures n == 1 ==> !Starts(u, s, 0)
  {
  }

  /** The words of any text, none of them empty, concatenate back to it. */
  lemma SplitLosesNothing(u: Alphabet, s: string)
    ensures Concat(SplitWords(u, s)) == s && NoneEmpty(SplitWords(u, s))
  {
    assert SplitWords(u, s) == Cut(u, s, |s|).Flush() && s[..|s|] == s;
    hide *;
    CutKeepsAll(u, s, |s|);
    FlushIsAll(Cut(u, s, |s|), s);
  }

  lemma FlushIsAll(c: Cutting, text: string)
    requires Kept(c, text)
    ensures Concat(c.Flush()) == text && NoneEmpty(c.Flush())
  {
    ConcatMore(c.words, c.cur);
    hide Concat;
  }

  // ---------------------------------------------------------------------
  // Type names
  // ---------------------------------------------------------------------

  /** An identifier in Pascal case: regular letters and digits, the first a capital. */
  predicate TypeLike(u: Alphabet, s: string) {
    |s| > 0 && u.Upper(s[0]) && forall i :: 0 <= i < |s| ==> u.Regular(s[i])
  }

  predicate AllTypeLike(u: Alphabet, words: seq<string>) {
    forall i :: 0 <= i < |words| ==> TypeLike(u, words[i])
  }

  /** After a word of one letter comes a word whose second letter is small. */
  predicate SinglesApart(u: Alphabet, words: seq<string>) {
    forall k, m :: 0 <= k < |words| && 0 <= m < |words| && m == k + 1 && |words[k]| == 1 ==>
        |words[m]| > 1 && u.Lower(words[m][1])
  }

  /** The word in hand is where the text has got to; after a word of one letter its second letter is small. */
  predicate Held(u: Alphabet, s: string, n: nat, c: Cutting)
    requires 0 < n <= |s|
  {
    && AllTypeLike(u, c.words) && SinglesApart(u, c.words)
    && TypeLike(u, c.cur) && |c.cur| <= n && c.cur == s[n - |c.cur|..n]
    && (|c.words| > 0 && |c.words[|c.words| - 1]| == 1 ==>
          if |c.cur| > 1 then u.Lower(c.cur[1]) else n < |s| && u.Lower(s[n]))
  }

  lemma FirstHolds(u: Alphabet, s: string)
    requires TypeLike(u, s)
    ensures Held(u, s, 1, Cutting([], [] + [s[0]]))
  {
  }

  lemma StartHolds(u: Alphabet, s: string, n: nat, c: Cutting)
    requires TypeLike(u, s) && 0 < n < |s| && Held(u, s, n, c) && Starts(u, s, n)
    ensures Held(u, s, n + 1, Cutting(c.Flush(), [s[n]]))
  {
    assert c.cur[|c.cur| - 1] == s[n - 1];
  }

  lemma GrowHolds(u: Alphabet, s: string, n: nat, c: Cutting)
    requires TypeLike(u, s) && 0 < n < |s| && Held(u, s, n, c)
    ensures Held(u, s, n + 1, Cutting(c.words, c.cur + [s[n]]))
  {
    hide SinglesApart, AllTypeLike;
    var cur := c.cur + [s[n]];
    assert cur == s[n + 1 - |cur|..n + 1];
  }

  lemma {:induction false} CutTypeLike(u: Alphabet, s: string, n: nat)
    requires TypeLike(u, s) && 0 < n <= |s|
    ensures Held(u, s, n, Cut(u, s, n))
  {
    hide *;
    CutNext(u, s, n);
    if n == 1 {
      CutNext(u, s, 0);
      FirstHolds(u, s);
    } else {
      CutTypeLike(u, s, n - 1);
      if Starts(u, s, n - 1) {
        StartHolds(u, s, n - 1, Cut(u, s, n - 1));
      } else {
        GrowHolds(u, s, n - 1, Cut(u, s, n - 1));
      }
    }
  }

  lemma SplitTypeLike(u: Alphabet, s: string)
    requires TypeLike(u, s)
    ensures |SplitWords(u, s)| > 0 && AllTypeLike(u, SplitWords(u, s)) && SinglesApart(u, SplitWords(u, s))
  {
    hide Cut;
    CutTypeLike(u, s, |s|);
  }

  lemma {:induction false} RenderPlain(u: Alphabet, w: string, rest: string)
    requires forall i :: 0 <= i < |w| ==> u.Alnum(w[i])
    ensures Render(u, w + rest, false, true) == w + Render(u, rest, false, true)
  {
    if |w| == 0 {
      assert w + rest == rest;
    } else {
      assert (w + rest)[1..] == w[1..] + rest;
      RenderPlain(u, w[1..], rest);
      assert w == [w[0]] + w[1..];
    }
  }

  predicate WordLike(u: Alphabet, w: string) {
    |w| > 0 && u.Letter(w[0]) && forall i :: 0 <= i < |w| ==> u.Alnum(w[i])
  }

  function Raise(u: Alphabet, w: string): string {
    if |w| == 0 then "" else [u.ToUpper(w[0])] + w[1..]
  }

  function Raised(u: Alphabet, words: seq<string>): (r: seq<string>)
    ensures |r| == |words| && forall i :: 0 <= i < |words| ==> r[i] == Raise(u, words[i])
  {
    seq(|words|, i requires 0 <= i < |words| => Raise(u, words[i]))
  }

  lemma RenderWord(u: Alphabet, w: string, rest: string, started: bool)
    requires u.Separates()
    requires WordLike(u, w)
    ensures Render(u, w + rest, true, started) == Raise(u, w) + Render(u, rest, false, true)
    ensures Render(u, [' '] + rest, false, true) == Render(u, rest, true, true) && Render(u, "", false, true) == ""
  {
    assert (w + rest)[1..] == w[1..] + rest && ([' '] + rest)[1..] == rest;
    RenderPlain(u, w[1..], rest);
  }

  /** Words joined by spaces render to their concatenation, each first letter raised. */
  lemma {:induction false} RenderJoined(u: Alphabet, words: seq<string>, started: bool)
    requires u.Separates()
    requires forall i :: 0 <= i < |words| ==> WordLike(u, words[i])
    ensures Render(u, Join(words, ' '), true, started) == Flat(Raised(u, words))
  {
    if |words| == 0 {
      assert Join(words, ' ') == "" && Flat(Raised(u, words)) == "";
    } else {
      var w := words[0];
      var rest := if |words| == 1 then "" else [' '] + Join(words[1..], ' ');
      assert Raised(u, words)[1..] == Raised(u, words[1..]);
      assert Join(words, ' ') == w + rest by {
        assert w + "" == w;
      }
      RenderWord(u, w, rest, started);
      if |words| > 1 {
        RenderWord(u, w, Join(words[1..], ' '), started);
        RenderJoined(u, words[1..], true);
      }
      hide Render, Join;
    }
  }

  /** Concatenation, first word first. */
  function Flat(words: seq<string>): string {
    if |words| == 0 then "" else words[0] + Flat(words[1..])
  }

  lemma {:induction false} FlatIsConcat(words: seq<string>)
    ensures Flat(words) == Concat(words)
  {
    if |words| > 0 {
      FlatIsConcat(words[1..]);
      ConcatFirst(words);
    }
  }

  lemma {:induction false} ConcatFirst(words: seq<string>)
    requires |words| > 0
    ensures Concat(words) == words[0] + Concat(words[1..])
  {
    if |words| > 1 {
      var n := |words| - 1;
      assert words[..n][1..] == words[1..][..n - 1];
      ConcatFirst(words[..n]);
    }
  }

  /**
   A display name gives the type name back: for every type name, whatever the id, and with
   acronyms and one-letter words.
   */
  lemma NameRoundTrip(u: Alphabet, s: string, id: string)
    requires TypeLike(u, s) && u.Separates()
    ensures TypeName(u, DeriveName(u, s), id) == s
  {
    SplitTypeLike(u, s);
    var words := SplitWords(u, s);
    forall i | 0 <= i < |words|
      ensures WordLike(u, words[i]) && Raise(u, words[i]) == words[i]
    {
      assert TypeLike(u, words[i]);
    }
    RenderJoined(u, words, false);
    assert Raised(u, words) == words;
    FlatIsConcat(words);
    SplitLosesNothing(u, s);
  }

  // ---------------------------------------------------------------------
  // Ids
  // ---------------------------------------------------------------------

  /** A word as pascal writes it from its small letters. */
  function Capital(u: Alphabet, w: string): (r: string)
    ensures |r| == |w|
  {
    if |w| == 0 then "" else [u.ToUpper(u.ToLower(w[0]))] + LowerAll(u, w[1..])
  }

  function Capitals(u: Alphabet, words: seq<string>): (r: seq<string>)
    ensures |r| == |words| && forall i :: 0 <= i < |words| ==> r[i] == Capital(u, words[i])
  {
    seq(|words|, i requires 0 <= i < |words| => Capital(u, words[i]))
  }

  lemma SmallIsRegular(u: Alphabet, c: char)
    requires u.Regular(c)
    ensures u.Regular(u.ToLower(c))
  {
  }

  /** A capital word: one capital, then no other. */
  predicate CapitalWord(u: Alphabet, w: string) {
    TypeLike(u, w) && forall i :: 0 < i < |w| ==> !u.Upper(w[i])
  }

  lemma CapitalIsCapital(u: Alphabet, w: string)
    requires TypeLike(u, w)
    ensures CapitalWord(u, Capital(u, w)) && LowerAll(u, Capital(u, w)) == LowerAll(u, w)
    ensures |w| > 1 && u.Lower(w[1]) ==> u.Lower(Capital(u, w)[1])
  {
    var r := Capital(u, w);
    forall i | 0 <= i < |w|
      ensures u.Regular(r[i]) && u.ToLower(r[i]) == u.ToLower(w[i]) && (i > 0 ==> !u.Upper(r[i]))
    {
      SmallIsRegular(u, w[i]);
      if i > 0 {
        assert r[i] == LowerAll(u, w[1..])[i - 1] == u.ToLower(w[i]);
      }
    }
  }

  /** The small-letter words of an id render to their capitals. */
  lemma RenderLower(u: Alphabet, words: seq<string>)
    requires AllTypeLike(u, words) && u.Separates()
    ensures Render(u, Join(LowerWords(u, words), ' '), true, false) == Flat(Capitals(u, words))
  {
    var lower := LowerWords(u, words);
    forall i | 0 <= i < |words|
      ensures WordLike(u, lower[i]) && Capital(u, words[i]) == Raise(u, lower[i])
    {
      forall j | 0 <= j < |words[i]|
        ensures u.Alnum(lower[i][j])
      {
        assert u.Regular(words[i][j]);
      }
      assert LowerAll(u, words[i][1..]) == lower[i][1..];
    }
    RenderJoined(u, lower, false);
    assert Raised(u, lower) == Capitals(u, words);
  }

  lemma {:induction false} SpacedJoin(words: seq<string>)
    requires forall i :: 0 <= i < |words| ==> '-' !in words[i]
    ensures Spaced(Join(words, '-')) == Join(words, ' ')
  {
    if |words| == 1 {
      assert Spaced(words[0]) == words[0];
    } else if |words| > 1 {
      SpacedJoin(words[1..]);
      var a, b := words[0] + (['-'] + Join(words[1..], '-')), words[0] + ([' '] + Join(words[1..], ' '));
      assert Spaced(a) == b by {
        assert |a| == |b|;
        forall i | 0 <= i < |a|
          ensures Spaced(a)[i] == b[i]
        {
          if i < |words[0]| {
            assert a[i] == words[0][i];
          } else if i > |words[0]| {
            assert a[i] == Join(words[1..], '-')[i - |words[0]| - 1];
          }
        }
      }
    }
  }

  /** Splitting the concatenation of capital words finds them again. */
  lemma {:induction false} CutCapitals(u: Alphabet, words: seq<string>, s: string, k: nat)
    requires k <= |words| && s == Concat(words) && SinglesApart(u, words)
    requires forall i :: 0 <= i < |words| ==> CapitalWord(u, words[i])
    ensures |Concat(words[..k])| <= |s| && s[..|Concat(words[..k])|] == Concat(words[..k])
    ensures k > 0 ==> Cut(u, s, |Concat(words[..k])|) == Cutting(words[..k - 1], words[k - 1])
  {
    hide *;
    PrefixOfConcat(words, k);
    if k > 0 {
      CutCapitals(u, words, s, k - 1);
      var p, q := |Concat(words[..k - 1])|, |Concat(words[..k])|;
      WordSlice(u, words, s, k);
      if k > 1 {
        StartsAtWord(u, words, s, k - 1);
        CapitalHasLetters(u, words[k - 2]);
        assert words[..k - 1] == words[..k - 2] + [words[k - 2]];
        CutStep(u, s, p, q, Cutting(words[..k - 2], words[k - 2]));
      } else {
        NoWords(u, s, words);
        CutThrough(u, s, p, q);
        assert "" + s[p..q] == s[p..q];
      }
    }
  }

  lemma CapitalHasLetters(u: Alphabet, w: string)
    requires CapitalWord(u, w)
    ensures |w| > 0
  {
  }

  lemma NoWords(u: Alphabet, s: string, words: seq<string>)
    ensures Cut(u, s, 0) == Cutting([], "") && Concat(words[..0]) == "" && words[..0] == []
    ensures |s| > 0 ==> !Starts(u, s, 0)
  {
  }

  lemma CutStep(u: Alphabet, s: string, p: nat, q: nat, before: Cutting)
    requires p < q <= |s| && (forall i :: p < i < q ==> !u.Upper(s[i])) && Starts(u, s, p)
    requires Cut(u, s, p) == before && |before.cur| > 0
    ensures Cut(u, s, q) == Cutting(before.words + [before.cur], s[p..q])
  {
    CutThrough(u, s, p, q);
  }

  /** Where the k-th word lies in the text. */
  lemma WordSlice(u: Alphabet, words: seq<string>, s: string, k: nat)
    requires 0 < k <= |words| && s == Concat(words)
    requires forall i :: 0 <= i < |words| ==> CapitalWord(u, words[i])
    ensures var p, q := |Concat(words[..k - 1])|, |Concat(words[..k])|;
            p < q <= |s| && s[p..q] == words[k - 1] && forall i :: p < i < q ==> !u.Upper(s[i])
  {
    PrefixOfConcat(words, k);
    var p, q, w := |Concat(words[..k - 1])|, |Concat(words[..k])|, words[k - 1];
    assert words[..k][..k - 1] == words[..k - 1] && words[..k][k - 1] == w;
    assert s[..q] == Concat(words[..k - 1]) + w;
    assert s[p..q] == s[..q][p..] == w;
    forall i | p < i < q
      ensures !u.Upper(s[i])
    {
      assert s[i] == w[i - p];
    }
  }

  lemma {:induction false} PrefixOfConcat(words: seq<string>, k: nat)
    requires k <= |words|
    ensures Concat(words[..k]) <= Concat(words)
  {
    if k < |words| {
      PrefixOfConcat(words[..|words| - 1], k);
      assert words[..|words| - 1][..k] == words[..k];
    } else {
      assert words[..k] == words;
    }
  }

  /** No start strictly inside: the characters from p on all join the word begun at p. */
  lemma {:induction false} CutThrough(u: Alphabet, s: string, p: nat, q: nat)
    requires p < q <= |s| && forall i :: p < i < q ==> !u.Upper(s[i])
    ensures Cut(u, s, q) == if Starts(u, s, p) then Cutting(Cut(u, s, p).Flush(), s[p..q])
            else Cutting(Cut(u, s, p).words, Cut(u, s, p).cur + s[p..q])
  {
    if q == p + 1 {
      assert s[p..q] == [s[p]];
    } else {
      CutThrough(u, s, p, q - 1);
      assert s[p..q] == s[p..q - 1] + [s[q - 1]];
      assert Cut(u, s, p).cur + s[p..q] == Cut(u, s, p).cur + s[p..q - 1] + [s[q - 1]];
    }
  }

  /** Every capital word but the first starts where the one before it ends. */
  lemma StartsAtWord(u: Alphabet, words: seq<string>, s: string, k: nat)
    requires 0 < k < |words| && s == Concat(words) && SinglesApart(u, words)
    requires forall i :: 0 <= i < |words| ==> CapitalWord(u, words[i])
    ensures |Concat(words[..k])| < |s| && Starts(u, s, |Concat(words[..k])|)
  {
    PrefixOfConcat(words, k - 1);
    PrefixOfConcat(words, k);
    PrefixOfConcat(words, k + 1);
    var o, p, q := |Concat(words[..k - 1])|, |Concat(words[..k])|, |Concat(words[..k + 1])|;
    var v, w := words[k - 1], words[k];
    assert words[..k][..k - 1] == words[..k - 1] && words[..k + 1][..k] == words[..k];
    assert Concat(words[..k]) == Concat(words[..k - 1]) + v && Concat(words[..k + 1]) == Concat(words[..k]) + w;
    assert s[..p] == Concat(words[..k - 1]) + v && s[..q] == Concat(words[..k]) + w;
    assert s[p] == s[..q][p] == w[0];
    assert s[p - 1] == s[..p][p - 1] == v[|v| - 1];
    if |v| == 1 {
      assert |w| > 1 && u.Lower(w[1]);
      assert s[p + 1] == s[..q][p + 1] == w[1];
    }
  }

  lemma FlushAll(words: seq<string>)
    requires |words| > 0 && |words[|words| - 1]| > 0
    ensures words[..|words|] == words && Cutting(words[..|words| - 1], words[|words| - 1]).Flush() == words
  {
  }

  lemma SplitCapitals(u: Alphabet, words: seq<string>)
    requires |words| > 0 && SinglesApart(u, words) && forall i :: 0 <= i < |words| ==> CapitalWord(u, words[i])
    ensures SplitWords(u, Concat(words)) == words
  {
    hide Cut, Concat, CapitalWord, SinglesApart, Cutting.Flush;
    CapitalHasLetters(u, words[|words| - 1]);
    CutCapitals(u, words, Concat(words), |words|);
    FlushAll(words);
  }

  /**
   An id survives the trip through a type name: deriving the id of the type an id gives is
   that id again, acronym runs and one-letter words included.
   */
  lemma IdRoundTrip(u: Alphabet, s: string)
    requires TypeLike(u, s) && u.Separates()
    ensures DeriveID(u, TypeName(u, "", DeriveID(u, s))) == DeriveID(u, s)
  {
    var words := SplitWords(u, s);
    var lower, capitals := LowerWords(u, words), Capitals(u, words);
    SplitTypeLike(u, s);
    forall i | 0 <= i < |words|
      ensures '-' !in lower[i]
    {
      forall j | 0 <= j < |lower[i]|
        ensures lower[i][j] != '-'
      {
        assert u.Regular(words[i][j]);
      }
    }
    SpacedJoin(lower);
    RenderLower(u, words);
    FlatIsConcat(capitals);
    forall i | 0 <= i < |words|
      ensures CapitalWord(u, capitals[i]) && LowerAll(u, capitals[i]) == lower[i] && |capitals[i]| == |words[i]|
      ensures |words[i]| > 1 && u.Lower(words[i][1]) ==> u.Lower(capitals[i][1])
    {
      CapitalIsCapital(u, words[i]);
    }
    assert SinglesApart(u, capitals);
    SplitCapitals(u, capitals);
    assert LowerWords(u, capitals) == lower;
    ConcatFirst(capitals);
    assert Pascal(u, "") == "" && |Concat(capitals)| > 0;
  }
}
