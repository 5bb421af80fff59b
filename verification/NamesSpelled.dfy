/**
 Ids, display names and Pascal case character by character: where a name is cut, which
 characters are kept, which are raised or lowered, and where the separators go.
 */
module NamesSpelled {
  import opened Names

  // ---------------------------------------------------------------------
  // Where a name is cut
  // ---------------------------------------------------------------------

  /** A word begins at i: a capital after what is none, or one followed by a small letter. */
  predicate Begins(u: Alphabet, s: string, i: nat)
    requires i < |s|
  {
    i == 0 || (u.isUpper(s[i]) && (!u.isUpper(s[i - 1]) || (i + 1 < |s| && u.isLower(s[i + 1]))))
  }

  /** at lists where the words of the first n characters begin, in order, and passes over none. */
  predicate Beginnings(u: Alphabet, s: string, n: nat, at: seq<nat>)
    requires n <= |s|
  {
    && (forall k :: 0 <= k < |at| ==> at[k] < n && Begins(u, s, at[k]))
    && (forall k, l :: 0 <= k < l < |at| ==> at[k] < at[l])
    && forall i :: 0 <= i < n && Begins(u, s, i) ==> i in at
  }

  function End(at: seq<nat>, k: nat, n: nat): nat {
    if k + 1 < |at| then at[k + 1] else n
  }

  /** The words are what lies between one beginning and the next. */
  predicate CutAt(s: string, n: nat, at: seq<nat>, words: seq<string>)
    requires n <= |s|
  {
    |words| == |at| && forall k :: 0 <= k < |at| ==> at[k] <= End(at, k, n) <= n && words[k] == s[at[k]..End(at, k, n)]
  }

  lemma FirstBegins(u: Alphabet, s: string)
    requires |s| > 0
    ensures Beginnings(u, s, 1, [0]) && CutAt(s, 1, [0], [s[..1]])
  {
    assert [0][0] == 0;
    assert s[0..1] == s[..1];
  }

  lemma BeginsMore(u: Alphabet, s: string, n: nat, at: seq<nat>)
    requires 0 < n < |s| && Beginnings(u, s, n, at)
    ensures Beginnings(u, s, n + 1, if Begins(u, s, n) then at + [n] else at)
  {
    if Begins(u, s, n) {
      assert (at + [n])[|at|] == n;
      forall i | 0 <= i < n && Begins(u, s, i)
        ensures i in at + [n]
      {
      }
    }
  }

  lemma CutMore(s: string, n: nat, at: seq<nat>, words: seq<string>)
    requires 0 < n < |s| && CutAt(s, n, at, words) && |at| > 0
    ensures CutAt(s, n + 1, at + [n], words + [[s[n]]])
    ensures CutAt(s, n + 1, at, words[|words| - 1 := words[|words| - 1] + [s[n]]])
  {
    assert s[n..n + 1] == [s[n]];
    var last := at[|at| - 1];
    assert s[last..n + 1] == s[last..n] + [s[n]];
  }

  lemma {:induction false} CutBegins(u: Alphabet, s: string, n: nat) returns (at: seq<nat>)
    requires 0 < n <= |s|
    ensures |Cut(u, s, n).cur| > 0 && |at| > 0
    ensures Beginnings(u, s, n, at) && CutAt(s, n, at, Cut(u, s, n).words + [Cut(u, s, n).cur])
  {
    hide Beginnings, CutAt;
    if n == 1 {
      FirstBegins(u, s);
      at := [0];
      assert Cut(u, s, 0) == Cutting([], "") && "" + [s[0]] == s[..1];
      assert Cut(u, s, 1).words + [Cut(u, s, 1).cur] == [s[..1]];
    } else {
      var c := Cut(u, s, n - 1);
      var before := CutBegins(u, s, n - 1);
      BeginsMore(u, s, n - 1, before);
      CutMore(s, n - 1, before, c.words + [c.cur]);
      var all := c.words + [c.cur];
      assert all[|all| - 1 := c.cur + [s[n - 1]]] == c.words + [c.cur + [s[n - 1]]];
      at := if Begins(u, s, n - 1) then before + [n - 1] else before;
    }
  }

  /** A name is cut at its capitals and nowhere else: splitting an empty name gives no words. */
  lemma SplitsWhereWordsBegin(u: Alphabet, s: string) returns (at: seq<nat>)
    ensures Beginnings(u, s, |s|, at) && CutAt(s, |s|, at, SplitWords(u, s))
  {
    at := [];
    if |s| > 0 {
      at := CutBegins(u, s, |s|);
    }
  }

  // ---------------------------------------------------------------------
  // Ids and display names
  // ---------------------------------------------------------------------

  /** The first n characters, each as write has it, with sep before every word but the first. */
  function Separated(u: Alphabet, s: string, n: nat, sep: char, write: char -> char): string
    requires n <= |s|
  {
    if n == 0 then ""
    else
      Separated(u, s, n - 1, sep, write)
      + (if n > 1 && Begins(u, s, n - 1) then [sep, write(s[n - 1])] else [write(s[n - 1])])
  }

  function Written(w: string, write: char -> char): (r: string)
    ensures |r| == |w| && forall i :: 0 <= i < |w| ==> r[i] == write(w[i])
  {
    seq(|w|, i requires 0 <= i < |w| => write(w[i]))
  }

  function AllWritten(words: seq<string>, write: char -> char): (r: seq<string>)
    ensures |r| == |words| && forall i :: 0 <= i < |words| ==> r[i] == Written(words[i], write)
  {
    seq(|words|, i requires 0 <= i < |words| => Written(words[i], write))
  }

  lemma {:induction false} JoinMore(words: seq<string>, w: string, c: char, sep: char)
    ensures Join(words + [w + [c]], sep) == Join(words + [w], sep) + [c]
    ensures |words| > 0 ==> Join(words + [w], sep) == Join(words, sep) + [sep] + w
  {
    hide *;
    JoinOf(words, w, sep);
    JoinOf(words, w + [c], sep);
    if |words| > 0 {
      JoinMore(words[1..], w, c, sep);
      Regroup(words[0], [sep], Join(words[1..] + [w], sep), [c]);
      if |words| > 1 {
        Regroup(words[0], [sep], Join(words[1..], sep), [sep] + w);
        assert Join(words[1..], sep) + [sep] + w == Join(words[1..], sep) + ([sep] + w);
        assert Join(words, sep) + [sep] + w == Join(words, sep) + ([sep] + w);
      } else {
        assert words[1..] + [w] == [w];
        assert words[0] + ([sep] + w) == words[0] + [sep] + w;
        JoinOf([], w, sep);
      }
    }
  }

  lemma Regroup(a: string, b: string, c: string, d: string)
    ensures a + (b + (c + d)) == a + (b + c) + d
  {
  }

  lemma JoinOf(words: seq<string>, w: string, sep: char)
    ensures words == [] ==> Join(words + [w], sep) == w
    ensures |words| > 0 ==>
              && Join(words + [w], sep) == words[0] + ([sep] + Join(words[1..] + [w], sep))
              && (|words| == 1 ==> Join(words, sep) == words[0])
              && (|words| > 1 ==> Join(words, sep) == words[0] + ([sep] + Join(words[1..], sep)))
  {
    if |words| > 0 {
      assert (words + [w])[1..] == words[1..] + [w];
    }
  }

  lemma WrittenMore(words: seq<string>, w: string, c: char, write: char -> char)
    ensures AllWritten(words + [w], write) == AllWritten(words, write) + [Written(w, write)]
    ensures Written(w + [c], write) == Written(w, write) + [write(c)] && Written([c], write) == [write(c)]
  {
  }

  /** The words of the first n characters, the one in hand last. */
  function SoFar(u: Alphabet, s: string, n: nat): seq<string>
    requires n <= |s|
  {
    Cut(u, s, n).words + [Cut(u, s, n).cur]
  }

  lemma {:induction false} CutSeparated(u: Alphabet, s: string, n: nat, sep: char, write: char -> char)
    requires 0 < n <= |s|
    ensures |Cut(u, s, n).cur| > 0
    ensures Join(AllWritten(SoFar(u, s, n), write), sep) == Separated(u, s, n, sep, write)
  {
    hide Join, AllWritten, Written;
    if n == 1 {
      OneLetter(u, s, sep, write);
    } else {
      CutSeparated(u, s, n - 1, sep, write);
      var c, r := Cut(u, s, n - 1), s[n - 1];
      var words := AllWritten(c.words, write);
      WrittenMore(c.words, c.cur, r, write);
      WrittenMore(c.words, c.cur + [r], r, write);
      JoinMore(words, Written(c.cur, write), write(r), sep);
      WrittenMore(SoFar(u, s, n - 1), [r], r, write);
      JoinMore(words + [Written(c.cur, write)], [write(r)], r, sep);
      assert Join(words + [Written(c.cur, write)], sep) + [sep] + [write(r)]
             == Join(words + [Written(c.cur, write)], sep) + [sep, write(r)];
    }
  }

  lemma OneLetter(u: Alphabet, s: string, sep: char, write: char -> char)
    requires |s| > 0
    ensures |Cut(u, s, 1).cur| > 0 && Join(AllWritten(SoFar(u, s, 1), write), sep) == Separated(u, s, 1, sep, write)
  {
    assert Cut(u, s, 0) == Cutting([], "") && "" + [s[0]] == [s[0]];
    assert SoFar(u, s, 1) == [[s[0]]] && Separated(u, s, 0, sep, write) == "";
    assert Written([s[0]], write) == [write(s[0])];
  }

  /** An id is the type name in small letters, with a dash before every word but the first. */
  lemma IdIsTheLoweredName(u: Alphabet, s: string)
    ensures DeriveID(u, s) == Separated(u, s, |s|, '-', u.toLower)
  {
    var words := SplitWords(u, s);
    assert LowerWords(u, words) == AllWritten(words, u.toLower) by {
      forall i | 0 <= i < |words|
        ensures LowerAll(u, words[i]) == Written(words[i], u.toLower)
      {
      }
    }
    if |s| > 0 {
      CutSeparated(u, s, |s|, '-', u.toLower);
    }
  }

  /** A display name is the type name as it is, with a space before every word but the first. */
  lemma NameIsTheSpacedName(u: Alphabet, s: string)
    ensures DeriveName(u, s) == Separated(u, s, |s|, ' ', (c: char) => c)
  {
    var words := SplitWords(u, s);
    var same := (c: char) => c;
    assert AllWritten(words, same) == words by {
      forall i | 0 <= i < |words|
        ensures Written(words[i], same) == words[i]
      {
      }
    }
    if |s| > 0 {
      CutSeparated(u, s, |s|, ' ', same);
    }
  }

  // ---------------------------------------------------------------------
  // Pascal case
  // ---------------------------------------------------------------------

  predicate LetterBefore(u: Alphabet, s: string, i: nat)
    requires i <= |s|
  {
    exists j :: 0 <= j < i && u.isLetter(s[j])
  }

  /** Letters are kept, and digits once a letter has been. */
  predicate Stays(u: Alphabet, s: string, i: nat)
    requires i < |s|
  {
    u.isLetter(s[i]) || (u.isDigit(s[i]) && LetterBefore(u, s, i))
  }

  /** A letter is raised if it is the first, or follows what is neither a letter nor a digit. */
  predicate IsRaised(u: Alphabet, s: string, i: nat)
    requires i < |s|
  {
    u.isLetter(s[i])
    && (!LetterBefore(u, s, i) || (i > 0 && !u.isLetter(s[i - 1]) && !u.isDigit(s[i - 1])))
  }

  /** at lists, in order, the characters of s from i on that stay. */
  predicate StayAt(u: Alphabet, s: string, i: nat, at: seq<nat>) {
    && (forall k :: 0 <= k < |at| ==> i <= at[k] < |s| && Stays(u, s, at[k]))
    && (forall k, l :: 0 <= k < l < |at| ==> at[k] < at[l])
    && forall j :: i <= j < |s| && Stays(u, s, j) ==> j in at
  }

  function Letters(u: Alphabet, s: string, i: nat): char
    requires i < |s|
  {
    if IsRaised(u, s, i) then u.toUpper(s[i]) else s[i]
  }

  /** out has those characters, raised or as they are. */
  predicate PascalFrom(u: Alphabet, s: string, i: nat, at: seq<nat>, out: string) {
    && StayAt(u, s, i, at) && |at| == |out|
    && forall k :: 0 <= k < |at| && at[k] < |s| ==> out[k] == Letters(u, s, at[k])
  }

  lemma PascalPasses(u: Alphabet, s: string, i: nat, at: seq<nat>, out: string)
    requires i < |s| && PascalFrom(u, s, i + 1, at, out) && !Stays(u, s, i)
    ensures PascalFrom(u, s, i, at, out)
  {
    hide Stays, Letters;
  }

  lemma StaysToo(u: Alphabet, s: string, i: nat, at: seq<nat>)
    requires i < |s| && StayAt(u, s, i + 1, at) && Stays(u, s, i)
    ensures StayAt(u, s, i, [i] + at)
  {
    hide Stays;
    var all := [i] + at;
    assert all[0] == i && forall k :: 0 < k < |all| ==> all[k] == at[k - 1];
    forall j | i <= j < |s| && Stays(u, s, j)
      ensures j in all
    {
      assert j == i || j in at;
    }
  }

  lemma PascalKeepsOne(u: Alphabet, s: string, i: nat, at: seq<nat>, out: string)
    requires i < |s| && PascalFrom(u, s, i + 1, at, out) && Stays(u, s, i)
    ensures PascalFrom(u, s, i, [i] + at, [Letters(u, s, i)] + out)
  {
    hide Stays, Letters, StayAt;
    StaysToo(u, s, i, at);
  }

  lemma LetterBeforeMore(u: Alphabet, s: string, i: nat)
    requires i < |s|
    ensures LetterBefore(u, s, i + 1) <==> LetterBefore(u, s, i) || u.isLetter(s[i])
  {
  }

  lemma {:induction false} RenderFrom(u: Alphabet, s: string, i: nat, upperNext: bool, started: bool)
      returns (at: seq<nat>)
    requires i <= |s| && started == LetterBefore(u, s, i)
    requires upperNext == (!started || (i > 0 && !u.isLetter(s[i - 1]) && !u.isDigit(s[i - 1])))
    ensures PascalFrom(u, s, i, at, Render(u, s[i..], upperNext, started))
    decreases |s| - i
  {
    hide PascalFrom, LetterBefore;
    if i == |s| {
      at := [];
      NothingStays(u, s);
    } else {
      LetterBeforeMore(u, s, i);
      assert s[i..][0] == s[i] && s[i..][1..] == s[i + 1..];
      if u.Letter(s[i]) {
        var more := RenderFrom(u, s, i + 1, false, true);
        PascalKeepsOne(u, s, i, more, Render(u, s[i + 1..], false, true));
        at := [i] + more;
      } else if u.Digit(s[i]) && started {
        var more := RenderFrom(u, s, i + 1, false, true);
        PascalKeepsOne(u, s, i, more, Render(u, s[i + 1..], false, true));
        at := [i] + more;
      } else {
        at := RenderFrom(u, s, i + 1, true, started);
        PascalPasses(u, s, i, at, Render(u, s[i + 1..], true, started));
      }
    }
  }

  lemma NothingStays(u: Alphabet, s: string)
    ensures PascalFrom(u, s, |s|, [], "") && s[|s|..] == ""
  {
  }

  /** Pascal case keeps exactly the letters, and the digits behind one, and raises the first letter of each word. */
  lemma PascalKeeps(u: Alphabet, s: string) returns (at: seq<nat>)
    ensures PascalFrom(u, s, 0, at, Pascal(u, s))
  {
    at := RenderFrom(u, s, 0, true, false);
    assert s[0..] == s;
  }

  lemma SomeStays(u: Alphabet, s: string, at: seq<nat>)
    requires StayAt(u, s, 0, at)
    ensures |at| > 0 <==> exists i :: 0 <= i < |s| && u.isLetter(s[i])
  {
    if |at| > 0 {
      assert Stays(u, s, at[0]);
    }
    if i :| 0 <= i < |s| && u.isLetter(s[i]) {
      assert Stays(u, s, i);
    }
  }

  /** A name that spells anything is used; the id, its dashes read as spaces, only when it does not. */
  lemma TypeNameFrom(u: Alphabet, name: string, id: string) returns (spaced: string, at: seq<nat>)
    ensures |spaced| == |id| && forall i :: 0 <= i < |id| ==> spaced[i] == if id[i] == '-' then ' ' else id[i]
    ensures if exists i :: 0 <= i < |name| && u.isLetter(name[i])
            then PascalFrom(u, name, 0, at, TypeName(u, name, id))
            else PascalFrom(u, spaced, 0, at, TypeName(u, name, id))
  {
    spaced := Spaced(id);
    at := PascalKeeps(u, name);
    SomeStays(u, name, at);
    if |at| == 0 {
      at := PascalKeeps(u, spaced);
    }
  }
}
