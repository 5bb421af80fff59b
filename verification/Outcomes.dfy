/**
 The recogniser of command outcomes: whether a list of events is what a declared alternative
 can emit. It never backtracks, and it need not.
 */
module Outcomes {

  /** An alternative's events in order; a name in repeated may come any number of times. */
  datatype Alternative = Alternative(events: seq<string>, repeated: seq<string>)

  // ---------------------------------------------------------------------
  // The language
  // ---------------------------------------------------------------------

  function Times(name: string, n: nat): (run: seq<string>)
    ensures |run| == n && forall k :: 0 <= k < n ==> run[k] == name
  {
    seq(n, k => name)
  }

  /** Each name as many times in a row as counts says. */
  function Expand(names: seq<string>, counts: seq<nat>): seq<string>
    requires |names| == |counts|
  {
    if |names| == 0 then [] else Times(names[0], counts[0]) + Expand(names[1..], counts[1..])
  }

  /** Counts an alternative allows: exactly one of each event that is not repeated. */
  predicate Allowed(names: seq<string>, repeated: seq<string>, counts: seq<nat>) {
    |counts| == |names| && forall i :: 0 <= i < |names| ==> names[i] in repeated || counts[i] == 1
  }

  ghost predicate CanEmit(names: seq<string>, repeated: seq<string>, events: seq<string>) {
    exists counts: seq<nat> :: Allowed(names, repeated, counts) && Expand(names, counts) == events
  }

  // ---------------------------------------------------------------------
  // The greedy reading
  // ---------------------------------------------------------------------

  function DropRun(events: seq<string>, name: string): seq<string> {
    if |events| > 0 && events[0] == name then DropRun(events[1..], name) else events
  }

  predicate Greedy(names: seq<string>, repeated: seq<string>, events: seq<string>)
    decreases |names|
  {
    if |names| == 0 then |events| == 0
    else if names[0] in repeated then Greedy(names[1..], repeated, DropRun(events, names[0]))
    else |events| > 0 && events[0] == names[0] && Greedy(names[1..], repeated, events[1..])
  }

  lemma {:induction false} DropRunIs(events: seq<string>, name: string) returns (n: nat)
    ensures n <= |events| && DropRun(events, name) == events[n..] && events == Times(name, n) + events[n..]
  {
    if |events| > 0 && events[0] == name {
      var m := DropRunIs(events[1..], name);
      n := m + 1;
      assert events[1..][m..] == events[n..];
      assert events == [name] + events[1..];
      assert Times(name, n) == [name] + Times(name, m);
    } else {
      n := 0;
      assert events == Times(name, 0) + events[0..];
    }
  }

  lemma {:induction false} DropRunOver(name: string, n: nat, rest: seq<string>)
    ensures DropRun(Times(name, n) + rest, name) == DropRun(rest, name)
  {
    if n == 0 {
      assert Times(name, 0) + rest == rest;
    } else {
      assert (Times(name, n) + rest)[1..] == Times(name, n - 1) + rest;
      DropRunOver(name, n - 1, rest);
    }
  }

  /** Sound: what the greedy reading takes, the alternative can emit. */
  lemma {:induction false} GreedySound(names: seq<string>, repeated: seq<string>, events: seq<string>)
      returns (counts: seq<nat>)
    requires Greedy(names, repeated, events)
    ensures Allowed(names, repeated, counts) && Expand(names, counts) == events
    decreases |names|
  {
    if |names| == 0 {
      counts := [];
    } else {
      var n: nat := 1;
      if names[0] in repeated {
        n := DropRunIs(events, names[0]);
      } else {
        assert events == Times(names[0], 1) + events[1..];
      }
      var rest := GreedySound(names[1..], repeated, events[n..]);
      counts := [n] + rest;
      assert counts[1..] == rest;
      forall i | 0 <= i < |names|
        ensures names[i] in repeated || counts[i] == 1
      {
        assert i > 0 ==> names[i] == names[1..][i - 1] && counts[i] == rest[i - 1];
      }
    }
  }

  /** Taking a whole leading run of a repeated name never spoils a reading of what follows. */
  lemma {:induction false} DroppingIsSafe(names: seq<string>, repeated: seq<string>, counts: seq<nat>, name: string)
      returns (counts': seq<nat>)
    requires Allowed(names, repeated, counts) && name in repeated
    ensures Allowed(names, repeated, counts') && Expand(names, counts') == DropRun(Expand(names, counts), name)
    decreases |names|
  {
    var events := Expand(names, counts);
    if |events| == 0 || events[0] != name {
      counts' := counts;
    } else {
      AllowedRest(names, repeated, counts);
      var rest := Expand(names[1..], counts[1..]);
      assert names[0] == name || counts[0] == 0;
      DropRunOver(name, counts[0], rest);
      assert events == Times(name, counts[0]) + rest;
      var more := DroppingIsSafe(names[1..], repeated, counts[1..], name);
      counts' := [0] + more;
      assert counts'[1..] == more && Times(names[0], 0) + Expand(names[1..], more) == Expand(names[1..], more);
      AllowedMore(names, repeated, more);
    }
  }

  lemma AllowedRest(names: seq<string>, repeated: seq<string>, counts: seq<nat>)
    requires Allowed(names, repeated, counts) && |names| > 0
    ensures Allowed(names[1..], repeated, counts[1..]) && (names[0] in repeated || counts[0] == 1)
  {
  }

  lemma AllowedMore(names: seq<string>, repeated: seq<string>, more: seq<nat>)
    requires |names| > 0 && names[0] in repeated && Allowed(names[1..], repeated, more)
    ensures Allowed(names, repeated, [0] + more)
  {
    forall i | 0 <= i < |names|
      ensures names[i] in repeated || ([0] + more)[i] == 1
    {
      assert i > 0 ==> names[i] == names[1..][i - 1] && ([0] + more)[i] == more[i - 1];
    }
  }

  /** Complete: what the alternative can emit, the greedy reading takes. */
  lemma {:induction false} GreedyComplete(names: seq<string>, repeated: seq<string>, counts: seq<nat>)
    requires Allowed(names, repeated, counts)
    ensures Greedy(names, repeated, Expand(names, counts))
    decreases |names|
  {
    if |names| > 0 {
      AllowedRest(names, repeated, counts);
      var rest := Expand(names[1..], counts[1..]);
      if names[0] in repeated {
        DropRunOver(names[0], counts[0], rest);
        var counts' := DroppingIsSafe(names[1..], repeated, counts[1..], names[0]);
        GreedyComplete(names[1..], repeated, counts');
      } else {
        assert Expand(names, counts)[1..] == rest;
        GreedyComplete(names[1..], repeated, counts[1..]);
      }
    }
  }

  /** fitsOutcome, the loop: exact for every list of events and every alternative. */
  method FitsOutcome(events: seq<string>, o: Alternative) returns (fits: bool)
    ensures fits <==> CanEmit(o.events, o.repeated, events)
  {
    GreedyExact(o.events, o.repeated, events);
    var i := 0;
    for k := 0 to |o.events|
      invariant 0 <= i <= |events|
      invariant Greedy(o.events, o.repeated, events) <==> Greedy(o.events[k..], o.repeated, events[i..])
    {
      var name := o.events[k];
      assert o.events[k..][1..] == o.events[k + 1..];
      var repeated := false;
      for j := 0 to |o.repeated|
        invariant repeated <==> name in o.repeated[..j]
      {
        repeated := repeated || o.repeated[j] == name;
      }
      assert o.repeated[..|o.repeated|] == o.repeated;
      if repeated {
        ghost var from := i;
        while i < |events| && events[i] == name
          invariant from <= i <= |events|
          invariant DropRun(events[from..], name) == DropRun(events[i..], name)
        {
          assert events[i..][1..] == events[i + 1..];
          i := i + 1;
        }
      } else {
        if i >= |events| || events[i] != name {
          return false;
        }
        assert events[i..][1..] == events[i + 1..];
        i := i + 1;
      }
    }
    fits := i == |events|;
  }

  /** No backtracking is ever needed: the greedy reading accepts exactly the language. */
  lemma GreedyExact(names: seq<string>, repeated: seq<string>, events: seq<string>)
    ensures Greedy(names, repeated, events) <==> CanEmit(names, repeated, events)
  {
    if Greedy(names, repeated, events) {
      var counts := GreedySound(names, repeated, events);
    }
    if CanEmit(names, repeated, events) {
      var counts: seq<nat> :| Allowed(names, repeated, counts) && Expand(names, counts) == events;
      GreedyComplete(names, repeated, counts);
    }
  }

  lemma ExpandFirst(names: seq<string>, counts: seq<nat>)
    requires |names| == |counts| > 0
    ensures counts[0] == 0 ==> Expand(names, counts) == Expand(names[1..], counts[1..])
    ensures counts[0] > 0 ==>
              && Expand(names, counts) == [names[0]] + Expand(names, counts[0 := counts[0] - 1])
              && Expand(names, counts)[1..] == Expand(names, counts[0 := counts[0] - 1])
  {
    var fewer := counts[0 := if counts[0] > 0 then counts[0] - 1 else 0];
    assert fewer[1..] == counts[1..];
    if counts[0] > 0 {
      assert Times(names[0], counts[0]) == [names[0]] + Times(names[0], counts[0] - 1);
    }
  }

  lemma AllowedCounts(names: seq<string>, repeated: seq<string>, n: nat, more: seq<nat>)
    requires |names| > 0 && Allowed(names[1..], repeated, more) && (names[0] in repeated || n == 1)
    ensures Allowed(names, repeated, [n] + more) && ([n] + more)[1..] == more
  {
    forall i | 0 <= i < |names|
      ensures names[i] in repeated || ([n] + more)[i] == 1
    {
      assert i > 0 ==> names[i] == names[1..][i - 1] && ([n] + more)[i] == more[i - 1];
    }
  }

  /** What a name lets come next: one of a single event; of a repeated one as many as there are, or none. */
  ghost predicate NextMayBe(names: seq<string>, repeated: seq<string>, events: seq<string>)
    requires |names| > 0
  {
    if names[0] in repeated then
      || CanEmit(names[1..], repeated, events)
      || (|events| > 0 && events[0] == names[0] && CanEmit(names, repeated, events[1..]))
    else |events| > 0 && events[0] == names[0] && CanEmit(names[1..], repeated, events[1..])
  }

  lemma EmitsThenNext(names: seq<string>, repeated: seq<string>, counts: seq<nat>)
    requires |names| > 0 && Allowed(names, repeated, counts)
    ensures NextMayBe(names, repeated, Expand(names, counts))
  {
    AllowedRest(names, repeated, counts);
    ExpandFirst(names, counts);
    if counts[0] > 0 {
      var fewer := counts[0 := counts[0] - 1];
      ExpandFirst(names, fewer);
      assert fewer[1..] == counts[1..];
      if names[0] in repeated {
        AllowedCounts(names, repeated, counts[0] - 1, counts[1..]);
        assert fewer == [counts[0] - 1] + counts[1..];
      }
    }
  }

  /** The language, event by event: an alternative with no events left takes no more. */
  lemma LanguageStepsIff(names: seq<string>, repeated: seq<string>, events: seq<string>)
    ensures if |names| == 0 then CanEmit(names, repeated, events) <==> events == []
            else CanEmit(names, repeated, events) <==> NextMayBe(names, repeated, events)
  {
    if |names| == 0 {
      assert Allowed(names, repeated, []) && Expand(names, []) == [];
    } else {
      if CanEmit(names, repeated, events) {
        var counts: seq<nat> :| Allowed(names, repeated, counts) && Expand(names, counts) == events;
        EmitsThenNext(names, repeated, counts);
      }
      if NextMayBe(names, repeated, events) {
        NextIsEmitted(names, repeated, events);
      }
    }
  }

  lemma NextIsEmitted(names: seq<string>, repeated: seq<string>, events: seq<string>)
    requires |names| > 0 && NextMayBe(names, repeated, events)
    ensures CanEmit(names, repeated, events)
  {
    if names[0] in repeated && CanEmit(names[1..], repeated, events) {
      var more: seq<nat> :| Allowed(names[1..], repeated, more) && Expand(names[1..], more) == events;
      EmitsAfter(names, repeated, 0, more);
    } else if names[0] in repeated {
      var more: seq<nat> :| Allowed(names, repeated, more) && Expand(names, more) == events[1..];
      AllowedRest(names, repeated, more);
      EmitsOneMore(names, repeated, more);
      assert events == [names[0]] + events[1..];
    } else {
      var more: seq<nat> :| Allowed(names[1..], repeated, more) && Expand(names[1..], more) == events[1..];
      EmitsAfter(names, repeated, 1, more);
      assert events == Times(names[0], 1) + events[1..];
    }
  }

  lemma EmitsAfter(names: seq<string>, repeated: seq<string>, n: nat, more: seq<nat>)
    requires |names| > 0 && Allowed(names[1..], repeated, more) && (names[0] in repeated || n == 1)
    ensures CanEmit(names, repeated, Times(names[0], n) + Expand(names[1..], more))
    ensures Times(names[0], 0) + Expand(names[1..], more) == Expand(names[1..], more)
  {
    AllowedCounts(names, repeated, n, more);
    hide Allowed;
    assert ([n] + more)[1..] == more;
  }

  lemma {:induction false} EmitsOneMore(names: seq<string>, repeated: seq<string>, counts: seq<nat>)
    requires |names| > 0 && Allowed(names, repeated, counts) && names[0] in repeated
    ensures CanEmit(names, repeated, [names[0]] + Expand(names, counts))
  {
    hide *;
    AllowedLength(names, repeated, counts);
    AllowedRest(names, repeated, counts);
    OneTimeMore(names[0], counts[0], Expand(names[1..], counts[1..]));
    ExpandFirstRun(names, counts);
    EmitsAfter(names, repeated, counts[0] + 1, counts[1..]);
  }

  lemma AllowedLength(names: seq<string>, repeated: seq<string>, counts: seq<nat>)
    requires Allowed(names, repeated, counts)
    ensures |counts| == |names|
  {
  }

  lemma {:induction false} ExpandFirstRun(names: seq<string>, counts: seq<nat>)
    requires |names| == |counts| > 0
    ensures Expand(names, counts) == Times(names[0], counts[0]) + Expand(names[1..], counts[1..])
  {
  }

  lemma OneTimeMore(name: string, n: nat, rest: seq<string>)
    ensures Times(name, n + 1) + rest == [name] + (Times(name, n) + rest)
  {
    assert Times(name, n + 1) == [name] + Times(name, n);
  }
}
