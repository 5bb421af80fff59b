/**
 Transform chains: bringing an event to the latest version of its type, one declared
 transform after another, and the store-level upcaster composed of them.
 */
module Upcasting {
  import opened Wrappers
  import opened EventLog

  datatype Transform = Transform(kind: string, from: int, to: int)

  /** A script decider's transforms; run is the script, None when it throws or its result does not encode. */
  datatype Spec = Spec(aggregate: string, transforms: seq<Transform>, run: (Transform, string) -> Option<string>) {
    function Run(t: Transform, data: string): Option<string> {
      run(t, data)
    }
  }

  /** The first declared transform for this type and version; |ts| when there is none. */
  function First(ts: seq<Transform>, kind: string, version: int): (i: nat)
    ensures i <= |ts|
    ensures i < |ts| ==> ts[i].kind == kind && ts[i].from == version
    ensures forall j :: 0 <= j < i ==> !(ts[j].kind == kind && ts[j].from == version)
  {
    if |ts| == 0 then 0
    else
      var last := |ts| - 1;
      var i := First(ts[..last], kind, version);
      if i < last || (ts[last].kind == kind && ts[last].from == version) then i else |ts|
  }

  predicate Latest(ts: seq<Transform>, e: Event) {
    First(ts, e.kind, e.version) == |ts|
  }

  /** The chain from a version is over after at most n transforms. */
  predicate Ends(ts: seq<Transform>, kind: string, version: int, n: nat)
    decreases n
  {
    var i := First(ts, kind, version);
    i == |ts| || (n > 0 && Ends(ts, kind, ts[i].to, n - 1))
  }

  /** The event at the latest version; None when a transform throws. */
  function UpcastOf(spec: Spec, e: Event, n: nat): Option<Event>
    requires Ends(spec.transforms, e.kind, e.version, n)
    decreases n
  {
    var i := First(spec.transforms, e.kind, e.version);
    if i == |spec.transforms| then Some(e)
    else
      var data := spec.Run(spec.transforms[i], e.data);
      if data.None? then None
      else UpcastOf(spec, e.(data := data.value, version := spec.transforms[i].to), n - 1)
  }

  /** upcast, the loop, for a chain that ends. */
  method Upcast(spec: Spec, ev: Event) returns (r: Option<Event>)
    requires Ends(spec.transforms, ev.kind, ev.version, |spec.transforms|)
    ensures r == UpcastOf(spec, ev, |spec.transforms|)
  {
    var e := ev;
    ghost var n: nat := |spec.transforms|;
    while true
      invariant Ends(spec.transforms, e.kind, e.version, n)
      invariant UpcastOf(spec, e, n) == UpcastOf(spec, ev, |spec.transforms|)
      decreases n
    {
      var i := 0;
      while i < |spec.transforms| && !(spec.transforms[i].kind == e.kind && spec.transforms[i].from == e.version)
        invariant i <= |spec.transforms|
        invariant forall j :: 0 <= j < i ==>
                  !(spec.transforms[j].kind == e.kind && spec.transforms[j].from == e.version)
      {
        i := i + 1;
      }
      assert i == First(spec.transforms, e.kind, e.version);
      if i == |spec.transforms| {
        return Some(e);
      }
      var data := spec.Run(spec.transforms[i], e.data);
      if data.None? {
        return None;
      }
      e := e.(data := data.value, version := spec.transforms[i].to);
      n := n - 1;
    }
  }

  /** The bound only says how long the chain may be, not where it leads. */
  lemma {:induction false} BoundDoesNotMatter(spec: Spec, e: Event, m: nat, n: nat)
    requires Ends(spec.transforms, e.kind, e.version, m) && Ends(spec.transforms, e.kind, e.version, n)
    ensures UpcastOf(spec, e, m) == UpcastOf(spec, e, n)
    decreases m
  {
    var i := First(spec.transforms, e.kind, e.version);
    if i < |spec.transforms| {
      var data := spec.Run(spec.transforms[i], e.data);
      if data.Some? {
        BoundDoesNotMatter(spec, e.(data := data.value, version := spec.transforms[i].to), m - 1, n - 1);
      }
    }
  }

  // ---------------------------------------------------------------------
  // When the loop ends
  // ---------------------------------------------------------------------

  /** Every transform raises the version. */
  predicate Rising(ts: seq<Transform>) {
    forall i :: 0 <= i < |ts| ==> ts[i].from < ts[i].to
  }

  /** The version a chain is at after k transforms, while it lasts. */
  predicate Reaches(ts: seq<Transform>, kind: string, version: int, at: int, k: nat)
    decreases k
  {
    if k == 0 then at == version
    else
      var i := First(ts, kind, version);
      i < |ts| && Reaches(ts, kind, ts[i].to, at, k - 1)
  }

  lemma {:induction false} EndsLater(ts: seq<Transform>, kind: string, version: int, m: nat, n: nat)
    requires m <= n && Ends(ts, kind, version, m)
    ensures Ends(ts, kind, version, n)
    decreases m
  {
    var i := First(ts, kind, version);
    if i < |ts| {
      EndsLater(ts, kind, ts[i].to, m - 1, n - 1);
    }
  }

  lemma {:induction false} EndsAfter(ts: seq<Transform>, kind: string, version: int, at: int, k: nat, n: nat)
    requires Reaches(ts, kind, version, at, k)
    ensures Ends(ts, kind, version, n + k) <==> Ends(ts, kind, at, n)
    decreases k
  {
    if k > 0 {
      EndsAfter(ts, kind, ts[First(ts, kind, version)].to, at, k - 1, n);
    }
  }

  /** A chain that comes back to where it was never ends. */
  lemma {:induction false} CycleNeverEnds(ts: seq<Transform>, kind: string, version: int, k: nat, n: nat)
    requires k > 0 && Reaches(ts, kind, version, version, k)
    ensures !Ends(ts, kind, version, n)
    decreases n
  {
    if Ends(ts, kind, version, n) {
      if n >= k {
        EndsAfter(ts, kind, version, version, k, n - k);
        CycleNeverEnds(ts, kind, version, k, n - k);
      } else {
        EndsLater(ts, kind, version, n, k);
        EndsAfter(ts, kind, version, version, k, 0);
      }
    }
  }

  predicate AllDistinct(xs: seq<nat>) {
    forall i, j :: 0 <= i < j < |xs| ==> xs[i] != xs[j]
  }

  lemma {:induction false} DistinctCount(xs: seq<nat>, k: nat)
    requires k <= |xs| && AllDistinct(xs)
    ensures |set i | 0 <= i < k :: xs[i]| == k
  {
    if k > 0 {
      DistinctCount(xs, k - 1);
      assert (set i | 0 <= i < k :: xs[i]) == (set i | 0 <= i < k - 1 :: xs[i]) + {xs[k - 1]};
    }
  }

  lemma {:induction false} SmallSet(s: set<nat>, n: nat)
    requires forall x :: x in s ==> x < n
    ensures |s| <= n
  {
    if n > 0 {
      SmallSet(s - {n - 1}, n - 1);
      if n - 1 !in s {
        assert s - {n - 1} == s;
      }
    } else {
      assert s == {};
    }
  }

  lemma Pigeonhole(xs: seq<nat>, n: nat)
    requires |xs| == n + 1 && forall i :: 0 <= i < |xs| ==> xs[i] < n
    ensures !AllDistinct(xs)
  {
    if AllDistinct(xs) {
      DistinctCount(xs, n + 1);
      SmallSet(set i | 0 <= i < n + 1 :: xs[i], n);
    }
  }

  /** Which transform a chain takes at each of its first n steps, when it has that many. */
  function Path(ts: seq<Transform>, kind: string, version: int, n: nat): (path: seq<nat>)
    requires n == 0 || !Ends(ts, kind, version, n - 1)
    ensures |path| == n && forall k :: 0 <= k < n ==> path[k] < |ts|
    decreases n
  {
    if n == 0 then [] else
      var i := First(ts, kind, version);
      [i] + Path(ts, kind, ts[i].to, n - 1)
  }

  /** Where a chain stands before its k-th step is the version its k-th transform is from. */
  lemma {:induction false} PathReaches(ts: seq<Transform>, kind: string, version: int, n: nat, k: nat)
    requires k < n && !Ends(ts, kind, version, n - 1)
    ensures Reaches(ts, kind, version, ts[Path(ts, kind, version, n)[k]].from, k)
    decreases k
  {
    if k > 0 {
      PathReaches(ts, kind, ts[First(ts, kind, version)].to, n - 1, k - 1);
    }
  }

  lemma {:induction false} ReachesSplit(ts: seq<Transform>, kind: string, version: int, mid: int, at: int, j: nat,
                                        k: nat)
    requires j <= k && Reaches(ts, kind, version, mid, j) && Reaches(ts, kind, version, at, k)
    ensures Reaches(ts, kind, mid, at, k - j)
    decreases j
  {
    if j > 0 {
      ReachesSplit(ts, kind, ts[First(ts, kind, version)].to, mid, at, j - 1, k - 1);
    }
  }

  lemma EndsInTime(ts: seq<Transform>, kind: string, version: int, m: nat)
    requires Ends(ts, kind, version, m)
    ensures Ends(ts, kind, version, |ts|)
  {
    if !Ends(ts, kind, version, |ts|) {
      var n := |ts| + 1;
      var path := Path(ts, kind, version, n);
      Pigeonhole(path, |ts|);
      var i, j :| 0 <= i < j < |path| && path[i] == path[j];
      var at := ts[path[i]].from;
      PathReaches(ts, kind, version, n, i);
      PathReaches(ts, kind, version, n, j);
      ReachesSplit(ts, kind, version, at, at, i, j);
      CycleNeverEnds(ts, kind, at, j - i, m);
      EndsLater(ts, kind, version, m, m + i);
      EndsAfter(ts, kind, version, at, i, m);
    }
  }

  /**
   The chain ends at all if and only if it ends within as many steps as there are
   transforms: one more step would repeat a transform, and so go round for ever.
   */
  lemma ChainEndsIff(ts: seq<Transform>, kind: string, version: int)
    ensures (exists n: nat :: Ends(ts, kind, version, n)) <==> Ends(ts, kind, version, |ts|)
  {
    if n: nat :| Ends(ts, kind, version, n) {
      EndsInTime(ts, kind, version, n);
    }
  }

  // ---------------------------------------------------------------------
  // Rising chains
  // ---------------------------------------------------------------------

  /** How many transforms are from a version or a later one. */
  function Ahead(ts: seq<Transform>, version: int): (n: nat)
    ensures n <= |ts|
  {
    if |ts| == 0 then 0 else Ahead(ts[..|ts| - 1], version) + if ts[|ts| - 1].from >= version then 1 else 0
  }

  lemma {:induction false} AheadShrinks(ts: seq<Transform>, i: nat, version: int)
    requires i < |ts| && ts[i].from < version
    ensures Ahead(ts, version) < Ahead(ts, ts[i].from)
  {
    AheadAtMost(ts[..|ts| - 1], ts[i].from, version);
    if i < |ts| - 1 {
      AheadShrinks(ts[..|ts| - 1], i, version);
    }
  }

  lemma {:induction false} AheadAtMost(ts: seq<Transform>, from: int, version: int)
    requires from <= version
    ensures Ahead(ts, version) <= Ahead(ts, from)
  {
    if |ts| > 0 {
      AheadAtMost(ts[..|ts| - 1], from, version);
    }
  }

  /** When every transform raises the version, every chain ends. */
  lemma {:induction false} RisingEnds(ts: seq<Transform>, kind: string, version: int)
    requires Rising(ts)
    ensures Ends(ts, kind, version, Ahead(ts, version)) && Ends(ts, kind, version, |ts|)
    decreases Ahead(ts, version)
  {
    var i := First(ts, kind, version);
    if i < |ts| {
      AheadShrinks(ts, i, ts[i].to);
      RisingEnds(ts, kind, ts[i].to);
      EndsLater(ts, kind, ts[i].to, Ahead(ts, ts[i].to), Ahead(ts, version) - 1);
    }
    EndsLater(ts, kind, version, Ahead(ts, version), |ts|);
  }

  /** The loader only asks that both versions are positive, which lets a chain run in a circle. */
  lemma PositiveVersionsMayCycle(n: nat)
    ensures !Ends([Transform("Opened", 1, 2), Transform("Opened", 2, 1)], "Opened", 1, n)
  {
    var ts := [Transform("Opened", 1, 2), Transform("Opened", 2, 1)];
    assert First(ts, "Opened", 1) == 0 && First(ts, "Opened", 2) == 1;
    assert Reaches(ts, "Opened", 1, 1, 0) && Reaches(ts, "Opened", 2, 1, 1) && Reaches(ts, "Opened", 1, 1, 2);
    CycleNeverEnds(ts, "Opened", 1, 2, n);
  }
}
