/**
 When pruning the verdict cache changes no answer: exactly when the ops tier's time to live
 exceeds the general one by no more than the cache's rounding.
 */
module VerdictPruning {
  import opened Verdicts
  import opened VerdictRuns

  /** The clock never runs backwards. */
  predicate Monotone(run: seq<Action>) {
    forall i, j :: 0 <= i < j < |run| ==> TimeOf(run[i]) <= TimeOf(run[j])
  }

  function Unpruned(run: seq<Action>): seq<Action> {
    if |run| == 0 then []
    else
      var before := Unpruned(run[..|run| - 1]);
      if run[|run| - 1].Prune? then before else before + [run[|run| - 1]]
  }

  /** A row as some yes wrote it. */
  ghost predicate Written(cfg: Config, e: Entry) {
    exists y: Time, exp: Time :: WrittenAt(cfg, e, y, exp)
  }

  predicate WrittenAt(cfg: Config, e: Entry, y: Time, exp: Time) {
    e.verifiedAt == Trunc(y) && e.tokenExp == Trunc(exp) && e.expiresAt == Trunc(Least(y + cfg.ttl, exp))
  }

  /** An entry neither tier can serve, now or later. */
  ghost predicate Dead(cfg: Config, e: Entry, now: Time) {
    forall tier: Tier, later: Time :: later >= now ==> !Live(cfg, e, tier, later) && !Graced(cfg, e, tier, later)
  }

  lemma TruncFacts(x: Time, y: Time)
    ensures x - MILLISECOND < Trunc(x) <= x
    ensures x <= y ==> Trunc(x) <= Trunc(y)
    ensures Trunc(x) < Trunc(y) ==> Trunc(x) + MILLISECOND <= Trunc(y)
  {
    var q, r := x / MILLISECOND, y / MILLISECOND;
    assert Trunc(x) == q * MILLISECOND && Trunc(y) == r * MILLISECOND;
  }

  lemma TruncSum(x: Time, y: Time)
    ensures Trunc(x) + Trunc(y) <= Trunc(x + y)
  {
    var q, r := x / MILLISECOND, y / MILLISECOND;
    assert x == q * MILLISECOND + x % MILLISECOND && y == r * MILLISECOND + y % MILLISECOND;
    assert Trunc(x) + Trunc(y) == (q + r) * MILLISECOND;
    assert (x + y) / MILLISECOND >= q + r;
    assert Trunc(x + y) == ((x + y) / MILLISECOND) * MILLISECOND;
  }

  /** Both tiers have forgotten an entry by the time it may be pruned. */
  lemma PrunableIsDead(cfg: Config, e: Entry, now: Time)
    requires cfg.grace >= 0 && cfg.TTL(Ops) <= Trunc(cfg.ttl) + MILLISECOND
    requires Written(cfg, e) && e.expiresAt < Trunc(now - cfg.grace)
    ensures Dead(cfg, e, now)
  {
    hide Trunc;
    var y, exp :| WrittenAt(cfg, e, y, exp);
    TruncFacts(e.expiresAt, now - cfg.grace);
    TruncFacts(now - cfg.grace, now);
    TruncFacts(exp, y);
    TruncFacts(cfg.ttl, cfg.ttl);
    TruncSum(y, cfg.ttl);
    TruncFacts(Least(y + cfg.ttl, exp), now - cfg.grace);
    TruncFacts(y + cfg.ttl, exp);
    assert cfg.TTL(General) <= Trunc(cfg.ttl) + MILLISECOND;
    forall tier: Tier, later: Time | later >= now
      ensures !Live(cfg, e, tier, later) && !Graced(cfg, e, tier, later)
    {
      assert tier == General || tier == Ops;
      assert e.verifiedAt + cfg.TTL(tier) + cfg.grace <= now || e.tokenExp + cfg.grace <= now;
    }
  }

  ghost predicate AllWritten(cfg: Config, rows: Rows) {
    forall h :: h in rows ==> Written(cfg, rows[h])
  }

  lemma ActKeepsWritten(cfg: Config, rows: Rows, a: Action)
    requires AllWritten(cfg, rows)
    ensures AllWritten(cfg, Act(cfg, rows, a))
  {
    var rows' := Act(cfg, rows, a);
    forall h | h in rows'
      ensures Written(cfg, rows'[h])
    {
      if h !in rows || rows'[h] != rows[h] {
        assert WrittenAt(cfg, rows'[h], a.c.answeredAt, cfg.TokenExp(a.c.token, a.c.now).value);
      }
    }
  }

  /** The pruned cache holds the unpruned one's rows, but for some that are dead. */
  ghost predicate LessTheDead(cfg: Config, full: Rows, pruned: Rows, now: Time) {
    && (forall h :: h in pruned ==> h in full && pruned[h] == full[h])
    && (forall h :: h in full && h !in pruned ==> Dead(cfg, full[h], now))
  }

  /** On caches that differ in dead rows only, a verification answers the same, and asks on both or on neither. */
  lemma AnswersSame(cfg: Config, full: Rows, pruned: Rows, a: Action, since: Time) returns (asks: bool)
    requires !a.Prune? && since <= TimeOf(a) && LessTheDead(cfg, full, pruned, since)
    ensures AnswerTo(cfg, full, a) == AnswerTo(cfg, pruned, a)
    ensures asks ==> cfg.TokenExp(a.c.token, a.c.now).Some?
    ensures Act(cfg, full, a) == if asks then Asked(cfg, full, a.c, cfg.TokenExp(a.c.token, a.c.now).value) else full
    ensures Act(cfg, pruned, a) == if asks then Asked(cfg, pruned, a.c, cfg.TokenExp(a.c.token, a.c.now).value)
            else pruned
  {
    var h := cfg.Hash(a.c.token);
    if h in full && h !in pruned && a.Cached? {
      assert !Live(cfg, full[h], a.tier, a.c.now) && !Graced(cfg, full[h], a.tier, a.c.now);
    }
    hide Dead, Live, Graced;
    asks := cfg.TokenExp(a.c.token, a.c.now).Some?
            && (a.Cached? && Found(cfg, pruned, a.c).Some? ==>
                !Live(cfg, Found(cfg, pruned, a.c).value, a.tier, a.c.now));
  }

  lemma AskedSame(cfg: Config, full: Rows, pruned: Rows, c: Call, exp: Time, now: Time)
    requires LessTheDead(cfg, full, pruned, now)
    ensures LessTheDead(cfg, Asked(cfg, full, c, exp), Asked(cfg, pruned, c, exp), now)
  {
    hide Dead;
  }

  lemma VerifySame(cfg: Config, full: Rows, pruned: Rows, a: Action, since: Time)
    requires !a.Prune? && since <= TimeOf(a) && LessTheDead(cfg, full, pruned, since)
    ensures AnswerTo(cfg, full, a) == AnswerTo(cfg, pruned, a)
    ensures LessTheDead(cfg, Act(cfg, full, a), Act(cfg, pruned, a), since)
  {
    var asks := AnswersSame(cfg, full, pruned, a, since);
    hide Act, AnswerTo, LessTheDead, Asked;
    if asks {
      AskedSame(cfg, full, pruned, a.c, cfg.TokenExp(a.c.token, a.c.now).value, since);
    }
  }

  lemma DeadLater(cfg: Config, e: Entry, now: Time, later: Time)
    requires Dead(cfg, e, now) && now <= later
    ensures Dead(cfg, e, later)
  {
  }

  lemma PruneSame(cfg: Config, full: Rows, pruned: Rows, since: Time, now: Time)
    requires cfg.grace >= 0 && cfg.TTL(Ops) <= Trunc(cfg.ttl) + MILLISECOND
    requires since <= now && LessTheDead(cfg, full, pruned, since) && AllWritten(cfg, full)
    ensures LessTheDead(cfg, full, Pruned(pruned, now, cfg.grace), now)
  {
    var pruned' := Pruned(pruned, now, cfg.grace);
    forall h | h in full && h !in pruned'
      ensures Dead(cfg, full[h], now)
    {
      if h in pruned {
        PrunableIsDead(cfg, full[h], now);
      } else {
        DeadLater(cfg, full[h], since, now);
      }
    }
  }

  lemma {:induction false} PruningSimulated(cfg: Config, run: seq<Action>, now: Time)
    requires cfg.grace >= 0 && cfg.TTL(Ops) <= Trunc(cfg.ttl) + MILLISECOND && Monotone(run)
    requires forall i :: 0 <= i < |run| ==> TimeOf(run[i]) <= now
    ensures Answers(cfg, Unpruned(run)) == Answers(cfg, run)
    ensures AllWritten(cfg, After(cfg, Unpruned(run)))
    ensures LessTheDead(cfg, After(cfg, Unpruned(run)), After(cfg, run), now)
  {
    if |run| > 0 {
      var n := |run| - 1;
      var front, a := run[..n], run[n];
      PruningSimulated(cfg, front, TimeOf(a));
      var full, pruned := After(cfg, Unpruned(front)), After(cfg, front);
      if a.Prune? {
        PruneSame(cfg, full, pruned, TimeOf(a), a.now);
      } else {
        var all := Unpruned(front) + [a];
        assert all[..|all| - 1] == Unpruned(front);
        ActKeepsWritten(cfg, full, a);
        VerifySame(cfg, full, pruned, a, TimeOf(a));
      }
      forall h | h in After(cfg, Unpruned(run)) && h !in After(cfg, run)
        ensures Dead(cfg, After(cfg, Unpruned(run))[h], now)
      {
        DeadLater(cfg, After(cfg, Unpruned(run))[h], TimeOf(a), now);
      }
    }
  }

  /**
   Pruning is unobservable: with the verifier's own grace and a clock that never runs
   backwards, no pruning at any point of a run changes any answer of either tier.
   */
  lemma PruningUnobservable(cfg: Config, run: seq<Action>)
    requires cfg.grace >= 0 && cfg.TTL(Ops) <= Trunc(cfg.ttl) + MILLISECOND && Monotone(run)
    ensures Answers(cfg, run) == Answers(cfg, Unpruned(run))
  {
    var now := if |run| == 0 then 0 else TimeOf(run[|run| - 1]);
    PruningSimulated(cfg, run, now);
  }

  /** In particular whenever the ops tier is no more lenient than the general one. */
  lemma NoLongerOpsIsEnough(cfg: Config, run: seq<Action>)
    requires cfg.grace >= 0 && cfg.opsTTL <= cfg.ttl && Monotone(run)
    ensures Answers(cfg, run) == Answers(cfg, Unpruned(run))
  {
    TruncFacts(cfg.ttl, cfg.ttl);
    PruningUnobservable(cfg, run);
  }

  /** A yes at time 0, a pruning as soon as the row's expiry lets it, and an ops call with the master down. */
  function Telltale(cfg: Config, token: string): seq<Action> {
    var at := Trunc(cfg.ttl) + MILLISECOND + cfg.grace;
    [Fresh(Call(token, 0, Yes("v"), 0, true, true, true)),
     Prune(at),
     Cached(Call(token, at, Down, at, true, true, true), Ops)]
  }

  /**
   And only then: when the ops tier outlasts the general one by more than the rounding, a
   run of three actions tells whether the cache was pruned.
   */
  lemma LongerOpsTells(cfg: Config, token: string)
    requires cfg.grace >= 0 && cfg.ttl >= 0 && cfg.TTL(Ops) > Trunc(cfg.ttl) + MILLISECOND
    requires cfg.Claims(token).Some? && cfg.Claims(token).value * SECOND > cfg.ttl + cfg.grace + cfg.TTL(Ops)
    ensures Monotone(Telltale(cfg, token))
    ensures Answers(cfg, Telltale(cfg, token)) == [Served("v"), Unreachable]
    ensures Answers(cfg, Unpruned(Telltale(cfg, token))) == [Served("v"), Served("v")]
  {
    var run := Telltale(cfg, token);
    TruncFacts(cfg.ttl, cfg.ttl);
    TelltaleYes(cfg, token);
    TelltalePrune(cfg, token);
    TelltaleAsk(cfg, token);
    TwoOfThree(cfg, run, TelltaleRows(cfg, token));
  }

  function TelltaleRows(cfg: Config, token: string): Rows
    requires cfg.Claims(token).Some?
  {
    map[cfg.Hash(token) := Entry("v", Trunc(cfg.Claims(token).value * SECOND), 0, Trunc(cfg.ttl))]
  }

  lemma TelltaleYes(cfg: Config, token: string)
    requires cfg.ttl >= 0 && cfg.Claims(token).Some? && cfg.Claims(token).value * SECOND > cfg.ttl
    ensures var yes := Telltale(cfg, token)[0];
            Act(cfg, map[], yes) == TelltaleRows(cfg, token) && AnswerTo(cfg, map[], yes) == Served("v")
  {
    assert Trunc(0) == 0;
  }

  lemma TelltalePrune(cfg: Config, token: string)
    requires cfg.Claims(token).Some?
    ensures Act(cfg, TelltaleRows(cfg, token), Telltale(cfg, token)[1]) == map[]
  {
    TruncOfTrunc(cfg.ttl);
  }

  lemma TelltaleAsk(cfg: Config, token: string)
    requires cfg.grace >= 0 && cfg.ttl >= 0 && cfg.TTL(Ops) > Trunc(cfg.ttl) + MILLISECOND
    requires cfg.Claims(token).Some? && cfg.Claims(token).value * SECOND > cfg.ttl + cfg.grace + cfg.TTL(Ops)
    ensures var ask := Telltale(cfg, token)[2];
            AnswerTo(cfg, map[], ask) == Unreachable && AnswerTo(cfg, TelltaleRows(cfg, token), ask) == Served("v")
  {
    TruncFacts(cfg.ttl, cfg.ttl);
    TruncOfSecond(cfg.Claims(token).value);
    hide Trunc;
  }

  lemma TruncOfSecond(seconds: int)
    ensures Trunc(seconds * SECOND) == seconds * SECOND
  {
    assert seconds * SECOND == (seconds * 1000) * MILLISECOND;
  }

  lemma TruncOfTrunc(t: Time)
    ensures Trunc(Trunc(t) + MILLISECOND) == Trunc(t) + MILLISECOND
  {
    assert Trunc(t) == (t / MILLISECOND) * MILLISECOND;
    assert (Trunc(t) + MILLISECOND) % MILLISECOND == 0;
  }

  lemma TwoOfThree(cfg: Config, run: seq<Action>, rows: Rows)
    requires |run| == 3 && !run[0].Prune? && run[1].Prune? && !run[2].Prune? && Act(cfg, map[], run[0]) == rows
    ensures Answers(cfg, run) == [AnswerTo(cfg, map[], run[0]), AnswerTo(cfg, Act(cfg, rows, run[1]), run[2])]
    ensures Answers(cfg, Unpruned(run)) == [AnswerTo(cfg, map[], run[0]), AnswerTo(cfg, rows, run[2])]
  {
    hide Act, AnswerTo;
    assert [] + [run[0]] == [run[0]] && [run[0]] + [run[1]] + [run[2]] == run;
    OneMore(cfg, [], run[0]);
    OneMore(cfg, [run[0]], run[1]);
    OneMore(cfg, [run[0]] + [run[1]], run[2]);
    OneMore(cfg, [run[0]], run[2]);
  }

  lemma OneMore(cfg: Config, run: seq<Action>, a: Action)
    ensures After(cfg, run + [a]) == Act(cfg, After(cfg, run), a)
    ensures Answers(cfg, run + [a]) == Answers(cfg, run) + if a.Prune? then [] else [AnswerTo(cfg, After(cfg, run), a)]
    ensures Unpruned(run + [a]) == Unpruned(run) + if a.Prune? then [] else [a]
  {
    assert (run + [a])[..|run|] == run;
  }
}
