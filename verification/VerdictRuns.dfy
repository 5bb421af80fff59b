/**
 Timed safety of the verdict cache over whole runs of verifications of either tier, fresh
 verifications and prunings.
 */
module VerdictRuns {
  import opened Verdicts

  datatype Action = Cached(c: Call, tier: Tier) | Fresh(c: Call) | Prune(now: Time)

  function TimeOf(a: Action): Time {
    if a.Prune? then a.now else a.c.now
  }

  function Act(cfg: Config, rows: Rows, a: Action): (rows': Rows) {
    match a
    case Cached(c, tier) => JudgeCached(cfg, rows, c, tier).rows
    case Fresh(c) => JudgeFresh(cfg, rows, c).rows
    case Prune(now) => Pruned(rows, now, cfg.grace)
  }

  function AnswerTo(cfg: Config, rows: Rows, a: Action): Answer
    requires !a.Prune?
  {
    if a.Cached? then JudgeCached(cfg, rows, a.c, a.tier).answer else JudgeFresh(cfg, rows, a.c).answer
  }

  function After(cfg: Config, run: seq<Action>): Rows {
    if |run| == 0 then map[] else Act(cfg, After(cfg, run[..|run| - 1]), run[|run| - 1])
  }

  /** What the callers of a run hear. */
  function Answers(cfg: Config, run: seq<Action>): seq<Answer> {
    if |run| == 0 then []
    else
      var n := |run| - 1;
      var before := Answers(cfg, run[..n]);
      if run[n].Prune? then before else before + [AnswerTo(cfg, After(cfg, run[..n]), run[n])]
  }

  // ---------------------------------------------------------------------
  // Bounded trust
  // ---------------------------------------------------------------------

  /** Whether an action asks the master, given the rows it finds. */
  predicate Asks(cfg: Config, rows: Rows, a: Action) {
    match a
    case Prune(_) => false
    case Fresh(c) => cfg.TokenExp(c.token, c.now).Some?
    case Cached(c, tier) =>
      && cfg.TokenExp(c.token, c.now).Some?
      && !(Found(cfg, rows, c).Some? && Live(cfg, Found(cfg, rows, c).value, tier, c.now))
  }

  predicate About(cfg: Config, a: Action, h: string) {
    !a.Prune? && cfg.Hash(a.c.token) == h
  }

  /** The master's yes that an entry records. */
  predicate SaidYes(cfg: Config, rows: Rows, a: Action, h: string, e: Entry) {
    && About(cfg, a, h) && Asks(cfg, rows, a) && a.c.remote == Yes(e.verdict)
    && e.verifiedAt == Trunc(a.c.answeredAt) && cfg.Claims(a.c.token).Some?
    && e.tokenExp == Trunc(cfg.Claims(a.c.token).value * SECOND)
  }

  predicate Evicts(cfg: Config, rows: Rows, a: Action, h: string) {
    About(cfg, a, h) && Asks(cfg, rows, a) && a.c.remote.No? && a.c.deleteOk
  }

  predicate BackedBy(cfg: Config, run: seq<Action>, h: string, e: Entry, k: nat)
    requires k < |run|
  {
    && SaidYes(cfg, After(cfg, run[..k]), run[k], h, e)
    && forall j :: k < j < |run| ==> !Evicts(cfg, After(cfg, run[..j]), run[j], h)
  }

  /** Every row of the cache goes back to a yes of the master that nothing has revoked since. */
  lemma {:induction false} RowsAreBacked(cfg: Config, run: seq<Action>, h: string) returns (k: nat)
    requires h in After(cfg, run)
    ensures k < |run| && BackedBy(cfg, run, h, After(cfg, run)[h], k)
  {
    var n := |run| - 1;
    var front, a := run[..n], run[n];
    var rows, rows' := After(cfg, front), After(cfg, run);
    if SaidYes(cfg, rows, a, h, rows'[h]) {
      k := n;
    } else {
      ActKeepsOrSays(cfg, rows, a, h);
      k := RowsAreBacked(cfg, front, h);
      assert run[..k] == front[..k];
      forall j | k < j < |run|
        ensures !Evicts(cfg, After(cfg, run[..j]), run[j], h)
      {
        if j < n {
          assert run[..j] == front[..j] && run[j] == front[j];
        }
      }
    }
  }

  lemma ActKeepsOrSays(cfg: Config, rows: Rows, a: Action, h: string)
    requires h in Act(cfg, rows, a)
    ensures SaidYes(cfg, rows, a, h, Act(cfg, rows, a)[h])
            || (h in rows && Act(cfg, rows, a)[h] == rows[h] && !Evicts(cfg, rows, a, h))
  {
  }

  /**
   Bounded trust. A verdict answered without a fresh yes goes back to a yes the master gave,
   and that nothing revoked since, less than the answering tier's time to live ago (plus the
   grace window, and only in a call that found the master down), and the token itself had
   not expired.
   */
  lemma BoundedTrust(cfg: Config, run: seq<Action>, i: nat) returns (k: nat)
    requires i < |run| && run[i].Cached? && AnswerTo(cfg, After(cfg, run[..i]), run[i]).Served?
    requires !(Asks(cfg, After(cfg, run[..i]), run[i]) && run[i].c.remote.Yes?)
    ensures k < i && About(cfg, run[k], cfg.Hash(run[i].c.token)) && Asks(cfg, After(cfg, run[..k]), run[k])
    ensures run[k].c.remote == Yes(AnswerTo(cfg, After(cfg, run[..i]), run[i]).verdict)
    ensures forall j :: k < j < i ==> !Evicts(cfg, After(cfg, run[..j]), run[j], cfg.Hash(run[i].c.token))
    ensures cfg.Claims(run[i].c.token).Some? && run[i].c.now < cfg.Claims(run[i].c.token).value * SECOND
    ensures var outage := Asks(cfg, After(cfg, run[..i]), run[i]) && run[i].c.remote.Down?;
            run[i].c.now < run[k].c.answeredAt + cfg.TTL(run[i].tier) + (if outage then cfg.grace else 0)
  {
    var rows, h := After(cfg, run[..i]), cfg.Hash(run[i].c.token);
    k := RowsAreBacked(cfg, run[..i], h);
    assert run[..i][..k] == run[..k];
    forall j | k < j < i
      ensures !Evicts(cfg, After(cfg, run[..j]), run[j], h)
    {
      assert run[..i][..j] == run[..j];
    }
  }

  lemma {:induction false} AbsentUntilYes(cfg: Config, run: seq<Action>, j: nat, i: nat, h: string)
    requires j < i <= |run| && Evicts(cfg, After(cfg, run[..j]), run[j], h)
    requires forall k :: j < k < i && About(cfg, run[k], h) && Asks(cfg, After(cfg, run[..k]), run[k]) ==>
             !run[k].c.remote.Yes?
    ensures h !in After(cfg, run[..i])
  {
    hide *;
    AfterOneMore(cfg, run, i - 1);
    if j < i - 1 {
      AbsentUntilYes(cfg, run, j, i - 1, h);
      StaysAbsent(cfg, After(cfg, run[..i - 1]), run[i - 1], h);
    } else {
      EvictedIsAbsent(cfg, After(cfg, run[..j]), run[j], h);
    }
  }

  lemma AfterOneMore(cfg: Config, run: seq<Action>, i: nat)
    requires i < |run|
    ensures After(cfg, run[..i + 1]) == Act(cfg, After(cfg, run[..i]), run[i])
  {
    assert run[..i + 1][..i] == run[..i];
  }

  lemma StaysAbsent(cfg: Config, rows: Rows, a: Action, h: string)
    requires h !in rows && (About(cfg, a, h) && Asks(cfg, rows, a) ==> !a.c.remote.Yes?)
    ensures h !in Act(cfg, rows, a)
  {
  }

  lemma EvictedIsAbsent(cfg: Config, rows: Rows, a: Action, h: string)
    requires Evicts(cfg, rows, a, h)
    ensures h !in Act(cfg, rows, a)
  {
  }

  /** After a rejection that evicted the row, nothing is served until the master says yes again. */
  lemma RejectionStopsService(cfg: Config, run: seq<Action>, j: nat, i: nat)
    requires j < i < |run| && run[i].Cached?
    requires Evicts(cfg, After(cfg, run[..j]), run[j], cfg.Hash(run[i].c.token))
    requires forall k :: j < k <= i && About(cfg, run[k], cfg.Hash(run[i].c.token)) &&
                         Asks(cfg, After(cfg, run[..k]), run[k]) ==>
                           !run[k].c.remote.Yes?
    ensures !AnswerTo(cfg, After(cfg, run[..i]), run[i]).Served?
  {
    AbsentUntilYes(cfg, run, j, i, cfg.Hash(run[i].c.token));
    assert About(cfg, run[i], cfg.Hash(run[i].c.token));
  }
}
