/**
 What a yes of the master buys: until it ages out for the tier that calls, or its token
 expires, every call that can read its row is served from it, and for the grace window
 longer while the master is down.
 */
module VerdictService {
  import opened Verdicts
  import opened VerdictRuns

  /** A verification that gets as far as the master. */
  predicate GoesOut(cfg: Config, rows: Rows, a: Action) {
    match a
    case Prune(_) => false
    case Fresh(c) => Unexpired(cfg, c.token, c.now)
    case Cached(c, tier) => Unexpired(cfg, c.token, c.now) && !Trusted(cfg, rows, c, tier)
  }

  /** The yes that leaves e in the row of h. */
  predicate Grants(cfg: Config, rows: Rows, a: Action, h: string, e: Entry) {
    && GoesOut(cfg, rows, a) && a.c.remote.Yes? && a.c.saveOk && cfg.hash(a.c.token) == h
    && SavedAs(cfg, a.c, a.c.remote.verdict, e)
  }

  /** An action that takes e away from h, or puts another yes in its place. */
  predicate Displaces(cfg: Config, rows: Rows, a: Action, h: string, e: Entry) {
    if a.Prune? then Milli(a.now - cfg.grace) > e.expiresAt
    else
      && GoesOut(cfg, rows, a) && cfg.hash(a.c.token) == h
      && ((a.c.remote.No? && a.c.deleteOk) || (a.c.remote.Yes? && a.c.saveOk))
  }

  lemma ActHolds(cfg: Config, rows: Rows, a: Action)
    ensures a.Cached? ==> VerifiedAs(cfg, rows, a.c, a.tier, Act(cfg, rows, a), AnswerTo(cfg, rows, a))
    ensures a.Fresh? ==> FreshAs(cfg, rows, a.c, Act(cfg, rows, a), AnswerTo(cfg, rows, a))
    ensures a.Prune? ==> forall h :: if h in rows && rows[h].expiresAt >= Milli(a.now - cfg.grace)
                                     then h in Act(cfg, rows, a) && Act(cfg, rows, a)[h] == rows[h]
                                     else h !in Act(cfg, rows, a)
  {
    match a
    case Cached(c, tier) => CachedHolds(cfg, rows, c, tier);
    case Fresh(c) => FreshHolds(cfg, rows, c);
    case Prune(now) => TruncIsMilli(now - cfg.grace);
  }

  lemma GrantIsHeld(cfg: Config, rows: Rows, a: Action, h: string, e: Entry)
    requires Grants(cfg, rows, a, h, e)
    ensures h in Act(cfg, rows, a) && Act(cfg, rows, a)[h] == e
  {
    ActHolds(cfg, rows, a);
    hide Act, AnswerTo, Unexpired, Trusted, SameBut, Milli;
  }

  lemma KeepsWhatItDoesNotDisplace(cfg: Config, rows: Rows, a: Action, h: string, e: Entry)
    requires h in rows && rows[h] == e && !Displaces(cfg, rows, a, h, e)
    ensures h in Act(cfg, rows, a) && Act(cfg, rows, a)[h] == e
  {
    ActHolds(cfg, rows, a);
    hide Act, AnswerTo, Unexpired, Trusted, SavedAs, Milli;
  }

  /** e went into the row of h at step k of a run and nothing has displaced it before step i. */
  predicate Stands(cfg: Config, run: seq<Action>, k: nat, i: nat, h: string, e: Entry) {
    && k < i <= |run| && Grants(cfg, After(cfg, run[..k]), run[k], h, e)
    && forall j :: k < j < i ==> !Displaces(cfg, After(cfg, run[..j]), run[j], h, e)
  }

  lemma {:induction false} StandsInItsRow(cfg: Config, run: seq<Action>, k: nat, i: nat, h: string, e: Entry)
    requires Stands(cfg, run, k, i, h, e)
    ensures h in After(cfg, run[..i]) && After(cfg, run[..i])[h] == e
  {
    hide Act, After, Grants, Displaces;
    AfterOneMore(cfg, run, i - 1);
    var rows := After(cfg, run[..i - 1]);
    if i - 1 == k {
      GrantIsHeld(cfg, rows, run[k], h, e);
    } else {
      StandsInItsRow(cfg, run, k, i - 1, h, e);
      KeepsWhatItDoesNotDisplace(cfg, rows, run[i - 1], h, e);
    }
  }

  /**
   Service. A yes that was saved and that no rejection, pruning or newer yes has displaced is
   served to every call of either tier that can read its row, while the token is unexpired and
   the yes is younger (to the millisecond) than that tier's time to live: with the verdict of
   the yes, whatever the master would say, and changing no row.
   */
  lemma SavedYesIsServed(cfg: Config, run: seq<Action>, k: nat, i: nat, h: string, e: Entry)
    requires i < |run| && Stands(cfg, run, k, i, h, e)
    requires run[i].Cached? && run[i].c.lookupOk && cfg.hash(run[i].c.token) == h
    requires cfg.claims(run[i].c.token).Some? && run[i].c.now < cfg.claims(run[i].c.token).value * 1_000_000_000
    requires cfg.claims(run[k].c.token).Some?
             && run[i].c.now < Milli(cfg.claims(run[k].c.token).value * 1_000_000_000)
    requires run[i].c.now < Milli(run[k].c.answeredAt)
                            + if run[i].tier.Ops? && cfg.opsTTL > 0 then cfg.opsTTL else cfg.ttl
    ensures AnswerTo(cfg, After(cfg, run[..i]), run[i]) == Served(run[k].c.remote.verdict)
    ensures After(cfg, run[..i + 1]) == After(cfg, run[..i])
  {
    StandsInItsRow(cfg, run, k, i, h, e);
    AfterOneMore(cfg, run, i);
    ActHolds(cfg, After(cfg, run[..i]), run[i]);
    assert SavedAs(cfg, run[k].c, run[k].c.remote.verdict, e);
    hide Act, After, AnswerTo, Milli, AskedAs;
  }

  /** The same for a call that finds the master down, for the grace window longer. */
  lemma SavedYesIsServedInOutage(cfg: Config, run: seq<Action>, k: nat, i: nat, h: string, e: Entry)
    requires i < |run| && Stands(cfg, run, k, i, h, e) && cfg.grace > 0
    requires run[i].Cached? && run[i].c.lookupOk && cfg.hash(run[i].c.token) == h && run[i].c.remote.Down?
    requires cfg.claims(run[i].c.token).Some? && run[i].c.now < cfg.claims(run[i].c.token).value * 1_000_000_000
    requires cfg.claims(run[k].c.token).Some?
             && run[i].c.now < Milli(cfg.claims(run[k].c.token).value * 1_000_000_000)
    requires run[i].c.now < Milli(run[k].c.answeredAt) + cfg.grace
                            + if run[i].tier.Ops? && cfg.opsTTL > 0 then cfg.opsTTL else cfg.ttl
    ensures AnswerTo(cfg, After(cfg, run[..i]), run[i]) == Served(run[k].c.remote.verdict)
    ensures After(cfg, run[..i + 1]) == After(cfg, run[..i])
  {
    StandsInItsRow(cfg, run, k, i, h, e);
    AfterOneMore(cfg, run, i);
    ActHolds(cfg, After(cfg, run[..i]), run[i]);
    assert SavedAs(cfg, run[k].c, run[k].c.remote.verdict, e);
    hide Act, After, AnswerTo, Milli, AskedAs;
  }
}
