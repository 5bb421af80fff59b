/**
 Remote token verification with a cache of verdicts: two tiers with their own time to live
 judge one shared row, a grace window stretches trust while the master is unreachable.
 Times are nanoseconds; the cache stores them to the millisecond.
 */
module Verdicts {
  import opened Wrappers

  type Time = int

  const MILLISECOND: Time := 1_000_000
  const SECOND: Time := 1_000_000_000

  /** Formatting a timestamp drops what is below the millisecond. */
  function Trunc(t: Time): Time {
    t - t % MILLISECOND
  }

  datatype Entry = Entry(verdict: string, tokenExp: Time, verifiedAt: Time, expiresAt: Time)

  type Rows = map<string, Entry>

  /** What the master says, if it can be reached. */
  datatype Remote = Yes(verdict: string) | No | Down

  datatype Answer = Served(verdict: string) | Invalid | Unreachable

  datatype Tier = General | Ops

  /** claims is the exp claim of a well-formed token, in seconds. */
  datatype Config = Config(ttl: Time, opsTTL: Time, grace: Time, claims: string -> Option<int>,
                           hash: string -> string) {
    function Claims(token: string): Option<int> {
      claims(token)
    }

    function Hash(token: string): string {
      hash(token)
    }

    function TTL(tier: Tier): Time {
      if tier.Ops? && opsTTL > 0 then opsTTL else ttl
    }

    /** tokenExp: None for a malformed or expired token. */
    function TokenExp(token: string, now: Time): Option<Time> {
      var seconds := Claims(token);
      if seconds.None? || now >= seconds.value * SECOND then None else Some(seconds.value * SECOND)
    }
  }

  /** One verification: when it starts, and, if it gets there, what the master says and when. */
  datatype Call = Call(token: string, now: Time, remote: Remote, answeredAt: Time, lookupOk: bool, saveOk: bool,
                       deleteOk: bool)

  function Least(x: Time, y: Time): Time {
    if y < x then y else x
  }

  function Cutoff(e: Entry, ttl: Time): Time {
    Least(e.verifiedAt + ttl, e.tokenExp)
  }

  function GraceUntil(e: Entry, ttl: Time, grace: Time): Time {
    Least(Cutoff(e, ttl) + grace, e.tokenExp)
  }

  function Found(cfg: Config, rows: Rows, c: Call): Option<Entry> {
    if c.lookupOk && cfg.Hash(c.token) in rows then Some(rows[cfg.Hash(c.token)]) else None
  }

  /** The rows after asking the master: a yes is saved, a no evicts, each if its write goes through. */
  function Asked(cfg: Config, rows: Rows, c: Call, exp: Time): Rows {
    var h := cfg.Hash(c.token);
    match c.remote
    case Yes(verdict) =>
      if c.saveOk
      then rows[h := Entry(verdict, Trunc(exp), Trunc(c.answeredAt), Trunc(Least(c.answeredAt + cfg.ttl, exp)))]
      else rows
    case No => if c.deleteOk then rows - {h} else rows
    case Down => rows
  }

  function RemoteAnswer(c: Call): Answer {
    match c.remote
    case Yes(verdict) => Served(verdict)
    case No => Invalid
    case Down => Unreachable
  }

  datatype Judged = Judged(rows: Rows, answer: Answer)

  /** An entry is live to a tier at an instant: served without asking, or in an outage. */
  predicate Live(cfg: Config, e: Entry, tier: Tier, now: Time) {
    now < Cutoff(e, cfg.TTL(tier))
  }

  predicate Graced(cfg: Config, e: Entry, tier: Tier, now: Time) {
    cfg.grace > 0 && now < GraceUntil(e, cfg.TTL(tier), cfg.grace)
  }

  function JudgeCached(cfg: Config, rows: Rows, c: Call, tier: Tier): Judged {
    var exp := cfg.TokenExp(c.token, c.now);
    var entry := Found(cfg, rows, c);
    if exp.None? then Judged(rows, Invalid)
    else if entry.Some? && Live(cfg, entry.value, tier, c.now) then Judged(rows, Served(entry.value.verdict))
    else if c.remote.Down? && entry.Some? && Graced(cfg, entry.value, tier, c.now)
        then Judged(rows, Served(entry.value.verdict))
    else Judged(Asked(cfg, rows, c, exp.value), RemoteAnswer(c))
  }

  function JudgeFresh(cfg: Config, rows: Rows, c: Call): Judged {
    var exp := cfg.TokenExp(c.token, c.now);
    if exp.None? then Judged(rows, Invalid) else Judged(Asked(cfg, rows, c, exp.value), RemoteAnswer(c))
  }

  // ---------------------------------------------------------------------
  // The same, case by case
  // ---------------------------------------------------------------------

  /** Whole milliseconds. */
  function Milli(t: Time): Time {
    t / 1_000_000 * 1_000_000
  }

  /** How long a tier trusts a yes. */
  function Trusts(cfg: Config, tier: Tier): Time {
    match tier
    case General => cfg.ttl
    case Ops => if cfg.opsTTL > 0 then cfg.opsTTL else cfg.ttl
  }

  /** The token is well formed and not past its exp claim. */
  predicate Unexpired(cfg: Config, token: string, now: Time) {
    cfg.claims(token).Some? && now < cfg.claims(token).value * 1_000_000_000
  }

  /** A call of a tier finds a row it may trust at its start without asking. */
  predicate Trusted(cfg: Config, rows: Rows, c: Call, tier: Tier) {
    && c.lookupOk && cfg.hash(c.token) in rows
    && c.now < rows[cfg.hash(c.token)].verifiedAt + Trusts(cfg, tier) && c.now < rows[cfg.hash(c.token)].tokenExp
  }

  /** Or one it may still serve while the master is down. */
  predicate TrustedInOutage(cfg: Config, rows: Rows, c: Call, tier: Tier) {
    && c.lookupOk && cfg.hash(c.token) in rows && cfg.grace > 0
    && c.now < rows[cfg.hash(c.token)].verifiedAt + Trusts(cfg, tier) + cfg.grace
    && c.now < rows[cfg.hash(c.token)].tokenExp
  }

  predicate SameBut(before: Rows, after: Rows, h: string) {
    && (forall g :: g in before && g != h ==> g in after && after[g] == before[g])
    && forall g :: g in after && g != h ==> g in before
  }

  /** The row a yes leaves: to the millisecond, and never expiring after its token. */
  predicate SavedAs(cfg: Config, c: Call, verdict: string, e: Entry) {
    && e.verdict == verdict && e.verifiedAt == Milli(c.answeredAt) && cfg.claims(c.token).Some?
    && var exp := cfg.claims(c.token).value * 1_000_000_000;
       e.tokenExp == Milli(exp)
       && e.expiresAt == Milli(if c.answeredAt + cfg.ttl <= exp then c.answeredAt + cfg.ttl else exp)
  }

  /** What asking the master leaves and answers. */
  predicate AskedAs(cfg: Config, before: Rows, c: Call, after: Rows, answer: Answer) {
    var h := cfg.hash(c.token);
    match c.remote
    case Yes(verdict) =>
      && answer == Served(verdict)
      && if c.saveOk then SameBut(before, after, h) && h in after && SavedAs(cfg, c, verdict, after[h])
         else after == before
    case No =>
      && answer == Invalid
      && if c.deleteOk then SameBut(before, after, h) && h !in after else after == before
    case Down => answer == Unreachable && after == before
  }

  /** One verification of a tier: the row if it may be trusted, else the master, else the row in an outage. */
  predicate VerifiedAs(cfg: Config, before: Rows, c: Call, tier: Tier, after: Rows, answer: Answer) {
    if !Unexpired(cfg, c.token, c.now) then answer == Invalid && after == before
    else if Trusted(cfg, before, c, tier) || (c.remote.Down? && TrustedInOutage(cfg, before, c, tier)) then
      answer == Served(before[cfg.hash(c.token)].verdict) && after == before
    else AskedAs(cfg, before, c, after, answer)
  }

  predicate FreshAs(cfg: Config, before: Rows, c: Call, after: Rows, answer: Answer) {
    if !Unexpired(cfg, c.token, c.now) then answer == Invalid && after == before
    else AskedAs(cfg, before, c, after, answer)
  }

  lemma TruncIsMilli(t: Time)
    ensures Trunc(t) == Milli(t)
  {
  }

  lemma AskedHolds(cfg: Config, rows: Rows, c: Call)
    requires Unexpired(cfg, c.token, c.now)
    ensures var exp := cfg.claims(c.token).value * 1_000_000_000;
            AskedAs(cfg, rows, c, Asked(cfg, rows, c, exp), RemoteAnswer(c))
  {
    var exp := cfg.claims(c.token).value * 1_000_000_000;
    TruncIsMilli(exp);
    TruncIsMilli(c.answeredAt);
    TruncIsMilli(Least(c.answeredAt + cfg.ttl, exp));
    hide Trunc, Milli;
  }

  lemma FoundIsTrusted(cfg: Config, rows: Rows, c: Call, tier: Tier)
    ensures var e := Found(cfg, rows, c);
            && (e.Some? ==> cfg.hash(c.token) in rows && e.value == rows[cfg.hash(c.token)])
            && (e.Some? && Live(cfg, e.value, tier, c.now) <==> Trusted(cfg, rows, c, tier))
            && (e.Some? && Graced(cfg, e.value, tier, c.now) <==> TrustedInOutage(cfg, rows, c, tier))
  {
  }

  lemma TokenIsUnexpired(cfg: Config, c: Call)
    ensures var exp := cfg.TokenExp(c.token, c.now);
            && (exp.Some? <==> Unexpired(cfg, c.token, c.now))
            && (exp.Some? ==> exp.value == cfg.claims(c.token).value * 1_000_000_000)
  {
  }

  lemma CachedHolds(cfg: Config, rows: Rows, c: Call, tier: Tier)
    ensures var j := JudgeCached(cfg, rows, c, tier); VerifiedAs(cfg, rows, c, tier, j.rows, j.answer)
  {
    hide AskedAs, Asked, RemoteAnswer, Found, Live, Graced, Trusted, TrustedInOutage, Unexpired, Config.TokenExp;
    FoundIsTrusted(cfg, rows, c, tier);
    TokenIsUnexpired(cfg, c);
    if Unexpired(cfg, c.token, c.now) {
      AskedHolds(cfg, rows, c);
    }
  }

  lemma FreshHolds(cfg: Config, rows: Rows, c: Call)
    ensures var j := JudgeFresh(cfg, rows, c); FreshAs(cfg, rows, c, j.rows, j.answer)
  {
    if Unexpired(cfg, c.token, c.now) {
      AskedHolds(cfg, rows, c);
    }
    hide AskedAs, Asked, RemoteAnswer;
  }

  function Pruned(rows: Rows, now: Time, grace: Time): Rows {
    map h | h in rows && rows[h].expiresAt >= Trunc(now - grace) :: rows[h]
  }

  class Cache {
    var rows: Rows

    constructor ()
      ensures rows == map[]
    {
      rows := map[];
    }

    method Lookup(h: string, ok: bool) returns (entry: Option<Entry>)
      ensures entry == if ok && h in rows then Some(rows[h]) else None
    {
      entry := if ok && h in rows then Some(rows[h]) else None;
    }

    method Save(h: string, verdict: string, tokenExp: Time, verifiedAt: Time, expiresAt: Time, ok: bool)
      modifies this`rows
      ensures rows == if ok then old(rows)[h := Entry(verdict, Trunc(tokenExp), Trunc(verifiedAt), Trunc(expiresAt))]
              else old(rows)
    {
      if ok {
        rows := rows[h := Entry(verdict, Trunc(tokenExp), Trunc(verifiedAt), Trunc(expiresAt))];
      }
    }

    method Delete(h: string, ok: bool)
      modifies this`rows
      ensures rows == if ok then old(rows) - {h} else old(rows)
    {
      if ok {
        rows := rows - {h};
      }
    }

    /** Prune: deletes the rows past their expiry by more than grace, one row after another. */
    method Prune(now: Time, grace: Time)
      modifies this`rows
      ensures rows == Pruned(old(rows), now, grace)
      ensures forall h :: h in rows <==> h in old(rows) && old(rows)[h].expiresAt >= Milli(now - grace)
      ensures forall h :: h in rows ==> rows[h] == old(rows)[h]
    {
      var cutoff := Trunc(now - grace);
      TruncIsMilli(now - grace);
      var left := rows.Keys;
      while left != {}
        invariant left <= old(rows).Keys
        invariant rows == map h | h in old(rows) && (h in left || old(rows)[h].expiresAt >= cutoff) :: old(rows)[h]
        decreases left
      {
        var h :| h in left;
        if rows[h].expiresAt < cutoff {
          rows := rows - {h};
        }
        left := left - {h};
      }
    }
  }

  class Verifier {
    const cfg: Config
    const cache: Cache

    constructor (cfg: Config, cache: Cache)
      ensures this.cache == cache && this.cfg == cfg
    {
      this.cfg, this.cache := cfg, cache;
    }

    method RemoteVerify(c: Call, exp: Time) returns (answer: Answer)
      modifies cache`rows
      ensures answer == RemoteAnswer(c) && cache.rows == Asked(cfg, old(cache.rows), c, exp)
      ensures (c.remote.No? ==> answer == Invalid) && (c.remote.Down? ==> answer == Unreachable)
              && (c.remote.Yes? ==> answer == Served(c.remote.verdict))
    {
      var h := cfg.Hash(c.token);
      match c.remote
      case Down =>
        answer := Unreachable;
      case No =>
        cache.Delete(h, c.deleteOk);
        answer := Invalid;
      case Yes(verdict) =>
        var expiresAt := c.answeredAt + cfg.ttl;
        if exp < expiresAt {
          expiresAt := exp;
        }
        cache.Save(h, verdict, exp, c.answeredAt, expiresAt, c.saveOk);
        answer := Served(verdict);
    }

    method VerifyTier(c: Call, tier: Tier) returns (answer: Answer)
      modifies cache`rows
      ensures Judged(cache.rows, answer) == JudgeCached(cfg, old(cache.rows), c, tier)
      ensures VerifiedAs(cfg, old(cache.rows), c, tier, cache.rows, answer)
    {
      CachedHolds(cfg, cache.rows, c, tier);
      hide VerifiedAs;
      var ttl := cfg.TTL(tier);
      var exp := cfg.TokenExp(c.token, c.now);
      if exp.None? {
        return Invalid;
      }
      var entry := cache.Lookup(cfg.Hash(c.token), c.lookupOk);
      var cutoff := 0;
      if entry.Some? {
        cutoff := entry.value.verifiedAt + ttl;
        if entry.value.tokenExp < cutoff {
          cutoff := entry.value.tokenExp;
        }
        if c.now < cutoff {
          return Served(entry.value.verdict);
        }
      }
      answer := RemoteVerify(c, exp.value);
      if answer.Unreachable? && entry.Some? && cfg.grace > 0 {
        var graceUntil := cutoff + cfg.grace;
        if entry.value.tokenExp < graceUntil {
          graceUntil := entry.value.tokenExp;
        }
        if c.now < graceUntil {
          return Served(entry.value.verdict);
        }
      }
    }

    method VerifyFresh(c: Call) returns (answer: Answer)
      modifies cache`rows
      ensures Judged(cache.rows, answer) == JudgeFresh(cfg, old(cache.rows), c)
      ensures FreshAs(cfg, old(cache.rows), c, cache.rows, answer)
    {
      FreshHolds(cfg, cache.rows, c);
      hide FreshAs;
      var exp := cfg.TokenExp(c.token, c.now);
      if exp.None? {
        return Invalid;
      }
      answer := RemoteVerify(c, exp.value);
    }
  }
}
