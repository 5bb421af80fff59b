/**
 The batching writer itself. RunOnce is proved twice over: against the window
 specification (what is committed, marked and signalled), and as a run of the protocol's
 steps, so that everything proved of the protocol's runs holds of it.
 */
module BatchWriter {
  import opened Wrappers
  import opened EventLog
  import opened EventStore
  import opened Deciding
  import opened BatchWindow
  import opened CommandQueue
  import opened BatchReplay
  import opened BatchProtocol
  import opened BatchSafety

  /**
   Which of a pass's reads and writes fail: the queue, a resume check, the commit, single
   marks by id, the batch's mark.
   */
  datatype Io = Io(
    unreadable: bool,
    failedCheck: Option<nat>,
    commitFault: bool,
    lostMarks: set<string>,
    lostBatchMark: bool
  ) {
    /** How many of a window's resume checks are read before one fails. */
    function Checks(pending: seq<QueuedCommand>): (n: nat)
      ensures n <= |pending|
    {
      if failedCheck.Some? && failedCheck.value < |pending| then failedCheck.value else |pending|
    }

    /** A read of the pass fails before anything is decided. */
    predicate CutShort(pending: seq<QueuedCommand>) {
      unreadable || Checks(pending) < |pending|
    }
  }

  function AppliedIds(table: seq<Event>, cmds: seq<QueuedCommand>): set<string> {
    if |cmds| == 0 then {}
    else
      var qc := cmds[|cmds| - 1];
      AppliedIds(table, cmds[..|cmds| - 1]) + if Applied(table, qc.key, qc.id, qc.enqueuedAt) then {qc.id} else {}
  }

  function RefusedIds(cmds: seq<QueuedCommand>, verdicts: seq<Verdict>): set<string>
    requires |cmds| == |verdicts|
  {
    if |cmds| == 0 then {}
    else
      var n := |cmds| - 1;
      RefusedIds(cmds[..n], verdicts[..n]) + if verdicts[n].Rejected? then {cmds[n].id} else {}
  }

  function EntryIds(batch: seq<DecidedCommand>): set<string> {
    set k | 0 <= k < |batch| :: batch[k].commandId
  }

  lemma MarkedAgain(rows: seq<QueueRow>, xs: set<string>, ys: set<string>)
    ensures Marked(Marked(rows, xs), ys) == Marked(rows, xs + ys)
    ensures Marked(rows, {}) == rows
  {
  }

  /** The waiters and what has been put into their channels. */
  datatype Mail = Mail(waiters: set<string>, channels: map<string, Outcome>)

  function Tell(m: Mail, id: string, outcome: Outcome): Mail {
    if id in m.waiters then Mail(m.waiters - {id}, m.channels[id := outcome]) else m
  }

  /** Every refused command of a window told why, in queue order. */
  function RefusedMail(m: Mail, cmds: seq<QueuedCommand>, verdicts: seq<Verdict>): Mail
    requires |cmds| == |verdicts|
  {
    if |cmds| == 0 then m
    else
      var n := |cmds| - 1;
      var before := RefusedMail(m, cmds[..n], verdicts[..n]);
      if verdicts[n].Rejected? then Tell(before, cmds[n].id, Failure(verdicts[n].error)) else before
  }

  /** Every committed command told its durable events, in batch order. */
  function CommittedMail(m: Mail, results: seq<BatchResult>): Mail {
    if |results| == 0 then m
    else
      var n := |results| - 1;
      Tell(CommittedMail(m, results[..n]), results[n].commandId, Success(results[n].events))
  }

  /** What Enqueue demands of every meta it queues; a meta that does not decode is let be. */
  predicate AllCaptureNow(rows: seq<QueueRow>) {
    forall i :: 0 <= i < |rows| && rows[i].command.meta.Some? ==> NOW in rows[i].command.meta.value
  }

  predicate Commits(table: seq<Event>, batch: seq<DecidedCommand>, io: Io) {
    |batch| > 0 && !BatchCarriesMarker(batch) && AllFit(table, batch) && !io.commitFault
  }

  predicate Fails(table: seq<Event>, batch: seq<DecidedCommand>, io: Io) {
    |batch| > 0 && (BatchCarriesMarker(batch) || (AllFit(table, batch) && io.commitFault))
  }

  /** What a pass leaves behind. */
  datatype Pass = Pass(table: seq<Event>, rows: seq<QueueRow>, mail: Mail, processed: int, failed: bool)

  /** The first window of a pass, without the commands already applied. */
  function WindowTodo(table: seq<Event>, rows: seq<QueueRow>, maxBatch: int): seq<QueuedCommand> {
    NotApplied(table, PendingCommands(rows, maxBatch))
  }

  /**
   The specification of a pass: the whole window is decided on the log it started from, and
   its batch lands whole or not at all; refusals stand either way.
   */
  function WholePass(env: Env, reg: Deciders, u: Option<Upcaster>, maxBatch: int, table: seq<Event>,
                     rows: seq<QueueRow>, mail: Mail, io: Io): Pass
  {
    var pending := PendingCommands(rows, maxBatch);
    var todo := WindowTodo(table, rows, maxBatch);
    var w := WindowOf(reg, u, table, todo);
    var gone := (AppliedIds(table, pending) - io.lostMarks) + (RefusedIds(todo, w.verdicts) - io.lostMarks);
    var told := RefusedMail(mail, todo, w.verdicts);
    if Commits(table, w.batch, io) then
      Pass(InsertBatch(env, table, w.batch),
           Marked(rows, gone + if io.lostBatchMark then {} else EntryIds(w.batch)),
           CommittedMail(told, ResultsOf(env, table, w.batch)),
           |pending|, false)
    else
      Pass(table, Marked(rows, gone), told, |pending| - |w.batch|, Fails(table, w.batch, io))
  }

  /** The same, from where the resume loop leaves the queue and the commands still to decide. */
  function Rest(env: Env, reg: Deciders, u: Option<Upcaster>, table: seq<Event>, rows: seq<QueueRow>, mail: Mail,
                todo: seq<QueuedCommand>, io: Io): Pass
  {
    var w := WindowOf(reg, u, table, todo);
    var decided := Marked(rows, RefusedIds(todo, w.verdicts) - io.lostMarks);
    var told := RefusedMail(mail, todo, w.verdicts);
    if Commits(table, w.batch, io) then
      Pass(InsertBatch(env, table, w.batch),
           if io.lostBatchMark then decided else Marked(decided, EntryIds(w.batch)),
           CommittedMail(told, ResultsOf(env, table, w.batch)),
           |todo|, false)
    else
      Pass(table, decided, told, |todo| - |w.batch|, Fails(table, w.batch, io))
  }

  /** A pass that fails on a resume check has only marked the applied commands before it. */
  function CutPass(table: seq<Event>, rows: seq<QueueRow>, maxBatch: int, mail: Mail, io: Io): Pass {
    var pending := PendingCommands(rows, maxBatch);
    var seen := pending[..io.Checks(pending)];
    Pass(table, Marked(rows, AppliedIds(table, seen) - io.lostMarks), mail, |seen| - |NotApplied(table, seen)|, true)
  }

  function PassOf(env: Env, reg: Deciders, u: Option<Upcaster>, maxBatch: int, table: seq<Event>, rows: seq<QueueRow>,
                  mail: Mail, io: Io): Pass
  {
    if io.unreadable then Pass(table, rows, mail, 0, true)
    else if io.CutShort(PendingCommands(rows, maxBatch)) then CutPass(table, rows, maxBatch, mail, io)
    else WholePass(env, reg, u, maxBatch, table, rows, mail, io)
  }

  /**
   What Enqueue meets: a failing read of the depth or the head, the sealed payload if sealing
   works, a failing insert.
   */
  datatype Intake = Intake(depthFault: bool, payload: Option<string>, headFault: bool, insertFault: bool)

  class Writer {
    const store: Store
    const queue: Queue
    const registry: Registry
    const maxBatch: int
    const maxDepth: nat
    var waiters: set<string>
    var channels: map<string, Outcome>
    ghost var registered: set<string>

    constructor (store: Store, queue: Queue, registry: Registry, maxDepth: nat)
      requires registry.store == store
      ensures this.store == store && this.queue == queue && this.registry == registry
      ensures maxBatch == 256 && this.maxDepth == maxDepth && waiters == {} && channels == map[] && registered == {}
    {
      this.store, this.queue, this.registry := store, queue, registry;
      maxBatch, this.maxDepth := 256, maxDepth;
      waiters, channels, registered := {}, map[], {};
    }

    /** The protocol state the object stands in, given where the pass is. */
    ghost function Now(phase: Phase): Sys
      reads this, store, queue
    {
      Sys(store.table, queue.rows, waiters, phase, registered, channels)
    }

    ghost function Mailbox(): Mail
      reads this
    {
      Mail(waiters, channels)
    }

    ghost predicate Valid()
      reads this, store, queue
    {
      registry.store == store && Inv(Now(Idle)) && AllCaptureNow(queue.rows)
    }

    method Signal(id: string, outcome: Outcome)
      modifies this`waiters, this`channels
      ensures Mailbox() == Tell(old(Mailbox()), id, outcome)
      ensures forall phase :: Now(phase) == BatchProtocol.Signal(old(Now(phase)), id, outcome)
    {
      if id in waiters {
        waiters, channels := waiters - {id}, channels[id := outcome];
      }
    }

    method MarkDoneOne(id: string, lost: bool)
      modifies queue`rows
      ensures forall phase :: Now(phase) == Mark(old(Now(phase)), {id}, lost)
      ensures queue.rows == if lost then old(queue.rows) else Marked(old(queue.rows), {id})
    {
      assert (set x | x in [id]) == {id};
      queue.MarkDone([id], lost);
    }

    /**
     Enqueue: admission control, then the row with the sealed payload, then the waiter. Its
     row and its waiter are two steps of the protocol; a refusal changes nothing. intake says
     what the reads, the sealing and the insert answer.
     */
    method Enqueue(id: string, key: StreamKey, command: string, meta: Metadata, intake: Intake)
      returns (r: Result<string, Error>)
      modifies this`waiters, this`registered, queue`rows
      ensures var depth := |PendingOf(old(queue.rows))|;
              r == if maxDepth > 0 && intake.depthFault then Failure(Storage)
                   else if maxDepth > 0 && depth >= maxDepth then Failure(QueueFull(depth))
                   else if NOW !in meta then Failure(MissingNow)
                   else if intake.payload.None? then Failure(SealFailed)
                   else if intake.headFault || intake.insertFault || id in Ids(old(queue.rows)) then Failure(Storage)
                   else Success(id)
      ensures r.Failure? ==> queue.rows == old(queue.rows) && waiters == old(waiters) && registered == old(registered)
      ensures r.Success? ==>
                var qc := QueuedCommand(id, key, command, intake.payload.value, Some(meta), MaxPosition(store.table));
                && queue.rows == old(queue.rows) + [QueueRow(qc, false)]
                && waiters == old(waiters) + {id} && registered == old(registered) + {id}
                && (old(Valid()) && Carrying(store.table, id) == [] ==> Valid())
                && (Carrying(store.table, id) == [] && id !in old(registered) ==>
                      forall phase :: AfterAll(store.env, old(Now(phase)), [BatchProtocol.Enqueue(qc), Register(id)]) ==
                          Some(Now(phase)))
    {
      hide *;
      if maxDepth > 0 {
        if intake.depthFault {
          return Failure(Storage);
        }
        var depth := queue.Depth();
        if depth >= maxDepth {
          return Failure(QueueFull(depth));
        }
      }
      if NOW !in meta {
        return Failure(MissingNow);
      }
      if intake.payload.None? {
        return Failure(SealFailed);
      }
      if intake.headFault {
        return Failure(Storage);
      }
      var head := MaxPosition(store.table);
      var ok := Admit(QueuedCommand(id, key, command, intake.payload.value, Some(meta), head), intake.insertFault);
      return if ok then Success(id) else Failure(Storage);
    }

    /** The row, then the waiter. */
    method Admit(qc: QueuedCommand, fault: bool) returns (ok: bool)
      requires qc.enqueuedAt == MaxPosition(store.table) && qc.meta.Some? && NOW in qc.meta.value
      modifies this`waiters, this`registered, queue`rows
      ensures ok <==> !fault && qc.id !in Ids(old(queue.rows))
      ensures !ok ==> queue.rows == old(queue.rows) && waiters == old(waiters) && registered == old(registered)
      ensures ok ==>
                && queue.rows == old(queue.rows) + [QueueRow(qc, false)]
                && waiters == old(waiters) + {qc.id} && registered == old(registered) + {qc.id}
                && (old(Valid()) && Carrying(store.table, qc.id) == [] ==> Valid())
                && (Carrying(store.table, qc.id) == [] && qc.id !in old(registered) ==>
                      forall phase ::
                        AfterAll(store.env, old(Now(phase)), [BatchProtocol.Enqueue(qc), Register(qc.id)]) ==
                            Some(Now(phase)))
    {
      assert Inv(Now(Idle)) ==> registered <= Ids(queue.rows);
      hide Inv, AfterAll, PendingOf, MaxPosition, Carrying;
      ok := queue.EnqueueCommand(qc, fault);
      if !ok {
        return;
      }
      waiters, registered := waiters + {qc.id}, registered + {qc.id};
      if Carrying(store.table, qc.id) == [] && qc.id !in old(registered) {
        forall phase
          ensures AfterAll(store.env, old(Now(phase)), [BatchProtocol.Enqueue(qc), Register(qc.id)]) == Some(Now(phase))
          ensures Inv(old(Now(phase))) ==> Inv(Now(phase))
        {
          EnqueueRegister(store.env, old(Now(phase)), qc);
        }
      }
    }

    /** The resume pass: commands whose events are already durable are only marked. */
    method Resume(pending: seq<QueuedCommand>, io: Io)
      returns (toDecide: seq<QueuedCommand>, processed: nat, ok: bool, ghost trace: seq<Step>)
      modifies queue`rows
      ensures var n := io.Checks(pending);
              && ok == (n == |pending|)
              && toDecide == NotApplied(store.table, pending[..n]) && processed == n - |toDecide|
              && queue.rows == Marked(old(queue.rows), AppliedIds(store.table, pending[..n]) - io.lostMarks)
              && AfterAll(store.env, old(Now(Checking(pending, []))), trace) ==
                 Some(Now(Checking(pending[n..], toDecide)))
    {
      hide *;
      toDecide, processed, ok, trace := [], 0, true, [];
      ghost var start, rows := Now(Checking(pending, [])), queue.rows;
      NothingChecked(store.env, start, store.table, pending, rows, io);
      for i := 0 to |pending|
        invariant i <= io.Checks(pending)
        invariant toDecide == NotApplied(store.table, pending[..i]) && processed == i - |toDecide|
        invariant queue.rows == Marked(rows, AppliedIds(store.table, pending[..i]) - io.lostMarks)
        invariant AfterAll(store.env, start, trace) == Some(Now(Checking(pending[i..], toDecide)))
      {
        if io.failedCheck == Some(i) {
          ok := false;
          return;
        }
        var applied;
        assert pending[i..][0] == pending[i] && pending[i..][1..] == pending[i + 1..];
        applied, toDecide, trace := CheckHead(pending[i..], toDecide, io, start, trace);
        if applied {
          processed := processed + 1;
        }
        AppliedNext(rows, store.table, pending, i, io.lostMarks);
      }
    }

    /** One command of the resume loop. */
    method CheckHead(todo: seq<QueuedCommand>, kept: seq<QueuedCommand>, io: Io, ghost start: Sys,
                     ghost trace: seq<Step>)
      returns (applied: bool, kept': seq<QueuedCommand>, ghost trace': seq<Step>)
      requires |todo| > 0 && AfterAll(store.env, start, trace) == Some(Now(Checking(todo, kept)))
      modifies queue`rows
      ensures applied == Applied(store.table, todo[0].key, todo[0].id, todo[0].enqueuedAt)
      ensures kept' == if applied then kept else kept + [todo[0]]
      ensures queue.rows == if applied && todo[0].id !in io.lostMarks then Marked(old(queue.rows), {todo[0].id})
              else old(queue.rows)
      ensures AfterAll(store.env, start, trace') == Some(Now(Checking(todo[1..], kept')))
    {
      hide AfterAll, Applied;
      var qc := todo[0];
      kept' := kept;
      ghost var step := Check(qc.id in io.lostMarks);
      OneStepMore(store.env, start, trace, step);
      trace' := trace + [step];
      applied := store.CommandApplied(qc.key, qc.id, qc.enqueuedAt);
      if applied {
        MarkDoneOne(qc.id, qc.id in io.lostMarks);
      } else {
        kept' := kept + [qc];
      }
    }

    /** One command of the window: decided through the overlay, then staged, or refused and signalled. */
    method DecideOne(ov: Overlay, qc: QueuedCommand, now: string) returns (decision: Result<Decision, Error>)
      requires ov.store == store && (qc.meta.Some? ==> NOW in qc.meta.value)
      modifies this`waiters, this`channels, ov`pending
      ensures decision ==
              DecideQueued(registry.deciders, OverlayLoad(store.table, store.upcaster, old(ov.pending), qc.key), qc)
      ensures decision.Failure? ==> ov.pending == old(ov.pending)
      ensures decision.Failure? ==>
                forall phase :: Now(phase) == BatchProtocol.Signal(old(Now(phase)), qc.id, Failure(decision.error))
      ensures decision.Success? ==>
                ov.pending == Recorded(old(ov.pending), qc.key, decision.value.newEvents, decision.value.expected)
      ensures decision.Success? ==> waiters == old(waiters) && channels == old(channels)
      ensures Mailbox() == if decision.Failure? then Tell(old(Mailbox()), qc.id, Failure(decision.error))
              else old(Mailbox())
    {
      if qc.meta.None? {
        Signal(qc.id, Failure(InvalidMeta));
        return Failure(InvalidMeta);
      }
      var stream := ov.LoadStream(qc.key);
      decision := registry.DecideWithMeta(stream, qc.key, Command(qc.command, qc.payload), qc.meta.value, now);
      if decision.Failure? {
        Signal(qc.id, Failure(decision.error));
      } else {
        ov.Record(qc.key, decision.value.newEvents, decision.value.expected);
      }
    }

    /** The head of the window, with the mark a refusal gets at once: one or two steps. */
    method DecideHead(ov: Overlay, todo: seq<QueuedCommand>, batch: seq<DecidedCommand>, io: Io, now: string,
                      ghost w: Window, ghost start: Sys, ghost trace: seq<Step>)
      returns (batch': seq<DecidedCommand>, refused: bool, ghost w': Window, ghost trace': seq<Step>)
      requires ov.store == store && |todo| > 0 && (todo[0].meta.Some? ==> NOW in todo[0].meta.value)
      requires w.staged == ov.pending && w.batch == batch
      requires AfterAll(store.env, start, trace) == Some(Now(Deciding(todo, ov.pending, batch)))
      modifies this`waiters, this`channels, queue`rows, ov`pending
      ensures w' == WindowStep(registry.deciders, store.upcaster, store.table, w, todo[0])
      ensures w'.staged == ov.pending && w'.batch == batch' && |batch'| == |batch| + (if refused then 0 else 1)
      ensures w'.verdicts[|w.verdicts|].Rejected? == refused
      ensures Mailbox() == if refused then Tell(old(Mailbox()), todo[0].id, Failure(w'.verdicts[|w.verdicts|].error))
              else old(Mailbox())
      ensures queue.rows == if refused && todo[0].id !in io.lostMarks then Marked(old(queue.rows), {todo[0].id})
              else old(queue.rows)
      ensures AfterAll(store.env, start, trace') == Some(Now(Deciding(todo[1..], ov.pending, batch')))
    {
      hide OverlayLoad, DecideQueued;
      var qc := todo[0];
      ghost var before := Now(Deciding(todo, ov.pending, batch));
      ghost var step := DecideNext(registry.deciders, store.upcaster);
      batch', refused := batch, false;
      w' := WindowStep(registry.deciders, store.upcaster, store.table, w, qc);
      var decision := DecideOne(ov, qc, now);
      OneStepMore(store.env, start, trace, step);
      trace' := trace + [step];
      if decision.Failure? {
        refused := true;
        assert After(store.env, before, step) == Now(Refusing(qc.id, todo[1..], ov.pending, batch));
        MarkDoneOne(qc.id, qc.id in io.lostMarks);
        OneStepMore(store.env, start, trace', MarkRefused(qc.id in io.lostMarks));
        trace' := trace' + [MarkRefused(qc.id in io.lostMarks)];
      } else {
        var d := decision.value;
        batch' := batch + [DecidedCommand(qc.id, qc.key, d.expected, d.newEvents)];
      }
    }

    /** The deciding loop: one overlay for the window, refusals signalled and marked at once. */
    method DecideWindow(toDecide: seq<QueuedCommand>, io: Io, now: string)
      returns (batch: seq<DecidedCommand>, processed: nat, ghost w: Window, ghost trace: seq<Step>)
      requires forall i :: 0 <= i < |toDecide| && toDecide[i].meta.Some? ==> NOW in toDecide[i].meta.value
      modifies this`waiters, this`channels, queue`rows
      ensures w == WindowOf(registry.deciders, store.upcaster, store.table, toDecide)
      ensures batch == w.batch && processed + |batch| == |toDecide|
      ensures queue.rows == Marked(old(queue.rows), RefusedIds(toDecide, w.verdicts) - io.lostMarks)
      ensures Mailbox() == RefusedMail(old(Mailbox()), toDecide, w.verdicts)
      ensures AfterAll(store.env, old(Now(Deciding(toDecide, map[], []))), trace) ==
              Some(Now(Deciding([], w.staged, batch)))
    {
      hide *;
      ghost var start := Now(Deciding(toDecide, map[], []));
      ghost var rows, mail := queue.rows, Mailbox();
      var ov := new Overlay(store);
      batch, processed, w, trace := [], 0, Window(map[], [], []), [];
      NothingDecided(store.env, start, registry.deciders, store.upcaster, store.table, toDecide, rows, mail,
                     io.lostMarks);
      for i := 0 to |toDecide|
        invariant ov.store == store && w.staged == ov.pending && w.batch == batch
        invariant w == WindowOf(registry.deciders, store.upcaster, store.table, toDecide[..i])
        invariant processed + |batch| == i
        invariant queue.rows == Marked(rows, RefusedIds(toDecide[..i], w.verdicts) - io.lostMarks)
        invariant Mailbox() == RefusedMail(mail, toDecide[..i], w.verdicts)
        invariant AfterAll(store.env, start, trace) == Some(Now(Deciding(toDecide[i..], ov.pending, batch)))
      {
        DecidedNext(registry.deciders, store.upcaster, store.table, toDecide, i, rows, mail, io.lostMarks);
        assert toDecide[i..][0] == toDecide[i] && toDecide[i..][1..] == toDecide[i + 1..];
        var refused;
        batch, refused, w, trace := DecideHead(ov, toDecide[i..], batch, io, now, w, start, trace);
        if refused {
          processed := processed + 1;
        }
      }
      assert toDecide[..|toDecide|] == toDecide && toDecide[|toDecide|..] == [];
    }

    /** The results loop of a pass: a committed command's waiter gets its durable events. */
    method ReportAll(results: seq<BatchResult>) returns (doneIDs: seq<string>, ghost trace: seq<Step>)
      requires forall k :: 0 <= k < |results| ==> results[k].err.None?
      modifies this`waiters, this`channels
      ensures |doneIDs| == |results| && forall k :: 0 <= k < |results| ==> doneIDs[k] == results[k].commandId
      ensures Mailbox() == CommittedMail(old(Mailbox()), results)
      ensures AfterAll(store.env, old(Now(Reporting(results, 0))), trace) == Some(Now(Reporting(results, |results|)))
    {
      hide *;
      doneIDs, trace := [], [];
      ghost var start, mail := Now(Reporting(results, 0)), Mailbox();
      NothingReported(store.env, start, mail, results);
      for i := 0 to |results|
        invariant |doneIDs| == i && forall k :: 0 <= k < i ==> doneIDs[k] == results[k].commandId
        invariant Mailbox() == CommittedMail(mail, results[..i])
        invariant AfterAll(store.env, start, trace) == Some(Now(Reporting(results, i)))
      {
        trace := ReportOne(results, i, start, trace);
        doneIDs := doneIDs + [results[i].commandId];
        CommittedMailNext(mail, results, i);
      }
    }

    /** One result: its waiter gets the durable events. */
    method ReportOne(results: seq<BatchResult>, i: nat, ghost start: Sys, ghost trace: seq<Step>)
        returns (ghost trace': seq<Step>)
      requires i < |results| && AfterAll(store.env, start, trace) == Some(Now(Reporting(results, i)))
      modifies this`waiters, this`channels
      ensures Mailbox() == Tell(old(Mailbox()), results[i].commandId, Success(results[i].events))
      ensures AfterAll(store.env, start, trace') == Some(Now(Reporting(results, i + 1)))
    {
      hide AfterAll;
      OneStepMore(store.env, start, trace, Report);
      trace' := trace + [Report];
      Signal(results[i].commandId, Success(results[i].events));
    }

    /** The commit itself: what landed when the whole batch did, and nothing when any of it could not. */
    method TryCommit(batch: seq<DecidedCommand>, io: Io, ghost staged: Staged)
      returns (landed: seq<BatchResult>, err: Option<Error>)
      modifies store`table
      ensures var table := old(store.table);
              && store.table == (if Commits(table, batch, io) then InsertBatch(store.env, table, batch) else table)
              && landed == (if Commits(table, batch, io) then ResultsOf(store.env, table, batch) else [])
              && (err.Some? <==> Fails(table, batch, io))
      ensures err.Some? ==> err.value == if BatchCarriesMarker(batch) then ImportMarker else Storage
      ensures After(store.env, old(Now(Deciding([], staged, batch))), BatchProtocol.Commit(io.commitFault)) ==
              Now(if landed == [] then Idle else Reporting(landed, 0))
    {
      landed, err := [], None;
      if |batch| == 0 {
        return;
      }
      ghost var table := store.table;
      landed, err := store.CommitBatch(batch, io.commitFault);
      if exists k :: 0 <= k < |landed| && landed[k].err.Some? {
        landed := [];
      } else if err.None? {
        assert AllFit(table, batch) by {
          forall k | 0 <= k < |batch|
            ensures Fits(table, batch, k)
          {
            assert landed[k].err.None?;
          }
        }
        assert landed == ResultsOf(store.env, table, batch);
      }
    }

    /** The batch part of a pass: committed whole, then reported, then marked; or nothing at all. */
    method CommitWindow(batch: seq<DecidedCommand>, io: Io, ghost staged: Staged)
      returns (processed: nat, err: Option<Error>, ghost trace: seq<Step>)
      modifies this`waiters, this`channels, queue`rows, store`table
      ensures var committed := Commits(old(store.table), batch, io);
              && store.table == (if committed then InsertBatch(store.env, old(store.table), batch)
                                 else old(store.table))
              && queue.rows == (if committed && !io.lostBatchMark then Marked(old(queue.rows), EntryIds(batch))
                                else old(queue.rows))
              && processed == (if committed then |batch| else 0)
              && Mailbox() == if committed
                 then CommittedMail(old(Mailbox()), ResultsOf(store.env, old(store.table), batch)) else old(Mailbox())
      ensures err.Some? <==> Fails(old(store.table), batch, io)
      ensures err.Some? ==> err.value == if BatchCarriesMarker(batch) then ImportMarker else Storage
      ensures AfterAll(store.env, old(Now(Deciding([], staged, batch))), trace) == Some(Now(Idle))
    {
      ghost var start, table := Now(Deciding([], staged, batch)), store.table;
      ghost var commit := BatchProtocol.Commit(io.commitFault);
      OneStepMore(store.env, start, [], commit);
      hide *;
      var landed;
      landed, err := TryCommit(batch, io, staged);
      processed, trace := 0, [] + [commit];
      if |landed| > 0 {
        ghost var steps;
        processed, steps := Announce(landed, io.lostBatchMark);
        LandedIds(store.env, table, batch);
        RunsCompose(store.env, start, trace, steps);
        trace := trace + steps;
      }
    }

    /** A landed batch: every waiter told, then all of it marked done at once. */
    method Announce(landed: seq<BatchResult>, lost: bool) returns (processed: nat, ghost trace: seq<Step>)
      requires forall k :: 0 <= k < |landed| ==> landed[k].err.None?
      modifies this`waiters, this`channels, queue`rows
      ensures processed == |landed| && Mailbox() == CommittedMail(old(Mailbox()), landed)
      ensures queue.rows == if lost then old(queue.rows) else Marked(old(queue.rows), ResultIds(landed))
      ensures AfterAll(store.env, old(Now(Reporting(landed, 0))), trace) == Some(Now(Idle))
    {
      hide AfterAll, After, CommittedMail, Marked;
      ghost var start := Now(Reporting(landed, 0));
      var doneIDs;
      ghost var steps;
      doneIDs, trace := ReportAll(landed);
      processed, steps := MarkReported(landed, doneIDs, lost);
      RunsCompose(store.env, start, trace, steps);
      trace := trace + steps;
    }

    method MarkReported(landed: seq<BatchResult>, doneIDs: seq<string>, lost: bool)
      returns (processed: nat, ghost steps: seq<Step>)
      requires |doneIDs| == |landed| && forall k :: 0 <= k < |landed| ==> doneIDs[k] == landed[k].commandId
      modifies queue`rows
      ensures processed == |landed|
      ensures queue.rows == if lost then old(queue.rows) else Marked(old(queue.rows), ResultIds(landed))
      ensures AfterAll(store.env, old(Now(Reporting(landed, |landed|))), steps) == Some(Now(Idle))
    {
      ghost var start := Now(Reporting(landed, |landed|));
      assert ResultIds(landed) == set id | id in doneIDs;
      queue.MarkDone(doneIDs, lost);
      OneStepMore(store.env, start, [], MarkBatch(lost));
      processed, steps := |doneIDs|, [] + [MarkBatch(lost)];
    }

    lemma GiveUpNow(start: Sys, trace: seq<Step>, phase: Phase)
      requires AfterAll(store.env, start, trace) == Some(Now(phase))
      ensures AfterAll(store.env, start, trace + [GiveUp]) == Some(Now(Idle))
    {
      OneStepMore(store.env, start, trace, GiveUp);
      hide AfterAll;
    }

    /** A pass from its resume loop on. */
    method ResumeDecideCommit(pending: seq<QueuedCommand>, io: Io, now: string)
      returns (processed: nat, err: Option<Error>, ghost trace: seq<Step>)
      requires pending == PendingCommands(queue.rows, maxBatch) && !io.unreadable
      requires DistinctIds(queue.rows) && AllCaptureNow(queue.rows)
      modifies this`waiters, this`channels, queue`rows, store`table
      ensures Pass(store.table, queue.rows, Mailbox(), processed, err.Some?) ==
              PassOf(store.env, registry.deciders, store.upcaster, maxBatch, old(store.table), old(queue.rows),
                     old(Mailbox()), io)
      ensures AfterAll(store.env, old(Now(Checking(pending, []))), trace) == Some(Now(Idle))
    {
      ghost var start, env := Now(Checking(pending, [])), store.env;
      TodoCapturesNow(store.table, queue.rows, pending);
      ReadParts(env, registry.deciders, store.upcaster, maxBatch, store.table, queue.rows, Mailbox(), io);
      hide *;
      var toDecide, resumed, ok, rest;
      ghost var steps;
      toDecide, resumed, ok, trace := Resume(pending, io);
      if !ok {
        GiveUpNow(start, trace, Checking(pending[io.Checks(pending)..], toDecide));
        return resumed, Some(Storage), trace + [GiveUp];
      }
      rest, err, steps := DecideCommit(toDecide, io, now);
      RunsCompose(env, start, trace, steps);
      processed, trace := resumed + rest, trace + steps;
    }

    /** The rest of a pass, once its resume loop has left toDecide. */
    method DecideCommit(toDecide: seq<QueuedCommand>, io: Io, now: string)
      returns (processed: nat, err: Option<Error>, ghost trace: seq<Step>)
      requires forall i :: 0 <= i < |toDecide| && toDecide[i].meta.Some? ==> NOW in toDecide[i].meta.value
      modifies this`waiters, this`channels, queue`rows, store`table
      ensures Pass(store.table, queue.rows, Mailbox(), processed, err.Some?) ==
              Rest(store.env, registry.deciders, store.upcaster, old(store.table), old(queue.rows), old(Mailbox()),
                   toDecide, io)
      ensures AfterAll(store.env, old(Now(Checking([], toDecide))), trace) == Some(Now(Idle))
    {
      ghost var start, env := Now(Checking([], toDecide)), store.env;
      StartStep(env, start);
      OneStepMore(env, start, [], StartDeciding);
      hide *;
      var batch, refused, committed;
      ghost var w, steps;
      batch, refused, w, steps := DecideWindow(toDecide, io, now);
      trace := [] + [StartDeciding];
      RunsCompose(env, start, trace, steps);
      trace := trace + steps;
      committed, err, steps := CommitWindow(batch, io, w.staged);
      RunsCompose(env, start, trace, steps);
      processed, trace := refused + committed, trace + steps;
    }

    /**
     One pass over the queue with nothing interleaved: it does what PassOf says, and it is a
     run of the protocol, so the protocol's invariant holds again at its end.
     */
    method RunOnce(io: Io, now: string) returns (processed: nat, err: Option<Error>, ghost trace: seq<Step>)
      requires Valid()
      modifies this`waiters, this`channels, queue`rows, store`table
      ensures Pass(store.table, queue.rows, Mailbox(), processed, err.Some?) ==
              PassOf(store.env, registry.deciders, store.upcaster, maxBatch, old(store.table), old(queue.rows),
                     old(Mailbox()), io)
      ensures AfterAll(store.env, old(Now(Idle)), trace) == Some(Now(Idle))
      ensures Valid()
    {
      ghost var start := Now(Idle);
      ghost var begin := Begin(maxBatch);
      OneStepMore(store.env, start, [], begin);
      MarkedCaptureNow(store.env, registry.deciders, store.upcaster, maxBatch, store.table, queue.rows, Mailbox(), io);
      if io.unreadable {
        return 0, Some(Storage), [];
      }
      var pending := queue.Pending(maxBatch);
      if |pending| == 0 {
        EmptyPass(store.env, registry.deciders, store.upcaster, maxBatch, store.table, queue.rows, Mailbox(), io);
        return 0, None, [];
      }
      hide Inv, PassOf, AfterAll, AllCaptureNow;
      ghost var steps;
      processed, err, steps := ResumeDecideCommit(pending, io, now);
      trace := [] + [begin];
      RunsCompose(store.env, start, trace, steps);
      trace := trace + steps;
      RunKeepsInv(store.env, start, trace);
    }
  }

  // ---------------------------------------------------------------------
  // The pieces of a pass
  // ---------------------------------------------------------------------

  lemma EmptyPass(env: Env, reg: Deciders, u: Option<Upcaster>, maxBatch: int, table: seq<Event>, rows: seq<QueueRow>,
                  mail: Mail, io: Io)
    requires PendingCommands(rows, maxBatch) == []
    ensures WholePass(env, reg, u, maxBatch, table, rows, mail, io) == Pass(table, rows, mail, 0, false)
    ensures !io.unreadable ==> PassOf(env, reg, u, maxBatch, table, rows, mail, io) == Pass(table, rows, mail, 0, false)
  {
    MarkedAgain(rows, {}, {});
    assert {} - io.lostMarks + ({} - io.lostMarks) == {};
  }

  lemma PassParts(env: Env, reg: Deciders, u: Option<Upcaster>, maxBatch: int, table: seq<Event>, rows: seq<QueueRow>,
                  mail: Mail, io: Io)
    ensures var pending, todo := PendingCommands(rows, maxBatch), WindowTodo(table, rows, maxBatch);
            var rest := Rest(env, reg, u, table, Marked(rows, AppliedIds(table, pending) - io.lostMarks), mail, todo,
                             io);
            WholePass(env, reg, u, maxBatch, table, rows, mail, io) ==
                rest.(processed := |pending| - |todo| + rest.processed)
  {
    hide WindowOf, AppliedIds, RefusedIds, Marked, EntryIds, NotApplied, PendingCommands, RefusedMail, CommittedMail;
    hide ResultsOf, InsertBatch, Commits, Fails, WindowTodo;
    var pending, todo := PendingCommands(rows, maxBatch), WindowTodo(table, rows, maxBatch);
    var w := WindowOf(reg, u, table, todo);
    var applied, refused := AppliedIds(table, pending) - io.lostMarks, RefusedIds(todo, w.verdicts) - io.lostMarks;
    MarkedAgain(rows, applied, refused);
    MarkedAgain(rows, applied + refused, EntryIds(w.batch));
    assert applied + refused + {} == applied + refused;
  }

  /** Which of the two a readable pass is. */
  lemma ReadParts(env: Env, reg: Deciders, u: Option<Upcaster>, maxBatch: int, table: seq<Event>, rows: seq<QueueRow>,
                  mail: Mail, io: Io)
    requires !io.unreadable
    ensures var pending := PendingCommands(rows, maxBatch);
            var n := io.Checks(pending);
            var resumed, todo :=
                Marked(rows, AppliedIds(table, pending[..n]) - io.lostMarks), NotApplied(table, pending[..n]);
            var rest := Rest(env, reg, u, table, resumed, mail, todo, io);
            && pending[..|pending|] == pending && pending[|pending|..] == []
            && PassOf(env, reg, u, maxBatch, table, rows, mail, io) ==
               if n == |pending| then rest.(processed := n - |todo| + rest.processed)
               else Pass(table, resumed, mail, n - |todo|, true)
  {
    hide WholePass, Rest, Marked, AppliedIds, NotApplied, PendingCommands;
    var pending := PendingCommands(rows, maxBatch);
    assert pending[..|pending|] == pending;
    if io.Checks(pending) == |pending| {
      PassParts(env, reg, u, maxBatch, table, rows, mail, io);
    }
  }

  lemma StartStep(env: Env, s: Sys)
    requires s.phase.Checking? && s.phase.todo == []
    ensures Enabled(s, StartDeciding) && After(env, s, StartDeciding) == s.(phase := Deciding(s.phase.kept, map[], []))
  {
  }

  lemma {:induction false} NotAppliedAreThem(log: seq<Event>, cmds: seq<QueuedCommand>)
    ensures forall qc: QueuedCommand :: qc in NotApplied(log, cmds) ==> qc in cmds
  {
    if |cmds| > 0 {
      NotAppliedAreThem(log, cmds[..|cmds| - 1]);
    }
  }

  lemma TodoCapturesNow(table: seq<Event>, rows: seq<QueueRow>, pending: seq<QueuedCommand>)
    requires DistinctIds(rows) && AllCaptureNow(rows) && pending <= PendingOf(rows)
    ensures var todo := NotApplied(table, pending);
            forall i :: 0 <= i < |todo| && todo[i].meta.Some? ==> NOW in todo[i].meta.value
  {
    var todo := NotApplied(table, pending);
    NotAppliedAreThem(table, pending);
    PendingAreRows(rows);
    forall i | 0 <= i < |todo| && todo[i].meta.Some?
      ensures NOW in todo[i].meta.value
    {
      assert todo[i] in pending;
      var k :| 0 <= k < |pending| && pending[k] == todo[i];
      assert PendingOf(rows)[k] == todo[i];
      assert PendingRow(rows, PendingOf(rows)[k]);
      var j :| 0 <= j < |rows| && rows[j] == QueueRow(todo[i], false);
    }
  }

  lemma MarkedCaptureNow(env: Env, reg: Deciders, u: Option<Upcaster>, maxBatch: int, table: seq<Event>,
                         rows: seq<QueueRow>, mail: Mail, io: Io)
    requires AllCaptureNow(rows)
    ensures AllCaptureNow(PassOf(env, reg, u, maxBatch, table, rows, mail, io).rows)
  {
    hide WindowOf, AppliedIds, RefusedIds, EntryIds, PendingCommands, NotApplied, RefusedMail, CommittedMail;
    hide InsertBatch, ResultsOf, Commits, Fails;
  }

  lemma LandedIds(env: Env, table: seq<Event>, batch: seq<DecidedCommand>)
    ensures ResultIds(ResultsOf(env, table, batch)) == EntryIds(batch)
  {
    var results := ResultsOf(env, table, batch);
    assert forall k :: 0 <= k < |batch| ==> results[k].commandId == batch[k].commandId;
  }

  lemma AppliedNext(rows: seq<QueueRow>, table: seq<Event>, cmds: seq<QueuedCommand>, i: nat, lost: set<string>)
    requires i < |cmds|
    ensures var qc, before := cmds[i], Marked(rows, AppliedIds(table, cmds[..i]) - lost);
            Marked(rows, AppliedIds(table, cmds[..i + 1]) - lost) ==
            if Applied(table, qc.key, qc.id, qc.enqueuedAt) && qc.id !in lost then Marked(before, {qc.id}) else before
    ensures NotApplied(table, cmds[..i + 1]) ==
            NotApplied(table, cmds[..i]) + if Applied(table, cmds[i].key, cmds[i].id, cmds[i].enqueuedAt) then []
                else [cmds[i]]
  {
    assert cmds[..i + 1][..i] == cmds[..i];
    var ids, ids' := AppliedIds(table, cmds[..i]) - lost, AppliedIds(table, cmds[..i + 1]) - lost;
    MarkedAgain(rows, ids, {cmds[i].id});
    assert ids' == if Applied(table, cmds[i].key, cmds[i].id, cmds[i].enqueuedAt) && cmds[i].id !in lost
           then ids + {cmds[i].id} else ids;
    hide Applied, Marked;
  }

  lemma NothingChecked(env: Env, start: Sys, table: seq<Event>, pending: seq<QueuedCommand>, rows: seq<QueueRow>,
                       io: Io)
    ensures pending[..0] == [] && pending[0..] == pending && NotApplied(table, []) == []
    ensures Marked(rows, AppliedIds(table, []) - io.lostMarks) == rows
    ensures io.Checks(pending) ==
            if io.failedCheck.Some? && io.failedCheck.value < |pending| then io.failedCheck.value else |pending|
    ensures AfterAll(env, start, []) == Some(start)
  {
    MarkedAgain(rows, {}, {});
    assert AppliedIds(table, []) - io.lostMarks == {};
  }

  lemma NothingReported(env: Env, start: Sys, mail: Mail, results: seq<BatchResult>)
    ensures results[..0] == [] && CommittedMail(mail, []) == mail && results[..|results|] == results
    ensures AfterAll(env, start, []) == Some(start)
  {
  }

  lemma CommittedMailNext(mail: Mail, results: seq<BatchResult>, i: nat)
    requires i < |results|
    ensures CommittedMail(mail, results[..i + 1]) ==
            Tell(CommittedMail(mail, results[..i]), results[i].commandId, Success(results[i].events))
  {
    assert results[..i + 1][..i] == results[..i];
  }

  lemma NothingDecided(env: Env, start: Sys, reg: Deciders, u: Option<Upcaster>, table: seq<Event>,
                       cmds: seq<QueuedCommand>,
                       rows: seq<QueueRow>, mail: Mail, lost: set<string>)
    ensures cmds[..0] == [] && cmds[0..] == cmds
    ensures WindowOf(reg, u, table, []) == Window(map[], [], [])
    ensures Marked(rows, RefusedIds([], []) - lost) == rows && RefusedMail(mail, [], []) == mail
    ensures AfterAll(env, start, []) == Some(start)
  {
    MarkedAgain(rows, {}, {});
    assert RefusedIds([], []) - lost == {};
  }

  /** What one more command adds to a window, to the marks and to the mail. */
  lemma DecidedNext(reg: Deciders, u: Option<Upcaster>, table: seq<Event>, cmds: seq<QueuedCommand>, i: nat,
                    rows: seq<QueueRow>, mail: Mail, lost: set<string>)
    requires i < |cmds|
    ensures var w, w' := WindowOf(reg, u, table, cmds[..i]), WindowOf(reg, u, table, cmds[..i + 1]);
            var marked, told := Marked(rows, RefusedIds(cmds[..i], w.verdicts) - lost),
                RefusedMail(mail, cmds[..i], w.verdicts);
            var refused, id := w'.verdicts[i].Rejected?, cmds[i].id;
            && w' == WindowStep(reg, u, table, w, cmds[i])
            && Marked(rows, RefusedIds(cmds[..i + 1], w'.verdicts) - lost) ==
               (if refused && id !in lost then Marked(marked, {id}) else marked)
            && RefusedMail(mail, cmds[..i + 1], w'.verdicts) ==
               if refused then Tell(told, id, Failure(w'.verdicts[i].error)) else told
  {
    var w, w' := WindowOf(reg, u, table, cmds[..i]), WindowOf(reg, u, table, cmds[..i + 1]);
    assert cmds[..i + 1][..i] == cmds[..i];
    assert w' == WindowStep(reg, u, table, w, cmds[i]) && w'.verdicts == w.verdicts + [w'.verdicts[i]];
    hide *;
    RefusedMailNext(mail, cmds, w.verdicts, w'.verdicts, i);
    RefusedNext(rows, cmds, w.verdicts, w'.verdicts, i, lost);
  }

  lemma RefusedNext(rows: seq<QueueRow>, cmds: seq<QueuedCommand>, verdicts: seq<Verdict>, verdicts': seq<Verdict>,
                    i: nat, lost: set<string>)
    requires i < |cmds| && |verdicts| == i && |verdicts'| == i + 1 && verdicts' == verdicts + [verdicts'[i]]
    ensures Marked(rows, RefusedIds(cmds[..i + 1], verdicts') - lost) ==
            var before := Marked(rows, RefusedIds(cmds[..i], verdicts) - lost);
            if verdicts'[i].Rejected? && cmds[i].id !in lost then Marked(before, {cmds[i].id}) else before
  {
    assert cmds[..i + 1][..i] == cmds[..i] && verdicts'[..i] == verdicts;
    var ids, ids' := RefusedIds(cmds[..i], verdicts) - lost, RefusedIds(cmds[..i + 1], verdicts') - lost;
    MarkedAgain(rows, ids, {cmds[i].id});
    assert ids' == if verdicts'[i].Rejected? && cmds[i].id !in lost then ids + {cmds[i].id} else ids;
  }

  lemma RefusedMailNext(m: Mail, cmds: seq<QueuedCommand>, verdicts: seq<Verdict>, verdicts': seq<Verdict>, i: nat)
    requires i < |cmds| && |verdicts| == i && |verdicts'| == i + 1 && verdicts' == verdicts + [verdicts'[i]]
    ensures RefusedMail(m, cmds[..i + 1], verdicts') ==
            var before := RefusedMail(m, cmds[..i], verdicts);
            if verdicts'[i].Rejected? then Tell(before, cmds[i].id, Failure(verdicts'[i].error)) else before
  {
    assert cmds[..i + 1][..i] == cmds[..i] && verdicts'[..i] == verdicts;
  }

  lemma EnqueueRegister(env: Env, s: Sys, qc: QueuedCommand)
    requires Enabled(s, BatchProtocol.Enqueue(qc)) && qc.id !in s.registered
    ensures var s' := s.(rows := s.rows + [QueueRow(qc, false)], waiters := s.waiters
                         + {qc.id}, registered := s.registered + {qc.id});
            && AfterAll(env, s, [BatchProtocol.Enqueue(qc), Register(qc.id)]) == Some(s')
            && (Inv(s) ==> Inv(s'))
  {
    var s1 := s.(rows := s.rows + [QueueRow(qc, false)]);
    assert s1.rows[|s.rows|].command.id == qc.id;
    assert [BatchProtocol.Enqueue(qc)] + [Register(qc.id)] == [BatchProtocol.Enqueue(qc), Register(qc.id)];
    assert AfterAll(env, s1, []) == Some(s1);
    hide Inv, Carrying, MaxPosition;
    OneStepMore(env, s1, [], Register(qc.id));
    assert [] + [Register(qc.id)] == [Register(qc.id)];
    StepFirst(env, s, BatchProtocol.Enqueue(qc), [Register(qc.id)]);
    if Inv(s) {
      RunKeepsInv(env, s, [BatchProtocol.Enqueue(qc), Register(qc.id)]);
    }
  }
}
