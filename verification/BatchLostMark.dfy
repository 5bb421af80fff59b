/**
 Why the outcome of a command without events needs its mark: two runs in which the mark is
 lost, the command is decided again after another writer touched the stream, and events
 appear although the waiter was told there were none.
 */
module BatchLostMark {
  import opened Wrappers
  import opened EventLog
  import opened LogInvariant
  import opened EventStore
  import opened Deciding
  import opened BatchWindow
  import opened CommandQueue
  import opened BatchProtocol

  const OPENED := NewEvent("Opened", "", map[], 1)
  const TOUCHED := NewEvent("Touched", "", map[], 1)
  const TOUCH := WriteAppend(DOC, 0, [TOUCHED], false)
  const QUEUED := QueuedCommand("cmd", DOC, "open", "", Some(map[]), 0)

  /** Answers one way on an untouched stream and with an event on a touched one. */
  function Fickle(first: Answer): Deciders {
    map["doc" := Plain("", FickleDecide(first), FickleEvolve)]
  }

  function FickleDecide(first: Answer): (Command, State, Metadata) -> Answer {
    (cmd: Command, s: State, meta: Metadata) => if s == "" then first else Produced([OPENED])
  }

  function FickleEvolve(s: State, e: Event): Option<State> {
    Some("touched")
  }

  lemma FickleDecisions(first: Answer, row: Event)
    requires row.sequence == 1 && Key(row) == DOC
    ensures DecideQueued(Fickle(first), OverlayLoad([], None, map[], DOC), QUEUED) ==
            DecideOn(Fickle(first), Some([]), DOC, Command("open", ""), map[])
    ensures first.Refused? ==>
            DecideQueued(Fickle(first), OverlayLoad([], None, map[], DOC), QUEUED) == Failure(Rejection(first.message))
    ensures first == Produced([]) ==>
            DecideQueued(Fickle(first), OverlayLoad([], None, map[], DOC), QUEUED) == Success(Decision([], 0))
    ensures DecideQueued(Fickle(first), OverlayLoad([row], None, map[], DOC), QUEUED) == Success(Decision([OPENED], 1))
  {
    FreshLoads(row);
    FickleFolds(first, row);
    DecideOnUnfolds(Fickle(first), Some([]), DOC, Command("open", ""), map[]);
    DecideOnUnfolds(Fickle(first), Some([row]), DOC, Command("open", ""), map[]);
    PlainOutcome("", FickleDecide(first), FickleEvolve, DOC.1, Command("open", ""), "touched", map[]);
    PlainOutcome("", FickleDecide(first), FickleEvolve, DOC.1, Command("open", ""), "", map[]);
    assert Merged([OPENED], map[]) == [OPENED];
    hide OverlayLoad, Fold, DecideOn, Decider.Outcome, Merged;
  }

  lemma FreshLoads(row: Event)
    requires row.sequence == 1 && Key(row) == DOC
    ensures OverlayLoad([], None, map[], DOC) == Some([]) && OverlayLoad([row], None, map[], DOC) == Some([row])
  {
    LoadsOfOne(row);
    var none: seq<Event> := [];
    assert none + none == none && [row] + none == [row];
    hide Load;
  }

  lemma FickleFolds(first: Answer, row: Event)
    ensures var d := Fickle(first)["doc"];
            Fold(d, []) == Some("") && Fold(d, [row]) == Some("touched")
  {
    var d := Fickle(first)["doc"];
    assert [row][..0] == [] && d.Evolve("", row) == Some("touched");
    assert Fold(d, [row]) == d.Evolve("", row);
  }

  function TouchedRow(env: Env): Event {
    RowOf(env, 1, DOC, 1, TOUCHED)
  }

  function OpenedRow(env: Env): Event {
    RowOf(env, 2, DOC, 2, OPENED.(metadata := map[COMMAND_ID := "cmd"]))
  }

  lemma TouchWrites(env: Env)
    ensures AfterWrite(env, [], TOUCH) == [TouchedRow(env)]
  {
    var rows := RowsOf(env, 1, DOC, 0, [TOUCHED]);
    assert rows == [TouchedRow(env)] && [] + rows == rows;
  }

  /** The second attempt: over the touched stream the same command commits an event. */
  lemma SecondAttempt(env: Env, first: Answer, delivered: map<string, Outcome>)
    ensures var s := Sys([TouchedRow(env)], [QueueRow(QUEUED, false)], {}, Idle, {"cmd"}, delivered);
            var again := [Begin(256), Check(false), StartDeciding, DecideNext(Fickle(first), None), Commit(false)];
            && AfterAll(env, s, again).Some?
            && AfterAll(env, s, again).value.delivered == delivered
            && Carrying(AfterAll(env, s, again).value.table, "cmd") == [OpenedRow(env)]
  {
    hide OverlayLoad, DecideQueued, Carrying;
    var row := TouchedRow(env);
    var s := Sys([row], [QueueRow(QUEUED, false)], {}, Idle, {"cmd"}, delivered);
    OnePending();
    FickleDecisions(first, row);
    assert !Applied([row], DOC, "cmd", 0);
    var entry := DecidedCommand("cmd", DOC, 1, [OPENED]);
    var s1 := s.(phase := Checking([QUEUED], []));
    var s2 := s.(phase := Checking([], [QUEUED]));
    var s3 := s.(phase := Deciding([QUEUED], map[], []));
    var s4 := s.(phase := Deciding([], Recorded(map[], DOC, [OPENED], 1), [entry]));
    assert After(env, s, Begin(256)) == s1;
    assert After(env, s1, Check(false)) == s2 by { assert [QUEUED][1..] == [] && [] + [QUEUED] == [QUEUED]; }
    assert After(env, s2, StartDeciding) == s3;
    assert After(env, s3, DecideNext(Fickle(first), None)) ==
           s4 by { assert [QUEUED][1..] == [] && [] + [entry] == [entry]; }
    EntryCommits(env, entry);
    FiveSteps(env, s, s1, s2, s3, s4, Begin(256), Check(false), StartDeciding, DecideNext(Fickle(first), None),
              Commit(false));
  }

  lemma OnePending()
    ensures PendingCommands([QueueRow(QUEUED, false)], 256) == [QUEUED]
  {
    assert [QueueRow(QUEUED, false)][..0] == [];
    assert PendingOf([QueueRow(QUEUED, false)]) == [] + [QUEUED];
  }

  lemma EntryCommits(env: Env, entry: DecidedCommand)
    requires entry == DecidedCommand("cmd", DOC, 1, [OPENED])
    ensures AllFit([TouchedRow(env)], [entry]) && !BatchCarriesMarker([entry])
    ensures InsertBatch(env, [TouchedRow(env)], [entry]) == [TouchedRow(env), OpenedRow(env)]
    ensures Carrying([TouchedRow(env), OpenedRow(env)], "cmd") == [OpenedRow(env)]
  {
    var row := TouchedRow(env);
    var entries := [entry];
    assert entries[..0] == [] && [row][..0] == [];
    assert CurrentSequence([row][..0], DOC) == 0 && CurrentSequence([row], DOC) == 1;
    assert RunningSequence([row], entries[..0], DOC) == 1;
    assert Fits([row], entries, 0);
    assert Stamped([OPENED], "cmd") == [OPENED.(metadata := map[COMMAND_ID := "cmd"])];
    assert BlockRows(env, [row], entry) == [OpenedRow(env)];
    assert InsertBatch(env, [row], entries[..0]) == [row];
    assert [row] + [OpenedRow(env)] == [row, OpenedRow(env)];
    CarryingConcat([row], [OpenedRow(env)], "cmd");
    CarryingNone([row], "cmd");
    CarryingAll([OpenedRow(env)], "cmd");
  }

  lemma FiveSteps(env: Env, s: Sys, s1: Sys, s2: Sys, s3: Sys, s4: Sys, a: Step, b: Step, c: Step, d: Step, e: Step)
    requires Enabled(s, a) && After(env, s, a) == s1
    requires Enabled(s1, b) && After(env, s1, b) == s2
    requires Enabled(s2, c) && After(env, s2, c) == s3
    requires Enabled(s3, d) && After(env, s3, d) == s4
    requires Enabled(s4, e)
    ensures AfterAll(env, s, [a, b, c, d, e]) == Some(After(env, s4, e))
  {
    OneStepMore(env, s, [], a);
    assert [] + [a] == [a];
    OneStepMore(env, s, [a], b);
    assert [a] + [b] == [a, b];
    OneStepMore(env, s, [a, b], c);
    assert [a, b] + [c] == [a, b, c];
    OneStepMore(env, s, [a, b, c], d);
    assert [a, b, c] + [d] == [a, b, c, d];
    OneStepMore(env, s, [a, b, c, d], e);
    assert [a, b, c, d] + [e] == [a, b, c, d, e];
  }

  /** The first attempt up to the decision, from the initial state. */
  lemma FirstAttempt(env: Env)
    ensures AfterAll(env, INITIAL, INTAKE) == Some(Undecided())
  {
    var s1 := Sys([], [QueueRow(QUEUED, false)], {}, Idle, {}, map[]);
    var s2 := Sys([], [QueueRow(QUEUED, false)], {"cmd"}, Idle, {"cmd"}, map[]);
    var s3 := s2.(phase := Checking([QUEUED], []));
    var s4 := s2.(phase := Checking([], [QUEUED]));
    OnePending();
    assert s1.rows[0].command.id == "cmd";
    assert [] + [QueueRow(QUEUED, false)] == [QueueRow(QUEUED, false)];
    assert After(env, s3, Check(false)) == s4 by { assert [QUEUED][1..] == [] && [] + [QUEUED] == [QUEUED]; }
    FiveSteps(env, INITIAL, s1, s2, s3, s4, Enqueue(QUEUED), Register("cmd"), Begin(256), Check(false), StartDeciding);
  }

  lemma ThenAgain(env: Env, first: Answer, intake: seq<Step>, middle: seq<Step>, told: map<string, Outcome>)
    requires AfterAll(env, INITIAL, intake).Some?
    requires AfterAll(env, AfterAll(env, INITIAL, intake).value, middle) ==
             Some(Sys([TouchedRow(env)], [QueueRow(QUEUED, false)], {}, Idle, {"cmd"}, told))
    ensures exists run ::
              && AfterAll(env, INITIAL, run).Some?
              && AfterAll(env, INITIAL, run).value.delivered == told
              && Carrying(AfterAll(env, INITIAL, run).value.table, "cmd") == [OpenedRow(env)]
  {
    SecondAttempt(env, first, told);
    var again := [Begin(256), Check(false), StartDeciding, DecideNext(Fickle(first), None), Commit(false)];
    hide *;
    RunsCompose(env, AfterAll(env, INITIAL, intake).value, middle, again);
    RunsCompose(env, INITIAL, intake, middle + again);
    assert AfterAll(env, INITIAL, intake + (middle + again)).Some?;
  }

  const INTAKE: seq<Step> := [Enqueue(QUEUED), Register("cmd"), Begin(256), Check(false), StartDeciding]

  /** The command about to be decided on the untouched stream. */
  function Undecided(): Sys {
    Sys([], [QueueRow(QUEUED, false)], {"cmd"}, Deciding([QUEUED], map[], []), {"cmd"}, map[])
  }

  function Told(env: Env, outcome: Outcome): Sys {
    Sys([TouchedRow(env)], [QueueRow(QUEUED, false)], {}, Idle, {"cmd"}, map["cmd" := outcome])
  }

  function RefusalLost(reg: Deciders): seq<Step> {
    [DecideNext(reg, None), MarkRefused(true), Commit(false), Foreign(TOUCH), Crash]
  }

  lemma RefusalThenTouch(env: Env, message: string)
    ensures AfterAll(env, Undecided(), RefusalLost(Fickle(Refused(message)))) ==
            Some(Told(env, Failure(Rejection(message))))
  {
    hide OverlayLoad, DecideQueued, AfterWrite, AfterAll;
    var reg, s0 := Fickle(Refused(message)), Undecided();
    var told: map<string, Outcome> := map["cmd" := Failure(Rejection(message))];
    FickleDecisions(Refused(message), TouchedRow(env));
    var s1 := Sys([], s0.rows, {}, Refusing("cmd", [], map[], []), {"cmd"}, told);
    var s2, s3 := s1.(phase := Deciding([], map[], [])), s1.(phase := Idle);
    assert After(env, s0, DecideNext(reg, None)) == s1 by { assert [QUEUED][1..] == []; }
    TouchWrites(env);
    FiveSteps(env, s0, s1, s2, s3, s3.(table := [TouchedRow(env)]),
              DecideNext(reg, None), MarkRefused(true), Commit(false), Foreign(TOUCH), Crash);
  }

  /**
   A refusal whose mark is lost is not final: a run from the initial state in which the
   waiter was told the command is refused, and its event is in the log.
   */
  lemma LostMarkUndoesRefusal(env: Env, message: string)
    ensures exists run ::
              && AfterAll(env, INITIAL, run).Some?
              && AfterAll(env, INITIAL, run).value.delivered == map["cmd" := Failure(Rejection(message))]
              && Carrying(AfterAll(env, INITIAL, run).value.table, "cmd") == [OpenedRow(env)]
  {
    FirstAttempt(env);
    RefusalThenTouch(env, message);
    hide AfterAll, Carrying, Fickle;
    ThenAgain(env, Refused(message), INTAKE, RefusalLost(Fickle(Refused(message))),
              map["cmd" := Failure(Rejection(message))]);
  }

  function EmptySuccessLost(reg: Deciders): seq<Step> {
    [DecideNext(reg, None), Commit(false), Report, Crash, Foreign(TOUCH)]
  }

  lemma EmptyEntryDecided(env: Env)
    ensures After(env, Undecided(), DecideNext(Fickle(Produced([])), None)) ==
            Undecided().(phase := Deciding([], map[], [DecidedCommand("cmd", DOC, 0, [])]))
  {
    FickleDecisions(Produced([]), TouchedRow(env));
    var entry := DecidedCommand("cmd", DOC, 0, []);
    assert [QUEUED][1..] == [] && [] + [entry] == [entry];
    assert Recorded(map[], DOC, [], 0) == map[];
  }

  lemma EmptyEntryReported(env: Env)
    ensures After(env, Undecided().(phase := Deciding([], map[], [DecidedCommand("cmd", DOC, 0, [])])),
                  Commit(false)) ==
            Undecided().(phase := Reporting([BatchResult("cmd", [], None)], 0))
  {
    var entry := DecidedCommand("cmd", DOC, 0, []);
    EmptyEntryCommits(env, entry);
    assert ResultsOf(env, [], [entry]) == [BatchResult("cmd", [], None)];
  }

  lemma EmptySuccessThenTouch(env: Env)
    ensures AfterAll(env, Undecided(), EmptySuccessLost(Fickle(Produced([])))) == Some(Told(env, Success([])))
  {
    hide Fickle, AfterDecide, InsertBatch, ResultsOf, AllFit, BatchCarriesMarker, AfterWrite;
    var reg, s0 := Fickle(Produced([])), Undecided();
    var told: map<string, Outcome> := map["cmd" := Success([])];
    var results := [BatchResult("cmd", [], None)];
    EmptyEntryDecided(env);
    EmptyEntryReported(env);
    TouchWrites(env);
    var s3 := Sys([], s0.rows, {}, Reporting(results, 1), {"cmd"}, told);
    FiveSteps(env, s0, s0.(phase := Deciding([], map[], [DecidedCommand("cmd", DOC, 0, [])])),
              s0.(phase := Reporting(results, 0)),
              s3, s3.(phase := Idle), DecideNext(reg, None), Commit(false), Report, Crash, Foreign(TOUCH));
  }

  /** Likewise a success without events whose mark is lost in a crash. */
  lemma LostMarkUndoesEmptySuccess(env: Env)
    ensures exists run ::
              && AfterAll(env, INITIAL, run).Some?
              && AfterAll(env, INITIAL, run).value.delivered == map["cmd" := Success([])]
              && Carrying(AfterAll(env, INITIAL, run).value.table, "cmd") == [OpenedRow(env)]
  {
    FirstAttempt(env);
    EmptySuccessThenTouch(env);
    hide AfterAll, Carrying, Fickle;
    ThenAgain(env, Produced([]), INTAKE, EmptySuccessLost(Fickle(Produced([]))), map["cmd" := Success([])]);
  }

  lemma EmptyEntryCommits(env: Env, entry: DecidedCommand)
    requires entry == DecidedCommand("cmd", DOC, 0, [])
    ensures AllFit([], [entry]) && !BatchCarriesMarker([entry])
    ensures InsertBatch(env, [], [entry]) == [] && Landed(env, [], [entry], 0) == BatchResult("cmd", [], None)
  {
    var entries := [entry];
    assert entries[..0] == [];
    assert Fits([], entries, 0);
    assert Stamped([], "cmd") == [];
    assert BlockRows(env, [], entry) == [];
    assert InsertBatch(env, [], entries[..0]) == [];
  }
}
