/**
 Replaying a window that never committed. Commands refused in the first attempt may or may
 not have been marked done, and new ones may be queued behind; the survivors are decided
 to the same events at the same expected sequences.
 */
module BatchReplay {
  import opened Wrappers
  import opened EventLog
  import opened EventStore
  import opened Deciding
  import opened BatchWindow
  import opened CommandQueue

  /** The commands a pass still has to decide: those with no durable proof in the log. */
  function NotApplied(log: seq<Event>, cmds: seq<QueuedCommand>): seq<QueuedCommand> {
    if |cmds| == 0 then []
    else
      var before := NotApplied(log, cmds[..|cmds| - 1]);
      var qc := cmds[|cmds| - 1];
      if Applied(log, qc.key, qc.id, qc.enqueuedAt) then before else before + [qc]
  }

  /** The verdicts of the commands that are still pending. */
  function KeptVerdicts(cmds: seq<QueuedCommand>, verdicts: seq<Verdict>, gone: set<string>): seq<Verdict>
    requires |cmds| == |verdicts|
  {
    if |cmds| == 0 then []
    else
      var n := |cmds| - 1;
      var before := KeptVerdicts(cmds[..n], verdicts[..n], gone);
      if cmds[n].id in gone then before else before + [verdicts[n]]
  }

  /** Refused commands leave no trace in the overlay, so the others never see them. */
  lemma {:induction false} RefusedLeaveNoTrace(reg: Deciders, u: Option<Upcaster>, log: seq<Event>,
                                               cmds: seq<QueuedCommand>, gone: set<string>)
    requires forall i :: 0 <= i < |cmds| && cmds[i].id in gone ==> WindowOf(reg, u, log, cmds).verdicts[i].Rejected?
    ensures var w, w' := WindowOf(reg, u, log, cmds), WindowOf(reg, u, log, Without(cmds, gone));
            w'.staged == w.staged && w'.batch == w.batch && w'.verdicts == KeptVerdicts(cmds, w.verdicts, gone)
  {
    if |cmds| > 0 {
      var n := |cmds| - 1;
      var front, qc := cmds[..n], cmds[n];
      var w := WindowOf(reg, u, log, front);
      StepGrows(reg, u, log, w, qc);
      WindowGrows(reg, u, log, cmds, n);
      forall i | 0 <= i < n && front[i].id in gone
        ensures w.verdicts[i].Rejected?
      {
        assert WindowOf(reg, u, log, cmds).verdicts[i] == w.verdicts[i];
      }
      RefusedLeaveNoTrace(reg, u, log, front, gone);
      var kept := Without(front, gone);
      assert WindowOf(reg, u, log, cmds) == WindowStep(reg, u, log, w, qc);
      if qc.id !in gone {
        NextCommand(Env(p => "", p => ""), reg, u, log, kept, qc);
        StepOnSameOverlay(reg, u, log, w, WindowOf(reg, u, log, kept), qc);
      } else {
        StepRejected(reg, u, log, w, qc);
      }
    }
  }

  lemma StepRejected(reg: Deciders, u: Option<Upcaster>, log: seq<Event>, w: Window, qc: QueuedCommand)
    requires WindowStep(reg, u, log, w, qc).verdicts[|w.verdicts|].Rejected?
    ensures WindowStep(reg, u, log, w, qc).staged == w.staged && WindowStep(reg, u, log, w, qc).batch == w.batch
  {
  }

  lemma StepOnSameOverlay(reg: Deciders, u: Option<Upcaster>, log: seq<Event>, w: Window, w': Window, qc: QueuedCommand)
    requires w.staged == w'.staged && w.batch == w'.batch
    ensures var s, s' := WindowStep(reg, u, log, w, qc), WindowStep(reg, u, log, w', qc);
            && s.staged == s'.staged && s.batch == s'.batch
            && s'.verdicts == w'.verdicts + [s.verdicts[|w.verdicts|]]
  {
  }

  lemma {:induction false} NotAppliedConcat(log: seq<Event>, xs: seq<QueuedCommand>, ys: seq<QueuedCommand>)
    ensures NotApplied(log, xs) <= NotApplied(log, xs + ys)
  {
    if |ys| == 0 {
      assert xs + ys == xs;
    } else {
      assert (xs + ys)[..|xs + ys| - 1] == xs + ys[..|ys| - 1];
      NotAppliedConcat(log, xs, ys[..|ys| - 1]);
    }
  }

  lemma {:induction false} NotAppliedWithout(log: seq<Event>, cmds: seq<QueuedCommand>, gone: set<string>)
    ensures NotApplied(log, Without(cmds, gone)) == Without(NotApplied(log, cmds), gone)
  {
    if |cmds| > 0 {
      var front, qc := cmds[..|cmds| - 1], cmds[|cmds| - 1];
      NotAppliedWithout(log, front, gone);
      var kept := Without(front, gone);
      assert (kept + [qc])[..|kept + [qc]| - 1] == kept;
      var todo := NotApplied(log, front);
      assert (todo + [qc])[..|todo + [qc]| - 1] == todo;
    }
  }

  /**
   Pre-commit replay is deterministic. A pass decided its window and died before the
   commit; some of the commands it refused (or found already applied) were marked done,
   and other commands were queued. Over the unchanged log the next pass decides, first and
   in the same order, exactly the batch the dead pass would have committed, and gives every
   command still pending the verdict it had.
   */
  lemma ReplayDecidesTheSame(reg: Deciders, u: Option<Upcaster>, log: seq<Event>,
                             rows: seq<QueueRow>, more: seq<QueueRow>, gone: set<string>, limit: int)
    requires var first := NotApplied(log, PendingCommands(rows, limit));
             forall i :: 0 <= i < |first| && first[i].id in gone ==> WindowOf(reg, u, log, first).verdicts[i].Rejected?
    ensures var first := NotApplied(log, PendingCommands(rows, limit));
            var again := NotApplied(log, PendingCommands(Marked(rows, gone) + more, limit));
            var w, w' := WindowOf(reg, u, log, first), WindowOf(reg, u, log, again);
            && Without(first, gone) <= again
            && w.batch <= w'.batch
            && KeptVerdicts(first, w.verdicts, gone) <= w'.verdicts
  {
    var window := PendingCommands(rows, limit);
    var window' := PendingCommands(Marked(rows, gone) + more, limit);
    var first, again := NotApplied(log, window), NotApplied(log, window');
    NextWindowKeepsSurvivors(rows, more, gone, limit);
    var survivors := Without(window, gone);
    assert window' == survivors + window'[|survivors|..];
    NotAppliedConcat(log, survivors, window'[|survivors|..]);
    NotAppliedWithout(log, window, gone);
    RefusedLeaveNoTrace(reg, u, log, first, gone);
    var kept := Without(first, gone);
    assert again[..|kept|] == kept;
    WindowGrows(reg, u, log, again, |kept|);
  }
}
