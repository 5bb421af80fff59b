/**
 The durable command queue: rows in arrival order, each done or not. Marking done is
 bookkeeping that may be late, repeated or lost.
 */
module CommandQueue {
  import opened BatchWindow

  datatype QueueRow = QueueRow(command: QueuedCommand, done: bool)

  function PendingOf(rows: seq<QueueRow>): seq<QueuedCommand> {
    if |rows| == 0 then []
    else
      var before := PendingOf(rows[..|rows| - 1]);
      if rows[|rows| - 1].done then before else before + [rows[|rows| - 1].command]
  }

  function First(cmds: seq<QueuedCommand>, limit: nat): seq<QueuedCommand> {
    if |cmds| <= limit then cmds else cmds[..limit]
  }

  /** SELECT ... WHERE done = 0 ORDER BY position LIMIT ?; a limit below 1 means 100. */
  function PendingCommands(rows: seq<QueueRow>, limit: int): seq<QueuedCommand> {
    First(PendingOf(rows), if limit <= 0 then 100 else limit)
  }

  function Marked(rows: seq<QueueRow>, ids: set<string>): (out: seq<QueueRow>)
    ensures |out| == |rows|
  {
    seq(|rows|, i requires 0 <= i < |rows| => if rows[i].command.id in ids then rows[i].(done := true) else rows[i])
  }

  function Ids(rows: seq<QueueRow>): set<string> {
    set i | 0 <= i < |rows| :: rows[i].command.id
  }

  predicate DistinctIds(rows: seq<QueueRow>) {
    forall i, j :: 0 <= i < j < |rows| ==> rows[i].command.id != rows[j].command.id
  }

  class Queue {
    var rows: seq<QueueRow>

    constructor ()
      ensures rows == []
    {
      rows := [];
    }

    /** The id is UNIQUE: a repeated one is refused and nothing is inserted. */
    method EnqueueCommand(qc: QueuedCommand, fault: bool) returns (ok: bool)
      modifies this`rows
      ensures ok <==> !fault && qc.id !in Ids(old(rows))
      ensures ok <==> !fault && forall i :: 0 <= i < |old(rows)| ==> old(rows)[i].command.id != qc.id
      ensures rows == if ok then old(rows) + [QueueRow(qc, false)] else old(rows)
      ensures old(DistinctIds(rows)) ==> DistinctIds(rows)
    {
      ok := !fault && forall i :: 0 <= i < |rows| ==> rows[i].command.id != qc.id;
      if ok {
        rows := rows + [QueueRow(qc, false)];
      }
    }

    method MarkDone(ids: seq<string>, fault: bool)
      modifies this`rows
      ensures rows == if fault then old(rows) else Marked(old(rows), set id | id in ids)
      ensures |rows| == |old(rows)|
              && forall i :: 0 <= i < |rows| ==>
                   && rows[i].command == old(rows)[i].command
                   && (rows[i].done <==> old(rows)[i].done || (!fault && old(rows)[i].command.id in ids))
    {
      if fault {
        return;
      }
      var tx := rows;
      for k := 0 to |ids|
        invariant tx == Marked(rows, set id | id in ids[..k])
      {
        ghost var before := tx;
        for i := 0 to |tx|
          invariant |tx| == |before|
          invariant forall j :: 0 <= j < |tx| ==>
                      tx[j] == if j < i && before[j].command.id == ids[k] then before[j].(done := true) else before[j]
        {
          if tx[i].command.id == ids[k] {
            tx := tx[i := tx[i].(done := true)];
          }
        }
        assert ids[..k + 1] == ids[..k] + [ids[k]];
      }
      assert ids[..|ids|] == ids;
      rows := tx;
    }

    /** PendingCommands: the oldest rows not yet done, in arrival order, up to the limit. */
    method Pending(limit: int) returns (window: seq<QueuedCommand>)
      ensures window == PendingCommands(rows, limit)
    {
      var cap := if limit <= 0 then 100 else limit;
      window := [];
      var i := 0;
      while i < |rows| && |window| < cap
        invariant i <= |rows| && |window| <= cap && window == PendingOf(rows[..i])
      {
        assert rows[..i + 1][..i] == rows[..i];
        if !rows[i].done {
          window := window + [rows[i].command];
        }
        i := i + 1;
      }
      assert rows == rows[..i] + rows[i..];
      PendingConcat(rows[..i], rows[i..]);
    }

    /** Depth: how many commands are not yet done. */
    method Depth() returns (n: nat)
      ensures n == |PendingOf(rows)|
    {
      n := 0;
      for i := 0 to |rows|
        invariant n == |PendingOf(rows[..i])|
      {
        assert rows[..i + 1][..i] == rows[..i];
        if !rows[i].done {
          n := n + 1;
        }
      }
      assert rows[..|rows|] == rows;
    }
  }

  // ---------------------------------------------------------------------
  // What the next pass reads after some of this one's rows were marked
  // ---------------------------------------------------------------------

  function Without(cmds: seq<QueuedCommand>, gone: set<string>): seq<QueuedCommand> {
    if |cmds| == 0 then []
    else
      var before := Without(cmds[..|cmds| - 1], gone);
      if cmds[|cmds| - 1].id in gone then before else before + [cmds[|cmds| - 1]]
  }

  lemma {:induction false} WithoutConcat(xs: seq<QueuedCommand>, ys: seq<QueuedCommand>, gone: set<string>)
    ensures Without(xs + ys, gone) == Without(xs, gone) + Without(ys, gone)
  {
    if |ys| == 0 {
      assert xs + ys == xs;
    } else {
      assert (xs + ys)[..|xs + ys| - 1] == xs + ys[..|ys| - 1];
      WithoutConcat(xs, ys[..|ys| - 1], gone);
    }
  }

  lemma {:induction false} PendingConcat(rows: seq<QueueRow>, more: seq<QueueRow>)
    ensures PendingOf(rows + more) == PendingOf(rows) + PendingOf(more)
  {
    if |more| == 0 {
      assert rows + more == rows;
    } else {
      assert (rows + more)[..|rows + more| - 1] == rows + more[..|more| - 1];
      PendingConcat(rows, more[..|more| - 1]);
    }
  }

  lemma {:induction false} PendingMarked(rows: seq<QueueRow>, gone: set<string>)
    ensures PendingOf(Marked(rows, gone)) == Without(PendingOf(rows), gone)
  {
    if |rows| > 0 {
      var n := |rows| - 1;
      assert Marked(rows, gone)[..n] == Marked(rows[..n], gone);
      PendingMarked(rows[..n], gone);
    }
  }

  lemma {:induction false} WithoutShorter(cmds: seq<QueuedCommand>, gone: set<string>)
    ensures |Without(cmds, gone)| <= |cmds|
  {
    if |cmds| > 0 {
      WithoutShorter(cmds[..|cmds| - 1], gone);
    }
  }

  /**
   The next window starts with this one's survivors, in the same order, whatever was
   queued behind them meanwhile: marking rows done only lets later rows in at the end.
   */
  lemma NextWindowKeepsSurvivors(rows: seq<QueueRow>, more: seq<QueueRow>, gone: set<string>, limit: int)
    ensures Without(PendingCommands(rows, limit), gone) <= PendingCommands(Marked(rows, gone) + more, limit)
  {
    var n := if limit <= 0 then 100 else limit;
    var pending := PendingOf(rows);
    var window := First(pending, n);
    var rest := if |pending| <= n then [] else pending[n..];
    assert pending == window + rest;
    PendingConcat(Marked(rows, gone), more);
    PendingMarked(rows, gone);
    WithoutConcat(window, rest, gone);
    WithoutShorter(window, gone);
  }
}
