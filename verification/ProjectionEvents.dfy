/**
 A projection over its events: what the script is shown and what becomes of what it returns,
 event by event, and what the counts of a simulation count.
 */
module ProjectionEvents {
  import opened Wrappers
  import opened EventLog
  import opened Projection
  import opened ProjectionOps
  import opened ProjectionApply

  // ---------------------------------------------------------------------
  // What the script returned
  // ---------------------------------------------------------------------

  /** at lists, in order, where the ops lie among the items, and passes over none of them. */
  predicate Picks(items: seq<Option<Op>>, ops: seq<Op>, at: seq<nat>) {
    && |at| == |ops|
    && (forall k :: 0 <= k < |at| ==> at[k] < |items| && items[at[k]] == Some(ops[k]))
    && (forall k, l :: 0 <= k < l < |at| ==> at[k] < at[l])
    && forall i :: 0 <= i < |items| && items[i].Some? ==> i in at
  }

  /** The ops are what the script returned, in its order, without the values that are none. */
  lemma {:induction false} OpsKeepTheirOrder(items: seq<Option<Op>>) returns (at: seq<nat>)
    ensures Picks(items, OpsIn(items), at)
  {
    at := [];
    if |items| > 0 {
      var n := |items| - 1;
      at := OpsKeepTheirOrder(items[..n]);
      assert forall i :: 0 <= i < n ==> items[..n][i] == items[i];
      if items[n].Some? {
        assert (at + [n])[|at|] == n;
        assert forall i :: i in at ==> i in at + [n];
        at := at + [n];
      }
    }
  }

  /** What an event asks of the rows: the script's answer if it subscribes to the type, else nothing. */
  ghost predicate Asks(spec: Spec, e: Event, view: View, ops: seq<Op>) {
    if e.kind !in spec.eventTypes then ops == []
    else
      exists at: seq<nat> :: spec.project(e, view).Some? && Picks(spec.project(e, view).value, ops, at)
  }

  ghost predicate Throws(spec: Spec, e: Event, view: View) {
    e.kind in spec.eventTypes && spec.project(e, view).None?
  }

  lemma ProjectHolds(spec: Spec, e: Event, view: View)
    ensures var ops := spec.Project(e, view);
            (ops.None? <==> Throws(spec, e, view)) && (ops.Some? ==> Asks(spec, e, view, ops.value))
  {
    var items := spec.Returned(e, view);
    if items.Some? {
      var at := OpsKeepTheirOrder(items.value);
    }
  }

  // ---------------------------------------------------------------------
  // What the script reads
  // ---------------------------------------------------------------------

  /** A row is read under its printed key; of rows that print alike, the first. */
  ghost predicate ReadByKey(spec: Spec, keyField: string, rows: seq<Row>, m: map<string, Row>) {
    forall k :: if k in m then FirstOf(spec, keyField, rows, k, m[k]) else NonePrints(spec, keyField, rows, k)
  }

  predicate PrintsAs(spec: Spec, row: Row, keyField: string, k: string) {
    k == spec.show(if keyField in row then row[keyField] else Null)
  }

  predicate NonePrints(spec: Spec, keyField: string, rows: seq<Row>, k: string) {
    forall i :: 0 <= i < |rows| ==> !PrintsAs(spec, rows[i], keyField, k)
  }

  predicate FirstOf(spec: Spec, keyField: string, rows: seq<Row>, k: string, row: Row) {
    exists i :: 0 <= i < |rows| && rows[i] == row && PrintsAs(spec, rows[i], keyField, k)
                && NonePrints(spec, keyField, rows[..i], k)
  }

  lemma OneRowMore(spec: Spec, keyField: string, rows: seq<Row>, last: Row, k: string, row: Row)
    ensures FirstOf(spec, keyField, rows, k, row) ==> FirstOf(spec, keyField, rows + [last], k, row)
    ensures NonePrints(spec, keyField, rows, k) && PrintsAs(spec, last, keyField, k) ==>
              FirstOf(spec, keyField, rows + [last], k, last)
    ensures NonePrints(spec, keyField, rows, k) && !PrintsAs(spec, last, keyField, k) ==>
              NonePrints(spec, keyField, rows + [last], k)
  {
    var all := rows + [last];
    if FirstOf(spec, keyField, rows, k, row) {
      var i :| 0 <= i < |rows| && rows[i] == row && PrintsAs(spec, rows[i], keyField, k)
               && NonePrints(spec, keyField, rows[..i], k);
      assert all[i] == row && all[..i] == rows[..i];
    } else {
      assert all[|rows|] == last && all[..|rows|] == rows;
    }
  }

  lemma {:induction false} RowsByKeyHolds(spec: Spec, keyField: string, rows: seq<Row>)
    ensures ReadByKey(spec, keyField, rows, RowsByKey(spec, keyField, rows))
  {
    hide NonePrints, FirstOf;
    if |rows| > 0 {
      var front, last := rows[..|rows| - 1], rows[|rows| - 1];
      RowsByKeyHolds(spec, keyField, front);
      assert rows == front + [last];
      var before, m := RowsByKey(spec, keyField, front), RowsByKey(spec, keyField, rows);
      forall k
        ensures if k in m then FirstOf(spec, keyField, rows, k, m[k]) else NonePrints(spec, keyField, rows, k)
      {
        OneRowMore(spec, keyField, front, last, k, if k in before then before[k] else last);
      }
    } else {
      NoRowPrints(spec, keyField);
    }
  }

  lemma NoRowPrints(spec: Spec, keyField: string)
    ensures forall k :: NonePrints(spec, keyField, [], k)
  {
  }

  /** The rows of every collection are read by the key of its first declaration. */
  lemma ViewHolds(spec: Spec, tables: Tables, s: Schema, i: nat)
    requires i < |spec.schemas| && spec.schemas[i] == s && s.collection in tables
    requires forall j :: 0 <= j < i ==> spec.schemas[j].collection != s.collection
    ensures s.collection in ViewOf(spec, tables)
    ensures ReadByKey(spec, s.key, tables[s.collection], ViewOf(spec, tables)[s.collection])
  {
    FirstHolds(spec.schemas, s.collection);
    assert First(spec.schemas, s.collection) == Some(s);
    RowsByKeyHolds(spec, s.key, tables[s.collection]);
  }

  // ---------------------------------------------------------------------
  // Event by event
  // ---------------------------------------------------------------------

  /** One event committed: its ops were applied in order, over the rows as the script read them. */
  ghost predicate Committed(spec: Spec, e: Event, before: Tables, after: Tables) {
    exists ops: seq<Op>, through: seq<Tables> ::
      && Asks(spec, e, ViewOf(spec, before), ops) && LiveInOrder(spec, ops, through)
      && through[0] == before && through[|ops|] == after
  }

  /** An event that stops the live projection, or fails the simulation: the script throws, or an op names no schema. */
  ghost predicate Stops(spec: Spec, e: Event, view: View) {
    || Throws(spec, e, view)
    || exists ops: seq<Op>, i: nat :: Asks(spec, e, view, ops) && i < |ops| && !Targeted(spec, ops[i])
  }

  ghost predicate Simulated(spec: Spec, e: Event, before: View, after: View) {
    exists ops: seq<Op>, through: seq<View> ::
      && Asks(spec, e, before, ops) && DryInOrder(spec, ops, through)
      && through[0] == before && through[|ops|] == after
  }

  /** Every declared collection is there, and holds nothing. */
  ghost predicate Declared<T>(spec: Spec, tables: map<string, T>) {
    forall c :: c in tables <==> exists i :: 0 <= i < |spec.schemas| && spec.schemas[i].collection == c
  }

  lemma LiveEventHolds(spec: Spec, e: Event, tables: Tables)
    requires Declared(spec, tables)
    ensures var ops := spec.Project(e, ViewOf(spec, tables));
            if ops.Some? && LiveOps(spec, ops.value, tables).Some? then
              var after := LiveOps(spec, ops.value, tables).value;
              Committed(spec, e, tables, after) && Declared(spec, after)
            else Stops(spec, e, ViewOf(spec, tables))
  {
    var view := ViewOf(spec, tables);
    var ops := spec.Project(e, view);
    ProjectHolds(spec, e, view);
    hide Asks, Throws, Spec.Project, ViewOf, Targeted, LiveInOrder, DryOps, LiveOps, Picks;
    if ops.Some? {
      OpsFailIff(spec, ops.value, tables, map c | c in tables :: map[]);
      if LiveOps(spec, ops.value, tables).Some? {
        var through := LiveOpsInOrder(spec, ops.value, tables);
      }
    }
  }

  lemma DryEventHolds(spec: Spec, e: Event, rows: View)
    requires Declared(spec, rows)
    ensures var ops := spec.Project(e, rows);
            if ops.Some? && DryOps(spec, ops.value, rows).Some? then
              var after := DryOps(spec, ops.value, rows).value;
              Simulated(spec, e, rows, after) && Declared(spec, after)
            else Stops(spec, e, rows)
  {
    var ops := spec.Project(e, rows);
    ProjectHolds(spec, e, rows);
    hide Asks, Throws, Spec.Project, Targeted, DryInOrder, DryOps, LiveOps, Picks;
    if ops.Some? {
      OpsFailIff(spec, ops.value, map c | c in rows :: [], rows);
      if DryOps(spec, ops.value, rows).Some? {
        var through := DryOpsInOrder(spec, ops.value, rows);
      }
    }
  }

  ghost predicate LiveThrough(spec: Spec, events: seq<Event>, through: seq<Tables>) {
    && 0 < |through| <= |events| + 1
    && Declared(spec, through[0]) && (forall c :: c in through[0] ==> through[0][c] == [])
    && forall i, j :: 0 <= i && j == i + 1 < |through| ==> Committed(spec, events[i], through[i], through[j])
  }

  ghost predicate DryThrough(spec: Spec, events: seq<Event>, through: seq<View>) {
    && 0 < |through| <= |events| + 1
    && Declared(spec, through[0]) && (forall c :: c in through[0] ==> through[0][c] == map[])
    && forall i, j :: 0 <= i && j == i + 1 < |through| ==> Simulated(spec, events[i], through[i], through[j])
  }

  /**
   The live projection over its events: from empty collections, each event's ops in order over
   the rows its script read, up to the first event that stops it.
   */
  lemma {:induction false} LiveRunHolds(spec: Spec, events: seq<Event>) returns (through: seq<Tables>)
    ensures var live := LiveRun(spec, events);
            && LiveThrough(spec, events, through) && |through| == live.applied + 1
            && through[live.applied] == live.tables && Declared(spec, live.tables)
            && (live.applied < |events| ==> Stops(spec, events[live.applied], ViewOf(spec, live.tables)))
  {
    hide Declared, Committed, Stops, ViewOf, LiveOps, Spec.Project;
    if |events| == 0 {
      through := [LiveRun(spec, events).tables];
      AllEmpty(spec);
    } else {
      var n := |events| - 1;
      var before, live := LiveRun(spec, events[..n]), LiveRun(spec, events);
      through := LiveRunHolds(spec, events[..n]);
      if before.applied == n {
        LiveEventHolds(spec, events[n], before.tables);
        if live.applied == n + 1 {
          through := through + [live.tables];
        }
      }
    }
  }

  lemma AllEmpty(spec: Spec)
    ensures Declared(spec, LiveRun(spec, []).tables)
    ensures DryRun(spec, []).Some? && Declared(spec, DryRun(spec, []).value)
  {
    forall c
      ensures c in spec.Collections() <==> exists i :: 0 <= i < |spec.schemas| && spec.schemas[i].collection == c
    {
    }
  }

  /** The simulation over a list of events: the same, all the way or not at all. */
  lemma {:induction false} DryRunHolds(spec: Spec, events: seq<Event>) returns (through: seq<View>)
    ensures DryThrough(spec, events, through)
    ensures var n, dry := |through| - 1, DryRun(spec, events);
            && (dry.Some? <==> n == |events|)
            && (n == |events| ==> Some(through[n]) == dry && Declared(spec, through[n]))
            && (n < |events| ==> Stops(spec, events[n], through[n]))
  {
    hide Declared, Simulated, Stops, DryOps, Spec.Project;
    if |events| == 0 {
      AllEmpty(spec);
      through := [DryRun(spec, []).value];
      assert events == [];
    } else {
      var n := |events| - 1;
      through := DryRunHolds(spec, events[..n]);
      var before, dry := DryRun(spec, events[..n]), DryRun(spec, events);
      if before.Some? {
        DryEventHolds(spec, events[n], before.value);
        if dry.Some? {
          through := through + [dry.value];
        }
      }
    }
  }

  // ---------------------------------------------------------------------
  // What a simulation counts
  // ---------------------------------------------------------------------

  function HandledAt(spec: Spec, events: seq<Event>): set<nat> {
    set i: nat | i < |events| && events[i].kind in spec.eventTypes
  }

  function DeletesAt(ops: seq<Op>): set<nat> {
    set i: nat | i < |ops| && ops[i].Delete?
  }

  function NoneAt(items: seq<Option<Op>>): set<nat> {
    set i: nat | i < |items| && items[i].None?
  }

  lemma {:induction false} HandledCounts(spec: Spec, events: seq<Event>)
    ensures Handled(spec, events) == |HandledAt(spec, events)|
  {
    if |events| > 0 {
      var n := |events| - 1;
      HandledCounts(spec, events[..n]);
      var more := if events[n].kind in spec.eventTypes then {n} else {};
      assert HandledAt(spec, events) == HandledAt(spec, events[..n]) + more;
    }
  }

  lemma {:induction false} DeletesCount(ops: seq<Op>)
    ensures Deletes(ops) == |DeletesAt(ops)|
  {
    if |ops| > 0 {
      var n := |ops| - 1;
      DeletesCount(ops[..n]);
      assert DeletesAt(ops) == DeletesAt(ops[..n]) + if ops[n].Delete? then {n} else {};
    }
  }

  lemma {:induction false} IgnoredAreNone(items: seq<Option<Op>>)
    ensures |items| - |OpsIn(items)| == |NoneAt(items)|
  {
    if |items| > 0 {
      var n := |items| - 1;
      IgnoredAreNone(items[..n]);
      assert NoneAt(items) == NoneAt(items[..n]) + if items[n].None? then {n} else {};
    }
  }

  /** One event more: the ops it adds, and the values that were none, are those its script returned. */
  lemma CountsMore(spec: Spec, events: seq<Event>, e: Event, rows: View)
    requires DryRun(spec, events) == Some(rows)
    ensures var all := events + [e];
            if e.kind !in spec.eventTypes then
              OpsOver(spec, all) == OpsOver(spec, events) && IgnoredOver(spec, all) == IgnoredOver(spec, events)
            else
              spec.project(e, rows).Some? ==>
                var items := spec.project(e, rows).value;
                && IgnoredOver(spec, all) == IgnoredOver(spec, events) + |NoneAt(items)|
                && |OpsOver(spec, all)| == |OpsOver(spec, events)| + |items| - |NoneAt(items)|
                && OpsOver(spec, all)[..|OpsOver(spec, events)|] == OpsOver(spec, events)
  {
    var all := events + [e];
    assert all[..|all| - 1] == events && all[|all| - 1] == e;
    if e.kind in spec.eventTypes && spec.project(e, rows).Some? {
      IgnoredAreNone(spec.project(e, rows).value);
    } else if e.kind !in spec.eventTypes {
      assert OpsIn([]) == [];
    }
  }
}
