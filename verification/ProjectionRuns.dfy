/**
 The dry run is the live run, over every list of events, for a projection that keeps to a
 discipline: the fields it counts in never hold a text or a boolean, the fields it groups
 in never hold a plain array, and none of them is reserved or a key.
 */
module ProjectionRuns {
  import opened Wrappers
  import opened EventLog
  import opened Projection
  import opened ProjectionAgree

  /** What a projection promises about its ops, whatever event and rows it sees. */
  datatype Discipline = Discipline(keys: iset<Value>, counters: set<string>, groups: set<string>)

  predicate ValueFits(d: Discipline, field: string, v: Value) {
    (field in d.counters ==> !v.Bool? && !v.Str?) && (field in d.groups ==> !v.Arr?)
  }

  predicate RowFits(d: Discipline, row: Row) {
    forall f :: f in row ==> ValueFits(d, f, row[f])
  }

  ghost predicate OpFits(d: Discipline, op: Op) {
    && op.key in d.keys
    && match op
       case Delete(_, _) => true
       case Upsert(_, _, fields) => RowFits(d, fields)
       case Increment(_, _, field, _) => field in d.counters
       case GroupByBump(_, _, field, _, _, _, _) => field in d.groups
  }

  ghost predicate OpsFit(d: Discipline, ops: seq<Op>) {
    forall i :: 0 <= i < |ops| ==> OpFits(d, ops[i])
  }

  ghost predicate Disciplined(spec: Spec, d: Discipline) {
    && KeysTell(spec, d.keys)
    && (forall i, f :: 0 <= i < |spec.schemas| && f in d.counters + d.groups ==> Writable(spec.schemas[i], f))
    && forall e: Event, view: View :: spec.Project(e, view).Some? ==> OpsFit(d, spec.Project(e, view).value)
  }

  // ---------------------------------------------------------------------
  // One op
  // ---------------------------------------------------------------------

  predicate RowsFit(d: Discipline, rows: seq<Row>) {
    forall i :: 0 <= i < |rows| ==> RowFits(d, rows[i])
  }

  lemma FitIsSafe(spec: Spec, d: Discipline, s: Schema, op: Op, found: bool, row: Row)
    requires OpFits(d, op) && RowFits(d, row)
    requires forall f :: f in d.counters + d.groups ==> Writable(s, f)
    ensures OpSafe(spec, s, op, found, row)
  {
    if op.Increment? || op.GroupByBump? {
      assert op.field in row ==> ValueFits(d, op.field, row[op.field]);
    }
  }

  lemma WriteFits(spec: Spec, d: Discipline, s: Schema, op: Op, row: Row)
    requires OpFits(d, op) && RowFits(d, row) && !op.Delete?
    ensures LiveWrite(spec, s, op, row).Some? ==> RowFits(d, LiveWrite(spec, s, op, row).value)
  {
  }

  /** A disciplined op keeps the two sides the same, and the rows within the discipline. */
  lemma OpAgrees(spec: Spec, d: Discipline, s: Schema, op: Op, rows: seq<Row>, m: map<string, Row>)
    requires KeysTell(spec, d.keys) && OpFits(d, op)
    requires forall f :: f in d.counters + d.groups ==> Writable(s, f)
    requires Keyed(spec, s.key, rows, d.keys) && RowsFit(d, rows) && Lists(spec, s.key, rows, m)
    ensures Keyed(spec, s.key, LiveOp(spec, s, op, rows), d.keys) && RowsFit(d, LiveOp(spec, s, op, rows))
    ensures Lists(spec, s.key, LiveOp(spec, s, op, rows), DryOp(spec, s, op, m))
  {
    var i := Find(rows, s.key, op.key);
    var row := if i < |rows| then rows[i] else map[s.key := op.key];
    assert !Writable(s, s.key) && s.key !in d.counters + d.groups;
    assert RowFits(d, row);
    FitIsSafe(spec, d, s, op, i < |rows|, row);
    OpAgreesIff(spec, s, op, rows, m, d.keys);
    if op.Delete? {
      if i < |rows| {
        var rows' := rows[..i] + rows[i + 1..];
        forall j | 0 <= j < |rows'|
          ensures RowFits(d, rows'[j])
        {
          WithoutOne(rows, i, j);
        }
      }
    } else {
      WriteFits(spec, d, s, op, row);
    }
  }

  // ---------------------------------------------------------------------
  // Many ops, many events
  // ---------------------------------------------------------------------

  lemma {:induction false} FirstIsDeclared(schemas: seq<Schema>, collection: string)
    ensures var s := First(schemas, collection);
            s.Some? ==> s.value.collection == collection && exists i :: 0 <= i < |schemas| && schemas[i] == s.value
  {
    if |schemas| > 0 && schemas[0].collection != collection {
      FirstIsDeclared(schemas[1..], collection);
      var s := First(schemas, collection);
      if s.Some? {
        var i :| 0 <= i < |schemas[1..]| && schemas[1..][i] == s.value;
        assert schemas[i + 1] == s.value;
      }
    }
  }

  /** The schema an op resolves to is the one its collection's key field is read from. */
  lemma ResolvedIsDeclared(spec: Spec, op: Op)
    ensures var s := Resolve(spec, op);
            s.Some? ==>
              && s.value.collection in spec.Collections() && s.value.key == KeyField(spec, s.value.collection)
              && exists i :: 0 <= i < |spec.schemas| && spec.schemas[i] == s.value
  {
    FirstIsDeclared(spec.schemas, op.collection);
    if |spec.schemas| == 1 {
      assert First(spec.schemas, spec.schemas[0].collection) == Some(spec.schemas[0]);
    }
  }

  ghost predicate SameAt(spec: Spec, d: Discipline, keyField: string, rows: seq<Row>, m: map<string, Row>) {
    Keyed(spec, keyField, rows, d.keys) && RowsFit(d, rows) && Lists(spec, keyField, rows, m)
  }

  ghost predicate Same(spec: Spec, d: Discipline, tables: Tables, view: View) {
    && tables.Keys == view.Keys == spec.Collections()
    && forall c :: c in tables ==> SameAt(spec, d, KeyField(spec, c), tables[c], view[c])
  }

  /** The simulation's rows are the live ones, collection by collection. */
  ghost predicate SameRows(spec: Spec, keys: iset<Value>, tables: Tables, view: View) {
    && tables.Keys == view.Keys == spec.Collections()
    && forall c :: c in tables ==>
         Keyed(spec, KeyField(spec, c), tables[c], keys) && Lists(spec, KeyField(spec, c), tables[c], view[c])
  }

  /** Then a script reads the same of both. */
  lemma SameRowsReadTheSame(spec: Spec, keys: iset<Value>, tables: Tables, view: View)
    requires KeysTell(spec, keys) && SameRows(spec, keys, tables, view)
    ensures ViewOf(spec, tables) == view
  {
    forall c | c in tables
      ensures RowsByKey(spec, KeyField(spec, c), tables[c]) == view[c]
    {
      RowsByKeyLists(spec, KeyField(spec, c), tables[c], keys);
      ListsIsOne(spec, KeyField(spec, c), tables[c], RowsByKey(spec, KeyField(spec, c), tables[c]), view[c]);
    }
  }

  lemma SameIsView(spec: Spec, d: Discipline, tables: Tables, view: View)
    requires KeysTell(spec, d.keys) && Same(spec, d, tables, view)
    ensures ViewOf(spec, tables) == view
  {
    assert SameRows(spec, d.keys, tables, view) by {
      hide Keyed, Lists, RowsFit;
    }
    SameRowsReadTheSame(spec, d.keys, tables, view);
  }

  lemma ResolvedOpAgrees(spec: Spec, d: Discipline, op: Op, tables: Tables, view: View, s: Schema)
    requires Disciplined(spec, d) && OpFits(d, op) && Same(spec, d, tables, view) && Resolve(spec, op) == Some(s)
    ensures s.collection in tables && s.collection in view
    ensures Same(spec, d, tables[s.collection := LiveOp(spec, s, op, tables[s.collection])],
                 view[s.collection := DryOp(spec, s, op, view[s.collection])])
  {
    var c := s.collection;
    ResolvedIsDeclared(spec, op);
    hide LiveOp, DryOp, Resolve, First;
    assert SameAt(spec, d, KeyField(spec, c), tables[c], view[c]);
    OpAgrees(spec, d, s, op, tables[c], view[c]);
    hide OpFits, Keyed, Lists, RowsFit;
    SameUpdated(spec, d, tables, view, c, LiveOp(spec, s, op, tables[c]), DryOp(spec, s, op, view[c]));
  }

  lemma {:induction false} OpsAgree(spec: Spec, d: Discipline, ops: seq<Op>, tables: Tables, view: View)
    requires Disciplined(spec, d) && OpsFit(d, ops) && Same(spec, d, tables, view)
    ensures var l, s := LiveOps(spec, ops, tables), DryOps(spec, ops, view);
            (l.Some? <==> s.Some?) && (l.Some? ==> Same(spec, d, l.value, s.value))
  {
    hide Same, Disciplined, OpFits, LiveOp, DryOp, Resolve, First;
    if |ops| > 0 {
      var front, op := ops[..|ops| - 1], ops[|ops| - 1];
      OpsAgree(spec, d, front, tables, view);
      assert OpFits(d, op);
      var l, v := LiveOps(spec, front, tables), DryOps(spec, front, view);
      var s := Resolve(spec, op);
      if l.Some? && s.Some? {
        ResolvedOpAgrees(spec, d, op, l.value, v.value, s.value);
      }
    }
  }

  lemma SameUpdated(spec: Spec, d: Discipline, tables: Tables, view: View, c: string, rows: seq<Row>,
                    m: map<string, Row>)
    requires Same(spec, d, tables, view) && c in tables && SameAt(spec, d, KeyField(spec, c), rows, m)
    ensures Same(spec, d, tables[c := rows], view[c := m])
  {
  }

  /** One more event on the live side. */
  lemma LiveMore(spec: Spec, events: seq<Event>)
    requires |events| > 0
    ensures var n := |events| - 1;
            var before, live := LiveRun(spec, events[..n]), LiveRun(spec, events);
            var ops := spec.Project(events[n], ViewOf(spec, before.tables));
            && (before.applied < n ==> live == before)
            && (before.applied == n ==>
                  live == if ops.None? || LiveOps(spec, ops.value, before.tables).None? then before
                          else Live(LiveOps(spec, ops.value, before.tables).value, n + 1))
  {
  }

  /** And in the simulation. */
  lemma DryMore(spec: Spec, events: seq<Event>)
    requires |events| > 0
    ensures var n := |events| - 1;
            var before := DryRun(spec, events[..n]);
            var ops := if before.None? then None else spec.Project(events[n], before.value);
            DryRun(spec, events) == if ops.None? then None else DryOps(spec, ops.value, before.value)
  {
  }

  lemma PrefixesMeet(events: seq<Event>, n: nat, k: nat)
    requires k <= n && |events| == n + 1
    ensures events[..n][..k] == events[..k] && events[..n + 1] == events && events[..n][..n] == events[..n]
  {
  }

  lemma NoRows(spec: Spec, keys: iset<Value>)
    ensures LiveRun(spec, []).applied == 0 && DryRun(spec, []).Some?
    ensures SameRows(spec, keys, LiveRun(spec, []).tables, DryRun(spec, []).value)
  {
  }

  /**
   The dry run is the live run. For every list of events: the simulation fails exactly when
   the live projection blocks; and at whatever event the live projection has got to, the
   simulation of the events so far holds exactly its rows.
   */
  lemma {:induction false} DryIsLive(spec: Spec, d: Discipline, events: seq<Event>)
    requires Disciplined(spec, d)
    ensures var live := LiveRun(spec, events);
            && (DryRun(spec, events).Some? <==> live.applied == |events|)
            && DryRun(spec, events[..live.applied]).Some?
            && Same(spec, d, live.tables, DryRun(spec, events[..live.applied]).value)
            && ViewOf(spec, live.tables) == DryRun(spec, events[..live.applied]).value
  {
    hide *;
    var live := LiveRun(spec, events);
    if |events| == 0 {
      assert events == [] && events[..0] == [];
      EmptySame(spec, d);
      ReadsTheSame(spec, d, live.tables, DryRun(spec, events).value);
    } else {
      var n := |events| - 1;
      var front := events[..n];
      DryIsLive(spec, d, front);
      LiveMore(spec, events);
      DryMore(spec, events);
      var before := LiveRun(spec, front);
      PrefixesMeet(events, n, before.applied);
      if before.applied == n {
        var view := DryRun(spec, front).value;
        var ops := spec.Project(events[n], view);
        if ops.Some? {
          DisciplinedOps(spec, d, events[n], view);
          OpsAgree(spec, d, ops.value, before.tables, view);
          if live.applied == n + 1 {
            ReadsTheSame(spec, d, live.tables, DryRun(spec, events).value);
          }
        }
      }
    }
  }

  lemma ReadsTheSame(spec: Spec, d: Discipline, tables: Tables, view: View)
    requires Disciplined(spec, d) && Same(spec, d, tables, view)
    ensures ViewOf(spec, tables) == view
  {
    hide Same, KeysTell;
    SameIsView(spec, d, tables, view);
  }

  lemma DisciplinedOps(spec: Spec, d: Discipline, e: Event, view: View)
    requires Disciplined(spec, d) && spec.Project(e, view).Some?
    ensures OpsFit(d, spec.Project(e, view).value)
  {
  }

  lemma EmptySame(spec: Spec, d: Discipline)
    ensures LiveRun(spec, []).applied == 0 && DryRun(spec, []).Some?
    ensures Same(spec, d, LiveRun(spec, []).tables, DryRun(spec, []).value)
  {
  }

  // ---------------------------------------------------------------------
  // Exactly when
  // ---------------------------------------------------------------------

  /** Every op of the projection names its row by one of these keys. */
  ghost predicate KeysOnly(spec: Spec, keys: iset<Value>) {
    forall e: Event, view: View :: spec.Project(e, view).Some? ==> OpsNamed(spec.Project(e, view).value, keys)
  }

  ghost predicate OpsNamed(ops: seq<Op>, keys: iset<Value>) {
    forall i :: 0 <= i < |ops| ==> ops[i].key in keys
  }

  /** The op is safe on the live record it finds, or on the one it makes. */
  predicate SafeAt(spec: Spec, s: Schema, op: Op, rows: seq<Row>) {
    var i := Find(rows, s.key, op.key);
    OpSafe(spec, s, op, i < |rows|, if i < |rows| then rows[i] else map[s.key := op.key])
  }

  /** Each op the live side applies is safe on the rows it meets. */
  ghost predicate OpsSafe(spec: Spec, ops: seq<Op>, tables: Tables) {
    |ops| > 0 ==>
      var front, op := ops[..|ops| - 1], ops[|ops| - 1];
      var before, s := LiveOps(spec, front, tables), Resolve(spec, op);
      && OpsSafe(spec, front, tables)
      && (before.Some? && s.Some? && s.value.collection in before.value ==>
            SafeAt(spec, s.value, op, before.value[s.value.collection]))
  }

  /** The two sides hold the same rows, or have both failed, after every op. */
  ghost predicate OpsSame(spec: Spec, keys: iset<Value>, ops: seq<Op>, tables: Tables, view: View) {
    var l, v := LiveOps(spec, ops, tables), DryOps(spec, ops, view);
    && (|ops| > 0 ==> OpsSame(spec, keys, ops[..|ops| - 1], tables, view))
    && (l.Some? <==> v.Some?) && (l.Some? ==> SameRows(spec, keys, l.value, v.value))
  }

  lemma OneOpSameIff(spec: Spec, keys: iset<Value>, op: Op, tables: Tables, view: View, s: Schema)
    requires KeysTell(spec, keys) && op.key in keys && SameRows(spec, keys, tables, view)
             && Resolve(spec, op) == Some(s)
    ensures s.collection in tables && s.collection in view
    ensures SameRows(spec, keys, tables[s.collection := LiveOp(spec, s, op, tables[s.collection])],
                     view[s.collection := DryOp(spec, s, op, view[s.collection])]) <==>
            SafeAt(spec, s, op, tables[s.collection])
  {
    ResolvedIsDeclared(spec, op);
    hide LiveOp, DryOp, Resolve, First, OpSafe, Keyed, Lists;
    var c := s.collection;
    OpAgreesIff(spec, s, op, tables[c], view[c], keys);
    OneCollectionSame(spec, keys, tables, view, c, LiveOp(spec, s, op, tables[c]), DryOp(spec, s, op, view[c]));
  }

  lemma OneCollectionSame(spec: Spec, keys: iset<Value>, tables: Tables, view: View, c: string, rows: seq<Row>,
                          m: map<string, Row>)
    requires SameRows(spec, keys, tables, view) && c in tables && Keyed(spec, KeyField(spec, c), rows, keys)
    ensures SameRows(spec, keys, tables[c := rows], view[c := m]) <==> Lists(spec, KeyField(spec, c), rows, m)
  {
    hide Keyed, Lists, KeyField;
    var tables', view' := tables[c := rows], view[c := m];
    assert tables'[c] == rows && view'[c] == m;
  }

  lemma {:induction false} OpsSameIff(spec: Spec, keys: iset<Value>, ops: seq<Op>, tables: Tables, view: View)
    requires KeysTell(spec, keys) && OpsNamed(ops, keys) && SameRows(spec, keys, tables, view)
    ensures OpsSame(spec, keys, ops, tables, view) <==> OpsSafe(spec, ops, tables)
  {
    hide SameRows, KeysTell, LiveOp, DryOp, Resolve, First, SafeAt;
    if |ops| > 0 {
      var front, op := ops[..|ops| - 1], ops[|ops| - 1];
      OpsSameIff(spec, keys, front, tables, view);
      var l, v := LiveOps(spec, front, tables), DryOps(spec, front, view);
      var s := Resolve(spec, op);
      if OpsSame(spec, keys, front, tables, view) && l.Some? && s.Some? {
        OneOpSameIff(spec, keys, op, l.value, v.value, s.value);
      }
    }
  }

  /** Each op of every event the live projection gets to is safe on the rows it meets. */
  ghost predicate RunSafe(spec: Spec, events: seq<Event>) {
    |events| > 0 ==>
      var n := |events| - 1;
      var before := LiveRun(spec, events[..n]);
      var ops := spec.Project(events[n], ViewOf(spec, before.tables));
      RunSafe(spec, events[..n]) && (before.applied == n && ops.Some? ==> OpsSafe(spec, ops.value, before.tables))
  }

  /** The simulation holds the live rows after every op of every event the live projection gets to. */
  ghost predicate RunSame(spec: Spec, keys: iset<Value>, events: seq<Event>) {
    |events| > 0 ==>
      var n := |events| - 1;
      var before, dry := LiveRun(spec, events[..n]), DryRun(spec, events[..n]);
      && RunSame(spec, keys, events[..n])
      && (before.applied == n ==>
            && dry.Some? && SameRows(spec, keys, before.tables, dry.value)
            && var ops := spec.Project(events[n], dry.value);
               ops.Some? ==> OpsSame(spec, keys, ops.value, before.tables, dry.value))
  }

  lemma OpsSameEnd(spec: Spec, keys: iset<Value>, ops: seq<Op>, tables: Tables, view: View)
    requires OpsSame(spec, keys, ops, tables, view)
    ensures var l, v := LiveOps(spec, ops, tables), DryOps(spec, ops, view);
            (l.Some? <==> v.Some?) && (l.Some? ==> SameRows(spec, keys, l.value, v.value))
  {
  }

  /** Agreeing all the way, the two end alike: the simulation fails exactly when the live projection blocks. */
  lemma {:induction false} RunSameEnd(spec: Spec, keys: iset<Value>, events: seq<Event>)
    requires KeysTell(spec, keys) && RunSame(spec, keys, events)
    ensures var live := LiveRun(spec, events);
            && (DryRun(spec, events).Some? <==> live.applied == |events|)
            && DryRun(spec, events[..live.applied]).Some?
            && SameRows(spec, keys, live.tables, DryRun(spec, events[..live.applied]).value)
            && ViewOf(spec, live.tables) == DryRun(spec, events[..live.applied]).value
  {
    hide *;
    var live := LiveRun(spec, events);
    if |events| == 0 {
      assert events == [] && events[..0] == [];
      NoRows(spec, keys);
      SameRowsReadTheSame(spec, keys, live.tables, DryRun(spec, events).value);
    } else {
      var n := |events| - 1;
      var front := events[..n];
      RunSameMore(spec, keys, events);
      RunSameEnd(spec, keys, front);
      LiveMore(spec, events);
      DryMore(spec, events);
      var before := LiveRun(spec, front);
      PrefixesMeet(events, n, before.applied);
      if before.applied == n {
        var view := DryRun(spec, front).value;
        var ops := spec.Project(events[n], view);
        if ops.Some? {
          OpsSameEnd(spec, keys, ops.value, before.tables, view);
          if live.applied == n + 1 {
            SameRowsReadTheSame(spec, keys, live.tables, DryRun(spec, events).value);
          }
        }
      }
    }
  }

  lemma RunSameMore(spec: Spec, keys: iset<Value>, events: seq<Event>)
    requires |events| > 0 && RunSame(spec, keys, events)
    ensures var n := |events| - 1;
            var before, dry := LiveRun(spec, events[..n]), DryRun(spec, events[..n]);
            && RunSame(spec, keys, events[..n])
            && (before.applied == n ==>
                  && dry.Some? && SameRows(spec, keys, before.tables, dry.value)
                  && (spec.Project(events[n], dry.value).Some? ==>
                        OpsSame(spec, keys, spec.Project(events[n], dry.value).value, before.tables, dry.value)))
  {
    hide LiveRun, DryRun, SameRows, OpsSame;
  }

  /**
   The dry run is the live run, op by op, if and only if every op is safe on the live rows it
   meets: for every projection and every list of events, so long as keys print apart.
   */
  lemma {:induction false} DryIsLiveIff(spec: Spec, keys: iset<Value>, events: seq<Event>)
    requires KeysTell(spec, keys) && KeysOnly(spec, keys)
    ensures RunSame(spec, keys, events) <==> RunSafe(spec, events)
  {
    hide SameRows, KeysTell, LiveOps, DryOps, OpsSame, OpsSafe;
    if |events| > 0 {
      var n := |events| - 1;
      var front := events[..n];
      DryIsLiveIff(spec, keys, front);
      var before := LiveRun(spec, front);
      if RunSame(spec, keys, front) && before.applied == n {
        RunSameEnd(spec, keys, front);
        assert front[..n] == front;
        var view := DryRun(spec, front).value;
        var ops := spec.Project(events[n], view);
        if ops.Some? {
          assert OpsNamed(ops.value, keys);
          OpsSameIff(spec, keys, ops.value, before.tables, view);
        }
      }
    }
  }

  // ---------------------------------------------------------------------
  // Outside the discipline
  // ---------------------------------------------------------------------

  /** Counts every event in the reserved field "updated". */
  function ReservedCounter(): Spec {
    Spec([Schema("totals", "name")], {"Opened"},
         (e: Event, view: View) => Some([Some(Increment("", Str("all"), "updated", 1.0))]),
         (v: Value) => if v.Str? then v.s else "",
         (text: string) => 0.0)
  }

  const COUNT := Increment("", Str("all"), "updated", 1.0)
  const TOTALS := Schema("totals", "name")

  lemma CounterReturns(e: Event, view: View)
    requires e.kind == "Opened"
    ensures ReservedCounter().Project(e, view) == Some([COUNT]) && Resolve(ReservedCounter(), COUNT) == Some(TOTALS)
    ensures ReservedCounter().Collections() == {"totals"}
  {
    var items := [Some(COUNT)];
    assert items[..0] == [] && [] + [COUNT] == [COUNT] && OpsIn(items) == [COUNT];
    assert ReservedCounter().Returned(e, view) == Some(items);
    assert ReservedCounter().schemas[0].collection == "totals";
  }

  /** Live, the op is ignored and nothing is saved. */
  lemma CountedLive(tables: Tables)
    requires Resolve(ReservedCounter(), COUNT) == Some(TOTALS) && "totals" in tables && tables["totals"] == []
    ensures LiveOps(ReservedCounter(), [COUNT], tables) == Some(tables)
  {
    assert [COUNT][..0] == [] && LiveOps(ReservedCounter(), [], tables) == Some(tables);
    assert LiveOp(ReservedCounter(), TOTALS, COUNT, []) == [];
    assert tables["totals" := []] == tables;
  }

  /** Simulated, a row is made and counted in. */
  lemma CountedDry(view: View)
    requires Resolve(ReservedCounter(), COUNT) == Some(TOTALS) && "totals" in view && view["totals"] == map[]
    ensures var row: Row := map["name" := Str("all"), "updated" := Num(1.0)];
            DryOps(ReservedCounter(), [COUNT], view) == Some(view["totals" := map["all" := row]])
  {
    var made: Row := map["name" := Str("all")];
    var row: Row := map["name" := Str("all"), "updated" := Num(1.0)];
    assert [COUNT][..0] == [] && DryOps(ReservedCounter(), [], view) == Some(view);
    assert At(made, "updated") == Null && made["updated" := Num(1.0)] == row;
    assert DryWrite(TOTALS, COUNT, made) == row;
    assert DryOp(ReservedCounter(), TOTALS, COUNT, map[]) == map["all" := row];
  }

  /** The live projection ignores the op and saves no row; the simulation reports one. */
  lemma ReservedCountDiffers(e: Event)
    requires e.kind == "Opened"
    ensures var live, dry := LiveRun(ReservedCounter(), [e]), DryRun(ReservedCounter(), [e]);
            && live.applied == 1 && dry.Some? && "totals" in live.tables && "totals" in dry.value
            && live.tables["totals"] == []
            && dry.value["totals"] == map["all" := map["name" := Str("all"), "updated" := Num(1.0)]]
  {
    var spec := ReservedCounter();
    var before, start := LiveRun(spec, []), DryRun(spec, []).value;
    CounterReturns(e, ViewOf(spec, before.tables));
    CounterReturns(e, start);
    assert "totals" in before.tables && before.tables["totals"] == [] && before.applied == 0;
    assert "totals" in start && start["totals"] == map[];
    hide *;
    assert [e][..0] == [];
    LiveMore(spec, [e]);
    DryMore(spec, [e]);
    NoRows(spec, iset{});
    CountedLive(before.tables);
    CountedDry(start);
  }
}
