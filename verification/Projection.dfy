/**
 Row ops of a script projection, twice over: applied to live collections (records found,
 changed and saved one by one) and simulated over maps by the dry run.
 */
module Projection {
  import opened Wrappers
  import opened EventLog

  /**
   What a field may hold. Groups is the list of entries a groupByBump itself writes; an
   array a script returns is Arr, whatever it holds.
   */
  datatype Value =
    | Null
    | Bool(b: bool)
    | Num(n: real)
    | Str(s: string)
    | Arr(items: seq<Value>)
    | Obj(fields: map<string, Value>)
    | Groups(entries: seq<Row>)

  type Row = map<string, Value>

  datatype Schema = Schema(collection: string, key: string)

  /** An op as normalizeOps leaves it; collection is "" when the script named none. */
  datatype Op =
    | Delete(collection: string, key: Value)
    | Upsert(collection: string, key: Value, fields: Row)
    | Increment(collection: string, key: Value, field: string, delta: real)
    | GroupByBump(collection: string, key: Value, field: string, groupField: string, groupValue: Value,
                  subfield: string, delta: real)

  /** A projection's own rows as its script reads them: by collection, then by printed key. */
  type View = map<string, map<string, Row>>

  /** The ops among what a script returned; a value that is none is passed over. */
  function OpsIn(items: seq<Option<Op>>): (ops: seq<Op>)
    ensures |ops| <= |items|
  {
    if |items| == 0 then []
    else
      var before, last := OpsIn(items[..|items| - 1]), items[|items| - 1];
      if last.None? then before else before + [last.value]
  }

  /**
   project is the script, whose result is None when it throws or holds a malformed op; show
   and parse are fmt.Sprint on keys and the cast of a text to a number.
   */
  datatype Spec = Spec(
    schemas: seq<Schema>,
    eventTypes: set<string>,
    project: (Event, View) -> Option<seq<Option<Op>>>,
    show: Value -> string,
    parse: string -> real
  ) {
    /** What the script returns for an event; nothing, for a type it does not subscribe to. */
    function Returned(e: Event, rows: View): Option<seq<Option<Op>>> {
      if e.kind in eventTypes then project(e, rows) else Some([])
    }

    function Project(e: Event, rows: View): Option<seq<Op>> {
      var items := Returned(e, rows);
      if items.None? then None else Some(OpsIn(items.value))
    }

    function Print(v: Value): string {
      show(v)
    }

    function Parse(s: string): real {
      parse(s)
    }

    function Collections(): set<string> {
      set i | 0 <= i < |schemas| :: schemas[i].collection
    }
  }

  function First(schemas: seq<Schema>, collection: string): Option<Schema> {
    if |schemas| == 0 then None
    else if schemas[0].collection == collection then Some(schemas[0])
    else First(schemas[1..], collection)
  }

  /** An op that names a collection needs it declared; one that does not needs the only schema. */
  function Resolve(spec: Spec, op: Op): Option<Schema> {
    if op.collection != "" then First(spec.schemas, op.collection)
    else if |spec.schemas| == 1 then Some(spec.schemas[0])
    else None
  }

  const RESERVED: set<string> := {"id", "created", "updated"}

  predicate Writable(s: Schema, field: string) {
    field !in RESERVED && field != s.key
  }

  function At(row: Row, field: string): Value {
    if field in row then row[field] else Null
  }

  /** Only numbers are numbers to toFloat. */
  function ToFloat(v: Value): real {
    if v.Num? then v.n else 0.0
  }

  /** The record's own cast also reads booleans and texts. */
  function GetFloat(spec: Spec, v: Value): real {
    match v
    case Num(n) => n
    case Bool(b) => if b then 1.0 else 0.0
    case Str(s) => spec.Parse(s)
    case _ => 0.0
  }

  /** The entries a stored field decodes to; anything but a list decodes to none. */
  function LiveEntries(v: Value): seq<Row> {
    match v
    case Groups(entries) => entries
    case Arr(items) => seq(|items|, i requires 0 <= i < |items| => if items[i].Obj? then items[i].fields else map[])
    case _ => []
  }

  /** The simulation recognises only entries it wrote itself. */
  function DryEntries(v: Value): seq<Row> {
    if v.Groups? then v.entries else []
  }

  /** groupByRowIndex; |rows| when no entry matches. */
  function EntryIndex(rows: seq<Row>, groupField: string, groupValue: Value): (i: nat)
    ensures i <= |rows|
    ensures i < |rows| ==> At(rows[i], groupField) == groupValue
    ensures forall j :: 0 <= j < i ==> At(rows[j], groupField) != groupValue
  {
    if |rows| == 0 then 0
    else
      var i := EntryIndex(rows[..|rows| - 1], groupField, groupValue);
      if i < |rows| - 1 || At(rows[|rows| - 1], groupField) == groupValue then i else |rows|
  }

  /** The entry is found or created, then its subfield grows by delta. */
  function Bumped(rows: seq<Row>, op: Op): (out: seq<Row>)
    requires op.GroupByBump?
    ensures |rows| <= |out| <= |rows| + 1
  {
    var i := EntryIndex(rows, op.groupField, op.groupValue);
    var found := if i < |rows| then rows else rows + [map[op.groupField := op.groupValue]];
    found[i := found[i][op.subfield := Num(ToFloat(At(found[i], op.subfield)) + op.delta)]]
  }

  function Merged(s: Schema, row: Row, fields: Row): Row {
    row + map f | f in fields && Writable(s, f) :: fields[f]
  }

  // ---------------------------------------------------------------------
  // Live
  // ---------------------------------------------------------------------

  /** The record as it is saved; None when the op is ignored and nothing is saved. */
  function LiveWrite(spec: Spec, s: Schema, op: Op, row: Row): Option<Row>
    requires !op.Delete?
  {
    match op
    case Upsert(_, _, fields) => Some(Merged(s, row, fields))
    case Increment(_, _, field, delta) =>
      if !Writable(s, field) then None else Some(row[field := Num(GetFloat(spec, At(row, field)) + delta)])
    case GroupByBump(_, _, field, _, _, _, _) =>
      if !Writable(s, field) then None else Some(row[field := Groups(Bumped(LiveEntries(At(row, field)), op))])
  }

  /** The first record whose key field holds the value; |rows| when there is none. */
  function Find(rows: seq<Row>, keyField: string, key: Value): (i: nat)
    ensures i <= |rows|
    ensures i < |rows| ==> At(rows[i], keyField) == key
    ensures forall j :: 0 <= j < i ==> At(rows[j], keyField) != key
  {
    EntryIndex(rows, keyField, key)
  }

  function LiveOp(spec: Spec, s: Schema, op: Op, rows: seq<Row>): seq<Row> {
    var i := Find(rows, s.key, op.key);
    if op.Delete? then (if i < |rows| then rows[..i] + rows[i + 1..] else rows)
    else
      var w := LiveWrite(spec, s, op, if i < |rows| then rows[i] else map[s.key := op.key]);
      if w.None? then rows
      else if i < |rows| then rows[i := w.value]
      else rows + [w.value]
  }

  // ---------------------------------------------------------------------
  // Dry
  // ---------------------------------------------------------------------

  function DryWrite(s: Schema, op: Op, row: Row): Row
    requires !op.Delete?
  {
    match op
    case Upsert(_, _, fields) => Merged(s, row, fields)
    case Increment(_, _, field, delta) => row[field := Num(ToFloat(At(row, field)) + delta)]
    case GroupByBump(_, _, field, _, _, _, _) => row[field := Groups(Bumped(DryEntries(At(row, field)), op))]
  }

  function DryOp(spec: Spec, s: Schema, op: Op, rows: map<string, Row>): map<string, Row> {
    var k := spec.Print(op.key);
    if op.Delete? then rows - {k}
    else rows[k := DryWrite(s, op, if k in rows then rows[k] else map[s.key := op.key])]
  }

  // ---------------------------------------------------------------------
  // Events
  // ---------------------------------------------------------------------

  type Tables = map<string, seq<Row>>

  /** The key field of a collection: its first declaration's. */
  function KeyField(spec: Spec, collection: string): string {
    var s := First(spec.schemas, collection);
    if s.Some? then s.value.key else ""
  }

  /** Live records by printed key, the first one winning. */
  function RowsByKey(spec: Spec, keyField: string, rows: seq<Row>): map<string, Row> {
    if |rows| == 0 then map[]
    else
      var before := RowsByKey(spec, keyField, rows[..|rows| - 1]);
      var k := spec.Print(At(rows[|rows| - 1], keyField));
      if k in before then before else before[k := rows[|rows| - 1]]
  }

  function ViewOf(spec: Spec, tables: Tables): View {
    map c | c in tables :: RowsByKey(spec, KeyField(spec, c), tables[c])
  }

  function LiveOps(spec: Spec, ops: seq<Op>, tables: Tables): Option<Tables> {
    if |ops| == 0 then Some(tables)
    else
      var op := ops[|ops| - 1];
      var before := LiveOps(spec, ops[..|ops| - 1], tables);
      var s := Resolve(spec, op);
      if before.None? || s.None? || s.value.collection !in before.value then None
      else Some(before.value[s.value.collection := LiveOp(spec, s.value, op, before.value[s.value.collection])])
  }

  function DryOps(spec: Spec, ops: seq<Op>, rows: View): Option<View> {
    if |ops| == 0 then Some(rows)
    else
      var op := ops[|ops| - 1];
      var before := DryOps(spec, ops[..|ops| - 1], rows);
      var s := Resolve(spec, op);
      if before.None? || s.None? || s.value.collection !in before.value then None
      else Some(before.value[s.value.collection := DryOp(spec, s.value, op, before.value[s.value.collection])])
  }

  /** The simulation over a whole list of events: nothing, when any of them fails. */
  function DryRun(spec: Spec, events: seq<Event>): Option<View> {
    if |events| == 0 then Some(map c | c in spec.Collections() :: map[])
    else
      var before := DryRun(spec, events[..|events| - 1]);
      if before.None? then None
      else
        var ops := spec.Project(events[|events| - 1], before.value);
        if ops.None? then None else DryOps(spec, ops.value, before.value)
  }

  /** The live collections, and how many of the events have been committed into them. */
  datatype Live = Live(tables: Tables, applied: nat)

  /**
   The live projection fed the same events: an event commits whole, or blocks the
   projection where it stands.
   */
  function LiveRun(spec: Spec, events: seq<Event>): (l: Live)
    ensures l.applied <= |events|
  {
    if |events| == 0 then Live(map c | c in spec.Collections() :: [], 0)
    else
      var n := |events| - 1;
      var before := LiveRun(spec, events[..n]);
      if before.applied < n then before
      else
        var ops := spec.Project(events[n], ViewOf(spec, before.tables));
        var after := if ops.None? then None else LiveOps(spec, ops.value, before.tables);
        if after.None? then before else Live(after.value, n + 1)
  }
}
