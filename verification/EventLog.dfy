/**
 The append-only event log as a value: the events table is a sequence of rows in
 position order, and every write is a function from the table before to the table after.
 Ids and timestamps are drawn by the environment, one per position.
 */
module EventLog {
  import opened Wrappers

  type Metadata = map<string, string>

  type StreamKey = (string, string)

  const COMMAND_ID := "commandId"
  const IMPORTED := "imported"

  datatype Event = Event(
    position: nat,
    eid: string,
    aggregate: string,
    aggregateId: string,
    sequence: nat,
    kind: string,
    data: string,
    metadata: Metadata,
    version: int,
    created: string
  )

  datatype NewEvent = NewEvent(kind: string, data: string, metadata: Metadata, version: int)

  /** What the database and the process draw for the row at a position. */
  datatype Env = Env(mint: nat -> string, clock: nat -> string) {
    function Id(position: nat): string {
      mint(position)
    }

    function Created(position: nat): string {
      clock(position)
    }
  }

  datatype Error =
    | Concurrency
    | BatchAborted
    | ImportMarker
    | Collision
    | Storage
    | UnknownAggregate
    | LoadFailed
    | EvolveFailed
    | Rejection(message: string)
    | DecideFault(message: string)
    | RevealFailed
    | ProtectFailed
    | EncodeFailed
    | InvalidMeta
    | MissingNow
    | SealFailed
    | QueueFull(depth: nat)

  function Key(e: Event): StreamKey {
    (e.aggregate, e.aggregateId)
  }

  function NormVersion(version: int): int {
    if version <= 0 then 1 else version
  }

  function CommandIdOf(e: Event): Option<string> {
    if COMMAND_ID in e.metadata then Some(e.metadata[COMMAND_ID]) else None
  }

  predicate IsImported(e: Event) {
    IMPORTED in e.metadata && e.metadata[IMPORTED] == "true"
  }

  // ---------------------------------------------------------------------
  // Reading the table
  // ---------------------------------------------------------------------

  /** The rows of one stream, in position order. */
  function StreamOf(log: seq<Event>, key: StreamKey): seq<Event> {
    if |log| == 0 then []
    else
      var before := StreamOf(log[..|log| - 1], key);
      if Key(log[|log| - 1]) == key then before + [log[|log| - 1]] else before
  }

  /** COALESCE(MAX(sequence), 0) over one stream. */
  function CurrentSequence(log: seq<Event>, key: StreamKey): nat {
    if |log| == 0 then 0
    else
      var before := CurrentSequence(log[..|log| - 1], key);
      var e := log[|log| - 1];
      if Key(e) == key && e.sequence > before then e.sequence else before
  }

  /** The position AUTOINCREMENT gives the next row (rows are never deleted). */
  function NextPosition(log: seq<Event>): nat {
    if |log| == 0 then 1 else log[|log| - 1].position + 1
  }

  function MaxPosition(log: seq<Event>): nat {
    if |log| == 0 then 0 else log[|log| - 1].position
  }

  function InsertBySequence(sorted: seq<Event>, e: Event): seq<Event> {
    if |sorted| == 0 || sorted[|sorted| - 1].sequence <= e.sequence then sorted + [e]
    else InsertBySequence(sorted[..|sorted| - 1], e) + [sorted[|sorted| - 1]]
  }

  function OrderBySequence(rows: seq<Event>): seq<Event> {
    if |rows| == 0 then []
    else InsertBySequence(OrderBySequence(rows[..|rows| - 1]), rows[|rows| - 1])
  }

  /** SELECT ... WHERE aggregate = ? AND aggregate_id = ? ORDER BY sequence. */
  function LoadRows(log: seq<Event>, key: StreamKey): seq<Event> {
    OrderBySequence(StreamOf(log, key))
  }

  /** The rows carrying a command's id, in position order. */
  function Carrying(log: seq<Event>, id: string): seq<Event> {
    if |log| == 0 then []
    else
      var before := Carrying(log[..|log| - 1], id);
      if CommandIdOf(log[|log| - 1]) == Some(id) then before + [log[|log| - 1]] else before
  }

  /** Whether a row of the stream above a position carries the command's id. */
  predicate Applied(log: seq<Event>, key: StreamKey, id: string, after: nat) {
    exists i :: 0 <= i < |log| && Key(log[i]) == key && log[i].position > after && CommandIdOf(log[i]) == Some(id)
  }

  // ---------------------------------------------------------------------
  // Native appends
  // ---------------------------------------------------------------------

  function RowOf(env: Env, position: nat, key: StreamKey, sequence: nat, ne: NewEvent): Event {
    Event(position, env.Id(position), key.0, key.1, sequence, ne.kind, ne.data, ne.metadata,
          NormVersion(ne.version), env.Created(position))
  }

  /** The rows a list of new events becomes on a stream standing at sequence base. */
  function RowsOf(env: Env, next: nat, key: StreamKey, base: nat, evts: seq<NewEvent>): (rows: seq<Event>)
    ensures |rows| == |evts|
  {
    seq(|evts|, j requires 0 <= j < |evts| => RowOf(env, next + j, key, base + j + 1, evts[j]))
  }

  predicate CarriesMarker(evts: seq<NewEvent>) {
    exists j :: 0 <= j < |evts| && IMPORTED in evts[j].metadata
  }

  /** Store.Append as a function of the table. */
  function AppendTo(env: Env, log: seq<Event>, key: StreamKey, expected: nat, evts: seq<NewEvent>):
    Result<seq<Event>, Error>
  {
    if |evts| == 0 then Success(log)
    else if CarriesMarker(evts) then Failure(ImportMarker)
    else if CurrentSequence(log, key) != expected then Failure(Concurrency)
    else Success(log + RowsOf(env, NextPosition(log), key, expected, evts))
  }

  // ---------------------------------------------------------------------
  // Batches
  // ---------------------------------------------------------------------

  datatype DecidedCommand = DecidedCommand(commandId: string, key: StreamKey, expected: nat, newEvents: seq<NewEvent>)

  datatype BatchResult = BatchResult(commandId: string, events: seq<Event>, err: Option<Error>)

  /** stampCommandID over a command's events. */
  function Stamped(evts: seq<NewEvent>, id: string): (out: seq<NewEvent>)
    ensures |out| == |evts|
  {
    seq(|evts|, j requires 0 <= j < |evts| => evts[j].(metadata := evts[j].metadata[COMMAND_ID := id]))
  }

  predicate BatchCarriesMarker(batch: seq<DecidedCommand>) {
    exists i :: 0 <= i < |batch| && CarriesMarker(batch[i].newEvents)
  }

  /**
   Where the validation pass believes a stream stands once it has walked a batch: seeded
   from the table, advanced by each command whose expected sequence matched, and not
   advanced by one that did not.
   */
  function RunningSequence(log: seq<Event>, batch: seq<DecidedCommand>, key: StreamKey): nat {
    if |batch| == 0 then CurrentSequence(log, key)
    else
      var before := RunningSequence(log, batch[..|batch| - 1], key);
      var dc := batch[|batch| - 1];
      if dc.key == key && before == dc.expected then before + |dc.newEvents| else before
  }

  predicate Fits(log: seq<Event>, batch: seq<DecidedCommand>, i: nat)
    requires i < |batch|
  {
    RunningSequence(log, batch[..i], batch[i].key) == batch[i].expected
  }

  predicate AllFit(log: seq<Event>, batch: seq<DecidedCommand>) {
    forall i :: 0 <= i < |batch| ==> Fits(log, batch, i)
  }

  /** The rows command i of a batch becomes when everything before it has been inserted. */
  function BlockRows(env: Env, log: seq<Event>, dc: DecidedCommand): (rows: seq<Event>)
    ensures |rows| == |dc.newEvents|
  {
    RowsOf(env, NextPosition(log), dc.key, dc.expected, Stamped(dc.newEvents, dc.commandId))
  }

  /** The insert pass: every command's rows, in batch order. */
  function InsertBatch(env: Env, log: seq<Event>, batch: seq<DecidedCommand>): seq<Event> {
    if |batch| == 0 then log
    else
      var before := InsertBatch(env, log, batch[..|batch| - 1]);
      before + BlockRows(env, before, batch[|batch| - 1])
  }

  // ---------------------------------------------------------------------
  // Imports
  // ---------------------------------------------------------------------

  function ImportedRow(position: nat, e: Event): Event {
    e.(position := position, metadata := e.metadata[IMPORTED := "true"], version := NormVersion(e.version))
  }

  function ImportedRows(next: nat, evts: seq<Event>): (rows: seq<Event>)
    ensures |rows| == |evts|
  {
    seq(|evts|, j requires 0 <= j < |evts| => ImportedRow(next + j, evts[j]))
  }

  /** The refusal rule: the batch names a stream, or an aggregate, the table already has. */
  predicate Collides(log: seq<Event>, evts: seq<Event>) {
    exists i, j :: 0 <= i < |log| && 0 <= j < |evts| && log[i].aggregate == evts[j].aggregate
  }

  /** The table's UNIQUE constraints, over the table and the batch together. */
  predicate UniqueRows(log: seq<Event>, evts: seq<Event>) {
    && (forall i, j :: 0 <= i < |log| && 0 <= j < |evts| ==> log[i].eid != evts[j].eid)
    && (forall i, j :: 0 <= i < j < |evts| ==>
          evts[i].eid != evts[j].eid && (Key(evts[i]), evts[i].sequence) != (Key(evts[j]), evts[j].sequence))
  }

  /** Store.ImportEvents as a function of the table. */
  function ImportTo(log: seq<Event>, evts: seq<Event>): Result<seq<Event>, Error> {
    if |evts| == 0 then Success(log)
    else if Collides(log, evts) then Failure(Collision)
    else if !UniqueRows(log, evts) then Failure(Storage)
    else Success(log + ImportedRows(NextPosition(log), evts))
  }
}
