/** The message and progress store of `ModuleCommunicator`, its schema sniffing,
    and `SchemaNegotiator`'s merge.

    The backing SQLite file is the class `Database`: its two tables are
    sequences of rows in rowid order. A `ModuleCommunicator` is bound to one
    module name and one database; several communicators may share a database,
    as several instances share the file. Wall-clock readings are parameters. */
module Communicator {
  import opened Wrappers
  import opened Ordering
  import opened Strings
  import opened Json

  /** The package-level `__version__`, a separate string from what
      `get_version` reports. */
  const PackageVersion: string := "0.4.0"

  /** A row of `messages(id, source, target, content, timestamp)`. */
  datatype MessageRow = MessageRow(id: nat, source: string, target: string, content: string, timestamp: Timestamp)

  /** A row of `progress(id, module, task, completed, total, timestamp)`. */
  datatype ProgressRow = ProgressRow(id: nat, moduleName: string, task: string, completed: int, total: int, timestamp: Timestamp)

  /** A message as `get_messages` returns it: the target column is not selected
      and the content is decoded. */
  datatype Message = Message(id: nat, source: string, data: Value, timestamp: Timestamp)

  /** `json.loads` rejected the content of the row with this id. */
  datatype StoreError = DeserializationError(rowId: nat)

  datatype ProgressReport = ProgressReport(completed: int, total: int, percentage: real)

  /** What `send_async` returns: a status and the wall-clock time in seconds. */
  datatype Ack = Ack(status: string, id: real)

  function MessageId(r: MessageRow): nat { r.id }
  function ProgressId(r: ProgressRow): nat { r.id }
  function MessageTime(r: MessageRow): int { r.timestamp }
  function ProgressTime(r: ProgressRow): int { r.timestamp }

  // ---------------------------------------------------------------------------
  // Row ids

  ghost predicate DistinctIds<T>(rows: seq<T>, id: T -> nat) {
    forall i, j :: 0 <= i < j < |rows| ==> id(rows[i]) != id(rows[j])
  }

  /** The largest rowid in use, 0 for an empty table. */
  function LargestRowid<T>(rows: seq<T>, id: T -> nat): (m: nat)
    ensures forall i :: 0 <= i < |rows| ==> id(rows[i]) <= m
    ensures rows == [] ==> m == 0
    ensures rows != [] ==> exists i :: 0 <= i < |rows| && id(rows[i]) == m
  {
    if rows == [] then 0
    else
      var m := LargestRowid(rows[..|rows| - 1], id);
      var last := id(rows[|rows| - 1]);
      if last > m then last else m
  }

  /** The rowid SQLite gives a row inserted without one into a table whose key
      is `INTEGER PRIMARY KEY`: one more than the largest in use. */
  function NextRowid<T>(rows: seq<T>, id: T -> nat): (n: nat)
    ensures n >= 1
    ensures forall i :: 0 <= i < |rows| ==> id(rows[i]) < n
  {
    LargestRowid(rows, id) + 1
  }

  /** The progress table's only key is the rowid and `track_progress` never
      supplies one, so its `INSERT OR REPLACE` finds no row to replace. */
  lemma InsertOrReplaceNeverReplaces(rows: seq<ProgressRow>, row: ProgressRow)
    requires row.id == NextRowid(rows, ProgressId)
    ensures forall i :: 0 <= i < |rows| ==> rows[i].id != row.id
    ensures DistinctIds(rows, ProgressId) ==> DistinctIds(rows + [row], ProgressId)
  {
    assert forall i :: 0 <= i < |rows| ==> ProgressId(rows[i]) < row.id;
  }

  class Database {
    var messages: seq<MessageRow>
    var progress: seq<ProgressRow>

    /** Rowids are unique in each table. */
    ghost predicate Valid()
      reads this
    {
      DistinctIds(messages, MessageId) && DistinctIds(progress, ProgressId)
    }

    /** A database file holding these rows (empty tables for a new file). */
    constructor (messages: seq<MessageRow>, progress: seq<ProgressRow>)
      requires DistinctIds(messages, MessageId) && DistinctIds(progress, ProgressId)
      ensures Valid()
      ensures this.messages == messages && this.progress == progress
    {
      this.messages := messages;
      this.progress := progress;
    }

    /** `INSERT INTO messages (source, target, content, timestamp)`. */
    method InsertMessage(source: string, target: string, content: string, timestamp: Timestamp)
      returns (id: nat)
      requires Valid()
      modifies this
      ensures Valid()
      ensures id == NextRowid(old(messages), MessageId)
      ensures messages == old(messages) + [MessageRow(id, source, target, content, timestamp)]
      ensures progress == old(progress)
    {
      id := NextRowid(messages, MessageId);
      messages := messages + [MessageRow(id, source, target, content, timestamp)];
    }

    /** `INSERT OR REPLACE INTO progress (module, task, completed, total, timestamp)`. */
    method InsertProgress(moduleName: string, task: string, completed: int, total: int, timestamp: Timestamp)
      returns (id: nat)
      requires Valid()
      modifies this
      ensures Valid()
      ensures id == NextRowid(old(progress), ProgressId)
      ensures progress == old(progress) + [ProgressRow(id, moduleName, task, completed, total, timestamp)]
      ensures messages == old(messages)
    {
      id := NextRowid(progress, ProgressId);
      InsertOrReplaceNeverReplaces(progress, ProgressRow(id, moduleName, task, completed, total, timestamp));
      progress := progress + [ProgressRow(id, moduleName, task, completed, total, timestamp)];
    }
  }

  // ---------------------------------------------------------------------------
  // Reading messages

  function AddressedTo(target: string): MessageRow -> bool {
    (r: MessageRow) => r.target == target
  }

  /** `SELECT ... FROM messages WHERE target = ? ORDER BY timestamp DESC`. */
  function MessagesFor(rows: seq<MessageRow>, target: string): seq<MessageRow> {
    SortDesc(Filter(rows, AddressedTo(target)), MessageTime)
  }

  /** `m` is the row `row` with its content decoded. */
  ghost predicate DecodesTo(row: MessageRow, loads: string -> Option<Value>, m: Message) {
    loads(row.content) == Some(m.data) && m == Message(row.id, row.source, m.data, row.timestamp)
  }

  /** Decoding the selected rows one by one, as the loop of `get_messages`
      does; the first row whose content does not parse raises. */
  function Decoded(rows: seq<MessageRow>, loads: string -> Option<Value>): Result<seq<Message>, StoreError> {
    if rows == [] then Success([])
    else
      match Decoded(rows[..|rows| - 1], loads)
      case Failure(e) => Failure(e)
      case Success(ms) =>
        var last := rows[|rows| - 1];
        match loads(last.content)
        case None => Failure(DeserializationError(last.id))
        case Some(v) => Success(ms + [Message(last.id, last.source, v, last.timestamp)])
  }

  /** What `get_messages(target)` returns on a table holding `rows`. */
  function Inbox(rows: seq<MessageRow>, target: string, loads: string -> Option<Value>): Result<seq<Message>, StoreError> {
    Decoded(MessagesFor(rows, target), loads)
  }

  /** Decoding succeeds exactly when every row parses, and then gives one
      message per row, in the same order. */
  lemma {:induction false} DecodedExact(rows: seq<MessageRow>, loads: string -> Option<Value>)
    ensures Decoded(rows, loads).Success? <==> forall i :: 0 <= i < |rows| ==> loads(rows[i].content).Some?
    ensures Decoded(rows, loads).Success? ==>
              |Decoded(rows, loads).value| == |rows| &&
              forall i :: 0 <= i < |rows| ==> DecodesTo(rows[i], loads, Decoded(rows, loads).value[i])
  {
    if rows != [] {
      var init := rows[..|rows| - 1];
      DecodedExact(init, loads);
      assert forall i :: 0 <= i < |init| ==> init[i] == rows[i];
    }
  }

  /** A failure while decoding a prefix is the failure of the whole. */
  lemma {:induction false} DecodedPrefixFailure(rows: seq<MessageRow>, k: nat, loads: string -> Option<Value>)
    requires k <= |rows|
    requires Decoded(rows[..k], loads).Failure?
    ensures Decoded(rows, loads) == Decoded(rows[..k], loads)
  {
    if k < |rows| {
      assert rows[..|rows| - 1][..k] == rows[..k];
      DecodedPrefixFailure(rows[..|rows| - 1], k, loads);
    } else {
      assert rows[..k] == rows;
    }
  }

  /** The query selects exactly the rows addressed to `target`, newest first. */
  lemma MessagesForExact(rows: seq<MessageRow>, target: string)
    ensures forall row :: row in MessagesFor(rows, target) <==> row in rows && row.target == target
    ensures |MessagesFor(rows, target)| == |Filter(rows, AddressedTo(target))|
    ensures SortedDesc(MessagesFor(rows, target), MessageTime)
  {
    SortDescMembers(Filter(rows, AddressedTo(target)), MessageTime);
    SortDescSorted(Filter(rows, AddressedTo(target)), MessageTime);
  }

  /** `get_messages(t)` returns exactly the messages addressed to `t`, each
      with its content decoded, newest first; it fails exactly when one of
      them does not parse. */
  lemma InboxExact(rows: seq<MessageRow>, t: string, loads: string -> Option<Value>)
    ensures Inbox(rows, t, loads).Success? <==>
              forall row :: row in rows && row.target == t ==> loads(row.content).Some?
    ensures Inbox(rows, t, loads).Success? ==>
              var ms := Inbox(rows, t, loads).value;
              && |ms| == |Filter(rows, AddressedTo(t))|
              && (forall m :: m in ms <==> exists row :: row in rows && row.target == t && DecodesTo(row, loads, m))
              && (forall i, j :: 0 <= i < j < |ms| ==> ms[j].timestamp <= ms[i].timestamp)
  {
    InboxSucceeds(rows, t, loads);
    if Inbox(rows, t, loads).Success? {
      InboxMembers(rows, t, loads);
      InboxOrder(rows, t, loads);
    }
  }

  lemma InboxSucceeds(rows: seq<MessageRow>, t: string, loads: string -> Option<Value>)
    ensures Inbox(rows, t, loads).Success? <==>
              forall row :: row in rows && row.target == t ==> loads(row.content).Some?
  {
    var sel := MessagesFor(rows, t);
    DecodedExact(sel, loads);
    MessagesForExact(rows, t);
    if Inbox(rows, t, loads).Success? {
      forall row | row in rows && row.target == t ensures loads(row.content).Some? {
        var i :| 0 <= i < |sel| && sel[i] == row;
      }
    } else {
      var i :| 0 <= i < |sel| && loads(sel[i].content).None?;
      assert sel[i] in sel;
    }
  }

  lemma InboxMembers(rows: seq<MessageRow>, t: string, loads: string -> Option<Value>)
    requires Inbox(rows, t, loads).Success?
    ensures |Inbox(rows, t, loads).value| == |Filter(rows, AddressedTo(t))|
    ensures forall m :: m in Inbox(rows, t, loads).value <==>
              exists row :: row in rows && row.target == t && DecodesTo(row, loads, m)
  {
    var sel := MessagesFor(rows, t);
    DecodedExact(sel, loads);
    DecodedMembers(sel, loads);
    MessagesForExact(rows, t);
    var ms := Decoded(sel, loads).value;
    forall m | m in ms ensures exists row :: row in rows && row.target == t && DecodesTo(row, loads, m) {
      var row :| row in sel && DecodesTo(row, loads, m);
      assert row in rows && row.target == t;
    }
    forall m | exists row :: row in rows && row.target == t && DecodesTo(row, loads, m) ensures m in ms {
      var row :| row in rows && row.target == t && DecodesTo(row, loads, m);
      assert row in sel;
    }
  }

  /** A successful decoding holds exactly the decoded rows. */
  lemma DecodedMembers(sel: seq<MessageRow>, loads: string -> Option<Value>)
    requires Decoded(sel, loads).Success?
    ensures forall m :: m in Decoded(sel, loads).value <==> exists row :: row in sel && DecodesTo(row, loads, m)
  {
    DecodedExact(sel, loads);
    var ms := Decoded(sel, loads).value;
    forall m | m in ms ensures exists row :: row in sel && DecodesTo(row, loads, m) {
      var i :| 0 <= i < |ms| && ms[i] == m;
      assert sel[i] in sel;
    }
    forall m | exists row :: row in sel && DecodesTo(row, loads, m) ensures m in ms {
      var row :| row in sel && DecodesTo(row, loads, m);
      var i :| 0 <= i < |sel| && sel[i] == row;
      assert ms[i] == m;
    }
  }

  lemma InboxOrder(rows: seq<MessageRow>, t: string, loads: string -> Option<Value>)
    requires Inbox(rows, t, loads).Success?
    ensures var ms := Inbox(rows, t, loads).value;
            forall i, j :: 0 <= i < j < |ms| ==> ms[j].timestamp <= ms[i].timestamp
  {
    var sel := MessagesFor(rows, t);
    DecodedExact(sel, loads);
    MessagesForExact(rows, t);
    var ms := Inbox(rows, t, loads).value;
    forall i, j | 0 <= i < j < |ms| ensures ms[j].timestamp <= ms[i].timestamp {
      assert MessageTime(sel[j]) <= MessageTime(sel[i]);
    }
  }

  /** Of two messages to the same target, the one with the later timestamp
      comes first. */
  lemma NewerMessageFirst(rows: seq<MessageRow>, t: string, loads: string -> Option<Value>, i: nat, j: nat)
    requires Inbox(rows, t, loads).Success?
    requires i < |Inbox(rows, t, loads).value| && j < |Inbox(rows, t, loads).value|
    requires Inbox(rows, t, loads).value[i].timestamp < Inbox(rows, t, loads).value[j].timestamp
    ensures j < i
  {
    InboxExact(rows, t, loads);
  }

  /** Data sent to `t` comes back from `get_messages(t)` unchanged, provided
      the codec round-trips and the other rows addressed to `t` parse. */
  lemma {:induction false} SentDataComesBack(rows: seq<MessageRow>, codec: Codec, s: string, t: string, d: Value, now: Timestamp)
    requires codec.RoundTrips()
    requires forall row :: row in rows && row.target == t ==> codec.loads(row.content).Some?
    ensures var id := NextRowid(rows, MessageId);
            var inbox := Inbox(rows + [MessageRow(id, s, t, codec.dumps(d), now)], t, codec.loads);
            inbox.Success? && Message(id, s, d, now) in inbox.value
  {
    var row := MessageRow(NextRowid(rows, MessageId), s, t, codec.dumps(d), now);
    var rows' := rows + [row];
    assert codec.loads(codec.dumps(d)) == Some(d);
    AppendedRowParses(rows, row, t, codec.loads);
    InboxSucceeds(rows', t, codec.loads);
    assert row in rows' && DecodesTo(row, codec.loads, Message(row.id, s, d, now));
    InboxHas(rows', t, codec.loads, row, Message(row.id, s, d, now));
  }

  /** A row to `t` that decodes to `m` puts `m` in a successful inbox of `t`. */
  lemma InboxHas(rows: seq<MessageRow>, t: string, loads: string -> Option<Value>, row: MessageRow, m: Message)
    requires Inbox(rows, t, loads).Success?
    requires row in rows && row.target == t && DecodesTo(row, loads, m)
    ensures m in Inbox(rows, t, loads).value
  {
    InboxMembers(rows, t, loads);
  }

  /** Appending a row that parses keeps every row addressed to `t` parseable. */
  lemma AppendedRowParses(rows: seq<MessageRow>, row: MessageRow, t: string, loads: string -> Option<Value>)
    requires forall r :: r in rows && r.target == t ==> loads(r.content).Some?
    requires loads(row.content).Some?
    ensures forall r :: r in rows + [row] && r.target == t ==> loads(r.content).Some?
  {
    forall r | r in rows + [row] && r.target == t ensures loads(r.content).Some? {
      if r != row {
        assert r in rows;
      }
    }
  }

  // ---------------------------------------------------------------------------
  // Reading progress

  function ProgressOf(moduleName: string, task: string): ProgressRow -> bool {
    (r: ProgressRow) => r.moduleName == moduleName && r.task == task
  }

  /** `SELECT completed, total FROM progress WHERE module = ? AND task = ?
      ORDER BY timestamp DESC LIMIT 1`: a matching row no older than any
      other matching row, or none when no row matches. */
  function LatestProgress(rows: seq<ProgressRow>, moduleName: string, task: string): (r: Option<ProgressRow>)
    ensures r.None? <==> forall row :: row in rows ==> !(row.moduleName == moduleName && row.task == task)
    ensures r.Some? ==> r.value in rows && r.value.moduleName == moduleName && r.value.task == task
    ensures r.Some? ==> forall row :: row in rows && row.moduleName == moduleName && row.task == task ==>
                          row.timestamp <= r.value.timestamp
  {
    var f := Filter(rows, ProgressOf(moduleName, task));
    var sel := SortDesc(f, ProgressTime);
    if sel == [] then None
    else
      SortDescHead(f, ProgressTime);
      Some(sel[0])
  }

  /** `completed / total * 100` when `total > 0`, else 0. */
  function Percentage(completed: int, total: int): (p: real)
    ensures total > 0 ==> p * (total as real) == (completed as real) * 100.0
    ensures total <= 0 ==> p == 0.0
  {
    if total > 0 then (completed as real) / (total as real) * 100.0 else 0.0
  }

  /** A count of completed units between 0 and the total gives a percentage
      between 0 and 100, and 100 exactly when all units are completed. */
  lemma PercentageBounds(completed: int, total: int)
    requires 0 <= completed <= total && total > 0
    ensures 0.0 <= Percentage(completed, total) <= 100.0
    ensures Percentage(completed, total) == 100.0 <==> completed == total
  {
    var p := Percentage(completed, total);
    var t := total as real;
    var c := completed as real;
    CompareByPositive(0.0, p, t);
    CompareByPositive(p, 100.0, t);
  }

  /** Comparing two multiples of a positive factor compares the multiplicands. */
  lemma CompareByPositive(x: real, y: real, t: real)
    requires t > 0.0
    ensures x * t <= y * t <==> x <= y
    ensures x * t == y * t <==> x == y
  {
    assert y * t - x * t == (y - x) * t;
  }

  // ---------------------------------------------------------------------------
  // Schema sniffing

  /** The four type tags `negotiate_schema` emits as `{"type": name}`. */
  datatype TypeTag = StringType | IntegerType | ObjectType | ArrayType {
    function Name(): string {
      match this
      case StringType => "string"
      case IntegerType => "integer"
      case ObjectType => "object"
      case ArrayType => "array"
    }
  }

  /** The tag of a sample value, or none for a value the sniffer skips. The
      tests are asked in the source's order, and a Python `bool` is an `int`. */
  function TypeTagOf(v: Value): (t: Option<TypeTag>)
    ensures t.None? <==> v.JFloat? || v.JNull?
    ensures v.JString? ==> t == Some(StringType)
    ensures v.JInt? || v.JBool? ==> t == Some(IntegerType)
    ensures v.JObject? ==> t == Some(ObjectType)
    ensures v.JArray? ==> t == Some(ArrayType)
  {
    match v
    case JString(_) => Some(StringType)
    case JInt(_) => Some(IntegerType)
    case JBool(_) => Some(IntegerType)
    case JObject(_) => Some(ObjectType)
    case JArray(_) => Some(ArrayType)
    case JFloat(_) => None
    case JNull => None
  }

  /** `{"type": "object", "properties": {...}}`. `kind` is the `type` key. */
  datatype Schema<P> = Schema(kind: string, properties: map<string, P>)

  /** A schema given to `negotiate`: only its `properties` entry, if any, is read. */
  datatype SchemaDoc<P> = SchemaDoc(properties: Option<map<string, P>>)

  datatype Compatibility = Compatibility(status: string, version: string)

  datatype Negotiation = Negotiation(schema: Schema<TypeTag>, compatibility: Compatibility)

  class ModuleCommunicator {
    const moduleName: string
    const db: Database
    const codec: Codec

    /** Binding to a module name and a database file; creating the tables
        when absent leaves existing rows as they are. */
    constructor (moduleName: string, db: Database, codec: Codec)
      ensures this.moduleName == moduleName && this.db == db && this.codec == codec
    {
      this.moduleName := moduleName;
      this.db := db;
      this.codec := codec;
    }

    /** The version this entry point reports, not the package's own. */
    function GetVersion(): (v: string)
      ensures v == "0.1.0" && v != PackageVersion
    {
      "0.1.0"
    }

    /** Tags each sample key by the type of its value; keys of other types are
        left out. `targetModule` is not consulted. */
    method NegotiateSchema(targetModule: string, sample: map<string, Value>) returns (res: Negotiation)
      ensures res.schema.kind == "object"
      ensures res.schema.properties.Keys <= sample.Keys
      ensures forall k :: k in sample ==>
                (k in res.schema.properties <==> TypeTagOf(sample[k]).Some?)
      ensures forall k :: k in res.schema.properties ==>
                TypeTagOf(sample[k]) == Some(res.schema.properties[k])
      ensures res.compatibility == Compatibility("compatible", "1.0")
    {
      var properties: map<string, TypeTag> := map[];
      var remaining := sample.Keys;
      while remaining != {}
        invariant remaining <= sample.Keys
        invariant properties.Keys <= sample.Keys - remaining
        invariant forall k :: k in properties ==> TypeTagOf(sample[k]) == Some(properties[k])
        invariant forall k :: k in sample.Keys - remaining && TypeTagOf(sample[k]).Some? ==> k in properties
        decreases remaining
      {
        var key :| key in remaining;
        match sample[key] {
          case JString(_) => properties := properties[key := StringType];
          case JInt(_) => properties := properties[key := IntegerType];
          case JBool(_) => properties := properties[key := IntegerType];
          case JObject(_) => properties := properties[key := ObjectType];
          case JArray(_) => properties := properties[key := ArrayType];
          case JFloat(_) =>
          case JNull =>
        }
        remaining := remaining - {key};
      }
      res := Negotiation(Schema("object", properties), Compatibility("compatible", "1.0"));
    }

    /** Records a new progress row for this module; earlier rows stay. */
    method TrackProgress(task: string, completed: int, total: int, now: Timestamp)
      requires db.Valid()
      modifies db
      ensures db.Valid()
      ensures db.progress == old(db.progress) +
                [ProgressRow(NextRowid(old(db.progress), ProgressId), moduleName, task, completed, total, now)]
      ensures db.messages == old(db.messages)
    {
      var _ := db.InsertProgress(moduleName, task, completed, total, now);
    }

    /** The counters of the latest row for this module and task, with their
        percentage; zeros for a task never tracked. */
    function GetProgress(task: string): (r: ProgressReport)
      reads db
      ensures (forall row :: row in db.progress ==> !(row.moduleName == moduleName && row.task == task)) ==>
                r == ProgressReport(0, 0, 0.0)
      ensures (exists row :: row in db.progress && row.moduleName == moduleName && row.task == task) ==>
                exists row :: row in db.progress && row.moduleName == moduleName && row.task == task
                  && (forall other :: other in db.progress && other.moduleName == moduleName && other.task == task ==>
                        other.timestamp <= row.timestamp)
                  && r == ProgressReport(row.completed, row.total, Percentage(row.completed, row.total))
    {
      match LatestProgress(db.progress, moduleName, task)
      case None => ProgressReport(0, 0, 0.0)
      case Some(row) => ProgressReport(row.completed, row.total, Percentage(row.completed, row.total))
    }

    /** Stores `message` from this module to `target`. The acknowledgement's
        id is the clock reading `clockSeconds`, not the new row's id. */
    method SendAsync(target: string, message: Value, now: Timestamp, clockSeconds: real) returns (ack: Ack)
      requires db.Valid()
      modifies db
      ensures db.Valid()
      ensures db.messages == old(db.messages) +
                [MessageRow(NextRowid(old(db.messages), MessageId), moduleName, target, codec.dumps(message), now)]
      ensures db.progress == old(db.progress)
      ensures ack == Ack("sent", clockSeconds)
    {
      var _ := db.InsertMessage(moduleName, target, codec.dumps(message), now);
      ack := Ack("sent", clockSeconds);
    }

    /** Stores `data` from `source` to `target` and returns the new row's id
        as decimal text. */
    method SendMessage(source: string, target: string, data: Value, now: Timestamp) returns (msgId: string)
      requires db.Valid()
      modifies db
      ensures db.Valid()
      ensures db.messages == old(db.messages) +
                [MessageRow(NextRowid(old(db.messages), MessageId), source, target, codec.dumps(data), now)]
      ensures db.progress == old(db.progress)
      ensures ParseNat(msgId) == Some(NextRowid(old(db.messages), MessageId))
    {
      var id := db.InsertMessage(source, target, codec.dumps(data), now);
      msgId := NatToString(id);
      NatToStringRoundTrip(id);
    }

    /** The messages addressed to `target`, newest first, decoded one by one. */
    method GetMessages(target: string) returns (r: Result<seq<Message>, StoreError>)
      ensures r == Inbox(db.messages, target, codec.loads)
    {
      var rows := MessagesFor(db.messages, target);
      var messages: seq<Message> := [];
      var i := 0;
      while i < |rows|
        invariant 0 <= i <= |rows|
        invariant Decoded(rows[..i], codec.loads) == Success(messages)
      {
        assert rows[..i + 1][..i] == rows[..i];
        match codec.loads(rows[i].content) {
          case None =>
            DecodedPrefixFailure(rows, i + 1, codec.loads);
            return Failure(DeserializationError(rows[i].id));
          case Some(data) =>
            messages := messages + [Message(rows[i].id, rows[i].source, data, rows[i].timestamp)];
        }
        i := i + 1;
      }
      assert rows[..i] == rows;
      r := Success(messages);
    }
  }

  /** A tracked task's report after `track_progress` at a time later than
      every earlier row for it: the counters just written, and their percentage. */
  lemma {:induction false} TrackedProgressIsReported(rows: seq<ProgressRow>, moduleName: string, task: string,
                                                     completed: int, total: int, now: Timestamp)
    requires forall row :: row in rows && row.moduleName == moduleName && row.task == task ==> row.timestamp < now
    ensures var row := ProgressRow(NextRowid(rows, ProgressId), moduleName, task, completed, total, now);
            LatestProgress(rows + [row], moduleName, task) == Some(row)
  {
    var row := ProgressRow(NextRowid(rows, ProgressId), moduleName, task, completed, total, now);
    var r := LatestProgress(rows + [row], moduleName, task);
    assert row in rows + [row];
    assert r.Some? && row.timestamp <= r.value.timestamp;
    if r.value in rows {
      assert false;
    }
  }

  /** `SchemaNegotiator`: a helper without state. */
  class SchemaNegotiator {
    constructor () {}

    /** The union of both schemas' properties, the target's entry winning on a
        shared key; a schema without `properties` contributes none. */
    method Negotiate<P>(source: SchemaDoc<P>, target: SchemaDoc<P>) returns (merged: Schema<P>)
      ensures merged.kind == "object"
      ensures var s := source.properties.GetOr(map[]);
              var t := target.properties.GetOr(map[]);
              && merged.properties.Keys == s.Keys + t.Keys
              && (forall k :: k in t ==> merged.properties[k] == t[k])
              && (forall k :: k in s && k !in t ==> merged.properties[k] == s[k])
    {
      var properties: map<string, P> := map[];
      if source.properties.Some? {
        properties := properties + source.properties.value;
      }
      if target.properties.Some? {
        properties := properties + target.properties.value;
      }
      merged := Schema("object", properties);
    }
  }
}
