/** The command-line tool: listing messages and progress rows, showing one
    message, sending a message, and the dispatch of `main`.

    What each command prints is modelled as a value describing the lines it
    would print. The database file is a `Database?`: `null` when no file
    exists at the path. */
module Cli {
  import opened Wrappers
  import opened Ordering
  import opened Strings
  import opened Json
  import opened Communicator

  /** `if target:` — a missing or empty option selects everything. */
  predicate Given(option: Option<string>) {
    option.Some? && option.value != ""
  }

  /** The filter named in the output, `' for ' + target`, when one was given. */
  function ShownFilter(option: Option<string>): (r: Option<string>)
    ensures r.Some? <==> Given(option)
    ensures r.Some? ==> r == option
  {
    if Given(option) then option else None
  }

  // ---------------------------------------------------------------------------
  // Message summaries

  /** Longer raw content is cut to this many characters. */
  const PurposeWidth: nat := 50

  /** The type and purpose shown for a message. */
  datatype Summary = Summary(msgType: Value, purpose: Value)

  /** `content[:50] + '...' if len(content) > 50 else content`. */
  function Truncate(content: string): (r: string)
    ensures |content| <= PurposeWidth ==> r == content
    ensures |content| > PurposeWidth ==> |r| == PurposeWidth + 3 && r == content[..PurposeWidth] + "..."
  {
    if |content| > PurposeWidth then content[..PurposeWidth] + "..." else content
  }

  /** Content that parses to an object shows its `type` and `purpose`, with
      defaults; any other content, including JSON that is not an object (on
      which `.get` raises), is shown raw, truncated. */
  function SummarizeContent(content: string, loads: string -> Option<Value>): (s: Summary)
    ensures (loads(content).Some? && loads(content).value.JObject?) ==>
              var fields := loads(content).value.fields;
              && s.msgType == (if "type" in fields then fields["type"] else JString("unknown"))
              && s.purpose == (if "purpose" in fields then fields["purpose"] else JString("N/A"))
    ensures !(loads(content).Some? && loads(content).value.JObject?) ==>
              && s.msgType == JString("raw")
              && s.purpose.JString?
              && |s.purpose.s| <= PurposeWidth + 3
              && (|content| <= PurposeWidth ==> s.purpose.s == content)
              && (|content| > PurposeWidth ==> s.purpose.s == content[..PurposeWidth] + "...")
  {
    match loads(content)
    case Some(JObject(fields)) =>
      Summary(Get(fields, "type", JString("unknown")), Get(fields, "purpose", JString("N/A")))
    case _ => Summary(JString("raw"), JString(Truncate(content)))
  }

  // ---------------------------------------------------------------------------
  // Listing messages

  datatype MessageEntry = MessageEntry(id: nat, source: string, target: string, timestamp: Timestamp, summary: Summary)

  /** What `list` prints: that there is no database, that nothing matched, or
      the header with the selected filter and one entry per row. */
  datatype MessageListing =
    | NoMessageDatabase
    | NoMessages(filter: Option<string>)
    | Messages(filter: Option<string>, entries: seq<MessageEntry>)

  function EntryOf(row: MessageRow, loads: string -> Option<Value>): MessageEntry {
    MessageEntry(row.id, row.source, row.target, row.timestamp, SummarizeContent(row.content, loads))
  }

  /** One entry per selected row, in the order selected. */
  function EntriesOf(selected: seq<MessageRow>, loads: string -> Option<Value>): (es: seq<MessageEntry>)
    ensures |es| == |selected|
    ensures forall k :: 0 <= k < |selected| ==> es[k] == EntryOf(selected[k], loads)
  {
    seq(|selected|, i requires 0 <= i < |selected| => EntryOf(selected[i], loads))
  }

  /** The rows the `list` query returns. */
  function SelectMessages(rows: seq<MessageRow>, target: Option<string>): seq<MessageRow> {
    if Given(target) then MessagesFor(rows, target.value) else SortDesc(rows, MessageTime)
  }

  /** With a target the listing holds exactly the rows to it, otherwise every
      row; either way newest first. */
  lemma SelectMessagesExact(rows: seq<MessageRow>, target: Option<string>)
    ensures forall row :: row in SelectMessages(rows, target) <==>
              row in rows && (Given(target) ==> row.target == target.value)
    ensures Given(target) ==> |SelectMessages(rows, target)| == |Filter(rows, AddressedTo(target.value))|
    ensures !Given(target) ==> multiset(SelectMessages(rows, target)) == multiset(rows)
    ensures SortedDesc(SelectMessages(rows, target), MessageTime)
  {
    if Given(target) {
      MessagesForExact(rows, target.value);
    } else {
      SortDescMembers(rows, MessageTime);
      SortDescSorted(rows, MessageTime);
    }
  }

  function MessageListingOf(rows: seq<MessageRow>, target: Option<string>, loads: string -> Option<Value>): MessageListing {
    var selected := SelectMessages(rows, target);
    if selected == [] then NoMessages(ShownFilter(target))
    else Messages(ShownFilter(target), EntriesOf(selected, loads))
  }

  /** The loop of `list` building one entry per row. */
  method MessageEntries(messages: seq<MessageRow>, loads: string -> Option<Value>) returns (entries: seq<MessageEntry>)
    ensures entries == EntriesOf(messages, loads)
  {
    entries := [];
    var i := 0;
    while i < |messages|
      invariant 0 <= i <= |messages|
      invariant |entries| == i
      invariant forall k :: 0 <= k < i ==> entries[k] == EntryOf(messages[k], loads)
    {
      var msg := messages[i];
      entries := entries + [EntryOf(msg, loads)];
      i := i + 1;
    }
    assert entries == EntriesOf(messages, loads);
  }

  method ListMessages(target: Option<string>, db: Database?, loads: string -> Option<Value>) returns (out: MessageListing)
    ensures db == null ==> out == NoMessageDatabase
    ensures db != null ==> out == MessageListingOf(db.messages, target, loads)
  {
    if db == null {
      return NoMessageDatabase;
    }
    var rows := db.messages;
    var messages := SelectMessages(rows, target);
    if messages == [] {
      return NoMessages(ShownFilter(target));
    }
    var entries := MessageEntries(messages, loads);
    out := Messages(ShownFilter(target), entries);
  }

  // ---------------------------------------------------------------------------
  // Showing one message

  /** The body: the decoded value pretty-printed, or the raw text. */
  datatype Body = Pretty(data: Value) | RawText(text: string)

  datatype ShowOutcome =
    | NoSuchTable
    | MessageNotFound(id: int)
    | Shown(row: MessageRow, body: Body)

  /** `SELECT * FROM messages WHERE id = ?` and `fetchone`. */
  function FindMessage(rows: seq<MessageRow>, id: int): (r: Option<MessageRow>)
    ensures r.None? <==> forall row :: row in rows ==> row.id != id
    ensures r.Some? ==> r.value in rows && r.value.id == id
  {
    if rows == [] then None
    else if rows[0].id == id then Some(rows[0])
    else FindMessage(rows[1..], id)
  }

  function BodyOf(content: string, loads: string -> Option<Value>): (b: Body)
    ensures b.Pretty? <==> loads(content).Some?
    ensures b.Pretty? ==> loads(content) == Some(b.data)
    ensures b.RawText? ==> b.text == content
  {
    match loads(content)
    case Some(data) => Pretty(data)
    case None => RawText(content)
  }

  /** `show` does not check that the file exists: connecting creates an empty
      one, on which the query fails for want of a `messages` table. */
  function ShowMessage(id: int, db: Database?, loads: string -> Option<Value>): (out: ShowOutcome)
    reads db
    ensures db == null <==> out == NoSuchTable
    ensures db != null ==> (out.MessageNotFound? <==> forall row :: row in db.messages ==> row.id != id)
    ensures out.Shown? ==> out.row in db.messages && out.row.id == id && out.body == BodyOf(out.row.content, loads)
  {
    if db == null then NoSuchTable
    else
      match FindMessage(db.messages, id)
      case None => MessageNotFound(id)
      case Some(row) => Shown(row, BodyOf(row.content, loads))
  }

  // ---------------------------------------------------------------------------
  // Listing progress

  datatype ProgressEntry = ProgressEntry(moduleName: string, task: string, completed: int, total: int,
                                         percentage: real, timestamp: Timestamp)

  datatype ProgressListing =
    | NoProgressDatabase
    | NoProgressEntries(filter: Option<string>)
    | ProgressEntries(filter: Option<string>, entries: seq<ProgressEntry>)

  function ProgressEntryOf(row: ProgressRow): (e: ProgressEntry)
    ensures e.percentage == Percentage(row.completed, row.total)
    ensures e.moduleName == row.moduleName && e.task == row.task && e.completed == row.completed && e.total == row.total
  {
    ProgressEntry(row.moduleName, row.task, row.completed, row.total, Percentage(row.completed, row.total), row.timestamp)
  }

  /** One entry per selected row, in the order selected. */
  function ProgressEntriesOf(selected: seq<ProgressRow>): (es: seq<ProgressEntry>)
    ensures |es| == |selected|
    ensures forall k :: 0 <= k < |selected| ==> es[k] == ProgressEntryOf(selected[k])
  {
    seq(|selected|, i requires 0 <= i < |selected| => ProgressEntryOf(selected[i]))
  }

  function OfModule(moduleName: string): ProgressRow -> bool {
    (r: ProgressRow) => r.moduleName == moduleName
  }

  /** The rows the `progress` query returns. */
  function SelectProgress(rows: seq<ProgressRow>, moduleName: Option<string>): seq<ProgressRow> {
    if Given(moduleName) then SortDesc(Filter(rows, OfModule(moduleName.value)), ProgressTime)
    else SortDesc(rows, ProgressTime)
  }

  /** With a module the listing holds exactly its rows, otherwise every row;
      either way newest first. */
  lemma SelectProgressExact(rows: seq<ProgressRow>, moduleName: Option<string>)
    ensures forall row :: row in SelectProgress(rows, moduleName) <==>
              row in rows && (Given(moduleName) ==> row.moduleName == moduleName.value)
    ensures Given(moduleName) ==> |SelectProgress(rows, moduleName)| == |Filter(rows, OfModule(moduleName.value))|
    ensures !Given(moduleName) ==> multiset(SelectProgress(rows, moduleName)) == multiset(rows)
    ensures SortedDesc(SelectProgress(rows, moduleName), ProgressTime)
  {
    if Given(moduleName) {
      SortDescMembers(Filter(rows, OfModule(moduleName.value)), ProgressTime);
      SortDescSorted(Filter(rows, OfModule(moduleName.value)), ProgressTime);
    } else {
      SortDescMembers(rows, ProgressTime);
      SortDescSorted(rows, ProgressTime);
    }
  }

  function ProgressListingOf(rows: seq<ProgressRow>, moduleName: Option<string>): ProgressListing {
    var selected := SelectProgress(rows, moduleName);
    if selected == [] then NoProgressEntries(ShownFilter(moduleName))
    else ProgressEntries(ShownFilter(moduleName), ProgressEntriesOf(selected))
  }

  /** The loop of `progress` building one entry per row. */
  method ProgressEntryList(progressEntries: seq<ProgressRow>) returns (entries: seq<ProgressEntry>)
    ensures entries == ProgressEntriesOf(progressEntries)
  {
    entries := [];
    var i := 0;
    while i < |progressEntries|
      invariant 0 <= i <= |progressEntries|
      invariant |entries| == i
      invariant forall k :: 0 <= k < i ==> entries[k] == ProgressEntryOf(progressEntries[k])
    {
      var entry := progressEntries[i];
      entries := entries + [ProgressEntryOf(entry)];
      i := i + 1;
    }
    assert entries == ProgressEntriesOf(progressEntries);
  }

  method ListProgress(moduleName: Option<string>, db: Database?) returns (out: ProgressListing)
    ensures db == null ==> out == NoProgressDatabase
    ensures db != null ==> out == ProgressListingOf(db.progress, moduleName)
  {
    if db == null {
      return NoProgressDatabase;
    }
    var rows := db.progress;
    var progressEntries := SelectProgress(rows, moduleName);
    if progressEntries == [] {
      return NoProgressEntries(ShownFilter(moduleName));
    }
    var entries := ProgressEntryList(progressEntries);
    out := ProgressEntries(ShownFilter(moduleName), entries);
  }

  // ---------------------------------------------------------------------------
  // Sending

  /** The payload `send` stores: its type (default `"text"`), the ISO time of
      sending and the message text, and nothing else. */
  function CliPayload(msgType: string, nowText: string, message: string): (v: Value)
    ensures v.JObject? && v.fields.Keys == {"type", "timestamp", "message"}
    ensures v.fields["type"] == JString(msgType)
    ensures v.fields["timestamp"] == JString(nowText)
    ensures v.fields["message"] == JString(message)
  {
    JObject(map["type" := JString(msgType), "timestamp" := JString(nowText), "message" := JString(message)])
  }

  /** `send`: a communicator for `source` over the file (created empty when
      missing) stores the payload as a message from `source` to `target`. */
  method CliSendMessage(source: string, target: string, message: string, msgType: string,
                        db: Database?, codec: Codec, now: Timestamp, nowText: string)
    returns (msgId: string, used: Database)
    requires db != null ==> db.Valid()
    modifies db
    ensures db != null ==> used == db
    ensures db == null ==> fresh(used)
    ensures used.Valid()
    ensures var before := if db == null then [] else old(db.messages);
            && used.messages == before + [MessageRow(NextRowid(before, MessageId), source, target,
                                                     codec.dumps(CliPayload(msgType, nowText, message)), now)]
            && ParseNat(msgId) == Some(NextRowid(before, MessageId))
    ensures used.progress == if db == null then [] else old(db.progress)
  {
    if db == null {
      used := new Database([], []);
    } else {
      used := db;
    }
    var comm := new ModuleCommunicator(source, used, codec);
    var data := CliPayload(msgType, nowText, message);
    msgId := comm.SendMessage(source, target, data, now);
  }

  // ---------------------------------------------------------------------------
  // Dispatch

  /** The parsed command line; `NoCommand` when no subcommand was given. */
  datatype Command =
    | NoCommand
    | List(targetFilter: Option<string>)
    | Show(id: int)
    | Progress(moduleFilter: Option<string>)
    | Send(source: string, target: string, message: string, msgType: string)

  datatype CliOutput =
    | Help
    | Listed(messages: MessageListing)
    | ShownMessage(shown: ShowOutcome)
    | ProgressListed(progress: ProgressListing)
    | SentMessage(msgId: string)

  /** `main`: help without a subcommand, otherwise exactly the handler of the
      subcommand. Only `send` writes to the database, creating the file when
      it is missing; `store` is the database after the command. */
  method RunCli(cmd: Command, db: Database?, codec: Codec, now: Timestamp, nowText: string)
    returns (out: CliOutput, store: Database?)
    requires db != null ==> db.Valid()
    modifies db
    ensures cmd.NoCommand? ==> out == Help
    ensures cmd.List? ==> out == Listed(if db == null then NoMessageDatabase else MessageListingOf(db.messages, cmd.targetFilter, codec.loads))
    ensures cmd.Show? ==> out == ShownMessage(ShowMessage(cmd.id, db, codec.loads))
    ensures cmd.Progress? ==> out == ProgressListed(if db == null then NoProgressDatabase else ProgressListingOf(db.progress, cmd.moduleFilter))
    ensures cmd.Send? ==> out.SentMessage? && store != null && store.Valid()
    ensures cmd.Send? && db != null ==> store == db
    ensures cmd.Send? && db == null ==> fresh(store)
    ensures cmd.Send? ==>
              var before := if db == null then [] else old(db.messages);
              && store.messages == before + [MessageRow(NextRowid(before, MessageId), cmd.source, cmd.target,
                                                        codec.dumps(CliPayload(cmd.msgType, nowText, cmd.message)), now)]
              && ParseNat(out.msgId) == Some(NextRowid(before, MessageId))
              && store.progress == (if db == null then [] else old(db.progress))
    ensures !cmd.Send? ==> store == db
    ensures !cmd.Send? && db != null ==> db.messages == old(db.messages) && db.progress == old(db.progress)
  {
    store := db;
    match cmd {
      case NoCommand =>
        out := Help;
      case List(target) =>
        var listing := ListMessages(target, db, codec.loads);
        out := Listed(listing);
      case Show(id) =>
        out := ShownMessage(ShowMessage(id, db, codec.loads));
      case Progress(moduleName) =>
        var listing := ListProgress(moduleName, db);
        out := ProgressListed(listing);
      case Send(source, target, message, msgType) =>
        var msgId, used := CliSendMessage(source, target, message, msgType, db, codec, now, nowText);
        out := SentMessage(msgId);
        store := used;
    }
  }
}
