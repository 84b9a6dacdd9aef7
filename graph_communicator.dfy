/** `GraphModuleCommunicator`: the SQLite communicator with an optional graph
    backend and an optional Perplexity key.

    The base class is composed rather than inherited: `base` is the
    `ModuleCommunicator` whose store this communicator uses. The ArangoDB
    backend is seen only through its answers, collected in `Backend`; the
    Perplexity completion is a function from the query text to the reply. */
module GraphCommunicator {
  import opened Wrappers
  import opened Ordering
  import opened Strings
  import opened Json
  import opened Communicator

  /** A module record as the graph returns it; only its name is read here. */
  datatype ModuleInfo = ModuleInfo(name: string)

  /** What the graph backend answers to each query this class forwards. */
  datatype Backend = Backend(
    modulesWith: string -> seq<ModuleInfo>,
    compatibleWith: (string, string) -> seq<ModuleInfo>,
    conversation: (string, string) -> seq<Message>,
    createTask: Value -> string)

  /** The local knowledge about a topic: `total_resources` (0 when absent),
      the `resources` with their optional `title`, and the `modules` with their
      optional `name`. */
  datatype Resource = Resource(title: Option<string>)
  datatype ModuleEntry = ModuleEntry(name: Option<string>)
  datatype LocalKnowledge = LocalKnowledge(totalResources: int, resources: seq<Resource>, modules: seq<ModuleEntry>)

  /** `{}`: no resources, no modules. */
  const EmptyKnowledge := LocalKnowledge(0, [], [])

  /** Topics with these words call for fresh external information. */
  const ExternalKeywords: seq<string> := ["latest", "recent", "2024", "2025", "current", "state-of-the-art"]

  /** Python's `any(k in s for k in keywords)`. */
  function AnyContained(s: string, keywords: seq<string>): (r: bool)
    ensures r <==> exists k :: k in keywords && Contains(s, k)
  {
    if keywords == [] then false
    else Contains(s, keywords[0]) || AnyContained(s, keywords[1..])
  }

  /** Whether to ask Perplexity about `topic`: always with fewer than three
      local resources, otherwise when the lower-cased topic mentions one of the
      keywords. */
  function ShouldQueryExternal(topic: string, local: LocalKnowledge): (r: bool)
    ensures local.totalResources < 3 ==> r
    ensures local.totalResources >= 3 ==>
              (r <==> exists k :: k in ExternalKeywords && Contains(Lower(topic), k))
  {
    local.totalResources < 3 || AnyContained(Lower(topic), ExternalKeywords)
  }

  /** The keyword test ignores case: a topic holding any spelling of a keyword
      (`"LATEST"`, `"Recent"`) calls for an external query. */
  lemma ShouldQueryExternalIgnoresCase(topic: string, local: LocalKnowledge, w: string)
    requires Lower(w) in ExternalKeywords
    requires Contains(topic, w)
    ensures ShouldQueryExternal(topic, local)
  {
    ContainsLower(topic, w);
  }

  /** Lower-casing the topic first changes nothing. */
  lemma ShouldQueryExternalOfLower(topic: string, local: LocalKnowledge)
    ensures ShouldQueryExternal(Lower(topic), local) == ShouldQueryExternal(topic, local)
  {
    LowerIdempotent(topic);
  }

  // ---------------------------------------------------------------------------
  // The Perplexity query

  function Intro(topic: string): string {
    "Current information about " + topic
  }

  /** `r.get('title', '')` for each resource. */
  function Titles(resources: seq<Resource>): (ts: seq<string>)
    ensures |ts| == |resources|
    ensures forall i :: 0 <= i < |resources| ==> ts[i] == resources[i].title.GetOr("")
  {
    seq(|resources|, i requires 0 <= i < |resources| => resources[i].title.GetOr(""))
  }

  function ModuleNames(modules: seq<ModuleEntry>): (ns: seq<string>)
    ensures |ns| == |modules|
    ensures forall i :: 0 <= i < |modules| ==> ns[i] == modules[i].name.GetOr("")
  {
    seq(|modules|, i requires 0 <= i < |modules| => modules[i].name.GetOr(""))
  }

  /** The resources part names the titles of the first three resources only. */
  function ResourcesPart(ctx: LocalKnowledge): string {
    "Related to these areas: " + Join(", ", Titles(TakeAtMost(ctx.resources, 3)))
  }

  function ModulesPart(ctx: LocalKnowledge): string {
    "Relevant for these systems: " + Join(", ", ModuleNames(ctx.modules))
  }

  /** The parts of the query: the topic, then the resources part when there
      are local resources, then the modules part when modules are listed. */
  function QueryParts(topic: string, ctx: LocalKnowledge): (parts: seq<string>)
    ensures parts != [] && parts[0] == Intro(topic)
    ensures |parts| == 1 + (if ctx.totalResources > 0 then 1 else 0) + (if ctx.modules != [] then 1 else 0)
    ensures ctx.totalResources > 0 ==> parts[1] == ResourcesPart(ctx)
    ensures ctx.modules != [] ==> parts[|parts| - 1] == ModulesPart(ctx)
  {
    [Intro(topic)]
      + (if ctx.totalResources > 0 then [ResourcesPart(ctx)] else [])
      + (if ctx.modules != [] then [ModulesPart(ctx)] else [])
  }

  /** The query text `_build_perplexity_query` returns. */
  function PerplexityQuery(topic: string, ctx: LocalKnowledge): string {
    Join(". ", QueryParts(topic, ctx))
  }

  /** The query always starts with the topic sentence; with nothing else to
      say it is exactly that sentence, and otherwise the sentence is followed
      by `". "`. */
  lemma PerplexityQueryShape(topic: string, ctx: LocalKnowledge)
    ensures ctx.totalResources <= 0 && ctx.modules == [] ==> PerplexityQuery(topic, ctx) == Intro(topic)
    ensures ctx.totalResources > 0 || ctx.modules != [] ==>
              PerplexityQuery(topic, ctx)[..|Intro(topic)| + 2] == Intro(topic) + ". "
  {
    if ctx.totalResources > 0 || ctx.modules != [] {
      JoinStartsWith(". ", QueryParts(topic, ctx));
    }
  }

  /** Resources past the third never reach the query. */
  lemma QueryUsesThreeResources(topic: string, ctx: LocalKnowledge, extra: seq<Resource>)
    requires |ctx.resources| >= 3
    ensures PerplexityQuery(topic, ctx.(resources := ctx.resources + extra)) == PerplexityQuery(topic, ctx)
  {
    assert TakeAtMost(ctx.resources + extra, 3) == TakeAtMost(ctx.resources, 3);
  }

  /** The question asked when no module has a capability. */
  function DiscoveryQuery(capability: string): string {
    "What tools or systems can " + capability + "?"
  }

  /** One entry of `send_async_with_discovery`'s result. */
  datatype DiscoveryResult =
    | NoModulesFound(capability: string, suggestion: Option<Value>)
    | SentTo(moduleName: string, result: Ack)

  /** The rows `send_async` appends when sending `content` from `source`
      to the targets from index `from` on, one after the other, each row
      taking the next rowid and the i-th send reading the clock `now(i)`. */
  function Broadcast(rows: seq<MessageRow>, source: string, targets: seq<string>, content: string,
                     now: nat -> Timestamp, from: nat): seq<MessageRow>
    requires from <= |targets|
    decreases |targets| - from
  {
    if from == |targets| then rows
    else
      var row := MessageRow(NextRowid(rows, MessageId), source, targets[from], content, now(from));
      Broadcast(rows + [row], source, targets, content, now, from + 1)
  }

  /** A broadcast keeps the rows there were and appends one row per target. */
  lemma {:induction false} BroadcastPrefix(rows: seq<MessageRow>, source: string, targets: seq<string>, content: string,
                                           now: nat -> Timestamp, from: nat)
    requires from <= |targets|
    ensures |Broadcast(rows, source, targets, content, now, from)| == |rows| + |targets| - from
    ensures Broadcast(rows, source, targets, content, now, from)[..|rows|] == rows
    decreases |targets| - from
  {
    if from < |targets| {
      var row := MessageRow(NextRowid(rows, MessageId), source, targets[from], content, now(from));
      BroadcastPrefix(rows + [row], source, targets, content, now, from + 1);
      var after := Broadcast(rows + [row], source, targets, content, now, from + 1);
      assert after[..|rows| + 1][..|rows|] == after[..|rows|];
    }
  }

  /** The row a broadcast appends for target `i` is from `source`, to that
      target, carrying `content`, stamped `now(i)`. */
  lemma {:induction false} BroadcastRow(rows: seq<MessageRow>, source: string, targets: seq<string>, content: string,
                                        now: nat -> Timestamp, from: nat, i: nat)
    requires from <= i < |targets|
    ensures |rows| + i - from < |Broadcast(rows, source, targets, content, now, from)|
    ensures var row := Broadcast(rows, source, targets, content, now, from)[|rows| + i - from];
            row.source == source && row.target == targets[i] && row.content == content && row.timestamp == now(i)
    decreases |targets| - from
  {
    BroadcastPrefix(rows, source, targets, content, now, from);
    var row := MessageRow(NextRowid(rows, MessageId), source, targets[from], content, now(from));
    var after := Broadcast(rows + [row], source, targets, content, now, from + 1);
    if i == from {
      BroadcastPrefix(rows + [row], source, targets, content, now, from + 1);
      assert after[..|rows + [row]|][|rows|] == row;
    } else {
      BroadcastRow(rows + [row], source, targets, content, now, from + 1, i);
      assert |rows| + i - from == |rows + [row]| + i - (from + 1);
    }
  }

  function Names(modules: seq<ModuleInfo>): (ns: seq<string>)
    ensures |ns| == |modules|
    ensures forall i :: 0 <= i < |modules| ==> ns[i] == modules[i].name
  {
    seq(|modules|, i requires 0 <= i < |modules| => modules[i].name)
  }

  // ---------------------------------------------------------------------------
  // Conversations

  function FromModule(source: string): Message -> bool {
    (m: Message) => m.source == source
  }

  function MessageTimestamp(m: Message): int { m.timestamp }

  /** The no-backend conversation between `me` and `other`: the messages to
      `me` from `other`, then those to `other` from `me`, oldest first. */
  function Conversation(rows: seq<MessageRow>, me: string, other: string, loads: string -> Option<Value>)
    : Result<seq<Message>, StoreError>
  {
    match Inbox(rows, me, loads)
    case Failure(e) => Failure(e)
    case Success(mine) =>
      match Inbox(rows, other, loads)
      case Failure(e) => Failure(e)
      case Success(theirs) =>
        Success(Exchange(mine, theirs, me, other))
  }

  /** The messages to `me` from `other` and to `other` from `me`, oldest first. */
  function Exchange(mine: seq<Message>, theirs: seq<Message>, me: string, other: string): seq<Message> {
    SortAsc(Filter(mine, FromModule(other)) + Filter(theirs, FromModule(me)), MessageTimestamp)
  }

  /** The conversation fails with the first inbox's failure, then with the
      second's, and otherwise is the exchange of the two inboxes. */
  lemma ConversationCases(rows: seq<MessageRow>, me: string, other: string, loads: string -> Option<Value>)
    ensures Inbox(rows, me, loads).Failure? ==>
              Conversation(rows, me, other, loads) == Failure(Inbox(rows, me, loads).error)
    ensures Inbox(rows, me, loads).Success? && Inbox(rows, other, loads).Failure? ==>
              Conversation(rows, me, other, loads) == Failure(Inbox(rows, other, loads).error)
    ensures Inbox(rows, me, loads).Success? && Inbox(rows, other, loads).Success? ==>
              Conversation(rows, me, other, loads) ==
                Success(Exchange(Inbox(rows, me, loads).value, Inbox(rows, other, loads).value, me, other))
  {
  }

  /** A message rides in a row from `source` to `target`. */
  ghost predicate Carried(rows: seq<MessageRow>, source: string, target: string, loads: string -> Option<Value>, m: Message) {
    exists row :: row in rows && row.source == source && row.target == target && DecodesTo(row, loads, m)
  }

  /** The conversation holds exactly the messages one of the two modules sent
      the other, oldest first; it fails exactly when a message to either
      module does not parse. */
  lemma ConversationExact(rows: seq<MessageRow>, me: string, other: string, loads: string -> Option<Value>)
    ensures Conversation(rows, me, other, loads).Success? <==>
              forall row :: row in rows && (row.target == me || row.target == other) ==> loads(row.content).Some?
    ensures Conversation(rows, me, other, loads).Success? ==>
              var c := Conversation(rows, me, other, loads).value;
              && (forall m :: m in c <==> Carried(rows, other, me, loads, m) || Carried(rows, me, other, loads, m))
              && (forall i, j :: 0 <= i < j < |c| ==> c[i].timestamp <= c[j].timestamp)
  {
    InboxExact(rows, me, loads);
    InboxExact(rows, other, loads);
    if Conversation(rows, me, other, loads).Success? {
      var mine := Inbox(rows, me, loads).value;
      var theirs := Inbox(rows, other, loads).value;
      ExchangeMembers(mine, theirs, me, other);
      InboxCarried(rows, me, other, loads);
      InboxCarried(rows, other, me, loads);
    }
  }

  /** The exchange holds the messages of the first inbox from `other` and
      those of the second from `me`, oldest first. */
  lemma ExchangeMembers(mine: seq<Message>, theirs: seq<Message>, me: string, other: string)
    ensures forall m :: m in Exchange(mine, theirs, me, other) <==>
              (m in mine && m.source == other) || (m in theirs && m.source == me)
    ensures SortedAsc(Exchange(mine, theirs, me, other), MessageTimestamp)
  {
    var both := Filter(mine, FromModule(other)) + Filter(theirs, FromModule(me));
    var c := SortAsc(both, MessageTimestamp);
    SortAscSorted(both, MessageTimestamp);
    SortAscMembers(both, MessageTimestamp);
  }

  /** A message of `target`'s inbox from `source` is one carried from
      `source` to `target`, and back. */
  lemma InboxCarried(rows: seq<MessageRow>, target: string, source: string, loads: string -> Option<Value>)
    requires Inbox(rows, target, loads).Success?
    ensures forall m :: (m in Inbox(rows, target, loads).value && m.source == source) <==>
              Carried(rows, source, target, loads, m)
  {
    InboxExact(rows, target, loads);
    var ms := Inbox(rows, target, loads).value;
    forall m ensures (m in ms && m.source == source) <==> Carried(rows, source, target, loads, m) {
      if m in ms && m.source == source {
        var row :| row in rows && row.target == target && DecodesTo(row, loads, m);
        assert row.source == source;
      }
      if Carried(rows, source, target, loads, m) {
        var row :| row in rows && row.source == source && row.target == target && DecodesTo(row, loads, m);
        assert m in ms;
      }
    }
  }

  // ---------------------------------------------------------------------------
  // Module statistics

  function SentBy(source: string): MessageRow -> bool {
    (r: MessageRow) => r.source == source
  }

  /** The other end of every message to or from `me`:
      `SELECT DISTINCT source ... WHERE target = ? UNION SELECT DISTINCT target ... WHERE source = ?`. */
  function Peers(rows: seq<MessageRow>, me: string): set<string> {
    if rows == [] then {}
    else
      var last := rows[|rows| - 1];
      Peers(rows[..|rows| - 1], me)
        + (if last.target == me then {last.source} else {})
        + (if last.source == me then {last.target} else {})
  }

  /** A module is connected exactly when some message went between it and `me`. */
  lemma {:induction false} PeersExact(rows: seq<MessageRow>, me: string)
    ensures forall p :: p in Peers(rows, me) <==>
              exists row :: row in rows && ((row.target == me && row.source == p) || (row.source == me && row.target == p))
  {
    if rows != [] {
      var last := rows[|rows| - 1];
      var init := rows[..|rows| - 1];
      assert rows == init + [last];
      PeersExact(init, me);
    }
  }

  datatype ModuleStats = ModuleStats(
    moduleName: string,
    messagesSent: nat,
    messagesReceived: nat,
    collaborations: nat,
    connectedModules: set<string>)

  /** The statistics `get_module_stats` is meant to compute from the table. */
  function StatsOf(rows: seq<MessageRow>, me: string): ModuleStats {
    ModuleStats(me, |Filter(rows, SentBy(me))|, |Filter(rows, AddressedTo(me))|, 0, Peers(rows, me))
  }

  /** Each connected module accounts for at least one message sent or received. */
  lemma {:induction false} PeersBound(rows: seq<MessageRow>, me: string)
    ensures |Peers(rows, me)| <= |Filter(rows, SentBy(me))| + |Filter(rows, AddressedTo(me))|
  {
    if rows != [] {
      var last := rows[|rows| - 1];
      var init := rows[..|rows| - 1];
      assert rows == init + [last];
      PeersBound(init, me);
      FilterSnoc(init, last, SentBy(me));
      FilterSnoc(init, last, AddressedTo(me));
    }
  }

  /** A message sent by `me` to `t` counts as sent and connects `t`; receiving
      counts are those of `me`. */
  lemma SendCounts(rows: seq<MessageRow>, me: string, row: MessageRow)
    requires row.source == me
    ensures StatsOf(rows + [row], me).messagesSent == StatsOf(rows, me).messagesSent + 1
    ensures StatsOf(rows + [row], me).messagesReceived ==
              StatsOf(rows, me).messagesReceived + (if row.target == me then 1 else 0)
    ensures row.target in StatsOf(rows + [row], me).connectedModules
    ensures StatsOf(rows, me).connectedModules <= StatsOf(rows + [row], me).connectedModules
  {
    StatsStep(rows, row, me);
    FilterSnoc(rows, row, SentBy(me));
    FilterSnoc(rows, row, AddressedTo(me));
    assert row in rows + [row];
  }

  /** The messages of `inbox` whose source is `source`, in order. */
  method KeepFrom(inbox: seq<Message>, source: string) returns (messages: seq<Message>)
    ensures messages == Filter(inbox, FromModule(source))
  {
    messages := [];
    var i := 0;
    while i < |inbox|
      invariant 0 <= i <= |inbox|
      invariant messages == Filter(inbox[..i], FromModule(source))
    {
      var msg := inbox[i];
      FilterSnoc(inbox[..i], msg, FromModule(source));
      assert inbox[..i + 1] == inbox[..i] + [msg];
      assert FromModule(source)(msg) == (msg.source == source);
      if msg.source == source {
        messages := messages + [msg];
      }
      i := i + 1;
    }
    assert inbox[..i] == inbox;
  }

  // ---------------------------------------------------------------------------
  // The communicator

  class GraphModuleCommunicator {
    const base: ModuleCommunicator
    const backend: Option<Backend>
    var perplexityKey: Option<string>

    /** A communicator over `base`'s store, with the graph backend when one is
        configured, and no Perplexity key yet. */
    constructor (base: ModuleCommunicator, backend: Option<Backend>)
      ensures this.base == base && this.backend == backend && perplexityKey == None
    {
      this.base := base;
      this.backend := backend;
      perplexityKey := None;
    }

    method SetPerplexityKey(key: string)
      modifies this
      ensures perplexityKey == Some(key)
    {
      perplexityKey := Some(key);
    }

    /** A key is set and is not the empty string. */
    predicate HasPerplexityKey()
      reads this
    {
      perplexityKey.Some? && perplexityKey.value != ""
    }

    /** Without a backend no module is known to have any capability. */
    function FindModulesByCapability(capability: string): (r: seq<ModuleInfo>)
      ensures backend.None? ==> r == []
      ensures backend.Some? ==> r == backend.value.modulesWith(capability)
    {
      match backend
      case None => []
      case Some(graph) => graph.modulesWith(capability)
    }

    function FindCompatibleModules(direction: string): (r: seq<ModuleInfo>)
      ensures backend.None? ==> r == []
      ensures backend.Some? ==> r == backend.value.compatibleWith(base.moduleName, direction)
    {
      match backend
      case None => []
      case Some(graph) => graph.compatibleWith(base.moduleName, direction)
    }

    function CreateCollaborativeTask(task: Value): (r: Option<string>)
      ensures backend.None? <==> r.None?
      ensures backend.Some? ==> r == Some(backend.value.createTask(task))
    {
      match backend
      case None => None
      case Some(graph) => Some(graph.createTask(task))
    }

    /** The messages exchanged with `other`: from the graph when there is one,
        otherwise gathered from the two inboxes and put oldest first. */
    method GetConversationWith(other: string) returns (r: Result<seq<Message>, StoreError>)
      ensures backend.Some? ==> r == Success(backend.value.conversation(base.moduleName, other))
      ensures backend.None? ==> r == Conversation(base.db.messages, base.moduleName, other, base.codec.loads)
    {
      if backend.Some? {
        return Success(backend.value.conversation(base.moduleName, other));
      }
      ConversationCases(base.db.messages, base.moduleName, other, base.codec.loads);
      var mine := base.GetMessages(base.moduleName);
      if mine.Failure? {
        return Failure(mine.error);
      }
      var received := KeepFrom(mine.value, other);
      var theirs := base.GetMessages(other);
      if theirs.Failure? {
        return Failure(theirs.error);
      }
      var sent := KeepFrom(theirs.value, base.moduleName);
      r := Success(SortAsc(received + sent, MessageTimestamp));
    }

    /** The query text, built part by part. */
    method BuildPerplexityQuery(topic: string, ctx: LocalKnowledge) returns (q: string)
      ensures q == PerplexityQuery(topic, ctx)
    {
      var parts := [Intro(topic)];
      if ctx.totalResources > 0 {
        parts := parts + [ResourcesPart(ctx)];
      }
      if ctx.modules != [] {
        parts := parts + [ModulesPart(ctx)];
      }
      assert parts == QueryParts(topic, ctx);
      q := Join(". ", parts);
    }

    /** Sends `message` to every module the graph lists for `capability`, in
        order, with one result per module. With none it sends nothing and
        reports `no_modules_found`, with Perplexity's suggestion when a key is
        set. `ask` is the Perplexity completion; the i-th send reads the clocks
        `now(i)` and `clock(i)`. */
    method SendAsyncWithDiscovery(capability: string, message: Value, ask: string -> Value,
                                  now: nat -> Timestamp, clock: nat -> real)
      returns (results: seq<DiscoveryResult>)
      requires base.db.Valid()
      modifies base.db
      ensures base.db.Valid()
      ensures var capable := FindModulesByCapability(capability);
              && (capable == [] ==>
                    && results == [NoModulesFound(capability,
                                                  if HasPerplexityKey()
                                                  then Some(ask(PerplexityQuery(DiscoveryQuery(capability), EmptyKnowledge)))
                                                  else None)]
                    && base.db.messages == old(base.db.messages))
              && (capable != [] ==>
                    && |results| == |capable|
                    && (forall i :: 0 <= i < |capable| ==> results[i] == SentTo(capable[i].name, Ack("sent", clock(i))))
                    && base.db.messages ==
                         Broadcast(old(base.db.messages), base.moduleName, Names(capable), base.codec.dumps(message), now, 0))
      ensures base.db.progress == old(base.db.progress)
    {
      var capable := FindModulesByCapability(capability);
      if capable == [] {
        if perplexityKey.Some? && perplexityKey.value != "" {
          var query := BuildPerplexityQuery(DiscoveryQuery(capability), EmptyKnowledge);
          return [NoModulesFound(capability, Some(ask(query)))];
        }
        return [NoModulesFound(capability, None)];
      }
      ghost var names := Names(capable);
      ghost var rows0 := base.db.messages;
      results := [];
      var i := 0;
      while i < |capable|
        invariant 0 <= i <= |capable|
        invariant base.db.Valid()
        invariant |results| == i
        invariant forall k :: 0 <= k < i ==> results[k] == SentTo(capable[k].name, Ack("sent", clock(k)))
        invariant Broadcast(base.db.messages, base.moduleName, names, base.codec.dumps(message), now, i) ==
                  Broadcast(rows0, base.moduleName, names, base.codec.dumps(message), now, 0)
        invariant base.db.progress == old(base.db.progress)
      {
        var ack := base.SendAsync(capable[i].name, message, now(i), clock(i));
        results := results + [SentTo(capable[i].name, ack)];
        i := i + 1;
      }
    }

    /** The statistics the SQLite fallback computes, over this module's store. */
    method GetModuleStats() returns (stats: ModuleStats)
      ensures stats == StatsOf(base.db.messages, base.moduleName)
      ensures |stats.connectedModules| <= stats.messagesSent + stats.messagesReceived
    {
      stats := TallyStats(base.db.messages, base.moduleName);
    }
  }

  /** The loop behind the statistics: it counts as the `COUNT(*)` queries do
      and collects the other ends of the messages. */
  method TallyStats(rows: seq<MessageRow>, me: string) returns (stats: ModuleStats)
    ensures stats == StatsOf(rows, me)
    ensures |stats.connectedModules| <= stats.messagesSent + stats.messagesReceived
  {
    var sent := 0;
    var received := 0;
    var connected: set<string> := {};
    var i := 0;
    while i < |rows|
      invariant 0 <= i <= |rows|
      invariant StatsOf(rows[..i], me) == ModuleStats(me, sent, received, 0, connected)
    {
      var row := rows[i];
      assert rows[..i + 1] == rows[..i] + [row];
      StatsStep(rows[..i], row, me);
      if row.source == me {
        sent := sent + 1;
        connected := connected + {row.target};
      }
      if row.target == me {
        received := received + 1;
        connected := connected + {row.source};
      }
      i := i + 1;
    }
    assert rows[..i] == rows;
    PeersBound(rows, me);
    stats := ModuleStats(me, sent, received, 0, connected);
  }

  /** `get_module_stats` as written: after the graph branch it calls
      `self._get_connection()`, which neither class defines, so every call
      raises `AttributeError`. */
  function ModuleStatsAsWritten(rows: seq<MessageRow>, me: string): (r: Result<ModuleStats, string>)
    ensures r.Failure?
  {
    Failure("'GraphModuleCommunicator' object has no attribute '_get_connection'")
  }

  /** Even a module that has sent a message gets no statistics as written,
      while the counts the code goes on to compute record that message. */
  lemma ModuleStatsAsWrittenLosesSends(rows: seq<MessageRow>, me: string, row: MessageRow)
    requires row.source == me
    ensures ModuleStatsAsWritten(rows + [row], me).Failure?
    ensures StatsOf(rows + [row], me).messagesSent >= 1
  {
    SendCounts(rows, me, row);
  }

  /** The statistics after one more row. */
  lemma StatsStep(rows: seq<MessageRow>, row: MessageRow, me: string)
    ensures var before := StatsOf(rows, me);
            var withSent := if row.source == me
                            then before.(messagesSent := before.messagesSent + 1,
                                         connectedModules := before.connectedModules + {row.target})
                            else before;
            StatsOf(rows + [row], me) ==
              if row.target == me
              then withSent.(messagesReceived := withSent.messagesReceived + 1,
                             connectedModules := withSent.connectedModules + {row.source})
              else withSent
  {
    FilterSnoc(rows, row, SentBy(me));
    FilterSnoc(rows, row, AddressedTo(me));
    PeersSnoc(rows, row, me);
  }

  lemma PeersSnoc(rows: seq<MessageRow>, row: MessageRow, me: string)
    ensures Peers(rows + [row], me) ==
              Peers(rows, me) + (if row.target == me then {row.source} else {}) + (if row.source == me then {row.target} else {})
  {
    assert (rows + [row])[..|rows|] == rows;
  }

}
