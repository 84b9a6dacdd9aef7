/** Session progress over the tracker's two tables, `communication_sessions`
    and `progress_updates`.

    The tracker itself (`AsyncProgressTracker`, in progress_tracker.py) is not
    part of this model: the queries here take its tables as values, and the
    class `Tracker` holds only the state `track_module_communication` changes:
    the two tables and whether the tracker was closed. */
module ProgressUtils {
  import opened Wrappers
  import opened Ordering
  import opened Json
  import Communicator

  /** The `CommunicationStatus` values this code refers to. `Initiated` stands
      for the status a new session gets from the tracker, which is defined
      elsewhere; the model relies only on it being neither terminal value. */
  datatype Status = Initiated | Negotiating | SchemaAgreed | Completed | Failed

  /** COMPLETED and FAILED end a session. */
  predicate IsTerminal(s: Status) {
    s == Completed || s == Failed
  }

  /** A row of `communication_sessions`; a NULL column is `None`. */
  datatype Session = Session(
    sessionId: string,
    sourceModule: string,
    targetModule: string,
    status: Status,
    startedAt: Option<Timestamp>,
    completedAt: Option<Timestamp>,
    errorMessage: Option<string>)

  /** A row of `progress_updates`. */
  datatype Update = Update(
    sessionId: string,
    moduleName: string,
    updateType: string,
    progressValue: Option<real>,
    message: string,
    createdAt: Timestamp)

  /** What `get_session_progress` returns: `{"error": "Session not found"}`,
      or the session, its latest updates and whether it is complete. */
  datatype SessionProgress =
    | SessionNotFound
    | SessionFound(session: Session, updates: seq<Update>, isComplete: bool)

  /** `LIMIT 10` on the updates of a session. */
  const UpdateLimit: nat := 10

  function OfSession(sessionId: string): Update -> bool {
    (u: Update) => u.sessionId == sessionId
  }

  function UpdateTime(u: Update): int { u.createdAt }

  /** `SELECT * FROM communication_sessions WHERE session_id = ?` and `fetchone`. */
  function FindSession(sessions: seq<Session>, sessionId: string): (r: Option<Session>)
    ensures r.None? <==> forall s :: s in sessions ==> s.sessionId != sessionId
    ensures r.Some? ==> r.value in sessions && r.value.sessionId == sessionId
  {
    if sessions == [] then None
    else if sessions[0].sessionId == sessionId then Some(sessions[0])
    else FindSession(sessions[1..], sessionId)
  }

  /** The session, its ten newest updates newest first, and whether it ended. */
  function GetSessionProgress(sessions: seq<Session>, updates: seq<Update>, sessionId: string): (r: SessionProgress)
    ensures r.SessionNotFound? <==> forall s :: s in sessions ==> s.sessionId != sessionId
    ensures r.SessionFound? ==> r.session in sessions && r.session.sessionId == sessionId
    ensures r.SessionFound? ==> (r.isComplete <==> r.session.status == Completed || r.session.status == Failed)
    ensures r.SessionFound? ==>
              && |r.updates| <= UpdateLimit
              && (forall u :: u in r.updates ==> u in updates && u.sessionId == sessionId)
              && (forall i, j :: 0 <= i < j < |r.updates| ==> r.updates[j].createdAt <= r.updates[i].createdAt)
    ensures r.SessionFound? ==>
              forall u, v :: u in updates && u.sessionId == sessionId && u !in r.updates && v in r.updates ==>
                u.createdAt <= v.createdAt
    ensures r.SessionFound? ==>
              |r.updates| == if |Filter(updates, OfSession(sessionId))| <= UpdateLimit
                             then |Filter(updates, OfSession(sessionId))| else UpdateLimit
  {
    match FindSession(sessions, sessionId)
    case None => SessionNotFound
    case Some(session) =>
      LatestUpdatesMembers(updates, sessionId);
      LatestUpdatesOrder(updates, sessionId);
      SessionFound(session, LatestUpdates(updates, sessionId), IsTerminal(session.status))
  }

  /** `WHERE session_id = ? ORDER BY created_at DESC LIMIT 10` on the updates. */
  function LatestUpdates(updates: seq<Update>, sessionId: string): seq<Update> {
    TakeAtMost(SortDesc(Filter(updates, OfSession(sessionId)), UpdateTime), UpdateLimit)
  }

  lemma LatestUpdatesMembers(updates: seq<Update>, sessionId: string)
    ensures forall u :: u in LatestUpdates(updates, sessionId) ==> u in updates && u.sessionId == sessionId
  {
    var mine := Filter(updates, OfSession(sessionId));
    SortDescMembers(mine, UpdateTime);
    var sorted := SortDesc(mine, UpdateTime);
    assert forall u :: u in LatestUpdates(updates, sessionId) ==> u in sorted;
  }

  lemma LatestUpdatesOrder(updates: seq<Update>, sessionId: string)
    ensures var r := LatestUpdates(updates, sessionId);
            (forall i, j :: 0 <= i < j < |r| ==> r[j].createdAt <= r[i].createdAt)
    ensures var r := LatestUpdates(updates, sessionId);
            forall u, v :: u in updates && u.sessionId == sessionId && u !in r && v in r ==> u.createdAt <= v.createdAt
  {
    var mine := Filter(updates, OfSession(sessionId));
    var r := LatestUpdates(updates, sessionId);
    SortDescTakeSorted(mine, UpdateTime, UpdateLimit);
    SortDescTakeNewest(mine, UpdateTime, UpdateLimit);
    forall u, v | u in updates && u.sessionId == sessionId && u !in r && v in r
      ensures u.createdAt <= v.createdAt
    {
      assert u in mine;
      assert UpdateTime(u) <= UpdateTime(v);
    }
  }

  // ---------------------------------------------------------------------------
  // Watching a session

  predicate IsCompleteSnapshot(p: SessionProgress) {
    p.SessionFound? && p.isComplete
  }

  /** `len(progress.get("updates", []))`: an error result has no updates. */
  function UpdateCount(p: SessionProgress): nat {
    if p.SessionFound? then |p.updates| else 0
  }

  /** The snapshots `watch_session_progress` yields when its successive calls
      to `get_session_progress` return `polls`, having last yielded a snapshot
      with `last` updates. */
  function WatchYields(polls: seq<SessionProgress>, last: nat): seq<SessionProgress>
    decreases |polls|
  {
    if polls == [] then []
    else if IsCompleteSnapshot(polls[0]) then [polls[0]]
    else if UpdateCount(polls[0]) > last then [polls[0]] + WatchYields(polls[1..], UpdateCount(polls[0]))
    else WatchYields(polls[1..], last)
  }

  /** The polling loop, run over the snapshots its polls return. It yields
      the snapshots in `yielded` and stops after `polled` polls: just after the
      first complete snapshot, or when the snapshots run out. */
  method WatchSessionProgress(polls: seq<SessionProgress>) returns (yielded: seq<SessionProgress>, polled: nat)
    ensures yielded == WatchYields(polls, 0)
    ensures polled <= |polls|
    ensures forall i :: 0 <= i < polled - 1 ==> !IsCompleteSnapshot(polls[i])
    ensures (0 < polled && IsCompleteSnapshot(polls[polled - 1])) ||
            (polled == |polls| && forall i :: 0 <= i < |polls| ==> !IsCompleteSnapshot(polls[i]))
  {
    var lastUpdateCount: nat := 0;
    var i := 0;
    yielded := [];
    while i < |polls|
      invariant 0 <= i <= |polls|
      invariant forall k :: 0 <= k < i ==> !IsCompleteSnapshot(polls[k])
      invariant yielded + WatchYields(polls[i..], lastUpdateCount) == WatchYields(polls, 0)
    {
      var progress := polls[i];
      assert polls[i..][1..] == polls[i + 1..];
      if IsCompleteSnapshot(progress) {
        yielded := yielded + [progress];
        polled := i + 1;
        return;
      }
      var updateCount := UpdateCount(progress);
      if updateCount > lastUpdateCount {
        yielded := yielded + [progress];
        lastUpdateCount := updateCount;
      }
      i := i + 1;
    }
    polled := i;
  }

  /** Every yielded snapshot was polled; only the last can be complete; each
      other one has more updates than the previous yield, so a "Session not
      found" result is never yielded. */
  lemma WatchYieldsShape(polls: seq<SessionProgress>, last: nat)
    ensures var y := WatchYields(polls, last);
            && (forall i :: 0 <= i < |y| ==> y[i] in polls)
            && (forall i :: 0 <= i < |y| - 1 ==> !IsCompleteSnapshot(y[i]))
            && (forall i :: 0 <= i < |y| && !IsCompleteSnapshot(y[i]) ==> UpdateCount(y[i]) > last)
            && (forall i, j :: 0 <= i < j < |y| && !IsCompleteSnapshot(y[j]) ==> UpdateCount(y[i]) < UpdateCount(y[j]))
            && (forall i :: 0 <= i < |y| ==> y[i].SessionFound?)
  {
    WatchYieldsPolled(polls, last);
    WatchYieldsCounts(polls, last);
  }

  /** Every yield was polled, and only the last can be complete. */
  lemma {:induction false} WatchYieldsPolled(polls: seq<SessionProgress>, last: nat)
    ensures var y := WatchYields(polls, last);
            && (forall i :: 0 <= i < |y| ==> y[i] in polls)
            && (forall i :: 0 <= i < |y| - 1 ==> !IsCompleteSnapshot(y[i]))
    decreases |polls|
  {
    if polls != [] && !IsCompleteSnapshot(polls[0]) {
      var rest := polls[1..];
      var next := if UpdateCount(polls[0]) > last then UpdateCount(polls[0]) else last;
      WatchYieldsPolled(rest, next);
      assert var yy := WatchYields(rest, next);
             (forall i :: 0 <= i < |yy| ==> yy[i] in rest) && (forall i :: 0 <= i < |yy| - 1 ==> !IsCompleteSnapshot(yy[i]));
      assert forall x :: x in rest ==> x in polls;
      var y := WatchYields(polls, last);
      var z := WatchYields(rest, next);
      if UpdateCount(polls[0]) > last {
        assert y == [polls[0]] + z;
        assert forall i :: 1 <= i < |y| ==> y[i] == z[i - 1];
        assert polls[0] in polls;
      } else {
        assert y == z;
      }
    }
  }

  /** Snapshots that are not complete have more updates than `last` and than
      every earlier snapshot, and all of them found the session. */
  ghost predicate CountsRise(y: seq<SessionProgress>, last: nat) {
    && (forall i :: 0 <= i < |y| && !IsCompleteSnapshot(y[i]) ==> UpdateCount(y[i]) > last)
    && (forall i, j :: 0 <= i < j < |y| && !IsCompleteSnapshot(y[j]) ==> UpdateCount(y[i]) < UpdateCount(y[j]))
    && (forall i :: 0 <= i < |y| ==> y[i].SessionFound?)
  }

  /** A snapshot with more updates than `last`, put in front of snapshots
      whose counts rise above its own, gives counts rising above `last`. */
  lemma CountsRiseCons(p: SessionProgress, z: seq<SessionProgress>, last: nat)
    requires !IsCompleteSnapshot(p) && UpdateCount(p) > last
    requires CountsRise(z, UpdateCount(p))
    ensures CountsRise([p] + z, last)
  {
    var y := [p] + z;
    forall i | 0 <= i < |y| && !IsCompleteSnapshot(y[i]) ensures UpdateCount(y[i]) > last {
      if i > 0 {
        assert y[i] == z[i - 1];
      }
    }
    forall i, j | 0 <= i < j < |y| && !IsCompleteSnapshot(y[j]) ensures UpdateCount(y[i]) < UpdateCount(y[j]) {
      assert y[j] == z[j - 1];
      if i > 0 {
        assert y[i] == z[i - 1];
      }
    }
    forall i | 0 <= i < |y| ensures y[i].SessionFound? {
      if i > 0 {
        assert y[i] == z[i - 1];
      }
    }
  }

  lemma {:induction false} WatchYieldsCounts(polls: seq<SessionProgress>, last: nat)
    ensures CountsRise(WatchYields(polls, last), last)
    decreases |polls|
  {
    if polls != [] && !IsCompleteSnapshot(polls[0]) {
      var rest := polls[1..];
      var c := UpdateCount(polls[0]);
      if c > last {
        WatchYieldsCounts(rest, c);
        CountsRiseCons(polls[0], WatchYields(rest, c), last);
        assert WatchYields(polls, last) == [polls[0]] + WatchYields(rest, c);
      } else {
        WatchYieldsCounts(rest, last);
        assert WatchYields(polls, last) == WatchYields(rest, last);
      }
    }
  }

  /** When some poll finds the session complete, the first such snapshot is
      the last one yielded. */
  lemma {:induction false} WatchEndsWithFirstComplete(polls: seq<SessionProgress>, last: nat, k: nat)
    requires k < |polls| && IsCompleteSnapshot(polls[k])
    requires forall i :: 0 <= i < k ==> !IsCompleteSnapshot(polls[i])
    ensures WatchYields(polls, last) != []
    ensures WatchYields(polls, last)[|WatchYields(polls, last)| - 1] == polls[k]
    decreases k
  {
    if k > 0 {
      var next := if UpdateCount(polls[0]) > last then UpdateCount(polls[0]) else last;
      WatchEndsWithFirstComplete(polls[1..], next, k - 1);
    }
  }

  // ---------------------------------------------------------------------------
  // Active sessions

  /** `ORDER BY started_at DESC` puts NULL last. */
  function StartedKey(s: Session): int {
    match s.startedAt
    case None => -1
    case Some(t) => t
  }

  /** `if module_name:` — an empty name, like no name, selects every module. */
  predicate Involves(s: Session, moduleName: Option<string>) {
    moduleName.None? || moduleName.value == "" ||
    s.sourceModule == moduleName.value || s.targetModule == moduleName.value
  }

  function ActiveFor(moduleName: Option<string>): Session -> bool {
    (s: Session) => !IsTerminal(s.status) && Involves(s, moduleName)
  }

  /** The sessions neither completed nor failed (those involving the module,
      when one is named), latest start first and unstarted ones last. */
  function GetActiveSessions(sessions: seq<Session>, moduleName: Option<string>): (r: seq<Session>)
    ensures forall s :: s in r <==> s in sessions && s.status != Completed && s.status != Failed && Involves(s, moduleName)
    ensures |r| == |Filter(sessions, ActiveFor(moduleName))|
    ensures forall i, j :: 0 <= i < j < |r| && r[i].startedAt.None? ==> r[j].startedAt.None?
    ensures forall i, j :: 0 <= i < j < |r| && r[i].startedAt.Some? && r[j].startedAt.Some? ==>
              r[j].startedAt.value <= r[i].startedAt.value
  {
    var active := Filter(sessions, ActiveFor(moduleName));
    SortDescMembers(active, StartedKey);
    SortDescSorted(active, StartedKey);
    StartedOrder(SortDesc(active, StartedKey));
    SortDesc(active, StartedKey)
  }

  lemma StartedOrder(r: seq<Session>)
    requires SortedDesc(r, StartedKey)
    ensures forall i, j :: 0 <= i < j < |r| && r[i].startedAt.None? ==> r[j].startedAt.None?
    ensures forall i, j :: 0 <= i < j < |r| && r[i].startedAt.Some? && r[j].startedAt.Some? ==>
              r[j].startedAt.value <= r[i].startedAt.value
  {
    forall i, j | 0 <= i < j < |r|
      ensures StartedKey(r[j]) <= StartedKey(r[i])
    {
    }
  }

  // ---------------------------------------------------------------------------
  // Statistics

  /** `started_at >= start` and `started_at <= end`, for the bounds given; a
      NULL start time fails every bound. */
  function InRange(start: Option<Timestamp>, end: Option<Timestamp>): Session -> bool {
    (s: Session) =>
      && (start.None? || (s.startedAt.Some? && s.startedAt.value >= start.value))
      && (end.None? || (s.startedAt.Some? && s.startedAt.value <= end.value))
  }

  function HasStatus(status: Status): Session -> bool {
    (s: Session) => s.status == status
  }

  function IsActiveSession(s: Session): bool {
    !IsTerminal(s.status)
  }

  function HasBothTimestamps(s: Session): bool {
    s.completedAt.Some? && s.startedAt.Some?
  }

  /** `(end - start).total_seconds()` for a session with both timestamps, in
      whole seconds. */
  function Duration(s: Session): int
    requires HasBothTimestamps(s)
  {
    s.completedAt.value - s.startedAt.value
  }

  /** One duration per session having both timestamps, in table order. */
  function DurationsOf(sessions: seq<Session>): (ds: seq<int>)
    ensures |ds| == |Filter(sessions, HasBothTimestamps)|
  {
    var timed := Filter(sessions, HasBothTimestamps);
    seq(|timed|, i requires 0 <= i < |timed| => Duration(timed[i]))
  }

  /** Every session is completed, failed or still active, and only one of them. */
  lemma {:induction false} StatusPartition(sessions: seq<Session>)
    ensures |Filter(sessions, HasStatus(Completed))| + |Filter(sessions, HasStatus(Failed))|
            + |Filter(sessions, IsActiveSession)| == |sessions|
  {
    if sessions != [] {
      StatusPartition(sessions[1..]);
    }
  }

  /** One more session adds its duration at the end, when it has both timestamps. */
  lemma DurationsSnoc(prefix: seq<Session>, s: Session)
    ensures DurationsOf(prefix + [s]) ==
            DurationsOf(prefix) + (if HasBothTimestamps(s) then [Duration(s)] else [])
  {
    FilterSnoc(prefix, s, HasBothTimestamps);
    var timed := Filter(prefix, HasBothTimestamps);
    var lhs := DurationsOf(prefix + [s]);
    var rhs := DurationsOf(prefix) + (if HasBothTimestamps(s) then [Duration(s)] else []);
    assert |lhs| == |rhs|;
    forall k | 0 <= k < |lhs| ensures lhs[k] == rhs[k] {
      if k < |timed| {
        assert lhs[k] == Duration(timed[k]);
      }
    }
  }

  datatype CommunicationStats = CommunicationStats(
    totalSessions: nat,
    completed: nat,
    failed: nat,
    successRate: real,
    averageDurationSeconds: real,
    activeSessions: int)

  /** The loop collecting durations. */
  method SessionDurations(sessions: seq<Session>) returns (durations: seq<int>)
    ensures durations == DurationsOf(sessions)
  {
    durations := [];
    var i := 0;
    while i < |sessions|
      invariant 0 <= i <= |sessions|
      invariant durations == DurationsOf(sessions[..i])
    {
      var session := sessions[i];
      DurationsSnoc(sessions[..i], session);
      assert sessions[..i + 1] == sessions[..i] + [session];
      if session.completedAt.Some? && session.startedAt.Some? {
        durations := durations + [session.completedAt.value - session.startedAt.value];
      }
      i := i + 1;
    }
    assert sessions[..i] == sessions;
  }

  /** `sum(durations) / len(durations) if durations else 0`. */
  function MeanDuration(ds: seq<int>): (m: real)
    ensures ds == [] ==> m == 0.0
    ensures ds != [] ==> m * (|ds| as real) == Sum(ds) as real
  {
    if ds == [] then 0.0 else (Sum(ds) as real) / (|ds| as real)
  }

  /** Counts over the sessions started within the bounds: completed, failed
      and active add up to the total; the success rate is the completed
      percentage, 0 without sessions; the average duration is 0 when no
      session has both timestamps. */
  method GetCommunicationStats(sessions: seq<Session>, start: Option<Timestamp>, end: Option<Timestamp>)
    returns (stats: CommunicationStats)
    ensures stats.totalSessions == |Filter(sessions, InRange(start, end))|
    ensures stats.completed == |Filter(Filter(sessions, InRange(start, end)), HasStatus(Completed))|
    ensures stats.failed == |Filter(Filter(sessions, InRange(start, end)), HasStatus(Failed))|
    ensures stats.activeSessions == |Filter(Filter(sessions, InRange(start, end)), IsActiveSession)|
    ensures stats.averageDurationSeconds == MeanDuration(DurationsOf(Filter(sessions, InRange(start, end))))
    ensures stats.completed + stats.failed + stats.activeSessions == stats.totalSessions
    ensures stats.successRate == Communicator.Percentage(stats.completed, stats.totalSessions)
    ensures stats.totalSessions == 0 ==> stats.successRate == 0.0
    ensures 0.0 <= stats.successRate <= 100.0
  {
    var selected := Filter(sessions, InRange(start, end));
    var total := |selected|;
    var completed := |Filter(selected, HasStatus(Completed))|;
    var failed := |Filter(selected, HasStatus(Failed))|;
    var durations := SessionDurations(selected);
    StatusPartition(selected);
    var rate := Communicator.Percentage(completed, total);
    if total > 0 {
      Communicator.PercentageBounds(completed, total);
    }
    stats := CommunicationStats(total, completed, failed, rate, MeanDuration(durations), total - completed - failed);
  }

  // ---------------------------------------------------------------------------
  // Tracking one communication

  /** The session rows after `update_session_status(session_id, status,
      error_message)`: every row with that id gets the status and message. */
  function WithStatus(sessions: seq<Session>, sessionId: string, status: Status, error: Option<string>): (r: seq<Session>)
    ensures |r| == |sessions|
    ensures forall i :: 0 <= i < |r| ==>
              r[i] == if sessions[i].sessionId == sessionId
                      then sessions[i].(status := status, errorMessage := error)
                      else sessions[i]
  {
    seq(|sessions|, i requires 0 <= i < |sessions| =>
      if sessions[i].sessionId == sessionId then sessions[i].(status := status, errorMessage := error)
      else sessions[i])
  }

  class Tracker {
    var sessions: seq<Session>
    var updates: seq<Update>
    var closed: bool

    /** An initialized tracker over a database holding these rows. */
    constructor (sessions: seq<Session>, updates: seq<Update>)
      ensures this.sessions == sessions && this.updates == updates && !closed
    {
      this.sessions := sessions;
      this.updates := updates;
      closed := false;
    }

    /** `create_session`: a new session, started now, under the given id. */
    method CreateSession(source: string, target: string, sessionId: string, now: Timestamp)
      modifies this
      ensures sessions == old(sessions) + [Session(sessionId, source, target, Initiated, Some(now), None, None)]
      ensures updates == old(updates) && closed == old(closed)
    {
      sessions := sessions + [Session(sessionId, source, target, Initiated, Some(now), None, None)];
    }

    /** `add_progress_update` without a progress value. */
    method AddProgressUpdate(sessionId: string, moduleName: string, updateType: string, message: string, now: Timestamp)
      modifies this
      ensures updates == old(updates) + [Update(sessionId, moduleName, updateType, None, message, now)]
      ensures sessions == old(sessions) && closed == old(closed)
    {
      updates := updates + [Update(sessionId, moduleName, updateType, None, message, now)];
    }

    method UpdateSessionStatus(sessionId: string, status: Status, error: Option<string>)
      modifies this
      ensures sessions == WithStatus(old(sessions), sessionId, status, error)
      ensures updates == old(updates) && closed == old(closed)
    {
      sessions := WithStatus(sessions, sessionId, status, error);
    }

    /** The rows as a caller left them after writing through this tracker. */
    method Install(sessions: seq<Session>, updates: seq<Update>)
      modifies this
      ensures this.sessions == sessions && this.updates == updates
      ensures closed == old(closed)
    {
      this.sessions := sessions;
      this.updates := updates;
    }

    method Close()
      modifies this
      ensures closed
      ensures sessions == old(sessions) && updates == old(updates)
    {
      closed := true;
    }
  }

  /** How the awaited communication function ends: with a result, or by
      raising an exception whose `str` is `message`. */
  datatype Outcome = Returned(result: Value) | Raised(message: string)

  /** One run of `communication_func(session_id, tracker)`: the session and
      update rows it leaves behind after writing through the tracker, and how
      it ends. */
  datatype FuncRun = FuncRun(sessions: seq<Session>, updates: seq<Update>, outcome: Outcome)

  /** The status a tracked session ends in. */
  function EndStatus(outcome: Outcome): Status {
    if outcome.Returned? then Completed else Failed
  }

  /** The error message a tracked session ends with. */
  function EndError(outcome: Outcome): Option<string> {
    if outcome.Raised? then Some(outcome.message) else None
  }

  /** `{"success": True, "session_id", "result"}` or `{"success": False, "session_id", "error"}`. */
  datatype CommunicationResult =
    | Succeeded(sessionId: string, result: Value)
    | FailedWith(sessionId: string, error: string)

  /** The message of the first progress update of a communication. */
  function StartMessage(target: string): string {
    "Initiating communication with " + target
  }

  /** The session row `create_session` adds for a communication. */
  function StartSession(sessionId: string, source: string, target: string, now: Timestamp): Session {
    Session(sessionId, source, target, Initiated, Some(now), None, None)
  }

  /** The progress row that announces a communication. */
  function StartUpdate(sessionId: string, source: string, target: string, now: Timestamp): Update {
    Update(sessionId, source, "communication_started", None, StartMessage(target), now)
  }

  /** Runs one communication under a tracked session. The wrapper first adds
      its session and its start update; the communication function then sees
      those rows and may write through the tracker; afterwards every session
      row with the id ends COMPLETED when the function returned and FAILED,
      with the exception's text, when it raised, while the function's update
      rows stay as it left them. A tracker made here (none was given) is
      closed at the end; a given one is left as the function left it.
      `sessionId` is the id the tracker assigns; `defaultSessions` and
      `defaultUpdates` are the rows a new tracker finds in its database. */
  method TrackModuleCommunication(source: string, target: string,
                                  func: (string, seq<Session>, seq<Update>) -> FuncRun, tracker: Tracker?,
                                  sessionId: string, now: Timestamp,
                                  defaultSessions: seq<Session>, defaultUpdates: seq<Update>)
    returns (result: CommunicationResult, used: Tracker)
    modifies tracker
    ensures tracker != null ==> used == tracker && used.closed == old(tracker.closed)
    ensures tracker == null ==> fresh(used) && used.closed
    ensures var startSessions := (if tracker == null then defaultSessions else old(tracker.sessions))
                                 + [StartSession(sessionId, source, target, now)];
            var startUpdates := (if tracker == null then defaultUpdates else old(tracker.updates))
                                + [StartUpdate(sessionId, source, target, now)];
            var run := func(sessionId, startSessions, startUpdates);
            && used.sessions == WithStatus(run.sessions, sessionId, EndStatus(run.outcome), EndError(run.outcome))
            && used.updates == run.updates
            && (run.outcome.Returned? ==> result == Succeeded(sessionId, run.outcome.result))
            && (run.outcome.Raised? ==> result == FailedWith(sessionId, run.outcome.message))
  {
    var closeTracker: bool;
    if tracker == null {
      used := new Tracker(defaultSessions, defaultUpdates);
      closeTracker := true;
    } else {
      used := tracker;
      closeTracker := false;
    }
    used.CreateSession(source, target, sessionId, now);
    used.AddProgressUpdate(sessionId, source, "communication_started", StartMessage(target), now);
    var run := func(sessionId, used.sessions, used.updates);
    used.Install(run.sessions, run.updates);
    match run.outcome {
      case Returned(value) =>
        used.UpdateSessionStatus(sessionId, Completed, None);
        result := Succeeded(sessionId, value);
      case Raised(message) =>
        used.UpdateSessionStatus(sessionId, Failed, Some(message));
        result := FailedWith(sessionId, message);
    }
    if closeTracker {
      used.Close();
    }
  }

  /** Whatever rows the communication function leaves, every session row with
      the communication's id ends terminal with the outcome's error message,
      and rows of other sessions are kept. When the function left the rows it
      was given, the wrapper's own session is the last row and carries the
      final status. */
  lemma TrackedSessionEnds(before: seq<Session>, rows: seq<Session>, sessionId: string,
                           source: string, target: string, now: Timestamp, outcome: Outcome)
    ensures var after := WithStatus(rows, sessionId, EndStatus(outcome), EndError(outcome));
            && |after| == |rows|
            && (forall i :: 0 <= i < |rows| && rows[i].sessionId == sessionId ==>
                  IsTerminal(after[i].status) && after[i].errorMessage == EndError(outcome))
            && (forall i :: 0 <= i < |rows| && rows[i].sessionId != sessionId ==> after[i] == rows[i])
            && (rows == before + [StartSession(sessionId, source, target, now)] ==>
                  after[|before|] == Session(sessionId, source, target, EndStatus(outcome), Some(now), None, EndError(outcome)))
  {
  }
}
