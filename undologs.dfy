/**
 * `OrganizationSession` as a shared object and `UndoLog` (mover.py).
 *
 * A session's operations and completion flag change in place: the session
 * `FileMover` is recording into is the very object held in the log's list.
 * The log file is the field `stored`; every change to the log writes the
 * whole list back to it, as `_save` does.
 */
module UndoLogs {
  import opened Wrappers
  import opened Ledger
  import opened Paths

  class Session {
    const sessionId: string
    const timestamp: string
    const sourceDirectory: string
    const outputDirectory: string
    var operations: seq<MoveOperation>
    var completed: bool

    constructor (record: SessionRecord)
      ensures Record() == record
    {
      sessionId := record.sessionId;
      timestamp := record.timestamp;
      sourceDirectory := record.sourceDirectory;
      outputDirectory := record.outputDirectory;
      operations := record.operations;
      completed := record.completed;
    }

    /** `session.operations.append(op)`. */
    method Append(op: MoveOperation)
      modifies this
      ensures operations == old(operations) + [op]
      ensures completed == old(completed)
    {
      operations := operations + [op];
    }

    /** `session.completed = True`. */
    method Complete()
      modifies this
      ensures completed
      ensures operations == old(operations)
    {
      completed := true;
    }

    /** The session's data as it is written to the log. */
    function Record(): SessionRecord
      reads this
    {
      SessionRecord(sessionId, timestamp, sourceDirectory, outputDirectory, operations, completed)
    }
  }

  function RecordsOf(sessions: seq<Session>): (r: seq<SessionRecord>)
    reads sessions
    ensures |r| == |sessions|
    ensures forall i :: 0 <= i < |sessions| ==> r[i] == sessions[i].Record()
  {
    if sessions == [] then [] else [sessions[0].Record()] + RecordsOf(sessions[1..])
  }

  /** The session objects `_load` builds, one per record read, in order. */
  method NewSessions(records: seq<SessionRecord>) returns (sessions: seq<Session>)
    ensures RecordsOf(sessions) == records
    ensures forall s :: s in sessions ==> fresh(s)
  {
    sessions := [];
    var k := 0;
    while k < |records|
      invariant 0 <= k <= |records| && |sessions| == k
      invariant forall i :: 0 <= i < k ==> sessions[i].Record() == records[i]
      invariant forall s :: s in sessions ==> fresh(s)
    {
      var s := new Session(records[k]);
      sessions := sessions + [s];
      k := k + 1;
    }
  }

  /** `remove_session`'s filter: the sessions whose id differs from `id`, in their order. */
  function Without(sessions: seq<Session>, id: string): (r: seq<Session>)
    ensures forall s :: s in r ==> s in sessions && s.sessionId != id
    ensures forall s :: s in sessions && s.sessionId != id ==> s in r
    ensures |r| <= |sessions|
  {
    if sessions == [] then []
    else if sessions[0].sessionId == id then Without(sessions[1..], id)
    else [sessions[0]] + Without(sessions[1..], id)
  }

  /** The filter keeps order: it distributes over concatenation. */
  lemma {:induction false} WithoutKeepsOrder(a: seq<Session>, b: seq<Session>, id: string)
    ensures Without(a + b, id) == Without(a, id) + Without(b, id)
  {
    if a == [] {
      assert a + b == b;
    } else {
      assert (a + b)[0] == a[0] && (a + b)[1..] == a[1..] + b;
      WithoutKeepsOrder(a[1..], b, id);
      if a[0].sessionId != id {
        assert Without(a + b, id) == [a[0]] + (Without(a[1..], id) + Without(b, id));
      }
    }
  }

  /** A list in which no session has the id `id` passes the filter unchanged. */
  lemma {:induction false} WithoutOfOthers(sessions: seq<Session>, id: string)
    requires forall s :: s in sessions ==> s.sessionId != id
    ensures Without(sessions, id) == sessions
  {
    if sessions != [] {
      assert sessions[0] in sessions;
      WithoutOfOthers(sessions[1..], id);
      assert sessions == [sessions[0]] + sessions[1..];
    }
  }

  /** The last completed session of the list, if there is one. */
  function LastCompleted(sessions: seq<Session>): (r: Option<Session>)
    reads sessions
    ensures r.Some? ==> exists i :: 0 <= i < |sessions| && sessions[i] == r.value && r.value.completed
                                   && forall j :: i < j < |sessions| ==> !sessions[j].completed
    ensures r.None? ==> forall i :: 0 <= i < |sessions| ==> !sessions[i].completed
  {
    if sessions == [] then None
    else if sessions[|sessions| - 1].completed then Some(sessions[|sessions| - 1])
    else
      var r := LastCompleted(sessions[..|sessions| - 1]);
      assert forall i :: 0 <= i < |sessions| - 1 ==> sessions[..|sessions| - 1][i] == sessions[i];
      r
  }

  class UndoLog {
    const logPath: Path
    var sessions: seq<Session>
    var stored: Stored

    /** What `_save` writes for the current list. */
    function Saved(): Stored
      reads `sessions, sessions
    {
      Document(LogToJson(RecordsOf(sessions)))
    }

    /** `_save`: the whole list is written back to the file. */
    method Save()
      modifies `stored
      ensures stored == Saved()
    {
      stored := Saved();
    }

    /** The log after `_load` has read `records` from `file`. */
    constructor (logPath: Path, records: seq<SessionRecord>, file: Stored)
      ensures this.logPath == logPath && stored == file
      ensures RecordsOf(sessions) == records
      ensures forall s :: s in sessions ==> fresh(s)
    {
      this.logPath := logPath;
      stored := file;
      var loaded := NewSessions(records);
      sessions := loaded;
    }

    /** `create_session`: a new session, empty and not completed, at the end of the list; the clock's `session_id` and `timestamp` are parameters. */
    method CreateSession(sourceDirectory: string, outputDirectory: string, sessionId: string, timestamp: string)
      returns (session: Session)
      modifies this
      ensures fresh(session)
      ensures session.Record() == SessionRecord(sessionId, timestamp, sourceDirectory, outputDirectory, [], false)
      ensures sessions == old(sessions) + [session]
      ensures stored == Saved()
    {
      session := new Session(SessionRecord(sessionId, timestamp, sourceDirectory, outputDirectory, [], false));
      sessions := sessions + [session];
      Save();
    }

    /** `add_operation`: the operation goes at the end of that session's list; no other session changes. */
    method AddOperation(session: Session, op: MoveOperation)
      modifies this, session
      ensures session.operations == old(session.operations) + [op]
      ensures session.completed == old(session.completed)
      ensures sessions == old(sessions)
      ensures stored == Saved()
    {
      session.Append(op);
      Save();
    }

    /** `complete_session`: only the flag changes. */
    method CompleteSession(session: Session)
      modifies this, session
      ensures session.completed
      ensures session.operations == old(session.operations)
      ensures sessions == old(sessions)
      ensures stored == Saved()
    {
      session.Complete();
      Save();
    }

    /** `get_last_session`, proved against `LastCompleted`. */
    method GetLastSession() returns (r: Option<Session>)
      ensures r == LastCompleted(sessions)
    {
      var i := |sessions|;
      while i > 0
        invariant 0 <= i <= |sessions|
        invariant LastCompleted(sessions[..i]) == LastCompleted(sessions)
      {
        assert sessions[..i][..i - 1] == sessions[..i - 1];
        i := i - 1;
        if sessions[i].completed {
          return Some(sessions[i]);
        }
      }
      return None;
    }

    /** `remove_session`: every session with the same id leaves the list, the others keep their order. */
    method RemoveSession(session: Session)
      modifies this
      ensures sessions == Without(old(sessions), session.sessionId)
      ensures stored == Saved()
    {
      sessions := Without(sessions, session.sessionId);
      Save();
    }
  }

  /**
   * `UndoLog.__init__`: the log as `_load` reads it from `file`, or `None`
   * when `_load` raises.
   */
  method OpenUndoLog(logPath: Path, file: Stored) returns (log: Option<UndoLog>)
    ensures log.None? <==> LoadLog(file) == Crashed
    ensures log.Some? ==> fresh(log.value) && RecordsOf(log.value.sessions) == LoadLog(file).records
    ensures log.Some? ==> log.value.stored == file && log.value.logPath == logPath
  {
    match LoadLog(file)
    case Crashed => return None;
    case Sessions(records) =>
      var l := new UndoLog(logPath, records, file);
      return Some(l);
  }

  /** A log whose file was written by `_save` opens with the sessions it saved. */
  method ReopenSaved(log: UndoLog) returns (again: Option<UndoLog>)
    ensures again.Some?
    ensures RecordsOf(again.value.sessions) == RecordsOf(log.sessions)
  {
    LogRoundTrip(RecordsOf(log.sessions));
    again := OpenUndoLog(log.logPath, log.Saved());
  }
}
