/**
 * The undo log's records and their JSON form (mover.py): `MoveOperation`,
 * `OrganizationSession` as a value, their `to_dict`/`from_dict`, and what
 * `UndoLog._load` makes of the log file.
 *
 * The text of the file is not modelled: the file holds a JSON value, and
 * `json.dump`/`json.load` are taken to be inverse. A JSON object is a map
 * from keys to values, as a Python dict is once key order is ignored.
 */
module Ledger {
  import opened Wrappers

  datatype Json =
    | JNull
    | JBool(b: bool)
    | JNumber(n: int)
    | JString(s: string)
    | JArray(items: seq<Json>)
    | JObject(fields: map<string, Json>)

  /** `MoveOperation`. */
  datatype MoveOperation = MoveOperation(source: string, destination: string, category: string,
                                         reasoning: string, timestamp: string)

  /** The data of an `OrganizationSession`, as written to and read from the log. */
  datatype SessionRecord = SessionRecord(sessionId: string, timestamp: string, sourceDirectory: string,
                                         outputDirectory: string, operations: seq<MoveOperation>,
                                         completed: bool)

  /**
   * Why a record cannot be read: a missing key (`KeyError`, which `_load`
   * catches) or a value of the wrong shape (`TypeError` or `AttributeError`,
   * which `_load` lets through).
   */
  datatype Failure = KeyMissing | WrongShape

  // ---------------------------------------------------------------------------
  // MoveOperation

  const OperationKeys: set<string> := {"source", "destination", "category", "reasoning", "timestamp"}

  /** `MoveOperation.to_dict` (`asdict`). */
  function OperationToJson(op: MoveOperation): (j: Json)
    ensures j.JObject? && j.fields.Keys == OperationKeys
    ensures forall k :: k in j.fields ==> j.fields[k].JString?
  {
    JObject(map["source" := JString(op.source), "destination" := JString(op.destination),
                "category" := JString(op.category), "reasoning" := JString(op.reasoning),
                "timestamp" := JString(op.timestamp)])
  }

  /** Every value of `fields` is a string. */
  predicate AllText(fields: map<string, Json>) {
    forall k :: k in fields ==> fields[k].JString?
  }

  /**
   * `MoveOperation.from_dict` (`cls(**data)`): the keys must be exactly the
   * five field names, otherwise the call raises `TypeError`, as it does for
   * a value that is not a dict.
   */
  function OperationFromJson(j: Json): (r: Result<MoveOperation, Failure>)
    ensures r.Ok? <==> j.JObject? && j.fields.Keys == OperationKeys && AllText(j.fields)
    ensures r.Err? ==> r.error == WrongShape
  {
    if j.JObject? && j.fields.Keys == OperationKeys && AllText(j.fields) then
      var f := j.fields;
      Ok(MoveOperation(f["source"].s, f["destination"].s, f["category"].s, f["reasoning"].s, f["timestamp"].s))
    else Err(WrongShape)
  }

  /** `from_dict(to_dict(op)) == op`. */
  lemma OperationRoundTrip(op: MoveOperation)
    ensures OperationFromJson(OperationToJson(op)) == Ok(op)
  {
  }

  /** `to_dict(from_dict(d)) == d` for every dict `from_dict` accepts: reading loses nothing. */
  lemma OperationJsonRoundTrip(j: Json)
    requires OperationFromJson(j).Ok?
    ensures OperationToJson(OperationFromJson(j).value) == j
  {
    var f := j.fields;
    assert OperationToJson(OperationFromJson(j).value).fields == f;
  }

  function OperationsToJson(ops: seq<MoveOperation>): (r: seq<Json>)
    ensures |r| == |ops|
    ensures forall i :: 0 <= i < |ops| ==> r[i] == OperationToJson(ops[i])
  {
    if ops == [] then [] else [OperationToJson(ops[0])] + OperationsToJson(ops[1..])
  }

  /** The list comprehension of `OrganizationSession.from_dict`: the first item that cannot be read decides the error. */
  function OperationsFromJson(items: seq<Json>): (r: Result<seq<MoveOperation>, Failure>)
    ensures r.Ok? <==> forall i :: 0 <= i < |items| ==> OperationFromJson(items[i]).Ok?
    ensures r.Ok? ==> |r.value| == |items| && forall i :: 0 <= i < |items| ==> Ok(r.value[i]) == OperationFromJson(items[i])
    ensures r.Err? ==> r.error == WrongShape
  {
    if items == [] then Ok([])
    else
      match OperationFromJson(items[0])
      case Err(e) => Err(e)
      case Ok(op) =>
        match OperationsFromJson(items[1..])
        case Err(e) => Err(e)
        case Ok(rest) =>
          assert forall i :: 1 <= i < |items| ==> items[i] == items[1..][i - 1];
          Ok([op] + rest)
  }

  lemma {:induction false} OperationsRoundTrip(ops: seq<MoveOperation>)
    ensures OperationsFromJson(OperationsToJson(ops)) == Ok(ops)
  {
    if ops != [] {
      OperationRoundTrip(ops[0]);
      OperationsRoundTrip(ops[1..]);
      assert OperationsToJson(ops)[1..] == OperationsToJson(ops[1..]);
      assert ops == [ops[0]] + ops[1..];
    }
  }

  // ---------------------------------------------------------------------------
  // OrganizationSession

  /** `OrganizationSession.to_dict`. */
  function SessionToJson(s: SessionRecord): (j: Json)
    ensures j.JObject?
    ensures j.fields.Keys == {"session_id", "timestamp", "source_directory", "output_directory", "operations", "completed"}
  {
    JObject(map["session_id" := JString(s.sessionId), "timestamp" := JString(s.timestamp),
                "source_directory" := JString(s.sourceDirectory), "output_directory" := JString(s.outputDirectory),
                "operations" := JArray(OperationsToJson(s.operations)), "completed" := JBool(s.completed)])
  }

  /**
   * Iterating the value stored under "operations": a list yields its items;
   * an empty string or empty dict yields nothing; a non-empty string or dict
   * yields strings, which `cls(**item)` rejects; any other value is not
   * iterable. All rejections are `TypeError`.
   */
  function OperationsValue(v: Json): (r: Result<seq<MoveOperation>, Failure>)
    ensures v.JArray? ==> r == OperationsFromJson(v.items)
    ensures !v.JArray? ==> (r.Ok? <==> v == JString("") || v == JObject(map[]))
    ensures r.Ok? && !v.JArray? ==> r.value == []
    ensures r.Err? ==> r.error == WrongShape
  {
    match v
    case JArray(items) => OperationsFromJson(items)
    case JString(s) => if s == "" then Ok([]) else Err(WrongShape)
    case JObject(m) => if m == map[] then Ok([]) else Err(WrongShape)
    case _ => Err(WrongShape)
  }

  /** The four keys `from_dict` indexes directly. */
  predicate HasIdentityKeys(f: map<string, Json>) {
    "session_id" in f && "timestamp" in f && "source_directory" in f && "output_directory" in f
  }

  /**
   * `OrganizationSession.from_dict`: the operations are read first (their
   * errors come first), then the four identity keys in order (`KeyError` if
   * one is missing); "operations" defaults to the empty list and "completed"
   * to false.
   */
  function SessionFromJson(j: Json): (r: Result<SessionRecord, Failure>)
    ensures !j.JObject? ==> r == Err(WrongShape)
    ensures j.JObject? && "operations" in j.fields && OperationsValue(j.fields["operations"]).Err? ==>
              r == Err(WrongShape)
    ensures r == Err(KeyMissing) ==> j.JObject? && !HasIdentityKeys(j.fields)
    ensures r.Ok? ==> j.JObject? && HasIdentityKeys(j.fields)
    ensures r.Ok? <==>
              && j.JObject? && HasIdentityKeys(j.fields)
              && ("operations" in j.fields ==> OperationsValue(j.fields["operations"]).Ok?)
              && j.fields["session_id"].JString? && j.fields["timestamp"].JString?
              && j.fields["source_directory"].JString? && j.fields["output_directory"].JString?
              && ("completed" in j.fields ==> j.fields["completed"].JBool?)
    ensures r.Ok? ==> j.fields["session_id"] == JString(r.value.sessionId)
                      && j.fields["timestamp"] == JString(r.value.timestamp)
                      && j.fields["source_directory"] == JString(r.value.sourceDirectory)
                      && j.fields["output_directory"] == JString(r.value.outputDirectory)
    ensures r.Ok? && "operations" in j.fields ==> OperationsValue(j.fields["operations"]) == Ok(r.value.operations)
    ensures r.Ok? && "operations" !in j.fields ==> r.value.operations == []
    ensures r.Ok? && "completed" in j.fields ==> j.fields["completed"] == JBool(r.value.completed)
    ensures r.Ok? && "completed" !in j.fields ==> !r.value.completed
  {
    if !j.JObject? then Err(WrongShape)
    else
      var f := j.fields;
      var ops := if "operations" in f then OperationsValue(f["operations"]) else Ok([]);
      if ops.Err? then Err(ops.error)
      else if !HasIdentityKeys(f) then Err(KeyMissing)
      else if !(f["session_id"].JString? && f["timestamp"].JString? && f["source_directory"].JString?
                && f["output_directory"].JString?) then Err(WrongShape)
      else if "completed" in f && !f["completed"].JBool? then Err(WrongShape)
      else
        var completed := if "completed" in f then f["completed"].b else false;
        Ok(SessionRecord(f["session_id"].s, f["timestamp"].s, f["source_directory"].s, f["output_directory"].s,
                         ops.value, completed))
  }

  /** `from_dict(to_dict(s)) == s`. */
  lemma SessionRoundTrip(s: SessionRecord)
    ensures SessionFromJson(SessionToJson(s)) == Ok(s)
  {
    OperationsRoundTrip(s.operations);
    SessionFields(s);
  }

  /** The six entries of `to_dict`, one by one. */
  lemma SessionFields(s: SessionRecord)
    ensures var f := SessionToJson(s).fields;
      && HasIdentityKeys(f) && "operations" in f && "completed" in f
      && f["session_id"] == JString(s.sessionId) && f["timestamp"] == JString(s.timestamp)
      && f["source_directory"] == JString(s.sourceDirectory) && f["output_directory"] == JString(s.outputDirectory)
      && f["operations"] == JArray(OperationsToJson(s.operations)) && f["completed"] == JBool(s.completed)
  {
  }

  // ---------------------------------------------------------------------------
  // The log file

  /** The log file: absent, not valid JSON, or a JSON document. */
  datatype Stored = Missing | Unparseable | Document(json: Json)

  /** What `UndoLog._load` leaves in `_sessions`, or `Crashed` when it raises. */
  datatype Loaded = Sessions(records: seq<SessionRecord>) | Crashed

  /** `_save`'s document: `{"sessions": [s.to_dict() for s in sessions]}`. */
  function LogToJson(records: seq<SessionRecord>): (j: Json)
    ensures j.JObject? && j.fields.Keys == {"sessions"} && j.fields["sessions"].JArray?
    ensures |j.fields["sessions"].items| == |records|
  {
    JObject(map["sessions" := JArray(SessionsToJson(records))])
  }

  function SessionsToJson(records: seq<SessionRecord>): (r: seq<Json>)
    ensures |r| == |records|
    ensures forall i :: 0 <= i < |records| ==> r[i] == SessionToJson(records[i])
  {
    if records == [] then [] else [SessionToJson(records[0])] + SessionsToJson(records[1..])
  }

  /** The list comprehension of `_load`: the first session that cannot be read decides the error. */
  function SessionsFromJson(items: seq<Json>): (r: Result<seq<SessionRecord>, Failure>)
    ensures r.Ok? <==> forall i :: 0 <= i < |items| ==> SessionFromJson(items[i]).Ok?
    ensures r.Ok? ==> |r.value| == |items| && forall i :: 0 <= i < |items| ==> Ok(r.value[i]) == SessionFromJson(items[i])
    ensures r.Err? ==> exists i :: 0 <= i < |items| && SessionFromJson(items[i]) == Err(r.error)
                                 && forall j :: 0 <= j < i ==> SessionFromJson(items[j]).Ok?
  {
    if items == [] then Ok([])
    else
      match SessionFromJson(items[0])
      case Err(e) => Err(e)
      case Ok(s) =>
        match SessionsFromJson(items[1..])
        case Err(e) =>
          assert forall i :: 1 <= i < |items| ==> items[i] == items[1..][i - 1];
          Err(e)
        case Ok(rest) =>
          assert forall i :: 1 <= i < |items| ==> items[i] == items[1..][i - 1];
          Ok([s] + rest)
  }

  /** Reading the sessions of the document; a session that is not a dict fails with `AttributeError`, as does a string element. */
  function SessionsValue(v: Json): (r: Result<seq<SessionRecord>, Failure>)
    ensures v.JArray? ==> r == SessionsFromJson(v.items)
    ensures !v.JArray? ==> (r.Ok? <==> v == JString("") || v == JObject(map[]))
    ensures !v.JArray? && r.Err? ==> r.error == WrongShape
    ensures !v.JArray? && r.Ok? ==> r.value == []
  {
    match v
    case JArray(items) => SessionsFromJson(items)
    case JString(s) => if s == "" then Ok([]) else Err(WrongShape)
    case JObject(m) => if m == map[] then Ok([]) else Err(WrongShape)
    case _ => Err(WrongShape)
  }

  /**
   * `UndoLog._load`: no file, or a file that is not JSON, gives no sessions;
   * a document that is not a dict raises; a session that lacks a key empties
   * the log; any other unreadable session raises.
   */
  function LoadLog(stored: Stored): (r: Loaded)
    ensures stored.Missing? || stored.Unparseable? ==> r == Sessions([])
    ensures stored.Document? && !stored.json.JObject? ==> r == Crashed
    ensures stored.Document? && stored.json.JObject? && "sessions" !in stored.json.fields ==> r == Sessions([])
    ensures stored.Document? && stored.json.JObject? && "sessions" in stored.json.fields ==>
              var v := SessionsValue(stored.json.fields["sessions"]);
              && (v.Ok? ==> r == Sessions(v.value))
              && (v == Err(KeyMissing) ==> r == Sessions([]))
              && (v == Err(WrongShape) ==> r == Crashed)
  {
    match stored
    case Missing => Sessions([])
    case Unparseable => Sessions([])
    case Document(j) =>
      if !j.JObject? then Crashed
      else if "sessions" !in j.fields then Sessions([])
      else
        match SessionsValue(j.fields["sessions"])
        case Ok(records) => Sessions(records)
        case Err(KeyMissing) => Sessions([])
        case Err(WrongShape) => Crashed
  }

  lemma {:induction false} SessionsRoundTrip(records: seq<SessionRecord>)
    ensures SessionsFromJson(SessionsToJson(records)) == Ok(records)
  {
    if records != [] {
      SessionRoundTrip(records[0]);
      SessionsRoundTrip(records[1..]);
      assert SessionsToJson(records)[1..] == SessionsToJson(records[1..]);
      assert records == [records[0]] + records[1..];
    }
  }

  /** What `_save` writes, `_load` reads back. */
  lemma LogRoundTrip(records: seq<SessionRecord>)
    ensures LoadLog(Document(LogToJson(records))) == Sessions(records)
  {
    SessionsRoundTrip(records);
  }

  /** A log in which some session, every one before it readable, lacks one of the four identity keys loads as no sessions at all. */
  lemma MissingKeyEmptiesLog(items: seq<Json>, i: nat)
    requires i < |items| && SessionFromJson(items[i]) == Err(KeyMissing)
    requires forall j :: 0 <= j < i ==> SessionFromJson(items[j]).Ok?
    ensures LoadLog(Document(JObject(map["sessions" := JArray(items)]))) == Sessions([])
  {
    var r := SessionsFromJson(items);
    assert r.Err?;
    var k :| 0 <= k < |items| && SessionFromJson(items[k]) == Err(r.error)
             && forall j :: 0 <= j < k ==> SessionFromJson(items[j]).Ok?;
    assert !(k < i);
    assert !(i < k);
  }
}
