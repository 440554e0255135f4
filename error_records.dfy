/**
 * The error event a client submits (the MediaMTXErrorLog body) and the JSON
 * record stored for it: app/api/v1/endpoints/error_logs.py, lines 14-28 and
 * 48-57.
 */
module ErrorRecords {
  import opened Wrappers

  /**
   * JSON values as json.dumps writes them and json.loads reads them back. A
   * number written with a fraction or an exponent is a Python float; its
   * value is kept as a real.
   */
  datatype Json =
    | Null
    | Bool(b: bool)
    | Int(i: int)
    | Float(f: real)
    | Str(s: string)
    | Array(items: seq<Json>)
    | Object(members: seq<(string, Json)>)

  /** The request body: three required strings, a required timestamp and four optionals. */
  datatype ErrorReport = ErrorReport(
    streamId: string,
    errorType: string,
    errorMessage: string,
    statusCode: Option<int>,
    whepUrl: Option<string>,
    timestamp: string,
    userAgent: Option<string>,
    clientInfo: Option<seq<(string, Json)>>)

  /** The body of a successful append (ErrorLogResponse). */
  datatype LogResponse = LogResponse(success: bool, logFile: string, message: string)

  /** An HTTPException: a status code and its detail text. */
  datatype HttpError = HttpError(status: int, detail: string)

  /** The keys of a stored record, in the order they are written. */
  const RecordKeys: seq<string> :=
    ["timestamp", "streamId", "errorType", "errorMessage", "statusCode", "whepUrl", "userAgent", "clientInfo"]

  function IntOrNull(o: Option<int>): Json {
    if o.Some? then Int(o.value) else Null
  }

  function StrOrNull(o: Option<string>): Json {
    if o.Some? then Str(o.value) else Null
  }

  function ObjectOrNull(o: Option<seq<(string, Json)>>): Json {
    if o.Some? then Object(o.value) else Null
  }

  /** The log_entry dictionary built for a report: eight keys, absent optionals as null. */
  function ToRecord(r: ErrorReport): (j: Json)
    ensures j.Object? && |j.members| == |RecordKeys|
    ensures forall i :: 0 <= i < |RecordKeys| ==> j.members[i].0 == RecordKeys[i]
    ensures j.members[0].1 == Str(r.timestamp)
    ensures r.statusCode == None ==> j.members[4].1 == Null
    ensures r.clientInfo == None ==> j.members[7].1 == Null
  {
    Object([
      ("timestamp", Str(r.timestamp)),
      ("streamId", Str(r.streamId)),
      ("errorType", Str(r.errorType)),
      ("errorMessage", Str(r.errorMessage)),
      ("statusCode", IntOrNull(r.statusCode)),
      ("whepUrl", StrOrNull(r.whepUrl)),
      ("userAgent", StrOrNull(r.userAgent)),
      ("clientInfo", ObjectOrNull(r.clientInfo))
    ])
  }

  /** The value stored under key, if the object has that key. */
  function Member(members: seq<(string, Json)>, key: string): (r: Option<Json>)
    ensures r.Some? <==> exists i :: 0 <= i < |members| && members[i].0 == key
  {
    if members == [] then None
    else if members[0].0 == key then Some(members[0].1)
    else Member(members[1..], key)
  }

  /** The first member carrying key is the one found. */
  lemma {:induction false} MemberAt(members: seq<(string, Json)>, k: nat)
    requires k < |members|
    requires forall j :: 0 <= j < k ==> members[j].0 != members[k].0
    ensures Member(members, members[k].0) == Some(members[k].1)
  {
    if k > 0 {
      MemberAt(members[1..], k - 1);
    }
  }

  function AsString(j: Option<Json>): Option<string> {
    if j.Some? && j.value.Str? then Some(j.value.s) else None
  }

  /** Reads a record back into a report; None when a field is missing or mistyped. */
  function FromRecord(j: Json): (r: Option<ErrorReport>)
    ensures r.Some? ==> j.Object? && Member(j.members, "timestamp") == Some(Str(r.value.timestamp))
  {
    if !j.Object? then None
    else
      var m := j.members;
      var ts, sid, ty, msg := AsString(Member(m, "timestamp")), AsString(Member(m, "streamId")),
        AsString(Member(m, "errorType")), AsString(Member(m, "errorMessage"));
      var code, url, ua, info := Member(m, "statusCode"), Member(m, "whepUrl"),
        Member(m, "userAgent"), Member(m, "clientInfo");
      if ts.None? || sid.None? || ty.None? || msg.None? then None
      else if code.None? || !(code.value.Null? || code.value.Int?) then None
      else if url.None? || !(url.value.Null? || url.value.Str?) then None
      else if ua.None? || !(ua.value.Null? || ua.value.Str?) then None
      else if info.None? || !(info.value.Null? || info.value.Object?) then None
      else Some(ErrorReport(
        sid.value, ty.value, msg.value,
        if code.value.Int? then Some(code.value.i) else None,
        if url.value.Str? then Some(url.value.s) else None,
        ts.value,
        if ua.value.Str? then Some(ua.value.s) else None,
        if info.value.Object? then Some(info.value.members) else None))
  }

  /** No key is written twice. */
  lemma KeysDistinct()
    ensures forall i, j :: 0 <= i < j < |RecordKeys| ==> RecordKeys[i] != RecordKeys[j]
  {
    forall i, j | 0 <= i < j < |RecordKeys| ensures RecordKeys[i] != RecordKeys[j] {
      assert RecordKeys[i][0] != RecordKeys[j][0] || |RecordKeys[i]| != |RecordKeys[j]|;
    }
  }

  /** Each key of a stored record finds the value written under it. */
  lemma RecordMember(r: ErrorReport, k: nat)
    requires k < |RecordKeys|
    ensures Member(ToRecord(r).members, RecordKeys[k]) == Some(ToRecord(r).members[k].1)
  {
    KeysDistinct();
    MemberAt(ToRecord(r).members, k);
  }

  /** An object whose eight keys hold a report's fields reads back as that report. */
  lemma FromFields(j: Json, r: ErrorReport)
    requires j.Object?
    requires Member(j.members, "timestamp") == Some(Str(r.timestamp))
    requires Member(j.members, "streamId") == Some(Str(r.streamId))
    requires Member(j.members, "errorType") == Some(Str(r.errorType))
    requires Member(j.members, "errorMessage") == Some(Str(r.errorMessage))
    requires Member(j.members, "statusCode") == Some(IntOrNull(r.statusCode))
    requires Member(j.members, "whepUrl") == Some(StrOrNull(r.whepUrl))
    requires Member(j.members, "userAgent") == Some(StrOrNull(r.userAgent))
    requires Member(j.members, "clientInfo") == Some(ObjectOrNull(r.clientInfo))
    ensures FromRecord(j) == Some(r)
  {
  }

  /** The four required fields of a report are found under their keys. */
  lemma RequiredFieldsStored(r: ErrorReport)
    ensures var m := ToRecord(r).members;
      && Member(m, "timestamp") == Some(Str(r.timestamp))
      && Member(m, "streamId") == Some(Str(r.streamId))
      && Member(m, "errorType") == Some(Str(r.errorType))
      && Member(m, "errorMessage") == Some(Str(r.errorMessage))
  {
    RecordMember(r, 0);
    RecordMember(r, 1);
    RecordMember(r, 2);
    RecordMember(r, 3);
  }

  /** The four optional fields of a report are found under their keys, null when absent. */
  lemma OptionalFieldsStored(r: ErrorReport)
    ensures var m := ToRecord(r).members;
      && Member(m, "statusCode") == Some(IntOrNull(r.statusCode))
      && Member(m, "whepUrl") == Some(StrOrNull(r.whepUrl))
      && Member(m, "userAgent") == Some(StrOrNull(r.userAgent))
      && Member(m, "clientInfo") == Some(ObjectOrNull(r.clientInfo))
  {
    RecordMember(r, 4);
    RecordMember(r, 5);
    RecordMember(r, 6);
    RecordMember(r, 7);
  }

  /** Every field of a report survives the trip through its stored record. */
  lemma RecordRoundTrip(r: ErrorReport)
    ensures FromRecord(ToRecord(r)) == Some(r)
  {
    RequiredFieldsStored(r);
    OptionalFieldsStored(r);
    FromFields(ToRecord(r), r);
  }

  /** Different reports are stored as different records. */
  lemma ToRecordInjective(r1: ErrorReport, r2: ErrorReport)
    requires ToRecord(r1) == ToRecord(r2)
    ensures r1 == r2
  {
    RecordRoundTrip(r1);
    RecordRoundTrip(r2);
  }
}
