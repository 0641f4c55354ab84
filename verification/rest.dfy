/** The appliance's REST interface as the provider sees it: calls, responses,
    the log of exchanges a reconciliation performs, the status classification
    shared by every resource, and the API version gates. */
module Rest {
  import opened Base

  const StatusOK := 200
  const StatusNoContent := 204
  const StatusNotFound := 404

  datatype Method = GET | POST | PUT | DELETE

  /** One request line: method and path (query string included). */
  datatype Call = Call(verb: Method, path: string)

  /** A JSON array that may also be `null` on the wire (a nil Go slice). */
  datatype JsonList<T> = Null | Array(items: seq<T>)

  /** Items of a JSON list, `null` reading as no items. */
  function Items<T>(l: JsonList<T>): seq<T>
  {
    match l
    case Null => []
    case Array(xs) => xs
  }

  /** What the body of a reply decodes to, for the resource's record type R:
      a single object, a list of objects, or text that does not decode. */
  datatype Body<R> = Malformed | One(record: R) | Many(records: seq<R>)

  /** A transport outcome: either the call failed below HTTP, or the
      appliance replied with a status, the raw body and its decoding. */
  datatype Response<R> =
    | Failed(reason: string)
    | Reply(status: int, raw: string, body: Body<R>)

  /** One entry of a reconciliation's log. `Sent` is a request to the
      resource's own endpoints; `Consulted` is a read performed by a helper
      outside this model, reporting the id it found ("" when absent). */
  datatype Exchange<R> =
    | Sent(call: Call, payload: Option<R>, response: Response<R>)
    | Consulted(call: Call, found: Result<string>)

  /** The appliance, abstracted as a state S and two total functions. */
  datatype Transport<!S, !R> = Transport(
    serve: (S, Call, Option<R>) -> (S, Response<R>),
    consult: (S, Call) -> Result<string>)

  /** The provider's client configuration: the connected API version, and
      the version constants the gates compare it with (`versionValidate3_3`
      and `defaultVersionsValid()`, both defined outside the modelled files). */
  datatype Client = Client(apiVersion: string, validate3_3: string, versionsValid: seq<string>)

  /** The outcome of a reconciliation: the appliance afterwards, the log of
      what was exchanged, the resource data afterwards and the diagnostic. */
  datatype Run<S, R, D> = Run(appliance: S, log: seq<Exchange<R>>, d: D, diag: Option<Error>)

  /** The state the appliance is in after taking part in `e`. */
  function After<S, R>(t: Transport<S, R>, s: S, e: Exchange<R>): S
  {
    match e
    case Sent(c, p, _) => t.serve(s, c, p).0
    case Consulted(_, _) => s
  }

  /** `e` is what the appliance in state `s` answers. */
  ghost predicate Answered<S, R>(t: Transport<S, R>, s: S, e: Exchange<R>)
  {
    match e
    case Sent(c, p, rsp) => t.serve(s, c, p).1 == rsp
    case Consulted(c, f) => t.consult(s, c) == f
  }

  /** `log` is exactly what happens when the appliance, starting in `s`,
      answers the log's calls in order, and it ends in `s'`. */
  ghost predicate Replays<S, R>(t: Transport<S, R>, s: S, log: seq<Exchange<R>>, s': S)
    decreases |log|
  {
    if |log| == 0 then s' == s
    else Answered(t, s, log[0]) && Replays(t, After(t, s, log[0]), log[1..], s')
  }

  /** Sends `c` with `payload` to the appliance in state `s`. */
  function Send<S, R>(t: Transport<S, R>, s: S, c: Call, payload: Option<R>): (e: Exchange<R>)
    ensures e.Sent? && e.call == c && e.payload == payload
    ensures Answered(t, s, e)
  {
    Sent(c, payload, t.serve(s, c, payload).1)
  }

  /** Puts exchange `e`, answered from `s`, in front of a run that starts
      where `e` leaves the appliance. */
  function Then<S, R, D>(t: Transport<S, R>, s: S, e: Exchange<R>, r: Run<S, R, D>): (r': Run<S, R, D>)
    requires Answered(t, s, e) && Replays(t, After(t, s, e), r.log, r.appliance)
    ensures Replays(t, s, r'.log, r'.appliance)
    ensures r'.log == [e] + r.log && r'.appliance == r.appliance && r'.d == r.d && r'.diag == r.diag
    ensures |r'.log| == |r.log| + 1 && r'.log[0] == e && r'.log[1..] == r.log
    ensures forall j :: 0 <= j < |r.log| ==> r'.log[j + 1] == r.log[j]
  {
    var r' := r.(log := [e] + r.log);
    assert r'.log[1..] == r.log;
    r'
  }

  /** Replaying two logs one after the other replays their concatenation. */
  lemma {:induction false} ReplaysConcat<S, R>(t: Transport<S, R>, s: S, a: seq<Exchange<R>>, s1: S, b: seq<Exchange<R>>, s2: S)
    requires Replays(t, s, a, s1) && Replays(t, s1, b, s2)
    ensures Replays(t, s, a + b, s2)
    decreases |a|
  {
    if |a| > 0 {
      ReplaysConcat(t, After(t, s, a[0]), a[1..], s1, b, s2);
      assert (a + b)[0] == a[0] && (a + b)[1..] == a[1..] + b;
    } else {
      assert a + b == b;
    }
  }

  /** The run `r` preceded by the log `prefix`, which left the appliance
      where `r` starts. */
  function Append<S, R, D>(t: Transport<S, R>, s: S, prefix: seq<Exchange<R>>, s1: S, r: Run<S, R, D>): (r': Run<S, R, D>)
    requires Replays(t, s, prefix, s1) && Replays(t, s1, r.log, r.appliance)
    ensures Replays(t, s, r'.log, r'.appliance)
    ensures r'.log == prefix + r.log && r'.appliance == r.appliance && r'.d == r.d && r'.diag == r.diag
    ensures |r'.log| == |prefix| + |r.log|
    ensures forall j :: 0 <= j < |r.log| ==> r'.log[|prefix| + j] == r.log[j]
  {
    ReplaysConcat(t, s, prefix, s1, r.log, r.appliance);
    r.(log := prefix + r.log)
  }

  /** A run that stops at `s` without exchanging anything. */
  function Stop<S, R, D>(t: Transport<S, R>, s: S, d: D, diag: Option<Error>): (r: Run<S, R, D>)
    ensures Replays(t, s, r.log, r.appliance)
    ensures r.log == [] && r.appliance == s && r.d == d && r.diag == diag
  {
    Run(s, [], d, diag)
  }

  /** A request that changes the appliance: anything but a GET. */
  predicate Writes<R>(e: Exchange<R>)
  {
    e.Sent? && e.call.verb != GET
  }

  /** No entry of the log changes the appliance. */
  predicate ReadOnly<R>(log: seq<Exchange<R>>)
  {
    forall k :: 0 <= k < |log| ==> !Writes(log[k])
  }

  /** Status handling of add, update and delete: 200 and 204 are success,
      anything else is fatal and carries the status and the raw body. */
  function WriteStatus<R>(rsp: Response<R>): (err: Option<Error>)
    ensures err.None? <==> rsp.Reply? && (rsp.status == StatusOK || rsp.status == StatusNoContent)
    ensures rsp.Failed? ==> err == Some(TransportFailed(rsp.reason))
    ensures rsp.Reply? && err.Some? ==> err == Some(UnexpectedStatus(rsp.status, rsp.raw))
  {
    match rsp
    case Failed(why) => Some(TransportFailed(why))
    case Reply(status, raw, _) =>
      if status != StatusOK && status != StatusNoContent then Some(UnexpectedStatus(status, raw)) else None
  }

  /** The write whose log entry is `e` was accepted by the appliance. */
  predicate Accepted<R>(e: Exchange<R>)
  {
    e.Sent? && WriteStatus(e.response).None?
  }

  /** Status handling of a GET by id: 404 yields the `absent` (zero-valued)
      record, 200 yields the decoded record, anything else is fatal. */
  function ReadRecord<R>(rsp: Response<R>, absent: R): (r: Result<R>)
    ensures rsp.Reply? && rsp.status == StatusNotFound ==> r == Ok(absent)
    ensures rsp.Reply? && rsp.status == StatusOK && rsp.body.One? ==> r == Ok(rsp.body.record)
    ensures r.Ok? <==> rsp.Reply? && (rsp.status == StatusNotFound || (rsp.status == StatusOK && rsp.body.One?))
    ensures rsp.Failed? ==> r == Err(TransportFailed(rsp.reason))
    ensures rsp.Reply? && rsp.status != StatusNotFound && rsp.status != StatusOK ==>
              r == Err(UnexpectedStatus(rsp.status, rsp.raw))
  {
    match rsp
    case Failed(why) => Err(TransportFailed(why))
    case Reply(status, raw, body) =>
      if status == StatusNotFound then Ok(absent)
      else if status != StatusOK then Err(UnexpectedStatus(status, raw))
      else if body.One? then Ok(body.record)
      else Err(DecodeFailed(raw))
  }

  /** Status handling of a list GET: only 200 with a decodable list
      succeeds; a 404 here is fatal like any other status. */
  function ReadList<R>(rsp: Response<R>): (r: Result<seq<R>>)
    ensures r.Ok? <==> rsp.Reply? && rsp.status == StatusOK && rsp.body.Many?
    ensures r.Ok? ==> r.value == rsp.body.records
    ensures rsp.Failed? ==> r == Err(TransportFailed(rsp.reason))
    ensures rsp.Reply? && rsp.status != StatusOK ==> r == Err(UnexpectedStatus(rsp.status, rsp.raw))
  {
    match rsp
    case Failed(why) => Err(TransportFailed(why))
    case Reply(status, raw, body) =>
      if status != StatusOK then Err(UnexpectedStatus(status, raw))
      else if body.Many? then Ok(body.records)
      else Err(DecodeFailed(raw))
  }

  /** Gate of a resource that exists on exactly one API version. */
  function GateExact(resource: string, version: string, accepted: string): (err: Option<Error>)
    ensures err.None? <==> version == accepted
    ensures err.Some? ==> err.value == VersionNotValid(resource, version)
  {
    if version == accepted then None else Some(VersionNotValid(resource, version))
  }

  /** Gate of a resource available on a list of API versions. */
  function GateAmong(resource: string, version: string, accepted: seq<string>): (err: Option<Error>)
    ensures err.None? <==> version in accepted
    ensures err.Some? ==> err.value == VersionNotValid(resource, version)
  {
    if version in accepted then None else Some(VersionNotValid(resource, version))
  }
}
