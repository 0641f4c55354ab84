/** The `wallix-bastion_application` resource: its JSON payload, the search
    by application_name, the refresh of local state from a record, and the
    Create / Read / Update / Delete / Import reconciliations. */
module Application {
  import opened Base
  import opened Rest
  import Locator

  const Resource := "wallix-bastion_application"
  const CollectionPath := "/applications/"
  const ListPath := "/applications/?fields=application_name,id&limit=-1"

  /** One element of the `paths` set. */
  datatype AppPath = AppPath(target: string, program: string, workingDir: string)

  /** A local domain of an application, as the appliance reports it. The
      plugin parameters are an opaque JSON value, kept as its serialized text. */
  datatype LocalDomain = LocalDomain(
    id: string, adminAccount: string, domainName: string, description: string,
    enablePasswordChange: bool, passwordChangePolicy: string, passwordChangePlugin: string,
    passwordChangePluginParameters: string)

  /** The JSON record exchanged with the appliance. `localDomains` is a
      pointer in Go: None when the response carries no such member. */
  datatype Record = Record(
    id: string, applicationName: string, connectionPolicy: string, description: string,
    parameters: string, target: string, globalDomains: JsonList<string>, paths: JsonList<AppPath>,
    localDomains: Option<seq<LocalDomain>>)

  /** The resource's local state. Set-typed attributes hold the elements in
      the order the framework lists them. */
  datatype State = State(
    id: string, applicationName: string, connectionPolicy: string, paths: seq<AppPath>,
    target: string, description: string, globalDomains: seq<string>, parameters: string,
    localDomains: seq<LocalDomain>)

  /** The zero-valued record a read yields when the appliance answers 404. */
  const Absent := Record("", "", "", "", "", "", Null, Null, None)

  const ListCall := Call(GET, ListPath)

  function ItemCall(id: string): Call
  {
    Call(GET, CollectionPath + id)
  }

  /** The query parameter every update of an application carries. */
  const ForceSuffix := "?force=true"

  function PutCall(id: string): Call
  {
    Call(PUT, CollectionPath + id + ForceSuffix)
  }

  function DeleteCall(id: string): Call
  {
    Call(DELETE, CollectionPath + id)
  }

  function VersionCheck(c: Client): (err: Option<Error>)
    ensures err.None? <==> c.apiVersion == c.validate3_3
    ensures err.Some? ==> err.value == VersionNotValid(Resource, c.apiVersion)
  {
    GateExact(Resource, c.apiVersion, c.validate3_3)
  }

  /** The payload of POST and PUT. Global domains always go out as a JSON
      array, empty when none are configured, never as `null`. */
  function PrepareJson(d: State): (p: Record)
    ensures p.id == "" && p.localDomains.None?
    ensures p.applicationName == d.applicationName && p.connectionPolicy == d.connectionPolicy
    ensures p.description == d.description && p.parameters == d.parameters && p.target == d.target
    ensures p.globalDomains.Array? && p.globalDomains.items == d.globalDomains
    ensures Items(p.paths) == d.paths
    ensures p.paths.Null? <==> |d.paths| == 0
  {
    Record("", d.applicationName, d.connectionPolicy, d.description, d.parameters, d.target,
           Array(d.globalDomains), if |d.paths| == 0 then Null else Array(d.paths), None)
  }

  /** The payload builder as written: asserting the global_domains set to a
      list panics (None) whenever the set is not empty. */
  function PrepareJsonAsWritten(d: State): (p: Option<Record>)
    ensures p.None? <==> |d.globalDomains| > 0
    ensures p.Some? ==> p.value == PrepareJson(d)
  {
    if |d.globalDomains| > 0 then None else Some(PrepareJson(d))
  }

  /** A non-empty global_domains set makes the payload builder as written
      panic, while the corrected builder sends every element. */
  lemma GlobalDomainsPanic()
    ensures var d := State("", "app", "policy", [], "target", "", ["dom"], "", []);
            PrepareJsonAsWritten(d).None? && PrepareJson(d).globalDomains == Array(["dom"])
  {
  }

  /** The search after create and on import: the id of the first listed
      application whose application_name is exactly `name`. */
  function Search(rsp: Response<Record>, name: string): (r: Result<Option<string>>)
    ensures r.Ok? <==> ReadList(rsp).Ok?
    ensures r.Err? ==> r.error == ReadList(rsp).error
    ensures r.Ok? && r.value.None? <==>
              ReadList(rsp).Ok? && forall j :: 0 <= j < |rsp.body.records| ==> rsp.body.records[j].applicationName != name
    ensures r.Ok? && r.value.Some? ==>
              exists i :: 0 <= i < |rsp.body.records| && rsp.body.records[i].applicationName == name
                && rsp.body.records[i].id == r.value.value
                && forall j :: 0 <= j < i ==> rsp.body.records[j].applicationName != name
  {
    Locator.Locate(rsp, (x: Record) => x.applicationName == name, (x: Record) => x.id)
  }

  /** The local state refreshed from a record, with a record that carries no
      local_domains member read as carrying none. The id is left alone. */
  function Fill(d: State, rec: Record): (d': State)
    ensures d'.id == d.id
    ensures d'.applicationName == rec.applicationName && d'.connectionPolicy == rec.connectionPolicy
    ensures d'.target == rec.target && d'.description == rec.description && d'.parameters == rec.parameters
    ensures d'.paths == Items(rec.paths) && d'.globalDomains == Items(rec.globalDomains)
    ensures rec.localDomains.Some? ==> d'.localDomains == rec.localDomains.value
    ensures rec.localDomains.None? ==> d'.localDomains == []
  {
    State(d.id, rec.applicationName, rec.connectionPolicy, Items(rec.paths), rec.target, rec.description,
          Items(rec.globalDomains), rec.parameters,
          match rec.localDomains case None => [] case Some(ds) => ds)
  }

  /** The refresh as written: dereferencing a nil local_domains pointer
      panics (None). */
  function FillAsWritten(d: State, rec: Record): (d': Option<State>)
    ensures d'.None? <==> rec.localDomains.None?
    ensures d'.Some? ==> d'.value == Fill(d, rec)
  {
    if rec.localDomains.None? then None else Some(Fill(d, rec))
  }

  /** A 404 on the item read yields the zero record, whose local_domains is
      nil: the refresh as written panics on it (Import reaches this when the
      application vanishes between its search and its read). */
  lemma LocalDomainsNilPanic(d: State)
    ensures ReadRecord(Reply(StatusNotFound, "", Malformed), Absent) == Ok(Absent)
    ensures FillAsWritten(d, Absent).None?
    ensures Fill(d, Absent).localDomains == []
  {
  }

  /** Refreshing from the payload built from the state gives the state back,
      except the computed local_domains, which a payload never carries. */
  lemma FillPrepareRoundTrip(d: State)
    ensures Fill(d, PrepareJson(d)) == d.(localDomains := [])
  {
  }

  /** The reply to a read, found to say that the application is gone. */
  predicate FoundAbsent(rsp: Response<Record>)
  {
    ReadRecord(rsp, Absent).Ok? && ReadRecord(rsp, Absent).value.id == ""
  }

  /** Read: GET by id. A 404 (or any record without an id) clears the id
      without error; another failure is an error; otherwise the state is
      refreshed from the record. */
  function Read<S>(t: Transport<S, Record>, c: Client, s: S, d: State): (r: Run<S, Record, State>)
    ensures Replays(t, s, r.log, r.appliance)
    ensures ReadOnly(r.log)
    ensures VersionCheck(c).Some? ==> r.log == [] && r.diag == VersionCheck(c) && r.d == d
    ensures VersionCheck(c).None? ==> |r.log| == 1 && r.log[0].Sent? && r.log[0].call == ItemCall(d.id)
    ensures VersionCheck(c).None? && r.log[0].response.Reply? && r.log[0].response.status == StatusNotFound ==>
              r.diag.None? && r.d == d.(id := "")
    ensures VersionCheck(c).None? ==>
              (r.diag.None? <==> ReadRecord(r.log[0].response, Absent).Ok?)
    ensures r.diag.None? ==> r.d.id == (if FoundAbsent(r.log[0].response) then "" else d.id)
    ensures r.diag.None? && !FoundAbsent(r.log[0].response) ==>
              r.d == Fill(d, ReadRecord(r.log[0].response, Absent).value)
    ensures r.diag.None? && FoundAbsent(r.log[0].response) ==> r.d == d.(id := "")
    ensures VersionCheck(c).None? && ReadRecord(r.log[0].response, Absent).Err? ==>
              r.diag == Some(ReadRecord(r.log[0].response, Absent).error)
    ensures r.diag.Some? ==> r.d == d
  {
    if VersionCheck(c).Some? then Stop(t, s, d, VersionCheck(c))
    else
      var e := Send(t, s, ItemCall(d.id), None);
      var s1 := After(t, s, e);
      Then(t, s, e,
        match ReadRecord(e.response, Absent)
        case Err(err) => Stop(t, s1, d, Some(err))
        case Ok(rec) =>
          if rec.id == "" then Stop(t, s1, d.(id := ""), None) else Stop(t, s1, Fill(d, rec), None))
  }

  /** The tail of Create after an accepted POST: search the name again and
      read the id found; not finding the name is fatal. */
  function BindFound<S>(t: Transport<S, Record>, c: Client, s: S, d: State): (r: Run<S, Record, State>)
    ensures Replays(t, s, r.log, r.appliance)
    ensures ReadOnly(r.log)
    ensures |r.log| >= 1 && r.log[0].Sent? && r.log[0].call == ListCall
    ensures Search(r.log[0].response, d.applicationName).Err? ==>
              |r.log| == 1 && r.diag == Some(Search(r.log[0].response, d.applicationName).error) && r.d == d
    ensures Search(r.log[0].response, d.applicationName) == Ok(None) ==>
              |r.log| == 1 && r.diag == Some(NotFoundAfterPost(d.applicationName)) && r.d == d
    ensures var found := Search(r.log[0].response, d.applicationName);
            found.Ok? && found.value.Some? ==>
              var rd := Read(t, c, After(t, s, r.log[0]), d.(id := found.value.value));
              r.log[1..] == rd.log && r.d == rd.d && r.diag == rd.diag
    ensures r.diag.None? ==>
              |r.log| == 2 && r.log[1].Sent?
              && var found := Search(r.log[0].response, d.applicationName);
                 found.Ok? && found.value.Some? && r.log[1].call == ItemCall(found.value.value)
                 && r.d.id == (if FoundAbsent(r.log[1].response) then "" else found.value.value)
  {
    var e := Send(t, s, ListCall, None);
    var s1 := After(t, s, e);
    Then(t, s, e,
      match Search(e.response, d.applicationName)
      case Err(err) => Stop(t, s1, d, Some(err))
      case Ok(None) => Stop(t, s1, d, Some(NotFoundAfterPost(d.applicationName)))
      case Ok(Some(id)) => Read(t, c, s1, d.(id := id)))
  }

  /** The second half of Create: POST the payload, search again, and bind
      the id found; accepted but not locatable is fatal. */
  function PostAndBind<S>(t: Transport<S, Record>, c: Client, s: S, d: State): (r: Run<S, Record, State>)
    ensures Replays(t, s, r.log, r.appliance)
    ensures |r.log| >= 1 && r.log[0].Sent? && r.log[0].call == Call(POST, CollectionPath)
    ensures r.log[0].payload == Some(PrepareJson(d))
    ensures ReadOnly(r.log[1..])
    // after an accepted POST, the rest of the run is the search and read
    ensures Accepted(r.log[0]) ==>
              var b := BindFound(t, c, After(t, s, r.log[0]), d);
              r.log[1..] == b.log && r.d == b.d && r.diag == b.diag
    ensures !Accepted(r.log[0]) ==> |r.log| == 1 && r.diag == WriteStatus(r.log[0].response) && r.d == d
    ensures Accepted(r.log[0]) ==> |r.log| >= 2 && r.log[1].Sent? && r.log[1].call == ListCall
    ensures |r.log| >= 2 && Search(r.log[1].response, d.applicationName) == Ok(None) ==>
              r.diag == Some(NotFoundAfterPost(d.applicationName)) && r.d == d
    // a failing search after the POST is passed on, and no id is bound
    ensures |r.log| >= 2 && Accepted(r.log[0]) && r.log[1].Sent? && Search(r.log[1].response, d.applicationName).Err? ==>
              |r.log| == 2 && r.diag == Some(Search(r.log[1].response, d.applicationName).error) && r.d == d
    ensures r.diag.None? ==>
              |r.log| == 3 && Accepted(r.log[0]) && r.log[1].Sent? && r.log[2].Sent?
              && var found := Search(r.log[1].response, d.applicationName);
                 found.Ok? && found.value.Some? && r.log[2].call == ItemCall(found.value.value)
                 && r.d.id == (if FoundAbsent(r.log[2].response) then "" else found.value.value)
    // once the name is located after the POST, its id is bound and read back
    ensures |r.log| >= 2 && Accepted(r.log[0]) && r.log[1].Sent? ==>
              var found := Search(r.log[1].response, d.applicationName);
              found.Ok? && found.value.Some? ==>
              var rd := Read(t, c, After(t, After(t, s, r.log[0]), r.log[1]), d.(id := found.value.value));
              r.log[2..] == rd.log && r.d == rd.d && r.diag == rd.diag
  {
    var e := Send(t, s, Call(POST, CollectionPath), Some(PrepareJson(d)));
    var s1 := After(t, s, e);
    Then(t, s, e,
      match WriteStatus(e.response)
      case Some(err) => Stop(t, s1, d, Some(err))
      case None => BindFound(t, c, s1, d))
  }

  /** Create past its version gate: search for the name, refuse it if
      taken, otherwise POST and bind. */
  function SearchThenPost<S>(t: Transport<S, Record>, c: Client, s: S, d: State): (r: Run<S, Record, State>)
    ensures Replays(t, s, r.log, r.appliance)
    ensures |r.log| >= 1 && r.log[0].Sent? && r.log[0].call == ListCall
    // a failing first search is passed on
    ensures Search(r.log[0].response, d.applicationName).Err? ==>
              |r.log| == 1 && r.diag == Some(Search(r.log[0].response, d.applicationName).error) && r.d == d
    // the only write is a POST of the payload, sent second, after a search that found no such name
    ensures forall k :: 0 <= k < |r.log| && Writes(r.log[k]) ==>
              k == 1 && r.log[k].call == Call(POST, CollectionPath) && r.log[k].payload == Some(PrepareJson(d))
              && Search(r.log[0].response, d.applicationName) == Ok(None)
    ensures Search(r.log[0].response, d.applicationName).Ok?
              && Search(r.log[0].response, d.applicationName).value.Some? ==>
              |r.log| == 1 && r.diag == Some(AlreadyExists(d.applicationName)) && r.d == d
    // accepted but not locatable is fatal, and no id is bound
    ensures |r.log| >= 3 && r.log[2].Sent? && Search(r.log[2].response, d.applicationName) == Ok(None) ==>
              Accepted(r.log[1]) && r.diag == Some(NotFoundAfterPost(d.applicationName)) && r.d == d
    // success: the id located after the POST is bound and read back
    ensures r.diag.None? ==>
              |r.log| == 4 && Accepted(r.log[1]) && r.log[2].Sent? && r.log[3].Sent?
              && var found := Search(r.log[2].response, d.applicationName);
                 found.Ok? && found.value.Some? && r.log[3].call == ItemCall(found.value.value)
                 && r.d.id == (if FoundAbsent(r.log[3].response) then "" else found.value.value)
    // once the name is located after the POST, its id is bound and read back
    ensures |r.log| >= 3 && Accepted(r.log[1]) && r.log[2].Sent? ==>
              var found := Search(r.log[2].response, d.applicationName);
              found.Ok? && found.value.Some? ==>
              var rd := Read(t, c, After(t, After(t, After(t, s, r.log[0]), r.log[1]), r.log[2]), d.(id := found.value.value));
              r.log[3..] == rd.log && r.d == rd.d && r.diag == rd.diag
  {
    var name := d.applicationName;
    var e0 := Send(t, s, ListCall, None);
    var s1 := After(t, s, e0);
    Then(t, s, e0,
      match Search(e0.response, name)
      case Err(err) => Stop(t, s1, d, Some(err))
      case Ok(Some(_)) => Stop(t, s1, d, Some(AlreadyExists(name)))
      case Ok(None) => PostAndBind(t, c, s1, d))
  }

  /** Create: search by name, refuse a duplicate, POST, search again, bind the
      id found and read the application back. */
  function Create<S>(t: Transport<S, Record>, c: Client, s: S, d: State): (r: Run<S, Record, State>)
    ensures Replays(t, s, r.log, r.appliance)
    ensures VersionCheck(c).Some? ==> r.log == [] && r.diag == VersionCheck(c) && r.d == d
    ensures VersionCheck(c).None? ==> |r.log| >= 1 && r.log[0].Sent? && r.log[0].call == ListCall
    // a failing first search is passed on
    ensures VersionCheck(c).None? && Search(r.log[0].response, d.applicationName).Err? ==>
              |r.log| == 1 && r.diag == Some(Search(r.log[0].response, d.applicationName).error) && r.d == d
    // the only write is a POST of the payload, sent second, after a search that found no such name
    ensures forall k :: 0 <= k < |r.log| && Writes(r.log[k]) ==>
              k == 1 && r.log[k].call == Call(POST, CollectionPath) && r.log[k].payload == Some(PrepareJson(d))
              && Search(r.log[0].response, d.applicationName) == Ok(None)
    ensures VersionCheck(c).None? && Search(r.log[0].response, d.applicationName).Ok?
              && Search(r.log[0].response, d.applicationName).value.Some? ==>
              |r.log| == 1 && r.diag == Some(AlreadyExists(d.applicationName)) && r.d == d
    // accepted but not locatable is fatal, and no id is bound
    ensures |r.log| >= 3 && r.log[2].Sent? && Search(r.log[2].response, d.applicationName) == Ok(None) ==>
              Accepted(r.log[1]) && r.diag == Some(NotFoundAfterPost(d.applicationName)) && r.d == d
    // success: the id located after the POST is bound and read back
    ensures r.diag.None? ==>
              |r.log| == 4 && Accepted(r.log[1]) && r.log[2].Sent? && r.log[3].Sent?
              && var found := Search(r.log[2].response, d.applicationName);
                 found.Ok? && found.value.Some? && r.log[3].call == ItemCall(found.value.value)
                 && r.d.id == (if FoundAbsent(r.log[3].response) then "" else found.value.value)
    // once the name is located after the POST, its id is bound and read back
    ensures |r.log| >= 3 && Accepted(r.log[1]) && r.log[2].Sent? ==>
              var found := Search(r.log[2].response, d.applicationName);
              found.Ok? && found.value.Some? ==>
              var rd := Read(t, c, After(t, After(t, After(t, s, r.log[0]), r.log[1]), r.log[2]), d.(id := found.value.value));
              r.log[3..] == rd.log && r.d == rd.d && r.diag == rd.diag
  {
    if VersionCheck(c).Some? then Stop(t, s, d, VersionCheck(c))
    else SearchThenPost(t, c, s, d)
  }

  /** Create of a name the first search does not find goes on to the POST:
      the rest of the run is PostAndBind from where that search left the
      appliance. */
  lemma CreatePostsFreeName<S>(t: Transport<S, Record>, c: Client, s: S, d: State)
    requires VersionCheck(c).None?
    requires Search(t.serve(s, ListCall, None).1, d.applicationName) == Ok(None)
    ensures var r := Create(t, c, s, d);
            var pb := PostAndBind(t, c, t.serve(s, ListCall, None).0, d);
            |r.log| >= 1 && r.log[1..] == pb.log && r.appliance == pb.appliance && r.d == pb.d && r.diag == pb.diag
  {
  }

  /** Update: PUT the payload to the item (forcing the change), then read. */
  function Update<S>(t: Transport<S, Record>, c: Client, s: S, d: State): (r: Run<S, Record, State>)
    ensures Replays(t, s, r.log, r.appliance)
    ensures VersionCheck(c).Some? ==> r.log == [] && r.diag == VersionCheck(c)
    ensures VersionCheck(c).None? ==>
              |r.log| >= 1 && r.log[0].Sent? && r.log[0].call == PutCall(d.id)
              && r.log[0].payload == Some(PrepareJson(d))
    ensures |r.log| >= 1 ==> ReadOnly(r.log[1..])
    ensures |r.log| >= 1 && !Accepted(r.log[0]) ==> |r.log| == 1 && r.diag == WriteStatus(r.log[0].response)
    // an accepted PUT is followed by the read, from the state the PUT left
    ensures |r.log| >= 1 && Accepted(r.log[0]) ==>
              var rd := Read(t, c, After(t, s, r.log[0]), d);
              r.log[1..] == rd.log && r.d == rd.d && r.diag == rd.diag
    // a failed gate, a refused PUT or a failed read leaves the state as it was
    ensures r.diag.Some? ==> r.d == d
  {
    if VersionCheck(c).Some? then Stop(t, s, d, VersionCheck(c))
    else
      var e := Send(t, s, PutCall(d.id), Some(PrepareJson(d)));
      var s1 := After(t, s, e);
      Then(t, s, e,
        match WriteStatus(e.response)
        case Some(err) => Stop(t, s1, d, Some(err))
        case None => Read(t, c, s1, d))
  }

  /** Delete: DELETE the item; success iff the appliance answers 200 or 204. */
  function Delete<S>(t: Transport<S, Record>, c: Client, s: S, d: State): (r: Run<S, Record, State>)
    ensures Replays(t, s, r.log, r.appliance)
    ensures r.d == d
    ensures VersionCheck(c).Some? ==> r.log == [] && r.diag == VersionCheck(c)
    ensures VersionCheck(c).None? ==>
              |r.log| == 1 && r.log[0].Sent? && r.log[0].call == DeleteCall(d.id)
              && r.diag == WriteStatus(r.log[0].response)
    ensures r.diag.None? <==> |r.log| == 1 && Accepted(r.log[0])
  {
    if VersionCheck(c).Some? then Stop(t, s, d, VersionCheck(c))
    else
      var e := Send(t, s, DeleteCall(d.id), None);
      Then(t, s, e, Stop(t, After(t, s, e), d, WriteStatus(e.response)))
  }

  /** Import: the import id is an application_name; resolve it by search,
      read the record, refresh the state and bind the id found. */
  function Import<S>(t: Transport<S, Record>, c: Client, s: S, d: State): (r: Run<S, Record, State>)
    ensures Replays(t, s, r.log, r.appliance)
    ensures ReadOnly(r.log)
    ensures VersionCheck(c).Some? ==> r.log == [] && r.diag == VersionCheck(c)
    ensures VersionCheck(c).None? ==> |r.log| >= 1 && r.log[0].Sent? && r.log[0].call == ListCall
    ensures VersionCheck(c).None? && Search(r.log[0].response, d.id) == Ok(None) ==>
              |r.log| == 1 && r.diag == Some(NotFoundOnImport(d.id))
    ensures VersionCheck(c).None? && Search(r.log[0].response, d.id).Err? ==>
              |r.log| == 1 && r.diag == Some(Search(r.log[0].response, d.id).error)
    ensures r.diag.None? ==>
              |r.log| == 2 && r.log[1].Sent? && Search(r.log[0].response, d.id) == Ok(Some(r.d.id))
              && r.log[1].call == ItemCall(r.d.id) && ReadRecord(r.log[1].response, Absent).Ok?
              && r.d == Fill(d, ReadRecord(r.log[1].response, Absent).value).(id := r.d.id)
    // a name the search finds is read by id, and the import succeeds iff that read does
    ensures VersionCheck(c).None? && r.log[0].Sent? ==>
              var found := Search(r.log[0].response, d.id);
              found.Ok? && found.value.Some? ==>
              |r.log| == 2 && r.log[1].Sent? && r.log[1].call == ItemCall(found.value.value)
              && (r.diag.None? <==> ReadRecord(r.log[1].response, Absent).Ok?)
              && (ReadRecord(r.log[1].response, Absent).Err? ==> r.diag == Some(ReadRecord(r.log[1].response, Absent).error))
    // a failed import leaves the state as it was
    ensures r.diag.Some? ==> r.d == d
  {
    if VersionCheck(c).Some? then Stop(t, s, d, VersionCheck(c))
    else
      var e0 := Send(t, s, ListCall, None);
      var s1 := After(t, s, e0);
      Then(t, s, e0,
        match Search(e0.response, d.id)
        case Err(err) => Stop(t, s1, d, Some(err))
        case Ok(None) => Stop(t, s1, d, Some(NotFoundOnImport(d.id)))
        case Ok(Some(id)) =>
          var e1 := Send(t, s1, ItemCall(id), None);
          var s2 := After(t, s1, e1);
          Then(t, s1, e1,
            match ReadRecord(e1.response, Absent)
            case Err(err) => Stop(t, s2, d, Some(err))
            case Ok(rec) => Stop(t, s2, Fill(d, rec).(id := id), None)))
  }
}
