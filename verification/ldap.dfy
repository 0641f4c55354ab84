/** The `wallix-bastion_externalauth_ldap` resource: its JSON payload, the
    login/password precondition, the search by authentication_name, the
    refresh of local state, and the five reconciliations. */
module Ldap {
  import opened Base
  import opened Rest
  import Locator

  const Resource := "wallix-bastion_externalauth_ldap"
  const CollectionPath := "/externalauths/"

  /** A Go float64, carried as its bit pattern and never interpreted. */
  datatype Float64 = Float64(bits: bv64)

  /** The JSON record exchanged with the appliance. */
  datatype Record = Record(
    isActiveDirectory: bool, isAnonymousAccess: bool, isProtectedUser: bool, isSsl: bool,
    isStartTls: bool, usePrimaryAuthDomain: bool, port: int, timeout: Float64,
    id: string, authenticationName: string, caCertificate: string, certificate: string,
    cnAttribute: string, description: string, ldapBase: string, login: string,
    loginAttribute: string, host: string, password: string, privateKey: string, kind: string)

  /** The resource's local state. */
  datatype State = State(
    id: string, authenticationName: string, cnAttribute: string, host: string, ldapBase: string,
    loginAttribute: string, port: int, timeout: Float64, caCertificate: string, certificate: string,
    description: string, isActiveDirectory: bool, isAnonymousAccess: bool, isProtectedUser: bool,
    isSsl: bool, isStartTls: bool, login: string, password: string, privateKey: string,
    usePrimaryAuthDomain: bool)

  /** The zero-valued record a read yields when the appliance answers 404. */
  const Absent := Record(false, false, false, false, false, false, 0, Float64(0),
                         "", "", "", "", "", "", "", "", "", "", "", "", "")

  function ItemCall(id: string): Call
  {
    Call(GET, CollectionPath + id)
  }

  /** The search lists the collection under the name itself. */
  function SearchCall(name: string): Call
  {
    Call(GET, CollectionPath + name)
  }

  function VersionCheck(c: Client): (err: Option<Error>)
    ensures err.None? <==> c.apiVersion == c.validate3_3
    ensures err.Some? ==> err.value == VersionNotValid(Resource, c.apiVersion)
  {
    GateExact(Resource, c.apiVersion, c.validate3_3)
  }

  /** Unless anonymous access is on, both login and password are needed. */
  function CheckBindCredentials(d: State): (err: Option<Error>)
    ensures err.None? <==> d.isAnonymousAccess || (d.login != "" && d.password != "")
    ensures err.Some? ==> err.value == LoginOrPasswordMissing(d.authenticationName)
  {
    if !d.isAnonymousAccess && (d.login == "" || d.password == "") then
      Some(LoginOrPasswordMissing(d.authenticationName))
    else None
  }

  /** The payload of POST and PUT: every setting of the state, of type LDAP. */
  function PrepareJson(d: State): (p: Record)
    ensures p.kind == "LDAP" && p.id == ""
    ensures p.authenticationName == d.authenticationName && p.password == d.password && p.login == d.login
    ensures p.cnAttribute == d.cnAttribute && p.host == d.host && p.ldapBase == d.ldapBase
    ensures p.loginAttribute == d.loginAttribute && p.port == d.port && p.timeout == d.timeout
    ensures p.caCertificate == d.caCertificate && p.certificate == d.certificate
    ensures p.description == d.description && p.privateKey == d.privateKey
    ensures p.isActiveDirectory == d.isActiveDirectory && p.isAnonymousAccess == d.isAnonymousAccess
    ensures p.isProtectedUser == d.isProtectedUser && p.isSsl == d.isSsl && p.isStartTls == d.isStartTls
    ensures p.usePrimaryAuthDomain == d.usePrimaryAuthDomain
  {
    Record(d.isActiveDirectory, d.isAnonymousAccess, d.isProtectedUser, d.isSsl, d.isStartTls,
           d.usePrimaryAuthDomain, d.port, d.timeout, "", d.authenticationName, d.caCertificate,
           d.certificate, d.cnAttribute, d.description, d.ldapBase, d.login, d.loginAttribute, d.host,
           d.password, d.privateKey, "LDAP")
  }

  /** The local state refreshed from a record: every setting is taken from
      the record except the id, the authentication_name and the password,
      which the refresh never writes. */
  function Fill(d: State, rec: Record): (d': State)
    ensures d'.id == d.id && d'.authenticationName == d.authenticationName && d'.password == d.password
    ensures d'.cnAttribute == rec.cnAttribute && d'.host == rec.host && d'.ldapBase == rec.ldapBase
    ensures d'.login == rec.login && d'.loginAttribute == rec.loginAttribute
    ensures d'.port == rec.port && d'.timeout == rec.timeout
    ensures d'.caCertificate == rec.caCertificate && d'.certificate == rec.certificate
    ensures d'.description == rec.description && d'.privateKey == rec.privateKey
    ensures d'.isActiveDirectory == rec.isActiveDirectory && d'.isAnonymousAccess == rec.isAnonymousAccess
    ensures d'.isProtectedUser == rec.isProtectedUser && d'.isSsl == rec.isSsl
    ensures d'.isStartTls == rec.isStartTls && d'.usePrimaryAuthDomain == rec.usePrimaryAuthDomain
  {
    d.(cnAttribute := rec.cnAttribute, host := rec.host, ldapBase := rec.ldapBase, login := rec.login,
       loginAttribute := rec.loginAttribute, port := rec.port, timeout := rec.timeout,
       caCertificate := rec.caCertificate, certificate := rec.certificate,
       description := rec.description, isActiveDirectory := rec.isActiveDirectory,
       isAnonymousAccess := rec.isAnonymousAccess, isProtectedUser := rec.isProtectedUser,
       isSsl := rec.isSsl, isStartTls := rec.isStartTls, privateKey := rec.privateKey,
       usePrimaryAuthDomain := rec.usePrimaryAuthDomain)
  }

  /** Refreshing from the payload built from the state changes nothing. */
  lemma FillPrepareRoundTrip(d: State)
    ensures Fill(d, PrepareJson(d)) == d
  {
  }

  /** A refresh from a record that omits the password (the appliance never
      returns it) keeps the password held locally. */
  lemma RefreshKeepsPassword(d: State, rec: Record)
    requires rec.password == ""
    ensures Fill(d, rec).password == d.password
    ensures Fill(d, rec) == Fill(d, rec.(password := d.password))
  {
  }

  /** The id of the first listed configuration whose authentication_name is
      exactly `name`. */
  function Search(rsp: Response<Record>, name: string): (r: Result<Option<string>>)
    ensures r.Ok? <==> ReadList(rsp).Ok?
    ensures r.Err? ==> r.error == ReadList(rsp).error
    ensures r.Ok? && r.value.None? <==>
              ReadList(rsp).Ok? && forall j :: 0 <= j < |rsp.body.records| ==> rsp.body.records[j].authenticationName != name
    ensures r.Ok? && r.value.Some? ==>
              exists i :: 0 <= i < |rsp.body.records| && rsp.body.records[i].authenticationName == name
                && rsp.body.records[i].id == r.value.value
                && forall j :: 0 <= j < i ==> rsp.body.records[j].authenticationName != name
  {
    Locator.Locate(rsp, (x: Record) => x.authenticationName == name, (x: Record) => x.id)
  }

  /** The reply to a read, found to say that the configuration is gone. */
  predicate FoundAbsent(rsp: Response<Record>)
  {
    ReadRecord(rsp, Absent).Ok? && ReadRecord(rsp, Absent).value.id == ""
  }

  /** Read: GET by id; 404 clears the id without error, any other status
      but 200 is an error, otherwise the state is refreshed. */
  function Read<S>(t: Transport<S, Record>, c: Client, s: S, d: State): (r: Run<S, Record, State>)
    ensures Replays(t, s, r.log, r.appliance)
    ensures ReadOnly(r.log)
    ensures VersionCheck(c).Some? ==> r.log == [] && r.diag == VersionCheck(c) && r.d == d
    ensures VersionCheck(c).None? ==> |r.log| == 1 && r.log[0].Sent? && r.log[0].call == ItemCall(d.id)
    ensures VersionCheck(c).None? && r.log[0].response.Reply? && r.log[0].response.status == StatusNotFound ==>
              r.diag.None? && r.d == d.(id := "")
    ensures VersionCheck(c).None? ==> (r.diag.None? <==> ReadRecord(r.log[0].response, Absent).Ok?)
    ensures r.diag.None? ==> r.d.id == (if FoundAbsent(r.log[0].response) then "" else d.id)
    ensures r.diag.None? && !FoundAbsent(r.log[0].response) ==>
              r.d == Fill(d, ReadRecord(r.log[0].response, Absent).value)
    ensures r.d.password == d.password && r.d.authenticationName == d.authenticationName
    ensures r.diag.Some? ==> r.d == d
    ensures r.diag.None? && FoundAbsent(r.log[0].response) ==> r.d == d.(id := "")
    ensures VersionCheck(c).None? && ReadRecord(r.log[0].response, Absent).Err? ==>
              r.diag == Some(ReadRecord(r.log[0].response, Absent).error)
  {
    if VersionCheck(c).Some? then Stop(t, s, d, VersionCheck(c))
    else
      var e := Send(t, s, ItemCall(d.id), None);
      var s1 := After(t, s, e);
      Then(t, s, e,
        match ReadRecord(e.response, Absent)
        case Err(err) => Stop(t, s1, d, Some(err))
        case Ok(rec) =>
          if rec.id == "" then Stop(t, s1, d.(id := ""), None) else Stop(t, s1, Fill(d, rec), None))
  }

  /** The tail of Create after an accepted POST: search again and read
      the id found; not finding the name is fatal. */
  function BindFound<S>(t: Transport<S, Record>, c: Client, s: S, d: State): (r: Run<S, Record, State>)
    ensures Replays(t, s, r.log, r.appliance)
    ensures ReadOnly(r.log)
    ensures |r.log| >= 1 && r.log[0].Sent? && r.log[0].call == SearchCall(d.authenticationName)
    ensures Search(r.log[0].response, d.authenticationName).Err? ==>
              |r.log| == 1 && r.diag == Some(Search(r.log[0].response, d.authenticationName).error) && r.d == d
    ensures Search(r.log[0].response, d.authenticationName) == Ok(None) ==>
              |r.log| == 1 && r.diag == Some(NotFoundAfterPost(d.authenticationName)) && r.d == d
    ensures var found := Search(r.log[0].response, d.authenticationName);
            found.Ok? && found.value.Some? ==>
              var rd := Read(t, c, After(t, s, r.log[0]), d.(id := found.value.value));
              r.log[1..] == rd.log && r.d == rd.d && r.diag == rd.diag
    ensures r.diag.None? ==>
              |r.log| == 2 && r.log[1].Sent?
              && var found := Search(r.log[0].response, d.authenticationName);
                 found.Ok? && found.value.Some? && r.log[1].call == ItemCall(found.value.value)
                 && r.d.id == (if FoundAbsent(r.log[1].response) then "" else found.value.value)
  {
    var e := Send(t, s, SearchCall(d.authenticationName), None);
    var s1 := After(t, s, e);
    Then(t, s, e,
      match Search(e.response, d.authenticationName)
      case Err(err) => Stop(t, s1, d, Some(err))
      case Ok(None) => Stop(t, s1, d, Some(NotFoundAfterPost(d.authenticationName)))
      case Ok(Some(id)) => Read(t, c, s1, d.(id := id)))
  }

  /** The second half of Create: POST the payload, search again, and bind
      the id found; accepted but not locatable is fatal. */
  function PostAndBind<S>(t: Transport<S, Record>, c: Client, s: S, d: State): (r: Run<S, Record, State>)
    ensures Replays(t, s, r.log, r.appliance)
    ensures |r.log| >= 1 && r.log[0].Sent? && r.log[0].call == Call(POST, CollectionPath)
    ensures r.log[0].payload == Some(PrepareJson(d))
    ensures ReadOnly(r.log[1..])
    // after an accepted POST, the rest of the run is the search and read
    ensures Accepted(r.log[0]) ==>
              var b := BindFound(t, c, After(t, s, r.log[0]), d);
              r.log[1..] == b.log && r.d == b.d && r.diag == b.diag
    ensures !Accepted(r.log[0]) ==> |r.log| == 1 && r.diag == WriteStatus(r.log[0].response) && r.d == d
    ensures Accepted(r.log[0]) ==> |r.log| >= 2 && r.log[1].Sent? && r.log[1].call == SearchCall(d.authenticationName)
    ensures |r.log| >= 2 && Search(r.log[1].response, d.authenticationName) == Ok(None) ==>
              r.diag == Some(NotFoundAfterPost(d.authenticationName)) && r.d == d
    ensures r.diag.None? ==>
              |r.log| == 3 && Accepted(r.log[0]) && r.log[1].Sent? && r.log[2].Sent?
              && var found := Search(r.log[1].response, d.authenticationName);
                 found.Ok? && found.value.Some? && r.log[2].call == ItemCall(found.value.value)
                 && r.d.id == (if FoundAbsent(r.log[2].response) then "" else found.value.value)
    // once the name is located after the POST, its id is bound and read back
    ensures |r.log| >= 2 && Accepted(r.log[0]) && r.log[1].Sent? ==>
              var found := Search(r.log[1].response, d.authenticationName);
              found.Ok? && found.value.Some? ==>
              var rd := Read(t, c, After(t, After(t, s, r.log[0]), r.log[1]), d.(id := found.value.value));
              r.log[2..] == rd.log && r.d == rd.d && r.diag == rd.diag
    // a failing search after the POST is passed on, and no id is bound
    ensures |r.log| >= 2 && Accepted(r.log[0]) && r.log[1].Sent? && Search(r.log[1].response, d.authenticationName).Err? ==>
              |r.log| == 2 && r.diag == Some(Search(r.log[1].response, d.authenticationName).error) && r.d == d
  {
    var e := Send(t, s, Call(POST, CollectionPath), Some(PrepareJson(d)));
    var s1 := After(t, s, e);
    Then(t, s, e,
      match WriteStatus(e.response)
      case Some(err) => Stop(t, s1, d, Some(err))
      case None => BindFound(t, c, s1, d))
  }

  /** Create: refuse an existing authentication_name, then refuse missing
      bind credentials, POST, search again, bind the id found and read. */
  function Create<S>(t: Transport<S, Record>, c: Client, s: S, d: State): (r: Run<S, Record, State>)
    ensures Replays(t, s, r.log, r.appliance)
    ensures VersionCheck(c).Some? ==> r.log == [] && r.diag == VersionCheck(c) && r.d == d
    ensures VersionCheck(c).None? ==>
              |r.log| >= 1 && r.log[0].Sent? && r.log[0].call == SearchCall(d.authenticationName)
    // a failing first search is passed on
    ensures VersionCheck(c).None? && Search(r.log[0].response, d.authenticationName).Err? ==>
              |r.log| == 1 && r.diag == Some(Search(r.log[0].response, d.authenticationName).error) && r.d == d
    // the only write is a POST of the payload, sent second, after a search that found no such name,
    // and only with complete bind credentials
    ensures forall k :: 0 <= k < |r.log| && Writes(r.log[k]) ==>
              k == 1 && r.log[k].call == Call(POST, CollectionPath) && r.log[k].payload == Some(PrepareJson(d))
              && Search(r.log[0].response, d.authenticationName) == Ok(None)
              && CheckBindCredentials(d).None?
    ensures VersionCheck(c).None? && Search(r.log[0].response, d.authenticationName).Ok?
              && Search(r.log[0].response, d.authenticationName).value.Some? ==>
              |r.log| == 1 && r.diag == Some(AlreadyExists(d.authenticationName)) && r.d == d
    ensures VersionCheck(c).None? && Search(r.log[0].response, d.authenticationName) == Ok(None)
              && CheckBindCredentials(d).Some? ==>
              |r.log| == 1 && r.diag == CheckBindCredentials(d) && r.d == d
    ensures |r.log| >= 3 && r.log[2].Sent? && Search(r.log[2].response, d.authenticationName) == Ok(None) ==>
              Accepted(r.log[1]) && r.diag == Some(NotFoundAfterPost(d.authenticationName)) && r.d == d
    ensures r.diag.None? ==>
              |r.log| == 4 && Accepted(r.log[1]) && r.log[2].Sent? && r.log[3].Sent?
              && var found := Search(r.log[2].response, d.authenticationName);
                 found.Ok? && found.value.Some? && r.log[3].call == ItemCall(found.value.value)
                 && r.d.id == (if FoundAbsent(r.log[3].response) then "" else found.value.value)
    // once the name is located after the POST, its id is bound and read back
    ensures |r.log| >= 3 && Accepted(r.log[1]) && r.log[2].Sent? ==>
              var found := Search(r.log[2].response, d.authenticationName);
              found.Ok? && found.value.Some? ==>
              var rd := Read(t, c, After(t, After(t, After(t, s, r.log[0]), r.log[1]), r.log[2]), d.(id := found.value.value));
              r.log[3..] == rd.log && r.d == rd.d && r.diag == rd.diag
  {
    if VersionCheck(c).Some? then Stop(t, s, d, VersionCheck(c))
    else
      var name := d.authenticationName;
      var e0 := Send(t, s, SearchCall(name), None);
      var s1 := After(t, s, e0);
      Then(t, s, e0,
        match Search(e0.response, name)
        case Err(err) => Stop(t, s1, d, Some(err))
        case Ok(Some(_)) => Stop(t, s1, d, Some(AlreadyExists(name)))
        case Ok(None) =>
          if CheckBindCredentials(d).Some? then Stop(t, s1, d, CheckBindCredentials(d))
          else
            PostAndBind(t, c, s1, d))
  }

  /** Create of a name the first search does not find, with complete bind
      credentials, goes on to the POST: the rest of the run is PostAndBind
      from where that search left the appliance. */
  lemma CreatePostsFreeName<S>(t: Transport<S, Record>, c: Client, s: S, d: State)
    requires VersionCheck(c).None? && CheckBindCredentials(d).None?
    requires Search(t.serve(s, SearchCall(d.authenticationName), None).1, d.authenticationName) == Ok(None)
    ensures var r := Create(t, c, s, d);
            var pb := PostAndBind(t, c, t.serve(s, SearchCall(d.authenticationName), None).0, d);
            |r.log| >= 1 && r.log[1..] == pb.log && r.appliance == pb.appliance && r.d == pb.d && r.diag == pb.diag
  {
  }

  /** Update: refuse missing bind credentials before any request, PUT the
      payload to the item, then read. */
  function Update<S>(t: Transport<S, Record>, c: Client, s: S, d: State): (r: Run<S, Record, State>)
    ensures Replays(t, s, r.log, r.appliance)
    ensures VersionCheck(c).Some? ==> r.log == [] && r.diag == VersionCheck(c)
    ensures VersionCheck(c).None? && CheckBindCredentials(d).Some? ==>
              r.log == [] && r.diag == CheckBindCredentials(d)
    ensures VersionCheck(c).None? && CheckBindCredentials(d).None? ==>
              |r.log| >= 1 && r.log[0].Sent? && r.log[0].call == Call(PUT, CollectionPath + d.id)
              && r.log[0].payload == Some(PrepareJson(d))
    ensures |r.log| >= 1 ==> ReadOnly(r.log[1..])
    ensures |r.log| >= 1 && !Accepted(r.log[0]) ==> |r.log| == 1 && r.diag == WriteStatus(r.log[0].response)
    // an accepted PUT is followed by the read, from the state the PUT left
    ensures |r.log| >= 1 && Accepted(r.log[0]) ==>
              var rd := Read(t, c, After(t, s, r.log[0]), d);
              r.log[1..] == rd.log && r.d == rd.d && r.diag == rd.diag
    // a failed gate, a refused PUT or a failed read leaves the state as it was
    ensures r.diag.Some? ==> r.d == d
  {
    if VersionCheck(c).Some? then Stop(t, s, d, VersionCheck(c))
    else if CheckBindCredentials(d).Some? then Stop(t, s, d, CheckBindCredentials(d))
    else
      var e := Send(t, s, Call(PUT, CollectionPath + d.id), Some(PrepareJson(d)));
      var s1 := After(t, s, e);
      Then(t, s, e,
        match WriteStatus(e.response)
        case Some(err) => Stop(t, s1, d, Some(err))
        case None => Read(t, c, s1, d))
  }

  /** Delete: DELETE the item; success iff the appliance answers 200 or 204. */
  function Delete<S>(t: Transport<S, Record>, c: Client, s: S, d: State): (r: Run<S, Record, State>)
    ensures Replays(t, s, r.log, r.appliance)
    ensures r.d == d
    ensures VersionCheck(c).Some? ==> r.log == [] && r.diag == VersionCheck(c)
    ensures VersionCheck(c).None? ==>
              |r.log| == 1 && r.log[0].Sent? && r.log[0].call == Call(DELETE, CollectionPath + d.id)
              && r.diag == WriteStatus(r.log[0].response)
    ensures r.diag.None? <==> |r.log| == 1 && Accepted(r.log[0])
  {
    if VersionCheck(c).Some? then Stop(t, s, d, VersionCheck(c))
    else
      var e := Send(t, s, Call(DELETE, CollectionPath + d.id), None);
      Then(t, s, e, Stop(t, After(t, s, e), d, WriteStatus(e.response)))
  }

  /** Import: the import id is an authentication_name; resolve it by search,
      read the record, refresh the state and bind the id found. */
  function Import<S>(t: Transport<S, Record>, c: Client, s: S, d: State): (r: Run<S, Record, State>)
    ensures Replays(t, s, r.log, r.appliance)
    ensures ReadOnly(r.log)
    ensures VersionCheck(c).Some? ==> r.log == [] && r.diag == VersionCheck(c)
    ensures VersionCheck(c).None? ==> |r.log| >= 1 && r.log[0].Sent? && r.log[0].call == SearchCall(d.id)
    ensures VersionCheck(c).None? && Search(r.log[0].response, d.id) == Ok(None) ==>
              |r.log| == 1 && r.diag == Some(NotFoundOnImport(d.id))
    ensures VersionCheck(c).None? && Search(r.log[0].response, d.id).Err? ==>
              |r.log| == 1 && r.diag == Some(Search(r.log[0].response, d.id).error)
    ensures r.diag.None? ==>
              |r.log| == 2 && r.log[1].Sent? && Search(r.log[0].response, d.id) == Ok(Some(r.d.id))
              && r.log[1].call == ItemCall(r.d.id) && ReadRecord(r.log[1].response, Absent).Ok?
              && r.d == Fill(d, ReadRecord(r.log[1].response, Absent).value).(id := r.d.id)
    // a name the search finds is read by id, and the import succeeds iff that read does
    ensures VersionCheck(c).None? && r.log[0].Sent? ==>
              var found := Search(r.log[0].response, d.id);
              found.Ok? && found.value.Some? ==>
              |r.log| == 2 && r.log[1].Sent? && r.log[1].call == ItemCall(found.value.value)
              && (r.diag.None? <==> ReadRecord(r.log[1].response, Absent).Ok?)
              && (ReadRecord(r.log[1].response, Absent).Err? ==> r.diag == Some(ReadRecord(r.log[1].response, Absent).error))
    // a failed import leaves the state as it was
    ensures r.diag.Some? ==> r.d == d
  {
    if VersionCheck(c).Some? then Stop(t, s, d, VersionCheck(c))
    else
      var e0 := Send(t, s, SearchCall(d.id), None);
      var s1 := After(t, s, e0);
      Then(t, s, e0,
        match Search(e0.response, d.id)
        case Err(err) => Stop(t, s1, d, Some(err))
        case Ok(None) => Stop(t, s1, d, Some(NotFoundOnImport(d.id)))
        case Ok(Some(id)) =>
          var e1 := Send(t, s1, ItemCall(id), None);
          var s2 := After(t, s1, e1);
          Then(t, s1, e1,
            match ReadRecord(e1.response, Absent)
            case Err(err) => Stop(t, s2, d, Some(err))
            case Ok(rec) => Stop(t, s2, Fill(d, rec).(id := id), None)))
  }
}
