/** The `wallix-bastion_device_localdomain_account_credential` resource: a
    credential of an account of a local domain of a device, identified among
    its siblings by its type ("password" or "ssh_key"). */
module Credential {
  import opened Base
  import opened Rest
  import Locator
  import Text

  /** The resource name the version error reports (the source reuses the
      local-domain resource's name here). */
  const Resource := "wallix-bastion_device_localdomain"
  const GeneratePrefix := "generate:"

  /** The JSON record exchanged with the appliance; an empty string stands
      for a member left out of the payload (`omitempty`). */
  datatype Record = Record(id: string, kind: string, password: string, privateKey: string,
                           publicKey: string, passphrase: string)

  /** The resource's local state. */
  datatype State = State(id: string, deviceId: string, domainId: string, accountId: string, kind: string,
                         passphrase: string, password: string, privateKey: string, publicKey: string)

  /** The zero-valued record a read yields when the appliance answers 404. */
  const Absent := Record("", "", "", "", "", "")

  /** The credential types the schema admits. */
  predicate ValidKind(kind: string)
  {
    kind == "password" || kind == "ssh_key"
  }

  function CollectionPath(deviceId: string, domainId: string, accountId: string): string
  {
    "/devices/" + deviceId + "/localdomains/" + domainId + "/accounts/" + accountId + "/credentials/"
  }

  function ItemPath(deviceId: string, domainId: string, accountId: string, id: string): string
  {
    CollectionPath(deviceId, domainId, accountId) + id
  }

  /** The read of the k-th parent (device, domain, account) of `d`, done by
      helpers that are not part of this model. */
  function ParentCall(d: State, k: nat): Call
    requires k < 3
  {
    if k == 0 then Call(GET, "/devices/" + d.deviceId)
    else if k == 1 then Call(GET, "/devices/" + d.deviceId + "/localdomains/" + d.domainId)
    else Call(GET, "/devices/" + d.deviceId + "/localdomains/" + d.domainId + "/accounts/" + d.accountId)
  }

  /** The error naming the k-th parent of `d` as missing. */
  function ParentMissingError(d: State, k: nat): Error
    requires k < 3
  {
    if k == 0 then ParentMissing(Device, d.deviceId)
    else if k == 1 then ParentMissing(Domain, d.domainId)
    else ParentMissing(Account, d.accountId)
  }

  /** The composite key `<device_id>/<domain_id>/<account_id>/<type>`. */
  function Key(d: State): string
  {
    d.deviceId + "/" + d.domainId + "/" + d.accountId + "/" + d.kind
  }

  function VersionCheck(c: Client): (err: Option<Error>)
    ensures err.None? <==> c.apiVersion == c.validate3_3
    ensures err.Some? ==> err.value == VersionNotValid(Resource, c.apiVersion)
  {
    GateExact(Resource, c.apiVersion, c.validate3_3)
  }

  /** The payload of POST (`newResource`) and PUT. The type selects the
      secrets sent; on update, an ssh key whose private key starts with
      "generate:" was generated by the appliance and is not sent again. */
  function PrepareJson(d: State, newResource: bool): (p: Record)
    ensures p.kind == d.kind && p.id == "" && p.publicKey == ""
    ensures d.kind == "password" ==> p.password == d.password && p.privateKey == "" && p.passphrase == ""
    ensures d.kind != "password" ==> p.password == ""
    ensures d.kind == "ssh_key" && (newResource || !(GeneratePrefix <= d.privateKey)) ==>
              p.privateKey == d.privateKey && p.passphrase == d.passphrase
    ensures d.kind == "ssh_key" && !newResource && GeneratePrefix <= d.privateKey ==>
              p.privateKey == "" && p.passphrase == ""
    ensures !ValidKind(d.kind) ==> p == Record("", d.kind, "", "", "", "")
  {
    if d.kind == "password" then Record("", d.kind, d.password, "", "", "")
    else if d.kind == "ssh_key" && (newResource || !(GeneratePrefix <= d.privateKey)) then
      Record("", d.kind, "", d.privateKey, "", d.passphrase)
    else Record("", d.kind, "", "", "", "")
  }

  /** Names of the secret members a payload carries. */
  function SentSecrets(p: Record): set<string>
  {
    (if p.password != "" then {"password"} else {})
    + (if p.privateKey != "" then {"private_key"} else {})
    + (if p.passphrase != "" then {"passphrase"} else {})
  }

  /** The secrets each credential type may carry. */
  function SecretsOf(kind: string): set<string>
  {
    if kind == "password" then {"password"}
    else if kind == "ssh_key" then {"private_key", "passphrase"}
    else {}
  }

  /** A payload never carries a secret its type does not use, and carries
      every configured secret its type uses unless it is a generated key on
      update. */
  lemma PayloadSecrets(d: State, newResource: bool)
    ensures SentSecrets(PrepareJson(d, newResource)) <= SecretsOf(d.kind)
    ensures d.kind == "password" && d.password != "" ==> "password" in SentSecrets(PrepareJson(d, newResource))
    ensures d.kind == "ssh_key" && d.privateKey != "" && newResource ==>
              "private_key" in SentSecrets(PrepareJson(d, newResource))
    ensures d.kind == "ssh_key" && !newResource && GeneratePrefix <= d.privateKey ==>
              SentSecrets(PrepareJson(d, newResource)) == {}
  {
  }

  /** Create and update send the same payload unless the key is generated. */
  lemma PayloadCreateUpdateAgree(d: State)
    ensures d.kind != "ssh_key" ==> PrepareJson(d, true) == PrepareJson(d, false)
    ensures d.kind == "ssh_key" ==> (PrepareJson(d, true) == PrepareJson(d, false) <==> !(GeneratePrefix <= d.privateKey))
  {
    if d.kind == "ssh_key" && GeneratePrefix <= d.privateKey {
      assert PrepareJson(d, true).privateKey == d.privateKey != "";
    }
  }

  /** The id of the first listed credential of type `kind`. */
  function Search(rsp: Response<Record>, kind: string): (r: Result<Option<string>>)
    ensures r.Ok? <==> ReadList(rsp).Ok?
    ensures r.Err? ==> r.error == ReadList(rsp).error
    ensures r.Ok? && r.value.None? <==>
              ReadList(rsp).Ok? && forall j :: 0 <= j < |rsp.body.records| ==> rsp.body.records[j].kind != kind
    ensures r.Ok? && r.value.Some? ==>
              exists i :: 0 <= i < |rsp.body.records| && rsp.body.records[i].kind == kind
                && rsp.body.records[i].id == r.value.value
                && forall j :: 0 <= j < i ==> rsp.body.records[j].kind != kind
  {
    Locator.Locate(rsp, (x: Record) => x.kind == kind, (x: Record) => x.id)
  }

  /** The local state refreshed from a record: only the type and the public
      key are written; the secrets held locally and the parent ids stay. */
  function Fill(d: State, rec: Record): (d': State)
    ensures d'.kind == rec.kind && d'.publicKey == rec.publicKey
    ensures d'.password == d.password && d'.privateKey == d.privateKey && d'.passphrase == d.passphrase
    ensures d'.id == d.id && d'.deviceId == d.deviceId && d'.domainId == d.domainId && d'.accountId == d.accountId
  {
    d.(kind := rec.kind, publicKey := rec.publicKey)
  }

  /** The import id split into its four segments, or the format error. */
  function ImportKey(id: string): (r: Result<seq<string>>)
    ensures r.Ok? <==> Text.Count(id, '/') == 3
    ensures r.Ok? ==> |r.value| == 4 && r.value == Text.Split(id, '/')
    ensures r.Err? ==> r.error == MalformedImportId(id)
  {
    var parts := Text.Split(id, '/');
    if |parts| != 4 then Err(MalformedImportId(id)) else Ok(parts)
  }

  /** The key of a credential whose ids and type hold no '/' is accepted
      on import and splits back into exactly those parts. */
  lemma ImportKeyOfKey(d: State)
    requires '/' !in d.deviceId && '/' !in d.domainId && '/' !in d.accountId && '/' !in d.kind
    ensures ImportKey(Key(d)) == Ok([d.deviceId, d.domainId, d.accountId, d.kind])
  {
    var parts := [d.deviceId, d.domainId, d.accountId, d.kind];
    assert Text.Join(parts[3..], '/') == d.kind;
    assert Text.Join(parts[2..], '/') == d.accountId + "/" + d.kind by {
      assert parts[2..][1..] == parts[3..];
    }
    assert Text.Join(parts[1..], '/') == d.domainId + "/" + d.accountId + "/" + d.kind by {
      assert parts[1..][1..] == parts[2..];
    }
    assert Text.Join(parts, '/') == Key(d) by {
      assert parts[1..] == parts[1..];
    }
    Text.SplitJoin(parts, '/');
  }

  /** The reply to a read, found to say that the credential is gone. */
  predicate FoundAbsent(rsp: Response<Record>)
  {
    ReadRecord(rsp, Absent).Ok? && ReadRecord(rsp, Absent).value.id == ""
  }

  /** Read: GET by id under the parents; 404 clears the id without error,
      any other status but 200 is an error, otherwise type and public key
      are refreshed. */
  function Read<S>(t: Transport<S, Record>, c: Client, s: S, d: State): (r: Run<S, Record, State>)
    ensures Replays(t, s, r.log, r.appliance)
    ensures ReadOnly(r.log)
    ensures VersionCheck(c).Some? ==> r.log == [] && r.diag == VersionCheck(c) && r.d == d
    ensures VersionCheck(c).None? ==>
              |r.log| == 1 && r.log[0].Sent?
              && r.log[0].call == Call(GET, ItemPath(d.deviceId, d.domainId, d.accountId, d.id))
    ensures VersionCheck(c).None? && r.log[0].response.Reply? && r.log[0].response.status == StatusNotFound ==>
              r.diag.None? && r.d == d.(id := "")
    ensures VersionCheck(c).None? ==> (r.diag.None? <==> ReadRecord(r.log[0].response, Absent).Ok?)
    ensures r.diag.None? ==> r.d.id == (if FoundAbsent(r.log[0].response) then "" else d.id)
    ensures r.diag.None? && !FoundAbsent(r.log[0].response) ==>
              r.d == Fill(d, ReadRecord(r.log[0].response, Absent).value)
    ensures r.d.password == d.password && r.d.privateKey == d.privateKey && r.d.passphrase == d.passphrase
    ensures r.diag.Some? ==> r.d == d
    ensures r.diag.None? && FoundAbsent(r.log[0].response) ==> r.d == d.(id := "")
    ensures VersionCheck(c).None? && ReadRecord(r.log[0].response, Absent).Err? ==>
              r.diag == Some(ReadRecord(r.log[0].response, Absent).error)
  {
    if VersionCheck(c).Some? then Stop(t, s, d, VersionCheck(c))
    else
      var e := Send(t, s, Call(GET, ItemPath(d.deviceId, d.domainId, d.accountId, d.id)), None);
      var s1 := After(t, s, e);
      Then(t, s, e,
        match ReadRecord(e.response, Absent)
        case Err(err) => Stop(t, s1, d, Some(err))
        case Ok(rec) =>
          if rec.id == "" then Stop(t, s1, d.(id := ""), None) else Stop(t, s1, Fill(d, rec), None))
  }

  /** The tail of Create after an accepted POST: search again and read
      the id found; not finding the type is fatal. */
  function BindFound<S>(t: Transport<S, Record>, c: Client, s: S, d: State): (r: Run<S, Record, State>)
    ensures Replays(t, s, r.log, r.appliance)
    ensures ReadOnly(r.log)
    ensures |r.log| >= 1 && r.log[0].Sent? && r.log[0].call == Call(GET, CollectionPath(d.deviceId, d.domainId, d.accountId))
    ensures Search(r.log[0].response, d.kind).Err? ==>
              |r.log| == 1 && r.diag == Some(Search(r.log[0].response, d.kind).error) && r.d == d
    ensures Search(r.log[0].response, d.kind) == Ok(None) ==>
              |r.log| == 1 && r.diag == Some(NotFoundAfterPost(Key(d))) && r.d == d
    ensures var found := Search(r.log[0].response, d.kind);
            found.Ok? && found.value.Some? ==>
              var rd := Read(t, c, After(t, s, r.log[0]), d.(id := found.value.value));
              r.log[1..] == rd.log && r.d == rd.d && r.diag == rd.diag
    ensures r.diag.None? ==>
              |r.log| == 2 && r.log[1].Sent?
              && var found := Search(r.log[0].response, d.kind);
                 found.Ok? && found.value.Some? && r.log[1].call == Call(GET, ItemPath(d.deviceId, d.domainId, d.accountId, found.value.value))
                 && r.d.id == (if FoundAbsent(r.log[1].response) then "" else found.value.value)
  {
    var e := Send(t, s, Call(GET, CollectionPath(d.deviceId, d.domainId, d.accountId)), None);
    var s1 := After(t, s, e);
    Then(t, s, e,
      match Search(e.response, d.kind)
      case Err(err) => Stop(t, s1, d, Some(err))
      case Ok(None) => Stop(t, s1, d, Some(NotFoundAfterPost(Key(d))))
      case Ok(Some(id)) => Read(t, c, s1, d.(id := id)))
  }

  /** The tail of Create: POST the payload, search again, bind the id found
      and read; accepted but not locatable is fatal. */
  function PostAndBind<S>(t: Transport<S, Record>, c: Client, s: S, d: State): (r: Run<S, Record, State>)
    ensures Replays(t, s, r.log, r.appliance)
    ensures |r.log| >= 1 && r.log[0].Sent?
    ensures r.log[0].call == Call(POST, CollectionPath(d.deviceId, d.domainId, d.accountId))
    ensures r.log[0].payload == Some(PrepareJson(d, true))
    ensures ReadOnly(r.log[1..])
    // after an accepted POST, the rest of the run is the search and read
    ensures Accepted(r.log[0]) ==>
              var b := BindFound(t, c, After(t, s, r.log[0]), d);
              r.log[1..] == b.log && r.d == b.d && r.diag == b.diag
    ensures !Accepted(r.log[0]) ==> |r.log| == 1 && r.diag == WriteStatus(r.log[0].response) && r.d == d
    ensures Accepted(r.log[0]) ==>
              |r.log| >= 2 && r.log[1].Sent? && r.log[1].call == Call(GET, CollectionPath(d.deviceId, d.domainId, d.accountId))
    ensures |r.log| >= 2 && Search(r.log[1].response, d.kind) == Ok(None) ==>
              r.diag == Some(NotFoundAfterPost(Key(d))) && r.d == d
    ensures r.diag.None? ==>
              |r.log| == 3 && Accepted(r.log[0]) && r.log[1].Sent? && r.log[2].Sent?
              && var found := Search(r.log[1].response, d.kind);
                 found.Ok? && found.value.Some?
                 && r.log[2].call == Call(GET, ItemPath(d.deviceId, d.domainId, d.accountId, found.value.value))
                 && r.d.id == (if FoundAbsent(r.log[2].response) then "" else found.value.value)
    // once the credential is located after the POST, its id is bound and read back
    ensures |r.log| >= 2 && Accepted(r.log[0]) && r.log[1].Sent? ==>
              var found := Search(r.log[1].response, d.kind);
              found.Ok? && found.value.Some? ==>
              var rd := Read(t, c, After(t, After(t, s, r.log[0]), r.log[1]), d.(id := found.value.value));
              r.log[2..] == rd.log && r.d == rd.d && r.diag == rd.diag
    // a failing search after the POST is passed on, and no id is bound
    ensures |r.log| >= 2 && Accepted(r.log[0]) && r.log[1].Sent? && Search(r.log[1].response, d.kind).Err? ==>
              |r.log| == 2 && r.diag == Some(Search(r.log[1].response, d.kind).error) && r.d == d
  {
    var e := Send(t, s, Call(POST, CollectionPath(d.deviceId, d.domainId, d.accountId)), Some(PrepareJson(d, true)));
    var s1 := After(t, s, e);
    Then(t, s, e,
      match WriteStatus(e.response)
      case Some(err) => Stop(t, s1, d, Some(err))
      case None => BindFound(t, c, s1, d))
  }

  /** The middle of Create, once the parents are known to exist: refuse a
      credential of the same type, then POST. */
  function SearchThenPost<S>(t: Transport<S, Record>, c: Client, s: S, d: State): (r: Run<S, Record, State>)
    ensures Replays(t, s, r.log, r.appliance)
    ensures |r.log| >= 1 && r.log[0].Sent? && r.log[0].call == Call(GET, CollectionPath(d.deviceId, d.domainId, d.accountId))
    ensures forall k :: 0 <= k < |r.log| && Writes(r.log[k]) ==>
              k == 1 && r.log[k].call == Call(POST, CollectionPath(d.deviceId, d.domainId, d.accountId))
              && r.log[k].payload == Some(PrepareJson(d, true)) && Search(r.log[0].response, d.kind) == Ok(None)
    ensures Search(r.log[0].response, d.kind).Ok? && Search(r.log[0].response, d.kind).value.Some? ==>
              |r.log| == 1 && r.diag == Some(AlreadyExists(Key(d))) && r.d == d
    ensures |r.log| >= 3 && r.log[2].Sent? && Search(r.log[2].response, d.kind) == Ok(None) ==>
              Accepted(r.log[1]) && r.diag == Some(NotFoundAfterPost(Key(d))) && r.d == d
    ensures r.diag.None? ==>
              |r.log| == 4 && Accepted(r.log[1]) && r.log[2].Sent? && r.log[3].Sent?
              && var found := Search(r.log[2].response, d.kind);
                 found.Ok? && found.value.Some?
                 && r.log[3].call == Call(GET, ItemPath(d.deviceId, d.domainId, d.accountId, found.value.value))
                 && r.d.id == (if FoundAbsent(r.log[3].response) then "" else found.value.value)
    // once the credential is located after the POST, its id is bound and read back
    ensures |r.log| >= 3 && Accepted(r.log[1]) && r.log[2].Sent? ==>
              var found := Search(r.log[2].response, d.kind);
              found.Ok? && found.value.Some? ==>
              var rd := Read(t, c, After(t, After(t, After(t, s, r.log[0]), r.log[1]), r.log[2]), d.(id := found.value.value));
              r.log[3..] == rd.log && r.d == rd.d && r.diag == rd.diag
    // a search that finds no credential of the type goes on to the POST
    ensures Search(r.log[0].response, d.kind) == Ok(None) ==>
              var pb := PostAndBind(t, c, After(t, s, r.log[0]), d);
              r.log[1..] == pb.log && r.d == pb.d && r.diag == pb.diag
    // a failing search is passed on
    ensures Search(r.log[0].response, d.kind).Err? ==>
              |r.log| == 1 && r.diag == Some(Search(r.log[0].response, d.kind).error) && r.d == d
  {
    var e0 := Send(t, s, Call(GET, CollectionPath(d.deviceId, d.domainId, d.accountId)), None);
    var s1 := After(t, s, e0);
    Then(t, s, e0,
      match Search(e0.response, d.kind)
      case Err(err) => Stop(t, s1, d, Some(err))
      case Ok(Some(_)) => Stop(t, s1, d, Some(AlreadyExists(Key(d))))
      case Ok(None) => PostAndBind(t, c, s1, d))
  }

  /** The read of the k-th parent found it. */
  predicate ParentFound<S>(t: Transport<S, Record>, s: S, d: State, k: nat)
    requires k < 3
  {
    t.consult(s, ParentCall(d, k)).Ok? && t.consult(s, ParentCall(d, k)).value != ""
  }

  /** The error a read of the k-th parent that did not find it stops with:
      the read's own, or the parent named as missing. */
  function ParentFailure<S>(t: Transport<S, Record>, s: S, d: State, k: nat): Error
    requires k < 3
  {
    if t.consult(s, ParentCall(d, k)).Err? then t.consult(s, ParentCall(d, k)).error else ParentMissingError(d, k)
  }

  /** The parent reads of Create from the k-th parent on (device, domain,
      account), stopping at the first that fails or finds nothing. They do
      not change the appliance. */
  function CheckParents<S>(t: Transport<S, Record>, s: S, d: State, k: nat): (r: Run<S, Record, State>)
    requires k <= 3
    decreases 3 - k
    ensures Replays(t, s, r.log, r.appliance) && r.appliance == s && r.d == d
    ensures |r.log| <= 3 - k
    // each entry is the appliance's answer to the read of the next parent
    ensures forall j :: 0 <= j < |r.log| ==> r.log[j] == Consulted(ParentCall(d, k + j), t.consult(s, ParentCall(d, k + j)))
    // the reads pass iff every parent from the k-th on is found
    ensures r.diag.None? <==> forall j :: k <= j < 3 ==> ParentFound(t, s, d, j)
    ensures r.diag.None? ==> |r.log| == 3 - k
    // otherwise they stop right after the first read that does not find its parent, with its error
    ensures r.diag.Some? ==>
              |r.log| >= 1 && (forall j :: k <= j < k + |r.log| - 1 ==> ParentFound(t, s, d, j))
              && !ParentFound(t, s, d, k + |r.log| - 1) && r.diag == Some(ParentFailure(t, s, d, k + |r.log| - 1))
  {
    if k == 3 then Stop(t, s, d, None)
    else
      var e := Consulted(ParentCall(d, k), t.consult(s, ParentCall(d, k)));
      var rest :=
        if !ParentFound(t, s, d, k) then Stop(t, s, d, Some(ParentFailure(t, s, d, k)))
        else CheckParents(t, s, d, k + 1);
      Then(t, s, e, rest)
  }

  /** Create past its version gate: the parent reads, then, when every
      parent is found, the search and POST. */
  function ReadParentsThenSearch<S>(t: Transport<S, Record>, c: Client, s: S, d: State): (r: Run<S, Record, State>)
    ensures Replays(t, s, r.log, r.appliance)
    ensures |r.log| >= 1 && forall j :: 0 <= j < 3 && j < |r.log| ==> r.log[j] == Consulted(ParentCall(d, j), t.consult(s, ParentCall(d, j)))
    ensures forall j :: 0 <= j < 3 && j < |r.log| && !ParentFound(t, s, d, j) ==>
              |r.log| == j + 1 && r.diag == Some(ParentFailure(t, s, d, j)) && r.appliance == s && r.d == d
    ensures forall j :: 0 <= j < |r.log| && Writes(r.log[j]) ==>
              j == 4 && r.log[3].Sent? && Search(r.log[3].response, d.kind) == Ok(None)
              && r.log[j].call == Call(POST, CollectionPath(d.deviceId, d.domainId, d.accountId))
              && r.log[j].payload == Some(PrepareJson(d, true))
              && forall i :: 0 <= i < 3 ==> ParentFound(t, s, d, i)
    // with every parent found, the rest of the run is the search and POST
    ensures |r.log| > 3 || r.diag.None? <==> forall j :: 0 <= j < 3 ==> ParentFound(t, s, d, j)
    ensures |r.log| > 3 || r.diag.None? ==>
              var sp := SearchThenPost(t, c, s, d);
              |r.log| == 3 + |sp.log| && r.log[3..] == sp.log && r.appliance == sp.appliance && r.d == sp.d && r.diag == sp.diag
  {
    var parents := CheckParents(t, s, d, 0);
    if parents.diag.Some? then parents
    else
      var sp := SearchThenPost(t, c, s, d);
      var r := Append(t, s, parents.log, s, sp);
      assert |parents.log| == 3 && r.log[3..] == sp.log;
      r
  }

  /** Create: check that device, domain and account exist, refuse an
      existing credential of the same type, POST, search again, bind the id
      found and read the credential back. */
  function Create<S>(t: Transport<S, Record>, c: Client, s: S, d: State): (r: Run<S, Record, State>)
    ensures Replays(t, s, r.log, r.appliance)
    ensures VersionCheck(c).Some? ==> r.log == [] && r.diag == VersionCheck(c) && r.d == d
    ensures VersionCheck(c).None? ==>
              |r.log| >= 1 && forall j :: 0 <= j < 3 && j < |r.log| ==> r.log[j] == Consulted(ParentCall(d, j), t.consult(s, ParentCall(d, j)))
    // a missing parent, or a failed read of one, stops Create before any request to the credentials
    ensures forall j :: 0 <= j < 3 && j < |r.log| && !ParentFound(t, s, d, j) ==>
              |r.log| == j + 1 && r.diag == Some(ParentFailure(t, s, d, j)) && r.appliance == s && r.d == d
    // the only write is the POST, after all parents were found and a search found no credential of that type
    ensures forall j :: 0 <= j < |r.log| && Writes(r.log[j]) ==>
              j == 4 && r.log[3].Sent? && Search(r.log[3].response, d.kind) == Ok(None)
              && r.log[j].call == Call(POST, CollectionPath(d.deviceId, d.domainId, d.accountId))
              && r.log[j].payload == Some(PrepareJson(d, true))
              && forall i :: 0 <= i < 3 ==> ParentFound(t, s, d, i)
    ensures r.diag.None? ==>
              |r.log| == 7 && Accepted(r.log[4]) && r.log[5].Sent? && r.log[6].Sent?
              && var found := Search(r.log[5].response, d.kind);
                 found.Ok? && found.value.Some?
                 && r.log[6].call == Call(GET, ItemPath(d.deviceId, d.domainId, d.accountId, found.value.value))
                 && r.d.id == (if FoundAbsent(r.log[6].response) then "" else found.value.value)
    // once the credential is located after the POST, its id is bound and read back (the parent reads
    // before it leave the appliance as it was)
    ensures |r.log| >= 6 && Accepted(r.log[4]) && r.log[5].Sent? ==>
              var found := Search(r.log[5].response, d.kind);
              found.Ok? && found.value.Some? ==>
              var rd := Read(t, c, After(t, After(t, After(t, s, r.log[3]), r.log[4]), r.log[5]), d.(id := found.value.value));
              r.log[6..] == rd.log && r.d == rd.d && r.diag == rd.diag
  {
    if VersionCheck(c).Some? then Stop(t, s, d, VersionCheck(c))
    else ReadParentsThenSearch(t, c, s, d)
  }

  /** Once device, domain and account are all found, Create goes on to the
      search and POST: after the three parent reads, the run is exactly
      SearchThenPost, with its already-exists refusal, its fatal
      not-found-after-POST and its read of the found id. */
  lemma CreateSearchesWhenParentsExist<S>(t: Transport<S, Record>, c: Client, s: S, d: State)
    requires VersionCheck(c).None?
    requires forall j :: 0 <= j < 3 ==> ParentFound(t, s, d, j)
    ensures var r := Create(t, c, s, d);
            var sp := SearchThenPost(t, c, s, d);
            |r.log| >= 3 && r.log[3..] == sp.log && r.appliance == sp.appliance && r.d == sp.d && r.diag == sp.diag
  {
    assert CheckParents(t, s, d, 0).diag.None?;
  }

  /** The first parent that is missing, or whose read fails, stops Create
      right after its read: nothing is sent to the credentials, the
      appliance is untouched, and the error names that parent or is the
      read's own. */
  lemma CreateStopsAtParent<S>(t: Transport<S, Record>, c: Client, s: S, d: State, k: nat)
    requires VersionCheck(c).None? && k < 3
    requires forall j :: 0 <= j < k ==> ParentFound(t, s, d, j)
    requires t.consult(s, ParentCall(d, k)).Err? || t.consult(s, ParentCall(d, k)) == Ok("")
    ensures var r := Create(t, c, s, d);
            |r.log| == k + 1 && r.appliance == s && r.d == d
            && (forall j :: 0 <= j <= k ==> r.log[j] == Consulted(ParentCall(d, j), t.consult(s, ParentCall(d, j))))
            && r.diag == (if t.consult(s, ParentCall(d, k)).Err? then Some(t.consult(s, ParentCall(d, k)).error)
                          else Some(ParentMissingError(d, k)))
  {
    // the parents' reads stop at the first one not found, which is the k-th
    var p := CheckParents(t, s, d, 0);
    assert !ParentFound(t, s, d, k);
    assert p.diag.Some? && !ParentFound(t, s, d, |p.log| - 1);
  }

  /** Update: PUT the update payload to the item, then read. */
  function Update<S>(t: Transport<S, Record>, c: Client, s: S, d: State): (r: Run<S, Record, State>)
    ensures Replays(t, s, r.log, r.appliance)
    ensures VersionCheck(c).Some? ==> r.log == [] && r.diag == VersionCheck(c)
    ensures VersionCheck(c).None? ==>
              |r.log| >= 1 && r.log[0].Sent?
              && r.log[0].call == Call(PUT, ItemPath(d.deviceId, d.domainId, d.accountId, d.id))
              && r.log[0].payload == Some(PrepareJson(d, false))
    ensures |r.log| >= 1 ==> ReadOnly(r.log[1..])
    ensures |r.log| >= 1 && !Accepted(r.log[0]) ==> |r.log| == 1 && r.diag == WriteStatus(r.log[0].response)
    // an accepted PUT is followed by the read, from the state the PUT left
    ensures |r.log| >= 1 && Accepted(r.log[0]) ==>
              var rd := Read(t, c, After(t, s, r.log[0]), d);
              r.log[1..] == rd.log && r.d == rd.d && r.diag == rd.diag
    // a failed gate, a refused PUT or a failed read leaves the state as it was
    ensures r.diag.Some? ==> r.d == d
  {
    if VersionCheck(c).Some? then Stop(t, s, d, VersionCheck(c))
    else
      var e := Send(t, s, Call(PUT, ItemPath(d.deviceId, d.domainId, d.accountId, d.id)), Some(PrepareJson(d, false)));
      var s1 := After(t, s, e);
      Then(t, s, e,
        match WriteStatus(e.response)
        case Some(err) => Stop(t, s1, d, Some(err))
        case None => Read(t, c, s1, d))
  }

  /** Delete: DELETE the item; success iff the appliance answers 200 or 204. */
  function Delete<S>(t: Transport<S, Record>, c: Client, s: S, d: State): (r: Run<S, Record, State>)
    ensures Replays(t, s, r.log, r.appliance)
    ensures r.d == d
    ensures VersionCheck(c).Some? ==> r.log == [] && r.diag == VersionCheck(c)
    ensures VersionCheck(c).None? ==>
              |r.log| == 1 && r.log[0].Sent?
              && r.log[0].call == Call(DELETE, ItemPath(d.deviceId, d.domainId, d.accountId, d.id))
              && r.diag == WriteStatus(r.log[0].response)
    ensures r.diag.None? <==> |r.log| == 1 && Accepted(r.log[0])
  {
    if VersionCheck(c).Some? then Stop(t, s, d, VersionCheck(c))
    else
      var e := Send(t, s, Call(DELETE, ItemPath(d.deviceId, d.domainId, d.accountId, d.id)), None);
      Then(t, s, e, Stop(t, After(t, s, e), d, WriteStatus(e.response)))
  }

  /** Import: the import id must be `<device_id>/<domain_id>/<account_id>/<type>`,
      checked before any request; the credential of that type is searched
      for, read, and the state takes the parent ids from the key. */
  function Import<S>(t: Transport<S, Record>, c: Client, s: S, d: State): (r: Run<S, Record, State>)
    ensures Replays(t, s, r.log, r.appliance)
    ensures ReadOnly(r.log)
    ensures VersionCheck(c).Some? ==> r.log == [] && r.diag == VersionCheck(c)
    ensures VersionCheck(c).None? && |Text.Split(d.id, '/')| != 4 ==>
              r.log == [] && r.diag == Some(MalformedImportId(d.id))
    // a well-formed key is always searched for, under the parents it names
    ensures VersionCheck(c).None? && |Text.Split(d.id, '/')| == 4 ==> r.log != []
    ensures r.log != [] ==>
              var parts := Text.Split(d.id, '/');
              |parts| == 4 && r.log[0].Sent? && r.log[0].call == Call(GET, CollectionPath(parts[0], parts[1], parts[2]))
              && (Search(r.log[0].response, parts[3]) == Ok(None) ==> |r.log| == 1 && r.diag == Some(NotFoundOnImport(d.id)))
              && (Search(r.log[0].response, parts[3]).Err? ==>
                    |r.log| == 1 && r.diag == Some(Search(r.log[0].response, parts[3]).error))
    ensures r.diag.None? ==>
              var parts := Text.Split(d.id, '/');
              |parts| == 4 && |r.log| == 2 && r.log[1].Sent?
              && Search(r.log[0].response, parts[3]) == Ok(Some(r.d.id))
              && r.log[1].call == Call(GET, ItemPath(parts[0], parts[1], parts[2], r.d.id))
              && ReadRecord(r.log[1].response, Absent).Ok?
              && r.d.deviceId == parts[0] && r.d.domainId == parts[1] && r.d.accountId == parts[2]
              && r.d.kind == ReadRecord(r.log[1].response, Absent).value.kind
              && r.d.publicKey == ReadRecord(r.log[1].response, Absent).value.publicKey
              && r.d.password == d.password && r.d.privateKey == d.privateKey && r.d.passphrase == d.passphrase
    // a key whose type the search finds is read by id, and the import succeeds iff that read does
    ensures r.log != [] ==>
              var parts := Text.Split(d.id, '/');
              var found := Search(r.log[0].response, parts[3]);
              found.Ok? && found.value.Some? ==>
              |r.log| == 2 && r.log[1].Sent? && r.log[1].call == Call(GET, ItemPath(parts[0], parts[1], parts[2], found.value.value))
              && (r.diag.None? <==> ReadRecord(r.log[1].response, Absent).Ok?)
              && (ReadRecord(r.log[1].response, Absent).Err? ==> r.diag == Some(ReadRecord(r.log[1].response, Absent).error))
    // a failed import leaves the state as it was
    ensures r.diag.Some? ==> r.d == d
  {
    if VersionCheck(c).Some? then Stop(t, s, d, VersionCheck(c))
    else
      match ImportKey(d.id)
      case Err(err) => Stop(t, s, d, Some(err))
      case Ok(parts) =>
        var e0 := Send(t, s, Call(GET, CollectionPath(parts[0], parts[1], parts[2])), None);
        var s1 := After(t, s, e0);
        Then(t, s, e0,
          match Search(e0.response, parts[3])
          case Err(err) => Stop(t, s1, d, Some(err))
          case Ok(None) => Stop(t, s1, d, Some(NotFoundOnImport(d.id)))
          case Ok(Some(id)) =>
            var e1 := Send(t, s1, Call(GET, ItemPath(parts[0], parts[1], parts[2], id)), None);
            var s2 := After(t, s1, e1);
            Then(t, s1, e1,
              match ReadRecord(e1.response, Absent)
              case Err(err) => Stop(t, s2, d, Some(err))
              case Ok(rec) =>
                Stop(t, s2, Fill(d, rec).(id := id, deviceId := parts[0], domainId := parts[1], accountId := parts[2]), None)))
  }

  /** The example key of an ssh-key credential is accepted on import. */
  lemma ExampleImportKey()
    ensures ImportKey("dev1/dom2/acc3/ssh_key") == Ok(["dev1", "dom2", "acc3", "ssh_key"])
  {
    var d := State("", "dev1", "dom2", "acc3", "ssh_key", "", "", "", "");
    assert Key(d) == "dev1/dom2/acc3/ssh_key";
    ImportKeyOfKey(d);
  }
}
