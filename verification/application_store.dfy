/** A concrete appliance for applications: the records it holds, in creation
    order, keyed by the ids it hands out. Against it, the abstract flows of
    the application resource are shown to do what they are for: Create
    stores a new name once, under a fresh id, and refuses a taken one;
    Update replaces exactly the record it names; Delete removes it, so that
    the next Read clears the id; Import after Create yields Create's state. */
module ApplicationStore {
  import opened Base
  import opened Rest
  import opened Application
  import Locator

  /** The stored applications, in creation order, and the number of the next
      id to hand out. */
  datatype Store = Store(apps: seq<Record>, next: nat)

  /** The id given to the n-th created application. */
  function FreshId(n: nat): (id: string)
    ensures |id| == n + 1 && id[0] == 'a'
  {
    seq(n + 1, _ => 'a')
  }

  /** Stored ids are distinct, start with 'a' and are shorter than the next
      fresh one, so a fresh id is never in use. */
  predicate Valid(st: Store)
  {
    (forall i :: 0 <= i < |st.apps| ==> 0 < |st.apps[i].id| <= st.next && st.apps[i].id[0] == 'a')
    && (forall i, j :: 0 <= i < j < |st.apps| ==> st.apps[i].id != st.apps[j].id)
  }

  /** The reply to the list query, which asks for id and name only. */
  function Listing(apps: seq<Record>): (l: seq<Record>)
    ensures |l| == |apps|
    ensures forall i :: 0 <= i < |apps| ==>
              l[i] == Absent.(id := apps[i].id, applicationName := apps[i].applicationName)
  {
    seq(|apps|, i requires 0 <= i < |apps| => Absent.(id := apps[i].id, applicationName := apps[i].applicationName))
  }

  /** The position of the stored application with id `id`, if any. */
  function IndexOf(apps: seq<Record>, id: string): (k: Option<nat>)
    ensures k.Some? ==> k.value < |apps| && apps[k.value].id == id
    ensures k.None? <==> forall i :: 0 <= i < |apps| ==> apps[i].id != id
  {
    Locator.FirstMatch(apps, (x: Record) => x.id == id)
  }

  /** The stored application with id `id`, if any. */
  function Find(apps: seq<Record>, id: string): (r: Option<Record>)
    ensures r.Some? ==> r.value in apps && r.value.id == id
    ensures r.None? <==> forall i :: 0 <= i < |apps| ==> apps[i].id != id
  {
    match IndexOf(apps, id)
    case None => None
    case Some(k) => Some(apps[k])
  }

  /** The id an update path names, if the path is one. */
  function PutTarget(path: string): (id: Option<string>)
    ensures id.Some? ==> path == CollectionPath + id.value + ForceSuffix
  {
    if |path| >= |CollectionPath| + |ForceSuffix| && CollectionPath <= path
       && path[|path| - |ForceSuffix|..] == ForceSuffix
    then
      var id := path[|CollectionPath|..|path| - |ForceSuffix|];
      assert path == path[..|CollectionPath|] + id + path[|path| - |ForceSuffix|..];
      Some(id)
    else None
  }

  /** How the store answers a request. POST stores the payload under a fresh
      id; PUT replaces the record it names, keeping its id; DELETE removes
      it; GET lists the collection or answers an item, 404 when missing.
      Writes answer 204 with no body. */
  function Serve(st: Store, call: Call, payload: Option<Record>): (Store, Response<Record>)
  {
    if call == ListCall then (st, Reply(StatusOK, "", Many(Listing(st.apps))))
    else if call == Call(POST, CollectionPath) && payload.Some? then
      (Store(st.apps + [payload.value.(id := FreshId(st.next))], st.next + 1), Reply(StatusNoContent, "", Malformed))
    else if call.verb == GET && CollectionPath <= call.path then
      match Find(st.apps, call.path[|CollectionPath|..])
      case Some(rec) => (st, Reply(StatusOK, "", One(rec)))
      case None => (st, Reply(StatusNotFound, "", Malformed))
    else if call.verb == PUT && payload.Some? && PutTarget(call.path).Some? then
      var id := PutTarget(call.path).value;
      match IndexOf(st.apps, id)
      case Some(k) => (st.(apps := st.apps[k := payload.value.(id := id)]), Reply(StatusNoContent, "", Malformed))
      case None => (st, Reply(StatusNotFound, "", Malformed))
    else if call.verb == DELETE && CollectionPath <= call.path then
      match IndexOf(st.apps, call.path[|CollectionPath|..])
      case Some(k) => (st.(apps := st.apps[..k] + st.apps[k + 1..]), Reply(StatusNoContent, "", Malformed))
      case None => (st, Reply(StatusNotFound, "", Malformed))
    else (st, Reply(405, "", Malformed))
  }

  /** Applications have no parents to consult. */
  function NoParent(st: Store, call: Call): Result<string>
  {
    Ok("")
  }

  const Appliance: Transport<Store, Record> := Transport(Serve, NoParent)

  /** What the store holds after a successful Create of `d`. */
  function Created(st: Store, d: State): Store
  {
    Store(st.apps + [PrepareJson(d).(id := FreshId(st.next))], st.next + 1)
  }

  /** An item path names its id after the collection prefix. */
  lemma ItemPathNamesId(id: string)
    ensures ItemCall(id).path[|CollectionPath|..] == id && CollectionPath <= ItemCall(id).path
  {
  }

  /** An item path of an id starting with 'a' is not the list query. */
  lemma ItemIsNotList(id: string)
    requires 0 < |id| && id[0] == 'a'
    ensures ItemCall(id) != ListCall
    ensures ItemCall(id).path[|CollectionPath|..] == id && CollectionPath <= ItemCall(id).path
  {
    assert ListPath[|CollectionPath|] == '?' != ItemCall(id).path[|CollectionPath|];
  }

  /** Reading an id the store holds refreshes the state from that record. */
  lemma ReadStored(c: Client, st: Store, d: State)
    requires c.apiVersion == c.validate3_3
    requires Valid(st) && Find(st.apps, d.id).Some?
    ensures var r := Read(Appliance, c, st, d);
            r.diag.None? && r.appliance == st && r.d == Fill(d, Find(st.apps, d.id).value)
  {
    var k := IndexOf(st.apps, d.id).value;
    ItemIsNotList(st.apps[k].id);
  }

  /** Reading an id the store does not hold clears the id, without error. */
  lemma ReadMissing(c: Client, st: Store, d: State)
    requires c.apiVersion == c.validate3_3
    requires ItemCall(d.id) != ListCall && Find(st.apps, d.id).None?
    ensures var r := Read(Appliance, c, st, d);
            r.diag.None? && r.appliance == st && r.d == d.(id := "")
  {
    ItemPathNamesId(d.id);
  }

  /** The item read of a just-created application finds what was stored. */
  lemma ReadBackCreated(st: Store, d: State)
    requires Valid(st)
    ensures Valid(Created(st, d))
    ensures Find(Created(st, d).apps, FreshId(st.next)) == Some(PrepareJson(d).(id := FreshId(st.next)))
  {
    var id := FreshId(st.next);
    var apps := Created(st, d).apps;
    assert apps[|st.apps|].id == id;
    forall i | 0 <= i < |st.apps|
      ensures apps[i].id != id && apps[i] == st.apps[i]
    {
      assert apps[i] == st.apps[i];
    }
  }

  /** The search after the POST finds the new application: it is the only
      one with its name. */
  lemma SearchFindsCreated(st: Store, d: State)
    requires forall i :: 0 <= i < |st.apps| ==> st.apps[i].applicationName != d.applicationName
    ensures Search(Reply(StatusOK, "", Many(Listing(Created(st, d).apps))), d.applicationName) == Ok(Some(FreshId(st.next)))
  {
    var apps := Created(st, d).apps;
    var l := Listing(apps);
    var rsp: Response<Record> := Reply(StatusOK, "", Many(l));
    assert l[|st.apps|].applicationName == d.applicationName;
    var r := Search(rsp, d.applicationName);
    assert r.Ok? && r.value.Some?;
    var i :| 0 <= i < |l| && l[i].applicationName == d.applicationName && l[i].id == r.value.value
             && forall j :: 0 <= j < i ==> l[j].applicationName != d.applicationName;
    assert i == |st.apps|;
  }

  /** The item read of a just-created application binds the configuration
      read back. */
  lemma ReadCreated(c: Client, st: Store, d: State)
    requires c.apiVersion == c.validate3_3
    requires Valid(st)
    ensures var r := Read(Appliance, c, Created(st, d), d.(id := FreshId(st.next)));
            r.diag.None? && r.appliance == Created(st, d) && r.d == d.(id := FreshId(st.next), localDomains := [])
  {
    var id := FreshId(st.next);
    ReadBackCreated(st, d);
    ReadStored(c, Created(st, d), d.(id := id));
    assert Fill(d.(id := id), PrepareJson(d).(id := id)) == d.(id := id, localDomains := []);
  }

  /** The POST stores the payload, the search finds it under the fresh id,
      and the read binds it. */
  lemma PostAndBindCreated(c: Client, st: Store, d: State)
    requires c.apiVersion == c.validate3_3
    requires Valid(st)
    requires forall i :: 0 <= i < |st.apps| ==> st.apps[i].applicationName != d.applicationName
    ensures var r := PostAndBind(Appliance, c, st, d);
            r.diag.None? && r.appliance == Created(st, d) && r.d == d.(id := FreshId(st.next), localDomains := [])
  {
    var t := Appliance;
    var st1 := Created(st, d);
    var e1 := Send(t, st, Call(POST, CollectionPath), Some(PrepareJson(d)));
    assert After(t, st, e1) == st1 && WriteStatus(e1.response).None?;
    var e2 := Send(t, st1, ListCall, None);
    SearchFindsCreated(st, d);
    assert Search(e2.response, d.applicationName) == Ok(Some(FreshId(st.next)));
    ReadCreated(c, st, d);
  }

  /** Create of a name the store does not hold succeeds: exactly one record
      is added, the payload under a fresh id, and the local state is bound
      to that id and equals the configuration read back. */
  lemma CreateStoresOnce(c: Client, st: Store, d: State)
    requires c.apiVersion == c.validate3_3
    requires Valid(st)
    requires forall i :: 0 <= i < |st.apps| ==> st.apps[i].applicationName != d.applicationName
    ensures Create(Appliance, c, st, d).diag.None?
    ensures Create(Appliance, c, st, d).appliance == Created(st, d)
    ensures Create(Appliance, c, st, d).d == d.(id := FreshId(st.next), localDomains := [])
  {
    var e0 := Send(Appliance, st, ListCall, None);
    assert Search(e0.response, d.applicationName) == Ok(None);
    PostAndBindCreated(c, st, d);
  }

  /** Create of a name the store already holds is refused after the search
      alone, and the store is left as it was. */
  lemma CreateRefusesTakenName(c: Client, st: Store, d: State)
    requires c.apiVersion == c.validate3_3
    requires exists i :: 0 <= i < |st.apps| && st.apps[i].applicationName == d.applicationName
    ensures Create(Appliance, c, st, d).diag == Some(AlreadyExists(d.applicationName))
    ensures Create(Appliance, c, st, d).appliance == st
    ensures |Create(Appliance, c, st, d).log| == 1
  {
    var e0 := Send(Appliance, st, ListCall, None);
    var i :| 0 <= i < |st.apps| && st.apps[i].applicationName == d.applicationName;
    assert Listing(st.apps)[i].applicationName == d.applicationName;
    assert Search(e0.response, d.applicationName).Ok? && Search(e0.response, d.applicationName).value.Some?;
  }

  /** Importing the name of a just-created application yields the state
      Create bound. */
  lemma ImportAfterCreate(c: Client, st: Store, d: State, d0: State)
    requires c.apiVersion == c.validate3_3
    requires Valid(st)
    requires forall i :: 0 <= i < |st.apps| ==> st.apps[i].applicationName != d.applicationName
    ensures Import(Appliance, c, Created(st, d), d0.(id := d.applicationName)).diag.None?
    ensures Import(Appliance, c, Created(st, d), d0.(id := d.applicationName)).d == Create(Appliance, c, st, d).d
  {
    var id := FreshId(st.next);
    var st1 := Created(st, d);
    CreateStoresOnce(c, st, d);
    SearchFindsCreated(st, d);
    ReadBackCreated(st, d);
    ItemIsNotList(id);
    var e1 := Send(Appliance, st1, ItemCall(id), None);
    assert e1.response == Reply(StatusOK, "", One(PrepareJson(d).(id := id)));
    assert Fill(d0.(id := d.applicationName), PrepareJson(d).(id := id)).(id := id) == d.(id := id, localDomains := []);
  }

  /** Replacing the record at a position by one with the same id keeps the
      store valid, and the id now finds the new record. */
  lemma ReplaceKeepsValid(st: Store, k: nat, rec: Record)
    requires Valid(st) && k < |st.apps| && rec.id == st.apps[k].id
    ensures Valid(st.(apps := st.apps[k := rec]))
    ensures Find(st.apps[k := rec], rec.id) == Some(rec)
  {
    var apps := st.apps[k := rec];
    assert forall i :: 0 <= i < |apps| ==> apps[i].id == st.apps[i].id;
    forall i | 0 <= i < k
      ensures apps[i].id != rec.id
    {
    }
  }

  /** Update of a stored application succeeds; it replaces exactly that
      record by the payload, keeping its id, and the read that follows
      yields the configuration. */
  lemma UpdateThenRead(c: Client, st: Store, d: State)
    requires c.apiVersion == c.validate3_3
    requires Valid(st) && Find(st.apps, d.id).Some?
    ensures var r := Update(Appliance, c, st, d);
            r.diag.None? && Valid(r.appliance) && |r.appliance.apps| == |st.apps|
            && Find(r.appliance.apps, d.id) == Some(PrepareJson(d).(id := d.id))
            && (forall i :: 0 <= i < |st.apps| && st.apps[i].id != d.id ==> r.appliance.apps[i] == st.apps[i])
            && r.d == d.(localDomains := [])
  {
    var k := IndexOf(st.apps, d.id).value;
    var rec := PrepareJson(d).(id := d.id);
    var st1 := st.(apps := st.apps[k := rec]);
    assert PutTarget(PutCall(d.id).path) == Some(d.id) by {
      var path := PutCall(d.id).path;
      assert path[|path| - |ForceSuffix|..] == ForceSuffix;
      assert path[|CollectionPath|..|path| - |ForceSuffix|] == d.id;
    }
    var e := Send(Appliance, st, PutCall(d.id), Some(PrepareJson(d)));
    assert After(Appliance, st, e) == st1 && WriteStatus(e.response).None?;
    ReplaceKeepsValid(st, k, rec);
    ReadStored(c, st1, d);
    assert Fill(d, rec) == d.(localDomains := []);
  }

  /** Removing the record at a position keeps the store valid; its id is
      no longer found and every other record is kept. */
  lemma RemoveKeepsValid(st: Store, k: nat)
    requires Valid(st) && k < |st.apps|
    ensures var apps := st.apps[..k] + st.apps[k + 1..];
            Valid(st.(apps := apps)) && |apps| == |st.apps| - 1 && Find(apps, st.apps[k].id).None?
            && forall i :: 0 <= i < |st.apps| && i != k ==> st.apps[i] in apps
  {
    var apps := st.apps[..k] + st.apps[k + 1..];
    assert forall i :: 0 <= i < |apps| ==> apps[i] == st.apps[if i < k then i else i + 1];
    forall i | 0 <= i < |st.apps| && i != k
      ensures st.apps[i] in apps
    {
      assert apps[if i < k then i else i - 1] == st.apps[i];
    }
  }

  /** Delete of a stored application succeeds and removes exactly that
      record; the next read then clears the id without error. */
  lemma DeleteThenRead(c: Client, st: Store, d: State)
    requires c.apiVersion == c.validate3_3
    requires Valid(st) && Find(st.apps, d.id).Some?
    ensures var r := Delete(Appliance, c, st, d);
            r.diag.None? && Valid(r.appliance) && |r.appliance.apps| == |st.apps| - 1
            && Find(r.appliance.apps, d.id).None?
            && (forall i :: 0 <= i < |st.apps| && st.apps[i].id != d.id ==> st.apps[i] in r.appliance.apps)
    ensures var r := Read(Appliance, c, Delete(Appliance, c, st, d).appliance, d);
            r.diag.None? && r.d == d.(id := "")
  {
    var k := IndexOf(st.apps, d.id).value;
    ItemIsNotList(d.id);
    assert DeleteCall(d.id).path[|CollectionPath|..] == d.id;
    var e := Send(Appliance, st, DeleteCall(d.id), None);
    var st1 := st.(apps := st.apps[..k] + st.apps[k + 1..]);
    assert After(Appliance, st, e) == st1 && WriteStatus(e.response).None?;
    RemoveKeepsValid(st, k);
    ReadMissing(c, st1, d);
  }
}
