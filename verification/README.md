# Wallix bastion provider: reconciliation core

This project models the decision logic of four parts of a Terraform provider for the
Wallix bastion REST API:

- the `wallix-bastion_application` resource;
- the `wallix-bastion_externalauth_ldap` resource;
- the `wallix-bastion_device_localdomain_account_credential` resource;
- the `wallix-bastion_localpasswordpolicy` data source.

Each reconciliation (Create, Read, Update, Delete, Import) is a pure function. It takes:

- a `Rest.Transport`, which says how the appliance in a given state answers a request;
- the client configuration;
- the appliance state;
- the resource's local state.

It returns a `Rest.Run`, which holds:

- the appliance state afterwards;
- the log of exchanges;
- the new local state;
- the diagnostic.

Every flow proves that its log is exactly what the appliance answered (`Rest.Replays`).
So properties stated over the log are properties of what the provider sends, in which order
and with which payload. Examples of such properties:

- "no write after a duplicate";
- "the import key is checked before any request";
- "the only write is the POST of the payload".

The modules follow the program's structure:

- `Base`: option and result wrappers, and the error taxonomy.
- `Rest`: calls, responses, runs, the status classification (200/204 is write success, 404 is
  "absent" on a read by id) and the API-version gates.
- `Locator`: the first-match search shared by every "search before create".
- `Text`: Go's `strings.Split` on one separator, with its inverse `Join`.
- `Application`, `Ldap`, `Credential` and `PasswordPolicy`: one module per file of the core.
- `ApplicationStore`: a concrete appliance that holds applications in creation order. Against
  it, the application flows are proved end to end:
  - Create stores a new name once, under a fresh id, and binds the state to that id;
  - Create refuses a taken name and stores nothing;
  - Update replaces exactly the record it names, and the read that follows yields the configuration;
  - Delete removes exactly that record, and the next Read clears the id;
  - Import of a just-created name yields the state Create bound.

  The store keeps the payload as posted, and a payload carries no local_domains member. So every read from
  this store takes the corrected refresh `Application.Fill`, which reads that as no local domains, not the
  panicking one recorded under Findings.

## Model

| member | source | states |
|---|---|---|
| Rest.WriteStatus | bastion/resource_externalauth_ldap.go:261-299 | add, update and delete succeed iff the reply status is 200 or 204; a transport error is passed on; any other status is an error carrying the status and the body |
| Rest.ReadRecord | bastion/resource_externalauth_ldap.go:326-347 | a read by id yields the zero record on 404 and the decoded record on 200; any other status, a transport error or an undecodable body is an error |
| Rest.ReadList | bastion/resource_application.go:230-243 | a list read succeeds only on 200 with a decodable list, and then yields exactly the listed records; a 404 here is an error |
| Rest.GateExact | bastion/resource_externalauth_ldap.go:130-136 | the gate of a resource passes iff the API version equals the one accepted version; otherwise the error names the resource and the version |
| Rest.GateAmong | bastion/data_source_localpasswordpolicy.go:99-105 | the gate passes iff the API version is among the accepted versions |
| Locator.FirstMatch | bastion/resource_application.go:244-250 | the index found is the first whose element satisfies the test; nothing is found iff no element does |
| Locator.Locate | bastion/resource_application.go:230-251 | a search is an error iff the list read is, with the same error; it finds nothing iff no listed record matches; otherwise it returns the id of the first matching record |
| Locator.FirstMatchUnique | bastion/resource_application.go:244-250 | a search has one answer: two ids that are both the first match are equal |
| Text.Split | bastion/resource_device_localdomain_account_credential.go:194 | splitting yields one more piece than there are separators, and no piece contains the separator |
| Text.JoinSplit | bastion/resource_device_localdomain_account_credential.go:194 | joining the pieces of a split with the separator gives back the original id |
| Text.SplitJoin | bastion/resource_device_localdomain_account_credential.go:194-198 | splitting the join of separator-free pieces gives back exactly those pieces |
| Text.SegmentCount | bastion/resource_device_localdomain_account_credential.go:195 | an id splits into n pieces iff it holds n - 1 separators |
| Application.VersionCheck | bastion/resource_application.go:129-135 | the application gate accepts exactly the 3.3 version constant |
| Application.PrepareJson | bastion/resource_application.go:294-319 | the payload copies name, policy, description, parameters and target; it has one path entry per configured path, with target, program and working directory; global domains always go out as an array, empty when none are configured, never as null; no id and no local domains are sent |
| Application.PrepareJsonAsWritten | bastion/resource_application.go:310-316 | the builder as written fails (panics) iff global_domains is non-empty; otherwise it agrees with the corrected builder |
| Application.GlobalDomainsPanic | bastion/resource_application.go:311 | an application with one global domain makes the builder as written panic, while the corrected payload carries that domain |
| Application.Search | bastion/resource_application.go:230-251 | the search returns the id of the first listed application whose name is exactly the one asked for, reports not-found iff none has it, and is an error on a non-200 status |
| Application.Fill | bastion/resource_application.go:343-389 | the refresh copies name, policy, target, description, parameters, every path in order and every global domain; it yields one local_domains entry per remote local domain, in order; a record without local domains yields none; the id is untouched |
| Application.FillAsWritten | bastion/resource_application.go:374-387 | the refresh as written fails (panics) iff the record carries no local_domains member; otherwise it agrees with the corrected refresh |
| Application.LocalDomainsNilPanic | bastion/resource_application.go:374 | the zero record a 404 read yields makes the refresh as written panic, while the corrected refresh yields no local domains |
| Application.FillPrepareRoundTrip | bastion/resource_application.go:294-389 | refreshing from the payload built from a state gives that state back, except for the computed local domains |
| Application.Read | bastion/resource_application.go:164-179 | after the gate, the read is a single GET of the item. A 404, or a record without an id, clears the id without error. Any other failure is passed on as the read's own error and leaves the state alone. Otherwise the state is refreshed from the record. A failed gate leaves the state alone |
| Application.BindFound | bastion/resource_application.go:154-162 | the search after the POST lists the applications; a failing search is passed on, and not finding the name is fatal, both without binding an id; a found id is bound and the rest of the run is exactly the Read of it |
| Application.PostAndBind | bastion/resource_application.go:150-162 | the POST carries the payload; a refused POST stops with the status error and leaves the state alone; after an accepted POST the rest of the run is exactly BindFound from the state the POST left; a failing search is passed on, and not finding the name is fatal; both bind nothing |
| Application.SearchThenPost | bastion/resource_application.go:142-162 | a failing first search is passed on, and a taken name is refused after it; both leave the state alone. The only write is one POST of the payload, sent second, after a search that found no such name. Not finding the name after the POST is fatal and binds nothing. Once the name is found after the POST, the rest of the run is exactly the Read of the found id, with its state and diagnostic |
| Application.Create | bastion/resource_application.go:137-162 | the gate runs before any request. A failed gate or a failing first search is passed on and leaves the state alone, and so does the refusal of a duplicate name after the search. The only write is one POST of the payload, sent after a search that found no such name. Not finding the name after the POST is fatal and binds nothing. Once the name is found after the POST, the rest of the run is exactly the Read of the found id, with its state and diagnostic |
| Application.CreatePostsFreeName | bastion/resource_application.go:142-150 | after the gate, a name the first search does not find always goes on to the POST: the rest of Create's run is exactly PostAndBind from where that search left the appliance |
| Application.Update | bastion/resource_application.go:181-192 | the gate runs before any request; the only write is a forced PUT of the payload to the item; a refused PUT stops with the status error; after an accepted PUT the rest of the run is exactly the Read of the item from the state the PUT left, with its state and diagnostic; a failed gate, a refused PUT or a failed read leaves the state alone |
| Application.Delete | bastion/resource_application.go:194-203 | the gate runs before any request; delete is one DELETE of the item and succeeds iff the status is 200 or 204 |
| Application.Import | bastion/resource_application.go:205-228 | import only reads; a failing search is passed on; an unknown name fails with a not-found error; a name the search finds is then read by id, and the import succeeds iff that read does, whose error is otherwise passed on; on success the state is the record of the first application with that name, refreshed, with the id found bound; a failed import leaves the state alone |
| ApplicationStore.ReadBackCreated | bastion/resource_application.go:321-341 | on the concrete store, reading the fresh id after a create finds exactly the stored payload |
| ApplicationStore.SearchFindsCreated | bastion/resource_application.go:244-250 | after storing a new name, the search finds it under the fresh id |
| ApplicationStore.ReadCreated | bastion/resource_application.go:164-179 | reading a just-created application binds the configuration read back, without error |
| ApplicationStore.PostAndBindCreated | bastion/resource_application.go:150-162 | on the concrete store, POST, search and bind of a new name succeed and store exactly one record |
| ApplicationStore.CreateStoresOnce | bastion/resource_application.go:137-162 | on the concrete store, Create of a new name succeeds; the store gains exactly the payload under a fresh id; the state is bound to that id and equals the configuration |
| ApplicationStore.CreateRefusesTakenName | bastion/resource_application.go:142-148 | on the concrete store, Create of a name already held is refused with an already-exists error after one request, and the store is unchanged |
| ApplicationStore.ReadStored | bastion/resource_application.go:164-179 | on the concrete store, reading a stored id refreshes the state from that record, without error |
| ApplicationStore.ReadMissing | bastion/resource_application.go:173-175 | on the concrete store, reading any id the store does not hold (the empty one included) clears the id, without error |
| ApplicationStore.ImportAfterCreate | bastion/resource_application.go:205-228 | on the concrete store, importing the name of a just-created application yields exactly the state Create bound |
| ApplicationStore.UpdateThenRead | bastion/resource_application.go:181-192 | on the concrete store, Update of a stored application succeeds; it replaces exactly that record by the payload under the same id, leaves every other record alone, and the state read back is the configuration |
| ApplicationStore.DeleteThenRead | bastion/resource_application.go:194-203 | on the concrete store, Delete of a stored application succeeds; it removes exactly that record and keeps every other; the next Read clears the id without error |
| Ldap.VersionCheck | bastion/resource_externalauth_ldap.go:130-136 | the LDAP gate accepts exactly the 3.3 version constant and rejects every other version |
| Ldap.CheckBindCredentials | bastion/resource_externalauth_ldap.go:150-153 | the bind credentials are rejected iff anonymous access is off and login or password is empty |
| Ldap.PrepareJson | bastion/resource_externalauth_ldap.go:301-324 | the payload's type is always "LDAP"; it has no id; every other field comes from the configuration |
| Ldap.Fill | bastion/resource_externalauth_ldap.go:349-400 | the refresh never writes the password, the authentication_name or the id; every other setting comes from the record |
| Ldap.FillPrepareRoundTrip | bastion/resource_externalauth_ldap.go:301-400 | refreshing from the payload built from a state gives that state back |
| Ldap.RefreshKeepsPassword | bastion/resource_externalauth_ldap.go:349-400 | a refresh from a record without a password keeps the local password; it is the same as a refresh from a record carrying that password |
| Ldap.Search | bastion/resource_externalauth_ldap.go:237-259 | the search returns the id of the first result whose authentication_name is exactly equal, reports not-found iff none is, and is an error on a non-200 status |
| Ldap.Read | bastion/resource_externalauth_ldap.go:169-184 | the read is a single GET of the item. A 404, or a record without an id, clears the id without error. Any other failure is passed on as the read's own error and leaves the state alone. The password and the authentication_name are never overwritten |
| Ldap.BindFound | bastion/resource_externalauth_ldap.go:158-166 | the search after the POST queries the name; a failing search is passed on, and not finding the name is fatal, both without binding an id; a found id is bound and the rest of the run is exactly the Read of it |
| Ldap.PostAndBind | bastion/resource_externalauth_ldap.go:154-166 | the POST carries the payload; a refused POST stops with the status error and leaves the state alone; after an accepted POST the rest of the run is exactly BindFound; a failing search is passed on, and not finding the name is fatal; both bind nothing |
| Ldap.Create | bastion/resource_externalauth_ldap.go:138-167 | the gate runs before any request. A failing first search is passed on. An existing name is refused before any POST, and so are missing bind credentials. Each of these leaves the state alone. The only write is one POST of the payload. Not finding the name after the POST is fatal. Once the name is found after the POST, the rest of the run is exactly the Read of the found id |
| Ldap.CreatePostsFreeName | bastion/resource_externalauth_ldap.go:143-157 | after the gate, a name the first search does not find, with complete bind credentials, always goes on to the POST: the rest of Create's run is exactly PostAndBind from where that search left the appliance |
| Ldap.Update | bastion/resource_externalauth_ldap.go:186-199 | the gate and the bind-credential check both run before any request; the only write is a PUT of the payload to the item; a refused PUT stops with the status error; after an accepted PUT the rest of the run is exactly the Read of the item; any failure leaves the state alone |
| Ldap.Delete | bastion/resource_externalauth_ldap.go:201-210 | the gate runs before any request; delete succeeds iff the status is 200 or 204 |
| Ldap.Import | bastion/resource_externalauth_ldap.go:212-235 | import only reads; a failing search is passed on; an unknown name fails; a name the search finds is then read by id, and the import succeeds iff that read does, whose error is otherwise passed on; on success the state is refreshed from the record and bound to the id found; a failed import leaves the state alone |
| Credential.VersionCheck | bastion/resource_device_localdomain_account_credential.go:77-83 | the credential gate accepts exactly the 3.3 version constant |
| Credential.PrepareJson | bastion/resource_device_localdomain_account_credential.go:299-313 | the payload's type is the configured type. A "password" payload carries the password and no key or passphrase. An "ssh_key" payload never carries a password. On create it always copies the private key and passphrase; on update it copies them unless the private key starts with "generate:" |
| Credential.PayloadSecrets | bastion/resource_device_localdomain_account_credential.go:299-313 | a payload carries no secret its type does not use; it carries the configured password of a password credential and the key of a created ssh key; on update a generated key sends no secret at all |
| Credential.PayloadCreateUpdateAgree | bastion/resource_device_localdomain_account_credential.go:306-309 | for an ssh key, the create and update payloads agree iff the private key does not start with "generate:"; for any other type they always agree |
| Credential.Search | bastion/resource_device_localdomain_account_credential.go:227-250 | the search returns the id of the first listed credential of the requested type, reports not-found iff none has it, and is an error on a non-200 status |
| Credential.Fill | bastion/resource_device_localdomain_account_credential.go:340-347 | the refresh sets only the type and the public key; the secrets held locally, the id and the parent ids stay |
| Credential.ImportKey | bastion/resource_device_localdomain_account_credential.go:194-197 | an import id is accepted iff it holds exactly three "/" separators, that is, four segments, which are returned in order |
| Credential.ImportKeyOfKey | bastion/resource_device_localdomain_account_credential.go:194-198 | the key device/domain/account/type of slash-free parts is accepted and splits back into exactly those parts |
| Credential.ExampleImportKey | bastion/resource_device_localdomain_account_credential.go:194-198 | the key "dev1/dom2/acc3/ssh_key" is accepted and splits into its four parts |
| Credential.Read | bastion/resource_device_localdomain_account_credential.go:142-160 | the read is a single GET of the item under its parents. A 404, or a record without an id, clears the id without error. Any other failure is passed on as the read's own error and leaves the state alone. The secrets held locally are never overwritten |
| Credential.BindFound | bastion/resource_device_localdomain_account_credential.go:128-140 | the search after the POST lists the account's credentials; a failing search is passed on, and not finding the type is fatal, both without binding an id; a found id is bound and the rest of the run is exactly the Read of it |
| Credential.PostAndBind | bastion/resource_device_localdomain_account_credential.go:124-140 | the POST carries the create payload; a refused POST stops with the status error and leaves the state alone; after an accepted POST the rest of the run is exactly BindFound; a failing search is passed on, and not finding the type is fatal; both bind nothing |
| Credential.SearchThenPost | bastion/resource_device_localdomain_account_credential.go:114-140 | a failing search is passed on. An existing credential of the type is refused after the search alone. Both leave the state alone. The only write is the POST that follows a search that found none. A search that finds none always goes on to PostAndBind, which is the rest of the run. Once the type is found after the POST, the rest of the run is exactly the Read of the found id |
| Credential.CheckParents | bastion/resource_device_localdomain_account_credential.go:91-113 | the device, domain and account are read in that order; each entry is the appliance's answer for that parent; the checks pass iff every parent from the k-th on is found, reading all of them; otherwise they stop right after the first parent not found, with that read's error or one naming the parent |
| Credential.ReadParentsThenSearch | bastion/resource_device_localdomain_account_credential.go:91-140 | the parent reads come first, each the appliance's answer. The first parent not found stops the run right after its read, with the appliance and the state untouched. The rest of the run is SearchThenPost iff all three are found. The only write is the POST after a search that found none |
| Credential.Create | bastion/resource_device_localdomain_account_credential.go:85-141 | the gate runs before any request, and a failed gate leaves the state alone. The first three entries are the parent reads, in order. The first parent not found stops Create right after its read, with that read's error or one naming the parent; the appliance and the state are untouched. The only write is the POST, made after all three parents were found and a search found no credential of that type. Once the type is found after the POST, the rest of the run is exactly the Read of the found id |
| Credential.CreateSearchesWhenParentsExist | bastion/resource_device_localdomain_account_credential.go:85-141 | after the gate, when device, domain and account are all found, the run after the three parent reads is exactly SearchThenPost: an existing credential of the type is refused, not finding the type after the POST is fatal and binds nothing, and a found id is read back |
| Credential.CreateStopsAtParent | bastion/resource_device_localdomain_account_credential.go:91-113 | after the gate, the first parent whose read fails or finds nothing stops Create right after that read; the appliance is untouched; the error is the read's own, or names the missing parent |
| Credential.Update | bastion/resource_device_localdomain_account_credential.go:161-174 | the gate runs before any request; the only write is a PUT of the update payload to the item; a refused PUT stops with the status error; after an accepted PUT the rest of the run is exactly the Read of the item; a failed gate, a refused PUT or a failed read leaves the state alone |
| Credential.Delete | bastion/resource_device_localdomain_account_credential.go:175-186 | the gate runs before any request; delete succeeds iff the status is 200 or 204 |
| Credential.Import | bastion/resource_device_localdomain_account_credential.go:187-225 | import only reads. An id that does not split into four segments fails before any request. A well-formed key past the gate is always searched for, using the first three segments as parents and the fourth as the type. A failing search is passed on, and not finding a match fails. A type the search finds is then read by id under those parents, and the import succeeds iff that read does, whose error is otherwise passed on. On success the parent ids come from the key and the type and public key from the record. A failed import leaves the state alone |
| PasswordPolicy.ConfiguredName | bastion/data_source_localpasswordpolicy.go:36-40 | the policy name is the configured one, "default" when none is configured |
| PasswordPolicy.VersionCheck | bastion/data_source_localpasswordpolicy.go:99-105 | the data source gate accepts iff the API version is among the valid versions |
| PasswordPolicy.ReadOptions | bastion/data_source_localpasswordpolicy.go:124-148 | the lookup succeeds iff the reply is 200 with a non-empty list, and then returns its first element; an empty list is a not-found error naming the policy; a non-200 status is an error |
| PasswordPolicy.Fill | bastion/data_source_localpasswordpolicy.go:150-190 | every computed setting shown comes from the record; the id and the looked-up name stay |
| PasswordPolicy.FillShown | bastion/data_source_localpasswordpolicy.go:150-190 | refreshing a state from the settings it shows changes nothing |
| PasswordPolicy.ReadInitial | bastion/data_source_localpasswordpolicy.go:107-119 | the first read queries the configured name, or "default" when none is configured; the name stays; on success the state is the first listed policy's settings under its id |
| PasswordPolicy.Read | bastion/data_source_localpasswordpolicy.go:107-122 | the gate runs before any request; the read is one GET querying the name; on success the id is the returned policy's id and the settings are the first listed policy's; on failure the state is unchanged |

## Left out

- HTTP transport, request contexts and JSON (un)marshalling: the appliance is a `Rest.Transport`. A reply is a status, the raw body and its decoding; a failed request is `Failed`.
- Terraform SDK machinery (schema, diff, ForceNew, Partial, `d.Set` failures and the panics on them): the local state is a plain datatype.
- `versionValidate3_3` and `defaultVersionsValid()` are defined outside these files: they are the `Client` fields `validate3_3` and `versionsValid`.
- Schema validators: the credential type is restricted to "password" and "ssh_key" by the schema, before any flow runs (`Credential.ValidKind`). The flows accept any type, as the functions themselves do, and the payload of any other type carries the type only.
- Set-typed attributes (`paths`, `global_domains`, `forbidden_passwords`, `ssh_key_algos_allowed`) are the sequences the framework lists. Set order and deduplication are not modelled.
- Ldap.PrepareJson: the float64 `timeout` is carried as its 64-bit pattern and never interpreted.
- Application.Fill: the local domain's plugin parameters are kept as their serialized JSON text. The re-serialization by `json.Marshal` is not modelled.
- Credential.CheckParents: `readDeviceOptions`, `readDeviceLocalDomainOptions` and `readDeviceLocalDomainAccountOptions` are not part of this model. Each parent read is a `Consulted` log entry, answered by the transport's `consult` function with the id found ("" when absent) or an error. Its request path is a label, not the helper's real request.
- PasswordPolicy.Read: the policy name goes into the query string without escaping, as in the source. How the appliance filters on it is left to the transport.
- A JSON `null` list body decodes to no records in Go. Here it is simply a list without elements.
- ApplicationStore.Serve is one possible appliance, used to prove the application flows end to end. It is not the bastion's behaviour, which is not part of this model. Its PUT replaces the whole record, and its ids are strings of 'a' that it hands out itself.

## Findings

| source | as written | input that shows it | evidently intended | confidence | as-written member | corrected member |
|---|---|---|---|---|---|---|
| bastion/resource_application.go:311 | the value of `global_domains`, a `*schema.Set`, is asserted to `[]interface{}`, which panics | any application with at least one global domain, e.g. `["dom"]` | copy the set's elements into the payload | not executed | Application.PrepareJsonAsWritten (shown by Application.GlobalDomainsPanic) | Application.PrepareJson |
| bastion/resource_application.go:374 | `*jsonData.LocalDomains` is dereferenced without a nil check | Import of an application whose item GET answers 404 after the search found it: the zero record has no local domains | a record without local domains yields an empty `local_domains` | not executed | Application.FillAsWritten (shown by Application.LocalDomainsNilPanic) | Application.Fill |
