/** The `wallix-bastion_localpasswordpolicy` data source: looks a local
    password policy up by name and exposes its settings read-only. */
module PasswordPolicy {
  import opened Base
  import opened Rest

  const Resource := "wallix-bastion_localpasswordpolicy"

  /** The policy name used when the configuration gives none. */
  const DefaultName := "default"

  /** The JSON record of a policy. */
  datatype Record = Record(
    allowSameUserAndPassword: bool,
    id: string,
    passwordPolicyName: string,
    passwordExpiration: int,
    passwordWarningDays: int,
    passwordMinLength: int,
    passwordMinLowerChars: int,
    passwordMinUpperChars: int,
    passwordMinDigitChars: int,
    passwordMinSpecialChars: int,
    lastPasswordsToReject: int,
    maxAuthFailures: int,
    sshRsaMinLength: int,
    forbiddenPasswords: seq<string>,
    sshKeyAlgosAllowed: seq<string>)

  /** The data source's state: the name looked up and the computed settings. */
  datatype State = State(
    id: string,
    passwordPolicyName: string,
    allowSameUserAndPassword: bool,
    passwordExpiration: int,
    passwordWarningDays: int,
    passwordMinLength: int,
    passwordMinLowerChars: int,
    passwordMinUpperChars: int,
    passwordMinDigitChars: int,
    passwordMinSpecialChars: int,
    lastPasswordsToReject: int,
    maxAuthFailures: int,
    sshRsaMinLength: int,
    forbiddenPasswords: seq<string>,
    sshKeyAlgosAllowed: seq<string>)

  /** The name to look up: the configured one, else "default". */
  function ConfiguredName(configured: Option<string>): (name: string)
    ensures configured.Some? ==> name == configured.value
    ensures configured.None? ==> name == DefaultName
  {
    match configured
    case Some(n) => n
    case None => DefaultName
  }

  /** The state before the first read: only the name is known. */
  function Initial(configured: Option<string>): (d: State)
    ensures d.id == "" && d.passwordPolicyName == ConfiguredName(configured)
  {
    State("", ConfiguredName(configured), false, 0, 0, 0, 0, 0, 0, 0, 0, 0, 0, [], [])
  }

  function VersionCheck(c: Client): (err: Option<Error>)
    ensures err.None? <==> c.apiVersion in c.versionsValid
    ensures err.Some? ==> err.value == VersionNotValid(Resource, c.apiVersion)
  {
    GateAmong(Resource, c.apiVersion, c.versionsValid)
  }

  /** The lookup request; the name is spliced into the query as is. */
  function QueryCall(name: string): Call
  {
    Call(GET, "/localpasswordpolicies/?q=password_policy_name=" + name)
  }

  /** The outcome of the lookup: anything but 200 with a list is an error,
      an empty list means the policy does not exist, otherwise the first
      listed policy is the answer. */
  function ReadOptions(rsp: Response<Record>, name: string): (r: Result<Record>)
    ensures r.Ok? <==> ReadList(rsp).Ok? && |rsp.body.records| > 0
    ensures r.Ok? ==> r.value == rsp.body.records[0]
    ensures ReadList(rsp).Err? ==> r == Err(ReadList(rsp).error)
    ensures ReadList(rsp).Ok? && |rsp.body.records| == 0 ==> r == Err(PolicyNotFound(name))
  {
    match ReadList(rsp)
    case Err(err) => Err(err)
    case Ok(results) =>
      if |results| == 0 then Err(PolicyNotFound(name)) else Ok(results[0])
  }

  /** The settings a state exposes, as a record (the record's id and name
      are the state's). */
  function Shown(d: State): Record
  {
    Record(d.allowSameUserAndPassword, d.id, d.passwordPolicyName, d.passwordExpiration,
           d.passwordWarningDays, d.passwordMinLength, d.passwordMinLowerChars,
           d.passwordMinUpperChars, d.passwordMinDigitChars, d.passwordMinSpecialChars,
           d.lastPasswordsToReject, d.maxAuthFailures, d.sshRsaMinLength,
           d.forbiddenPasswords, d.sshKeyAlgosAllowed)
  }

  /** Copies every computed setting of the record into the state; the id and
      the looked-up name are not written. */
  function Fill(d: State, rec: Record): (d': State)
    ensures d'.id == d.id && d'.passwordPolicyName == d.passwordPolicyName
    ensures Shown(d') == rec.(id := d.id, passwordPolicyName := d.passwordPolicyName)
  {
    State(d.id, d.passwordPolicyName, rec.allowSameUserAndPassword, rec.passwordExpiration,
          rec.passwordWarningDays, rec.passwordMinLength, rec.passwordMinLowerChars,
          rec.passwordMinUpperChars, rec.passwordMinDigitChars, rec.passwordMinSpecialChars,
          rec.lastPasswordsToReject, rec.maxAuthFailures, rec.sshRsaMinLength,
          rec.forbiddenPasswords, rec.sshKeyAlgosAllowed)
  }

  /** Filling from the record a state shows changes nothing. */
  lemma FillShown(d: State)
    ensures Fill(d, Shown(d)) == d
  {
  }

  /** Read: gate on the API version, look the policy up by the state's
      name, then show its settings under its id. */
  function Read<S>(t: Transport<S, Record>, c: Client, s: S, d: State): (r: Run<S, Record, State>)
    ensures Replays(t, s, r.log, r.appliance)
    ensures ReadOnly(r.log)
    ensures r.d.passwordPolicyName == d.passwordPolicyName
    ensures VersionCheck(c).Some? ==> r.log == [] && r.diag == VersionCheck(c)
    ensures VersionCheck(c).None? ==>
              |r.log| == 1 && r.log[0].Sent? && r.log[0].call == QueryCall(d.passwordPolicyName)
              && r.diag == (if ReadOptions(r.log[0].response, d.passwordPolicyName).Err?
                            then Some(ReadOptions(r.log[0].response, d.passwordPolicyName).error) else None)
    ensures r.diag.None? ==>
              r.log[0].response.body.Many? && |r.log[0].response.body.records| > 0
              && var first := r.log[0].response.body.records[0];
                 r.d.id == first.id && Shown(r.d) == first.(passwordPolicyName := d.passwordPolicyName)
    ensures r.diag.Some? ==> r.d == d
  {
    if VersionCheck(c).Some? then Stop(t, s, d, VersionCheck(c))
    else
      var e := Send(t, s, QueryCall(d.passwordPolicyName), None);
      Then(t, s, e,
        match ReadOptions(e.response, d.passwordPolicyName)
        case Err(err) => Stop(t, After(t, s, e), d, Some(err))
        case Ok(rec) => Stop(t, After(t, s, e), Fill(d, rec).(id := rec.id), None))
  }

  /** The first read of the data source looks up the configured name, or
      "default" when none is configured, and on success shows the first
      policy listed under its id, keeping the looked-up name. */
  lemma ReadInitial<S>(t: Transport<S, Record>, c: Client, s: S, configured: Option<string>)
    ensures var r := Read(t, c, s, Initial(configured));
            VersionCheck(c).None? ==>
              r.log[0].call == QueryCall(ConfiguredName(configured))
              && (configured.None? ==> r.log[0].call == QueryCall(DefaultName))
    ensures var r := Read(t, c, s, Initial(configured));
            r.d.passwordPolicyName == ConfiguredName(configured)
            && (r.diag.None? ==> var first := r.log[0].response.body.records[0];
                  r.d == Fill(Initial(configured), first).(id := first.id))
  {
  }
}
