/** The auth coordinator: login state, tenant and signing data, the shared cookie
    jar, and the snapshot that survives a restart. */
module AuthMachine {
  import opened Wrappers
  import opened Domains

  // ------------------------------------------------------------------
  // Login steps
  // ------------------------------------------------------------------

  datatype AuthState =
    | Unconfigured
    | Configured
    | AwaitingOtp(maskedTarget: string, loginType: string)
    | AwaitingMfa(mfaType: string, authList: seq<string>, canSkip: bool, maskedMobile: string, maskedEmail: string)
    | AwaitingOauth
    | AwaitingDeviceLogin
    | Authenticated

  datatype LoginNext = LoginNext(
    action: Option<string>, authList: Option<seq<string>>, canSkip: Option<bool>,
    mobile: Option<string>, email: Option<string>)

  datatype LoginResult = LoginResult(result: Option<string>, next: Option<LoginNext>)

  predicate IsMfaAction(action: string) {
    Lower(action) == "2fa" || Lower(action) == "mfa" || Lower(action) == "verify_mfa"
  }

  predicate IsLink(action: string) {
    Lower(action) == "goto_link" || Lower(action) == "gotolink"
  }

  function NextAuthState(result: Option<LoginResult>): AuthState {
    if result.None? || result.value.next.None? then Authenticated
    else
      var next := result.value.next.value;
      var action := next.action.GetOr("");
      if IsMfaAction(action) then
        var authList := next.authList.GetOr([]);
        AwaitingMfa(
          if authList == [] then action else authList[0], authList, next.canSkip.GetOr(false),
          next.mobile.GetOr(""), next.email.GetOr(""))
      else if IsLink(action) then Authenticated
      else if result.value.result == Some("success") then Authenticated
      else if next.mobile.GetOr("") != "" then AwaitingOtp(next.mobile.value, "mobile")
      else if next.email.GetOr("") != "" then AwaitingOtp(next.email.value, "email")
      else AwaitingOtp("", "mobile")
  }

  /** A second factor that the server asks for is never skipped by a `success`
      beside it, and only a login response decides between three states. */
  lemma SecondFactorBeatsSuccess(result: LoginResult)
    ensures NextAuthState(Some(result)).AwaitingMfa? <==>
            result.next.Some? && IsMfaAction(result.next.value.action.GetOr(""))
    ensures NextAuthState(Some(result)).Authenticated? <==>
            || result.next.None?
            || (&& !IsMfaAction(result.next.value.action.GetOr(""))
                && (IsLink(result.next.value.action.GetOr("")) || result.result == Some("success")))
    ensures var s := NextAuthState(Some(result)); s.Authenticated? || s.AwaitingMfa? || s.AwaitingOtp?
  {
  }

  lemma LiteralsAreLower()
    ensures Lower("2fa") == "2fa" && Lower("mfa") == "mfa" && Lower("gotolink") == "gotolink"
  {
    LowerIs("2fa", "2fa");
    LowerIs("mfa", "mfa");
    LowerIs("gotolink", "gotolink");
  }

  lemma VerifyIsLower()
    ensures Lower("verify_mfa") == "verify_mfa"
  {
    LowerIs("verify_mfa", "verify_mfa");
  }

  lemma LinkIsLower()
    ensures Lower("goto_link") == "goto_link"
  {
    LowerIs("goto_link", "goto_link");
  }

  /** The actions that mean a second factor, and those that mean a link, in any case. */
  lemma ActionsAnyCase(action: string)
    ensures IsMfaAction(action) <==>
            SameSpelling(action, "2fa") || SameSpelling(action, "mfa") || SameSpelling(action, "verify_mfa")
    ensures IsLink(action) <==> SameSpelling(action, "goto_link") || SameSpelling(action, "gotolink")
  {
    LiteralsAreLower();
    VerifyIsLower();
    LinkIsLower();
    LowerIdentifiesCases(action, "2fa");
    LowerIdentifiesCases(action, "mfa");
    LowerIdentifiesCases(action, "verify_mfa");
    LowerIdentifiesCases(action, "goto_link");
    LowerIdentifiesCases(action, "gotolink");
  }

  /** What a challenge holds: the first way of the list, or the action itself, and the
      masked targets; for a code the mobile before the mail address. */
  lemma ChallengeFields(result: LoginResult)
    requires result.next.Some?
    ensures var next, state := result.next.value, NextAuthState(Some(result));
            && (state.AwaitingMfa? ==>
                  && state.authList == next.authList.GetOr([])
                  && state.mfaType == (if state.authList == [] then next.action.GetOr("") else state.authList[0])
                  && state.canSkip == (next.canSkip == Some(true))
                  && state.maskedMobile == next.mobile.GetOr("") && state.maskedEmail == next.email.GetOr(""))
            && (state.AwaitingOtp? ==>
                  && (next.mobile.GetOr("") != "" ==>
                        state.maskedTarget == next.mobile.value && state.loginType == "mobile")
                  && (next.mobile.GetOr("") == "" && next.email.GetOr("") != "" ==>
                        state.maskedTarget == next.email.value && state.loginType == "email")
                  && (next.mobile.GetOr("") == "" && next.email.GetOr("") == "" ==>
                        state.maskedTarget == "" && state.loginType == "mobile"))
  {
  }

  // ------------------------------------------------------------------
  // The cookie jar
  // ------------------------------------------------------------------

  type Cookies = map<string, string>

  function Merged(values: Cookies, updates: seq<(string, string)>): Cookies {
    if updates == [] then values
    else
      var last := updates[|updates| - 1];
      Merged(values, updates[..|updates| - 1])[last.0 := last.1]
  }

  /** The last update of a name wins, and names without one keep their value. */
  lemma {:induction false} LastUpdateWins(values: Cookies, updates: seq<(string, string)>, i: nat)
    requires i < |updates| && forall j :: i < j < |updates| ==> updates[j].0 != updates[i].0
    ensures updates[i].0 in Merged(values, updates) && Merged(values, updates)[updates[i].0] == updates[i].1
  {
    var init := updates[..|updates| - 1];
    if i < |init| {
      assert updates[|updates| - 1].0 != updates[i].0;
      LastUpdateWins(values, init, i);
    }
  }

  lemma {:induction false} OthersStay(values: Cookies, updates: seq<(string, string)>, name: string)
    requires forall j :: 0 <= j < |updates| ==> updates[j].0 != name
    ensures name in Merged(values, updates) <==> name in values
    ensures name in values ==> Merged(values, updates)[name] == values[name]
  {
    if updates != [] {
      OthersStay(values, updates[..|updates| - 1], name);
    }
  }

  /** The jar, shared by the machine and every client built from it. */
  class CookieStore {
    var values: Cookies

    constructor (values: Cookies)
      ensures this.values == values
    {
      this.values := values;
    }

    /** `changed` is whether the listener is told: never told means nothing changed. */
    method Merge(updates: seq<(string, string)>) returns (changed: bool)
      modifies this
      ensures values == Merged(old(values), updates)
      ensures !changed ==> values == old(values)
    {
      changed := false;
      for n := 0 to |updates|
        invariant values == Merged(old(values), updates[..n])
        invariant !changed ==> values == old(values)
      {
        var (name, value) := updates[n];
        assert updates[..n + 1][..n] == updates[..n];
        if name in values && values[name] == value {
          assert values == values[name := value];
          continue;
        }
        values := values[name := value];
        changed := true;
      }
      assert updates[..|updates|] == updates;
    }

    method Clear()
      modifies this
      ensures values == map[]
    {
      values := map[];
    }
  }

  // ------------------------------------------------------------------
  // The machine as a value
  // ------------------------------------------------------------------

  datatype Tenant = Tenant(baseUrl: string, backupUrl: Option<string>, useBackup: bool, name: string)

  datatype Signing = Signing(enabled: bool, activationCode: string, deviceId: string)

  datatype ApiVersion = Legacy | V1

  datatype OauthPending = OauthPending(
    aliasKey: string, state: string, pollToken: string, verifier: string, url: string)

  datatype DevicePending = DevicePending(loginUrl: string, aliasKey: string, pollToken: string)

  datatype Machine = Machine(
    state: AuthState, tenant: Option<Tenant>, signing: Option<Signing>, cookies: Cookies,
    knockToken: Option<string>, totp: Option<string>, version: ApiVersion,
    oauth: Option<OauthPending>, device: Option<DevicePending>)

  datatype Credentials = Credentials(
    tenant: Tenant, signing: Signing, cookies: Cookies,
    knockToken: Option<string>, totp: Option<string>, version: ApiVersion)

  /** A response of the server with the cookies it sets; errors set cookies too. */
  datatype Reply<+T> = Reply(result: Result<T, nat>, cookies: seq<(string, string)>)

  datatype Activation = Activation(
    baseUrl: Option<string>, backupUrl: Option<string>, useBackup: Option<bool>, name: Option<string>)

  datatype Provider = Provider(
    aliasKey: Option<string>, alias: Option<string>, loginUrl: Option<string>, url: Option<string>,
    token: Option<string>, state: Option<string>)

  datatype Fault =
    | NotConfigured | NoPendingFlow | ApiFault(code: nat)
    | UnknownProvider | ProviderNoLoginUrl | ProviderNoDeviceLogin

  datatype Outcome = Done | Failed(fault: Fault)

  const FRESH := Machine(Unconfigured, None, None, map[], None, None, Legacy, None, None)

  function OrElse<T>(first: Option<T>, second: Option<T>): Option<T> {
    if first.Some? then first else second
  }

  function FindProvider(providers: seq<Provider>, alias: string): Option<Provider> {
    if providers == [] then None
    else if Names(providers[0], alias) then Some(providers[0])
    else FindProvider(providers[1..], alias)
  }

  function OauthFlow(providers: seq<Provider>, alias: string, verifier: string): Result<OauthPending, Fault> {
    var provider := FindProvider(providers, alias);
    if provider.None? then Err(UnknownProvider)
    else
      var url := OrElse(provider.value.loginUrl, provider.value.url);
      if url.None? then Err(ProviderNoLoginUrl)
      else Ok(OauthPending(alias, provider.value.state.GetOr(""), provider.value.token.GetOr(""), verifier, url.value))
  }

  function DeviceFlow(providers: seq<Provider>, alias: string): Result<DevicePending, Fault> {
    var provider := FindProvider(providers, alias);
    if provider.None? then Err(UnknownProvider)
    else if provider.value.token.GetOr("") == "" then Err(ProviderNoDeviceLogin)
    else
      var url := OrElse(provider.value.loginUrl, provider.value.url).GetOr("");
      Ok(DevicePending(url, alias, provider.value.token.value))
  }

  predicate Names(provider: Provider, alias: string) {
    provider.aliasKey == Some(alias) || provider.alias == Some(alias)
  }

  /** Provider `i` is the first of the list that goes by the alias. */
  ghost predicate FirstNamed(providers: seq<Provider>, alias: string, i: int) {
    0 <= i < |providers| && Names(providers[i], alias) && forall j :: 0 <= j < i ==> !Names(providers[j], alias)
  }

  lemma {:induction false} FindIsFirstNamed(providers: seq<Provider>, alias: string)
    ensures FindProvider(providers, alias).None? <==> forall i :: 0 <= i < |providers| ==> !Names(providers[i], alias)
    ensures forall i :: FirstNamed(providers, alias, i) ==> FindProvider(providers, alias) == Some(providers[i])
  {
    if providers != [] {
      var rest := providers[1..];
      FindIsFirstNamed(rest, alias);
      assert forall i :: 0 <= i < |rest| ==> rest[i] == providers[i + 1];
      assert forall i :: 0 < i < |providers| ==> providers[i] == rest[i - 1];
      forall i | FirstNamed(providers, alias, i) && i > 0 ensures FirstNamed(rest, alias, i - 1) {
        assert Names(rest[i - 1], alias);
      }
    }
  }

  /** A device login begins exactly when the first provider of that name gives a
      token to poll with; the flow polls with that token. */
  lemma DeviceFlowIff(providers: seq<Provider>, alias: string)
    ensures DeviceFlow(providers, alias).Ok? <==>
            exists i :: FirstNamed(providers, alias, i) && providers[i].token.GetOr("") != ""
    ensures forall i :: FirstNamed(providers, alias, i) && DeviceFlow(providers, alias).Ok? ==>
              Some(DeviceFlow(providers, alias).value.pollToken) == providers[i].token
    ensures DeviceFlow(providers, alias) == Err(UnknownProvider) <==>
            forall i :: 0 <= i < |providers| ==>
                          providers[i].aliasKey != Some(alias) && providers[i].alias != Some(alias)
  {
    FindIsFirstNamed(providers, alias);
    if i :| 0 <= i < |providers| && Names(providers[i], alias) {
      var first := FirstOf(providers, alias, i);
      assert FindProvider(providers, alias) == Some(providers[first]);
    }
  }

  /** An OAuth flow is made of the first provider of that name, which must give an
      address; its state and token may be missing. */
  lemma OauthFlowIs(providers: seq<Provider>, alias: string, verifier: string, i: nat)
    requires FirstNamed(providers, alias, i)
    ensures OauthFlow(providers, alias, verifier) ==
            if providers[i].loginUrl.None? && providers[i].url.None? then Err(ProviderNoLoginUrl)
            else Ok(OauthPending(
                      alias, providers[i].state.GetOr(""), providers[i].token.GetOr(""), verifier,
                      if providers[i].loginUrl.Some? then providers[i].loginUrl.value else providers[i].url.value))
  {
    FindIsFirstNamed(providers, alias);
  }

  lemma DeviceFlowIs(providers: seq<Provider>, alias: string, i: nat)
    requires FirstNamed(providers, alias, i) && DeviceFlow(providers, alias).Ok?
    ensures var flow := DeviceFlow(providers, alias).value;
            && flow.aliasKey == alias
            && flow.loginUrl == (if providers[i].loginUrl.Some? then providers[i].loginUrl.value
                                 else if providers[i].url.Some? then providers[i].url.value else "")
  {
    FindIsFirstNamed(providers, alias);
  }

  lemma {:induction false} FirstOf(providers: seq<Provider>, alias: string, i: nat) returns (first: nat)
    requires i < |providers| && Names(providers[i], alias)
    ensures FirstNamed(providers, alias, first)
  {
    if j: nat :| j < i && Names(providers[j], alias) {
      first := FirstOf(providers, alias, j);
    } else {
      first := i;
    }
  }

  /** A client can be built: there is a tenant, and its address parses. */
  predicate HasClient(m: Machine, parses: string -> bool) {
    m.tenant.Some? && parses(m.tenant.value.baseUrl)
  }

  function Absorb(m: Machine, cookies: seq<(string, string)>): Machine {
    m.(cookies := Merged(m.cookies, cookies))
  }

  datatype Activate = Activate(code: string, baseUrl: Option<string>, backupUrl: Option<string>, deviceId: string)

  function Activated(m: Machine, request: Activate, reply: Reply<Option<Activation>>): (Machine, Outcome) {
    var m := Absorb(m, reply.cookies);
    match reply.result
    case Err(code) => (m, Failed(ApiFault(code)))
    case Ok(None) => (m.(state := Configured), Done)
    case Ok(Some(update)) =>
      (m.(state := Configured,
       tenant := Some(Tenant(
         OrElse(update.baseUrl, request.baseUrl).GetOr(""), OrElse(update.backupUrl, request.backupUrl),
         update.useBackup.GetOr(false), update.name.GetOr(""))),
       signing := Some(Signing(false, request.code, request.deviceId))),
       Done)
  }

  function Refreshed(m: Machine, parses: string -> bool, reply: Reply<bool>): Machine {
    if !HasClient(m, parses) then m
    else
      var m := Absorb(m, reply.cookies);
      if reply.result == Ok(true) then m.(version := V1) else m
  }

  /** `login`, `verify_login_code`, `verify_mfa` and `skip_challenge` differ in the
      request only. */
  function Advanced(m: Machine, parses: string -> bool, reply: Reply<Option<LoginResult>>): (Machine, Outcome) {
    if !HasClient(m, parses) then (m, Failed(NotConfigured))
    else
      var m := Absorb(m, reply.cookies);
      match reply.result
      case Err(code) => (m, Failed(ApiFault(code)))
      case Ok(result) => (m.(state := NextAuthState(result)), Done)
  }

  function OauthStarted(
    m: Machine, parses: string -> bool, alias: string, verifier: string,
    reply: Reply<Option<seq<Provider>>>): (Machine, Outcome)
  {
    if !HasClient(m, parses) then (m, Failed(NotConfigured))
    else
      var m := Absorb(m, reply.cookies);
      if reply.result.Err? then (m, Failed(ApiFault(reply.result.error)))
      else
        var flow := OauthFlow(reply.result.value.GetOr([]), alias, verifier);
        if flow.Err? then (m, Failed(flow.error)) else (m.(oauth := Some(flow.value), state := AwaitingOauth), Done)
  }

  function OauthCompleted(m: Machine, parses: string -> bool, reply: Reply<()>): (Machine, Outcome) {
    if m.oauth.None? then (m, Failed(NoPendingFlow))
    else
      var m := m.(oauth := None);
      if !HasClient(m, parses) then (m, Failed(NotConfigured))
      else
        var m := Absorb(m, reply.cookies);
        if reply.result.Err? then (m, Failed(ApiFault(reply.result.error))) else (m.(state := Authenticated), Done)
  }

  function DeviceStarted(
    m: Machine, parses: string -> bool, alias: string, reply: Reply<Option<seq<Provider>>>): (Machine, Outcome)
  {
    if !HasClient(m, parses) then (m, Failed(NotConfigured))
    else
      var m := Absorb(m, reply.cookies);
      if reply.result.Err? then (m, Failed(ApiFault(reply.result.error)))
      else
        var flow := DeviceFlow(reply.result.value.GetOr([]), alias);
        if flow.Err? then (m, Failed(flow.error))
        else (m.(device := Some(flow.value), state := AwaitingDeviceLogin), Done)
  }

  function DeviceCompleted(m: Machine): Machine {
    m.(device := None, state := Authenticated)
  }

  function LoggedOut(m: Machine): Machine {
    m.(cookies := map[], knockToken := None, totp := None, oauth := None, device := None, state := Configured)
  }

  function ToCredentials(m: Machine): Option<Credentials> {
    if m.tenant.None? || m.signing.None? then None
    else Some(Credentials(m.tenant.value, m.signing.value, m.cookies, m.knockToken, m.totp, m.version))
  }

  function FromCredentials(c: Credentials): Machine {
    Machine(Unconfigured, Some(c.tenant), Some(c.signing), c.cookies, c.knockToken, c.totp, c.version, None, None)
  }

  function SessionRestored(m: Machine): Machine {
    if m.tenant.None? then m
    else m.(state := if m.cookies == map[] then Configured else Authenticated)
  }

  // ------------------------------------------------------------------
  // The machine as an object
  // ------------------------------------------------------------------

  class AuthMachine {
    const parses: string -> bool
    const cookies: CookieStore
    var state: AuthState
    var tenant: Option<Tenant>
    var signing: Option<Signing>
    var knockToken: Option<string>
    var totp: Option<string>
    var version: ApiVersion
    var oauthPending: Option<OauthPending>
    var devicePending: Option<DevicePending>

    ghost function Abs(): Machine
      reads this, cookies
    {
      Machine(state, tenant, signing, cookies.values, knockToken, totp, version, oauthPending, devicePending)
    }

    constructor (parses: string -> bool)
      ensures this.parses == parses && fresh(cookies) && Abs() == FRESH
    {
      this.parses := parses;
      cookies := new CookieStore(map[]);
      state, tenant, signing, knockToken, totp := Unconfigured, None, None, None, None;
      version, oauthPending, devicePending := Legacy, None, None;
    }

    constructor Restore(parses: string -> bool, creds: Credentials)
      ensures this.parses == parses && fresh(cookies) && Abs() == FromCredentials(creds)
    {
      this.parses := parses;
      cookies := new CookieStore(creds.cookies);
      state, tenant, signing := Unconfigured, Some(creds.tenant), Some(creds.signing);
      knockToken, totp := creds.knockToken, creds.totp;
      version, oauthPending, devicePending := creds.version, None, None;
    }

    predicate ClientReady()
      reads this
    {
      tenant.Some? && parses(tenant.value.baseUrl)
    }

    method Activate(request: Activate, reply: Reply<Option<Activation>>) returns (outcome: Outcome)
      modifies this, cookies
      ensures (Abs(), outcome) == Activated(old(Abs()), request, reply)
      ensures cookies.values == Merged(old(cookies.values), reply.cookies)
      ensures unchanged(`knockToken, `totp, `version, `oauthPending, `devicePending)
      ensures outcome == if reply.result.Err? then Failed(ApiFault(reply.result.error)) else Done
      ensures state == if reply.result.Err? then old(state) else Configured
      ensures reply.result.Err? || reply.result.value.None? ==> tenant == old(tenant) && signing == old(signing)
      ensures reply.result.Ok? && reply.result.value.Some? ==>
                var update := reply.result.value.value;
                && signing == Some(Signing(false, request.code, request.deviceId))
                && tenant.Some?
                && (update.baseUrl.Some? ==> tenant.value.baseUrl == update.baseUrl.value)
                && (update.baseUrl.None? ==> tenant.value.baseUrl == request.baseUrl.GetOr(""))
                && tenant.value.backupUrl == (if update.backupUrl.Some? then update.backupUrl else request.backupUrl)
                && tenant.value.useBackup == (update.useBackup == Some(true))
                && tenant.value.name == update.name.GetOr("")
    {
      var _ := cookies.Merge(reply.cookies);
      if reply.result.Err? {
        return Failed(ApiFault(reply.result.error));
      }
      if reply.result.value.Some? {
        var update := reply.result.value.value;
        tenant := Some(Tenant(
          OrElse(update.baseUrl, request.baseUrl).GetOr(""), OrElse(update.backupUrl, request.backupUrl),
          update.useBackup.GetOr(false), update.name.GetOr("")));
        signing := Some(Signing(false, request.code, request.deviceId));
      }
      state := Configured;
      return Done;
    }

    method RefreshLoginApiVersion(reply: Reply<bool>)
      modifies this, cookies
      ensures Abs() == Refreshed(old(Abs()), parses, reply)
      ensures unchanged(`state, `tenant, `signing, `knockToken, `totp, `oauthPending, `devicePending)
      ensures version == if old(ClientReady()) && reply.result == Ok(true) then V1 else old(version)
    {
      if !ClientReady() {
        return;
      }
      var _ := cookies.Merge(reply.cookies);
      if reply.result.Ok? && reply.result.value {
        version := V1;
      }
    }

    method Advance(reply: Reply<Option<LoginResult>>) returns (outcome: Outcome)
      modifies this, cookies
      ensures (Abs(), outcome) == Advanced(old(Abs()), parses, reply)
      ensures unchanged(`tenant, `signing, `knockToken, `totp, `version, `oauthPending, `devicePending)
      ensures outcome.Done? <==> old(ClientReady()) && reply.result.Ok?
      ensures outcome.Done? ==> state == NextAuthState(reply.result.value)
      ensures outcome.Failed? ==>
                && state == old(state)
                && outcome.fault == if old(ClientReady()) then ApiFault(reply.result.error) else NotConfigured
      ensures old(ClientReady()) ==> cookies.values == Merged(old(cookies.values), reply.cookies)
      ensures !old(ClientReady()) ==> cookies.values == old(cookies.values)
    {
      if !ClientReady() {
        return Failed(NotConfigured);
      }
      var _ := cookies.Merge(reply.cookies);
      if reply.result.Err? {
        return Failed(ApiFault(reply.result.error));
      }
      state := NextAuthState(reply.result.value);
      return Done;
    }

    method StartOauth(alias: string, verifier: string, reply: Reply<Option<seq<Provider>>>) returns (outcome: Outcome)
      modifies this, cookies
      ensures (Abs(), outcome) == OauthStarted(old(Abs()), parses, alias, verifier, reply)
      ensures unchanged(`tenant, `signing, `knockToken, `totp, `version, `devicePending)
      ensures outcome.Done? <==>
              && old(ClientReady()) && reply.result.Ok?
              && OauthFlow(reply.result.value.GetOr([]), alias, verifier).Ok?
      ensures outcome.Done? ==>
                && state == AwaitingOauth
                && oauthPending == Some(OauthFlow(reply.result.value.GetOr([]), alias, verifier).value)
      ensures outcome.Failed? ==> unchanged(`state, `oauthPending)
    {
      if !ClientReady() {
        return Failed(NotConfigured);
      }
      var _ := cookies.Merge(reply.cookies);
      if reply.result.Err? {
        return Failed(ApiFault(reply.result.error));
      }
      var flow := OauthFlow(reply.result.value.GetOr([]), alias, verifier);
      if flow.Err? {
        return Failed(flow.error);
      }
      oauthPending := Some(flow.value);
      state := AwaitingOauth;
      return Done;
    }

    /** The pending flow is taken before the request is made. */
    method CompleteOauth(reply: Reply<()>) returns (outcome: Outcome)
      modifies this, cookies
      ensures (Abs(), outcome) == OauthCompleted(old(Abs()), parses, reply)
      ensures unchanged(`tenant, `signing, `knockToken, `totp, `version, `devicePending)
      ensures oauthPending.None?
      ensures outcome.Done? <==> old(oauthPending).Some? && old(ClientReady()) && reply.result.Ok?
      ensures state == if outcome.Done? then Authenticated else old(state)
      ensures old(oauthPending).None? ==> outcome == Failed(NoPendingFlow)
    {
      var pending := oauthPending;
      oauthPending := None;
      if pending.None? {
        return Failed(NoPendingFlow);
      }
      if !ClientReady() {
        return Failed(NotConfigured);
      }
      var _ := cookies.Merge(reply.cookies);
      if reply.result.Err? {
        return Failed(ApiFault(reply.result.error));
      }
      state := Authenticated;
      return Done;
    }

    method StartDeviceLogin(alias: string, reply: Reply<Option<seq<Provider>>>) returns (outcome: Outcome)
      modifies this, cookies
      ensures (Abs(), outcome) == DeviceStarted(old(Abs()), parses, alias, reply)
      ensures unchanged(`tenant, `signing, `knockToken, `totp, `version, `oauthPending)
      ensures outcome.Done? <==>
              old(ClientReady()) && reply.result.Ok? && DeviceFlow(reply.result.value.GetOr([]), alias).Ok?
      ensures outcome.Done? ==>
                && state == AwaitingDeviceLogin
                && devicePending == Some(DeviceFlow(reply.result.value.GetOr([]), alias).value)
      ensures outcome.Failed? ==> unchanged(`state, `devicePending)
    {
      if !ClientReady() {
        return Failed(NotConfigured);
      }
      var _ := cookies.Merge(reply.cookies);
      if reply.result.Err? {
        return Failed(ApiFault(reply.result.error));
      }
      var flow := DeviceFlow(reply.result.value.GetOr([]), alias);
      if flow.Err? {
        return Failed(flow.error);
      }
      devicePending := Some(flow.value);
      state := AwaitingDeviceLogin;
      return Done;
    }

    method CompleteDeviceLogin()
      modifies this
      ensures Abs() == DeviceCompleted(old(Abs()))
      ensures state == Authenticated && devicePending.None?
      ensures unchanged(`tenant, `signing, `knockToken, `totp, `version, `oauthPending)
    {
      devicePending := None;
      state := Authenticated;
    }

    /** `cookiesSet` come with the answer of the best-effort server logout; they are
        cleared with the rest. */
    method Logout(cookiesSet: seq<(string, string)>)
      modifies this, cookies
      ensures Abs() == LoggedOut(old(Abs()))
      ensures state == Configured && cookies.values == map[] && knockToken.None? && totp.None?
      ensures oauthPending.None? && devicePending.None?
      ensures unchanged(`tenant, `signing, `version)
    {
      if ClientReady() {
        var _ := cookies.Merge(cookiesSet);
      }
      cookies.Clear();
      knockToken := None;
      totp := None;
      oauthPending := None;
      devicePending := None;
      state := Configured;
    }

    method RestoreSession()
      modifies this
      ensures Abs() == SessionRestored(old(Abs()))
      ensures unchanged(`tenant, `signing, `knockToken, `totp, `version, `oauthPending, `devicePending)
      ensures tenant.None? ==> state == old(state)
      ensures tenant.Some? ==> state == if cookies.values == map[] then Configured else Authenticated
    {
      if tenant.None? {
        return;
      }
      state := if cookies.values == map[] then Configured else Authenticated;
    }

    method SetTotp(config: Option<string>)
      modifies this
      ensures Abs() == old(Abs()).(totp := config)
    {
      totp := config;
    }

    method Snapshot() returns (creds: Option<Credentials>)
      ensures creds == ToCredentials(Abs())
      ensures creds.Some? <==> tenant.Some? && signing.Some?
      ensures creds.Some? ==>
                creds.value == Credentials(tenant.value, signing.value, cookies.values, knockToken, totp, version)
    {
      if tenant.None? || signing.None? {
        return None;
      }
      return Some(Credentials(tenant.value, signing.value, cookies.values, knockToken, totp, version));
    }
  }

  // ------------------------------------------------------------------
  // Runs
  // ------------------------------------------------------------------

  /** The machine with what is in flight outside the lock: device polls that still
      run, polls that succeeded and did not finish yet, TOTP fetches, saves that took
      their snapshot and did not reach the disk, and file deletions. `file` is the
      credentials file, the only thing that outlives the process. */
  datatype World = World(
    m: Machine, polling: nat, approved: nat, fetching: nat,
    saving: seq<Credentials>, deleting: nat, file: Option<Credentials>)

  datatype Action =
    | DoActivate(request: Activate, activation: Reply<Option<Activation>>)
    | DoRefresh(isV1: Reply<bool>)
    | DoAdvance(login: Reply<Option<LoginResult>>)
    | DoStartOauth(alias: string, verifier: string, providers: Reply<Option<seq<Provider>>>)
    | DoCompleteOauth(callback: Reply<()>)
    | DoStartDevice(alias: string, providers: Reply<Option<seq<Provider>>>)
    | DoLogout
    | DeleteEnds(deleted: bool)
    | BeginPoll
    | PollEnds(approved: bool, cookies: seq<(string, string)>)
    | FinishPoll
    | BeginFetch
    | FetchEnds(config: Option<string>)
    | BeginSave
    | SaveEnds(save: nat, saved: bool)
    | CookiesArrive(cookies: seq<(string, string)>)
    | Restart

  predicate Enabled(w: World, parses: string -> bool, a: Action) {
    match a
    case DeleteEnds(_) => w.deleting > 0
    case BeginPoll => w.m.device.Some? && HasClient(w.m, parses)
    case PollEnds(_, _) => w.polling > 0
    case FinishPoll => w.approved > 0
    case BeginFetch => HasClient(w.m, parses)
    case FetchEnds(_) => w.fetching > 0
    case BeginSave => w.m.state.Authenticated? && ToCredentials(w.m).Some?
    case SaveEnds(save, _) => save < |w.saving|
    case _ => true
  }

  /** A new process: nothing is in flight, and the machine is what the file says. */
  function Restarted(file: Option<Credentials>): World {
    World(if file.None? then FRESH else SessionRestored(FromCredentials(file.value)), 0, 0, 0, [], 0, file)
  }

  function Next(w: World, parses: string -> bool, a: Action): World
    requires Enabled(w, parses, a)
  {
    match a
    case DoActivate(request, reply) => w.(m := Activated(w.m, request, reply).0)
    case DoRefresh(reply) => w.(m := Refreshed(w.m, parses, reply))
    case DoAdvance(reply) => w.(m := Advanced(w.m, parses, reply).0)
    case DoStartOauth(alias, verifier, reply) => w.(m := OauthStarted(w.m, parses, alias, verifier, reply).0)
    case DoCompleteOauth(reply) => w.(m := OauthCompleted(w.m, parses, reply).0)
    case DoStartDevice(alias, reply) => w.(m := DeviceStarted(w.m, parses, alias, reply).0)
    case DoLogout => w.(m := LoggedOut(w.m), deleting := w.deleting + 1)
    case DeleteEnds(deleted) => w.(deleting := w.deleting - 1, file := if deleted then None else w.file)
    case BeginPoll => w.(polling := w.polling + 1)
    case PollEnds(approved, cookies) =>
      w.(m := Absorb(w.m, cookies), polling := w.polling - 1, approved := w.approved + if approved then 1 else 0)
    case FinishPoll => w.(m := DeviceCompleted(w.m), approved := w.approved - 1)
    case BeginFetch => w.(fetching := w.fetching + 1)
    case FetchEnds(config) =>
      w.(m := if config.Some? then w.m.(totp := config) else w.m, fetching := w.fetching - 1)
    case BeginSave => w.(saving := w.saving + [ToCredentials(w.m).value])
    case SaveEnds(save, saved) =>
      w.(saving := w.saving[..save] + w.saving[save + 1..], file := if saved then Some(w.saving[save]) else w.file)
    case CookiesArrive(cookies) => w.(m := Absorb(w.m, cookies))
    case Restart => Restarted(w.file)
  }

  /** The interleavings take the steps of the machine's own methods. */
  lemma StepsAreMethods(w: World, parses: string -> bool, a: Action)
    requires Enabled(w, parses, a)
    ensures var m := Next(w, parses, a).m;
            && (a.DoActivate? ==> m == Activated(w.m, a.request, a.activation).0)
            && (a.DoRefresh? ==> m == Refreshed(w.m, parses, a.isV1))
            && (a.DoAdvance? ==> m == Advanced(w.m, parses, a.login).0)
            && (a.DoStartOauth? ==> m == OauthStarted(w.m, parses, a.alias, a.verifier, a.providers).0)
            && (a.DoCompleteOauth? ==> m == OauthCompleted(w.m, parses, a.callback).0)
            && (a.DoStartDevice? ==> m == DeviceStarted(w.m, parses, a.alias, a.providers).0)
            && (a.DoLogout? ==> m == LoggedOut(w.m))
            && (a.FinishPoll? ==> m == DeviceCompleted(w.m))
            && (a.CookiesArrive? ==> m == w.m.(cookies := Merged(w.m.cookies, a.cookies)))
            && (a.PollEnds? ==> m == w.m.(cookies := Merged(w.m.cookies, a.cookies)))
            && (a.FetchEnds? ==> m == if a.config.Some? then w.m.(totp := a.config) else w.m)
            && (a.BeginPoll? || a.BeginFetch? || a.BeginSave? || a.SaveEnds? || a.DeleteEnds? ==> m == w.m)
  {
  }

  ghost function Count(actions: seq<Action>, kind: Action -> bool): nat {
    if actions == [] then 0 else (if kind(actions[0]) then 1 else 0) + Count(actions[1..], kind)
  }

  const Polls := (a: Action) => a.BeginPoll?
  const PollsEnded := (a: Action) => a.PollEnds?
  const Approvals := (a: Action) => a.PollEnds? && a.approved
  const Finishes := (a: Action) => a.FinishPoll?
  const Fetches := (a: Action) => a.BeginFetch?
  const FetchesEnded := (a: Action) => a.FetchEnds?
  const Saves := (a: Action) => a.BeginSave?
  const SavesEnded := (a: Action) => a.SaveEnds?
  const Logouts := (a: Action) => a.DoLogout?
  const DeletionsEnded := (a: Action) => a.DeleteEnds?

  /** Nothing in flight is lost or made up: in every run of one process, what is in
      flight at the end was in flight before or began, and did not end. */
  lemma {:induction false} InFlightIsConserved(w: World, parses: string -> bool, actions: seq<Action>, end: World)
    requires Run(w, parses, actions, end) && forall a :: a in actions ==> !a.Restart?
    ensures end.polling + Count(actions, PollsEnded) == w.polling + Count(actions, Polls)
    ensures end.approved + Count(actions, Finishes) == w.approved + Count(actions, Approvals)
    ensures end.fetching + Count(actions, FetchesEnded) == w.fetching + Count(actions, Fetches)
    ensures |end.saving| + Count(actions, SavesEnded) == |w.saving| + Count(actions, Saves)
    ensures end.deleting + Count(actions, DeletionsEnded) == w.deleting + Count(actions, Logouts)
    decreases |actions|
  {
    if actions != [] {
      assert forall a :: a in actions[1..] ==> a in actions;
      assert actions[0] in actions;
      InFlightIsConserved(Next(w, parses, actions[0]), parses, actions[1..], end);
    }
  }

  /** A fetch needs a client and nothing else. */
  lemma FetchesCanBegin(w: World, parses: string -> bool)
    ensures Enabled(w, parses, BeginFetch) <==> HasClient(w.m, parses)
  {
  }

  ghost predicate Run(w: World, parses: string -> bool, actions: seq<Action>, end: World)
    decreases |actions|
  {
    if actions == [] then w == end
    else Enabled(w, parses, actions[0]) && Run(Next(w, parses, actions[0]), parses, actions[1..], end)
  }

  lemma RunStep(w: World, parses: string -> bool, a: Action, rest: seq<Action>, end: World)
    requires Enabled(w, parses, a) && Run(Next(w, parses, a), parses, rest, end)
    ensures Run(w, parses, [a] + rest, end)
  {
    assert ([a] + rest)[1..] == rest;
  }

  const START := Restarted(None)

  predicate PastConfigured(state: AuthState) {
    !state.Unconfigured? && !state.Configured?
  }

  ghost predicate Coherent(w: World) {
    && (w.m.tenant.Some? <==> w.m.signing.Some?)
    && (PastConfigured(w.m.state) ==> w.m.tenant.Some?)
    && (w.m.state.AwaitingDeviceLogin? ==> w.m.device.Some?)
    && (w.m.device.Some? ==> w.m.device.value.pollToken != "")
    && (w.polling + w.approved > 0 ==> w.m.tenant.Some?)
  }

  predicate TalksToServer(a: Action) {
    a.DoActivate? || a.DoRefresh? || a.DoAdvance? || a.DoStartOauth? || a.DoCompleteOauth? || a.DoStartDevice?
  }

  lemma RequestKeepsCoherent(w: World, parses: string -> bool, a: Action)
    requires Coherent(w) && Enabled(w, parses, a) && TalksToServer(a)
    ensures Coherent(Next(w, parses, a))
  {
  }

  lemma StepKeepsCoherent(w: World, parses: string -> bool, a: Action)
    requires Coherent(w) && Enabled(w, parses, a)
    ensures Coherent(Next(w, parses, a))
  {
    if TalksToServer(a) {
      RequestKeepsCoherent(w, parses, a);
    }
  }

  lemma {:induction false} RunKeepsCoherent(w: World, parses: string -> bool, actions: seq<Action>, end: World)
    requires Coherent(w) && Run(w, parses, actions, end)
    ensures Coherent(end)
    decreases |actions|
  {
    if actions != [] {
      StepKeepsCoherent(w, parses, actions[0]);
      RunKeepsCoherent(Next(w, parses, actions[0]), parses, actions[1..], end);
    }
  }

  /** In every run, whatever is interleaved with a device poll: tenant and signing
      come together, every state past `Configured` has them, a machine that waits
      for a device login has a flow with a token to poll, and so an authenticated
      machine always has a snapshot. */
  lemma ReachableMachines(parses: string -> bool, actions: seq<Action>, end: World)
    requires Run(START, parses, actions, end)
    ensures end.m.tenant.Some? <==> end.m.signing.Some?
    ensures PastConfigured(end.m.state) ==> end.m.tenant.Some?
    ensures end.m.state.AwaitingDeviceLogin? ==> end.m.device.Some? && end.m.device.value.pollToken != ""
    ensures end.m.state.Authenticated? ==> ToCredentials(end.m).Some?
  {
    RunKeepsCoherent(START, parses, actions, end);
  }

  // ------------------------------------------------------------------
  // Restarts
  // ------------------------------------------------------------------

  /** The credentials are on disk or on their way there. */
  ghost predicate Stored(w: World, c: Credentials) {
    w.file == Some(c) || c in w.saving
  }

  /** Some point of the run, `mid`, was authenticated with exactly these credentials. */
  ghost predicate Was(w: World, parses: string -> bool, actions: seq<Action>, mid: World, c: Credentials) {
    && (exists k :: 0 <= k <= |actions| && Run(w, parses, actions[..k], mid))
    && mid.m.state.Authenticated? && ToCredentials(mid.m) == Some(c)
  }

  lemma {:induction false} StoredWasLive(
      w: World, parses: string -> bool, actions: seq<Action>, end: World, c: Credentials)
    requires Run(w, parses, actions, end) && Stored(end, c)
    ensures Stored(w, c) || exists mid :: Was(w, parses, actions, mid, c)
    decreases |actions|
  {
    if actions != [] {
      var a, rest := actions[0], actions[1..];
      var next := Next(w, parses, a);
      StoredWasLive(next, parses, rest, end, c);
      if mid :| Was(next, parses, rest, mid, c) {
        WasEarlier(w, parses, actions, mid, c);
      } else if !Stored(w, c) {
        assert a.BeginSave? && ToCredentials(w.m) == Some(c);
        assert Run(w, parses, actions[..0], w);
        assert Was(w, parses, actions, w, c);
      }
    }
  }

  lemma WasEarlier(w: World, parses: string -> bool, actions: seq<Action>, mid: World, c: Credentials)
    requires actions != [] && Enabled(w, parses, actions[0])
    requires Was(Next(w, parses, actions[0]), parses, actions[1..], mid, c)
    ensures Was(w, parses, actions, mid, c)
  {
    var k :| 0 <= k <= |actions[1..]| && Run(Next(w, parses, actions[0]), parses, actions[1..][..k], mid);
    RunStep(w, parses, actions[0], actions[1..][..k], mid);
    assert actions[..k + 1] == [actions[0]] + actions[1..][..k];
  }

  /** The machine a restart makes of an authenticated one that was saved. */
  function Resumed(m: Machine): Machine {
    m.(oauth := None, device := None, state := if m.cookies == map[] then Configured else Authenticated)
  }

  /** In every run, what a restart finds is an earlier authenticated machine of the run
      but for its pending flows, authenticated again exactly when it had cookies; or,
      with no file, a fresh machine. Nothing else ever comes off the disk. */
  lemma RestartGivesEarlierSession(parses: string -> bool, actions: seq<Action>, end: World)
    requires Run(START, parses, actions, end)
    ensures end.file.None? ==> Next(end, parses, Restart) == START
    ensures end.file.Some? ==>
              exists mid :: Was(START, parses, actions, mid, end.file.value)
                            && Next(end, parses, Restart).m == Resumed(mid.m)
  {
    if end.file.Some? {
      StoredWasLive(START, parses, actions, end, end.file.value);
      var mid :| Was(START, parses, actions, mid, end.file.value);
      assert Next(end, parses, Restart).m == Resumed(mid.m);
    }
  }

  /** An authenticated machine that is saved and restarted comes back itself. */
  lemma RestartKeepsSession(parses: string -> bool, actions: seq<Action>, end: World)
    requires Run(START, parses, actions, end) && end.m.state.Authenticated?
    ensures exists after ::
              && Run(end, parses, [BeginSave, SaveEnds(|end.saving|, true), Restart], after)
              && after.m == Resumed(end.m)
  {
    ReachableMachines(parses, actions, end);
    var begun := Next(end, parses, BeginSave);
    var save := SaveEnds(|end.saving|, true);
    var saved := Next(begun, parses, save);
    var after := Next(saved, parses, Restart);
    assert Run(after, parses, [], after);
    RunStep(saved, parses, Restart, [], after);
    RunStep(begun, parses, save, [Restart], after);
    RunStep(end, parses, BeginSave, [save, Restart], after);
    assert [Restart] + [] == [Restart] && [save] + [Restart] == [save, Restart];
    assert [BeginSave] + [save, Restart] == [BeginSave, save, Restart];
  }

  // ------------------------------------------------------------------
  // Flows that are lost
  // ------------------------------------------------------------------

  predicate OauthBacked(m: Machine) {
    m.state.AwaitingOauth? ==> m.oauth.Some?
  }

  /** Waiting for an OAuth callback comes with a pending flow, except after one kind
      of step: a callback that was tried and failed. */
  lemma OauthFlowIsLostIff(w: World, parses: string -> bool, a: Action)
    requires OauthBacked(w.m) && Enabled(w, parses, a)
    ensures !OauthBacked(Next(w, parses, a).m) <==>
            a.DoCompleteOauth? && w.m.state.AwaitingOauth? && (!HasClient(w.m, parses) || a.callback.result.Err?)
  {
  }

  /** From then on, in every run in which no flow is started, restarts included, every
      callback is refused and changes nothing, so none ever authenticates. */
  lemma {:induction false} LostFlowStaysLost(w: World, parses: string -> bool, actions: seq<Action>, end: World)
    requires w.m.oauth.None? && Run(w, parses, actions, end)
    requires forall a :: a in actions ==> !a.DoStartOauth?
    ensures end.m.oauth.None?
    ensures forall reply :: OauthCompleted(end.m, parses, reply).1 == Failed(NoPendingFlow)
    ensures forall reply :: Next(end, parses, DoCompleteOauth(reply)) == end
    decreases |actions|
  {
    if actions != [] {
      assert actions[0] in actions;
      LostFlowStaysLost(Next(w, parses, actions[0]), parses, actions[1..], end);
    }
  }

  // ------------------------------------------------------------------
  // Logouts that are undone
  // ------------------------------------------------------------------

  predicate StartsLogin(a: Action) {
    a.DoAdvance? || a.DoStartOauth? || a.DoStartDevice?
  }

  /** The machine can come to be authenticated without anyone logging in again, in
      this process or after restarts. */
  ghost predicate ComesBack(w: World, parses: string -> bool) {
    exists actions, end :: Relapses(w, parses, actions, end)
  }

  ghost predicate Relapses(w: World, parses: string -> bool, actions: seq<Action>, end: World) {
    (forall a :: a in actions ==> !StartsLogin(a)) && Run(w, parses, actions, end) && end.m.state.Authenticated?
  }

  ghost predicate Harmless(c: Credentials) {
    c.cookies == map[]
  }

  ghost predicate SignedOut(w: World) {
    && !PastConfigured(w.m.state) && w.m.oauth.None? && w.m.device.None?
    && w.polling == 0 && w.approved == 0
    && (forall c :: c in w.saving ==> Harmless(c))
    && (w.file.Some? ==> Harmless(w.file.value))
  }

  lemma {:induction false} SignedOutStays(w: World, parses: string -> bool, actions: seq<Action>, end: World)
    requires SignedOut(w) && Run(w, parses, actions, end)
    requires forall a :: a in actions ==> !StartsLogin(a)
    ensures SignedOut(end)
    decreases |actions|
  {
    if actions != [] {
      assert actions[0] in actions;
      SignedOutStays(Next(w, parses, actions[0]), parses, actions[1..], end);
    }
  }

  /** The world after a logout and its attempt to delete the file. */
  function AfterLogout(w: World, parses: string -> bool, deleted: bool): World {
    Next(Next(w, parses, DoLogout), parses, DeleteEnds(deleted))
  }

  /** A logout is final, in this process and in all later ones, exactly when at its
      moment no device poll was in flight, no save of a session with cookies was, and
      its deletion did not leave such a session in the file. */
  lemma LogoutIsFinalIff(w: World, parses: string -> bool, deleted: bool)
    ensures ComesBack(AfterLogout(w, parses, deleted), parses) <==>
            || w.polling + w.approved > 0
            || (exists c :: c in w.saving && !Harmless(c))
            || (!deleted && w.file.Some? && !Harmless(w.file.value))
  {
    var out := AfterLogout(w, parses, deleted);
    if w.polling + w.approved > 0 {
      PollComesBack(out, parses);
    } else if c :| c in w.saving && !Harmless(c) {
      SaveComesBack(out, parses, c);
    } else if !deleted && w.file.Some? && !Harmless(w.file.value) {
      FileComesBack(out, parses);
    } else if ComesBack(out, parses) {
      var actions, end :| Relapses(out, parses, actions, end);
      SignedOutStays(out, parses, actions, end);
    }
  }

  lemma PollComesBack(w: World, parses: string -> bool)
    requires w.polling + w.approved > 0
    ensures ComesBack(w, parses)
  {
    var ready := if w.approved > 0 then w else Next(w, parses, PollEnds(true, []));
    var end := Next(ready, parses, FinishPoll);
    assert Run(end, parses, [], end);
    RunStep(ready, parses, FinishPoll, [], end);
    if w.approved > 0 {
      assert Relapses(w, parses, [FinishPoll] + [], end);
    } else {
      RunStep(w, parses, PollEnds(true, []), [FinishPoll] + [], end);
      assert Relapses(w, parses, [PollEnds(true, [])] + ([FinishPoll] + []), end);
    }
  }

  lemma FileComesBack(w: World, parses: string -> bool)
    requires w.file.Some? && !Harmless(w.file.value)
    ensures ComesBack(w, parses)
  {
    var end := Next(w, parses, Restart);
    assert Run(end, parses, [], end);
    RunStep(w, parses, Restart, [], end);
    assert Relapses(w, parses, [Restart] + [], end);
  }

  lemma SaveComesBack(w: World, parses: string -> bool, c: Credentials)
    requires c in w.saving && !Harmless(c)
    ensures ComesBack(w, parses)
  {
    var i: nat :| i < |w.saving| && w.saving[i] == c;
    var saved := Next(w, parses, SaveEnds(i, true));
    FileComesBack(saved, parses);
    var actions, end :| Relapses(saved, parses, actions, end);
    RunStep(w, parses, SaveEnds(i, true), actions, end);
    assert Relapses(w, parses, [SaveEnds(i, true)] + actions, end);
  }

  /** A device login that was approved before the logout ends after it without the
      cookies the logout cleared; one that is approved after it brings its own. */
  lemma LogoutLosesAgainstDeviceLogin(w: World, parses: string -> bool, cookies: seq<(string, string)>)
    ensures w.approved > 0 ==>
              var end := Next(Next(w, parses, DoLogout), parses, FinishPoll);
              end.m.state.Authenticated? && end.m.cookies == map[]
    ensures w.polling > 0 ==>
              var ready := Next(Next(w, parses, DoLogout), parses, PollEnds(true, cookies));
              && Enabled(ready, parses, FinishPoll)
              && Next(ready, parses, FinishPoll).m.state.Authenticated?
              && Next(ready, parses, FinishPoll).m.cookies == Merged(map[], cookies)
  {
  }

  /** Such worlds are reached from the start, with any address a client can be built
      for: activate, start a device login, poll, be approved. */
  lemma ApprovalIsReachable(parses: string -> bool, url: string) returns (actions: seq<Action>, end: World)
    requires parses(url)
    ensures Run(START, parses, actions, end) && end.approved > 0 && end.m.state.AwaitingDeviceLogin?
  {
    var activate := DoActivate(
      Activate("code", Some(url), None, "device"), Reply(Ok(Some(Activation(None, None, None, None))), []));
    var provider := Provider(Some("qr"), None, None, None, Some("token"), None);
    var start := DoStartDevice("qr", Reply(Ok(Some([provider])), []));
    var approve := PollEnds(true, [("session", "cookie")]);
    var w1 := Next(START, parses, activate);
    assert DeviceFlow([provider], "qr").Ok?;
    var w2 := Next(w1, parses, start);
    var w3 := Next(w2, parses, BeginPoll);
    end := Next(w3, parses, approve);
    assert Run(end, parses, [], end);
    RunStep(w3, parses, approve, [], end);
    RunStep(w2, parses, BeginPoll, [approve] + [], end);
    RunStep(w1, parses, start, [BeginPoll] + ([approve] + []), end);
    RunStep(START, parses, activate, [start] + ([BeginPoll] + ([approve] + [])), end);
    actions := [activate] + ([start] + ([BeginPoll] + ([approve] + [])));
  }
}
