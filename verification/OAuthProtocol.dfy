/**
 The OAuth provider as a transition system (authn/oauthprovider/provider.go): what every call
 answers and leaves behind, and what holds over every run of calls.
 */
module OAuthProtocol {
  import opened Options
  import opened TokenClaims

  datatype AuthCode = AuthCode(
    clientId: string, userId: string, challenge: string, challengeMethod: string, scopes: seq<string>, expiresAt: int)

  datatype Device = Device(
    deviceCode: string, userCode: string, clientId: string, scopes: seq<string>,
    userId: string, approved: bool, expiresAt: int)

  /** The user-code index names the device code of the record it shares with the device-code index. */
  datatype State = State(
    authCodes: map<string, AuthCode>,
    devices: map<string, Device>,
    users: map<string, string>,
    secrets: map<string, string>)

  /** Random codes, like the clock, come in as arguments. */
  datatype Call =
    | RegisterClient(clientId: string, secret: string)
    | Authorize(clientId: string, userId: string, challenge: string, challengeMethod: string, scopes: seq<string>,
        code: string, now: int)
    | Exchange(clientId: string, code: string, verifier: string, now: int)
    | IssueClientCredentials(clientId: string, secret: string, scopes: seq<string>, now: int)
    | RequestDevice(clientId: string, scopes: seq<string>, deviceCode: string, userCode: string, now: int)
    | Approve(userCode: string, userId: string, now: int)
    | Poll(clientId: string, deviceCode: string, now: int)

  datatype Reply =
    | Done
    | Token(claims: Claims)
    | UnsupportedMethod
    | InvalidGrant
    | PKCEVerificationFail
    | InvalidClient
    | UserCodeNotFound
    | DeviceAuthPending
    | DeviceAuthExpired

  const MINUTE: int := 60

  /** The provider's fixed parts: issuer, audience, and S256 (base64url of SHA-256). */
  datatype Provider = Provider(iss: string, aud: string, s256: string -> string)

  const EMPTY: State := State(map[], map[], map[], map["service-worker-client" := "secret-worker-password-123"])

  function RecordOf(call: Call): AuthCode
    requires call.Authorize?
  {
    AuthCode(call.clientId, call.userId, call.challenge, call.challengeMethod, call.scopes, call.now + 5 * MINUTE)
  }

  function NewDevice(call: Call): Device
    requires call.RequestDevice?
  {
    Device(call.deviceCode, call.userCode, call.clientId, call.scopes, "", false, call.now + 10 * MINUTE)
  }

  function ExchangeReply(p: Provider, rec: AuthCode, call: Call): Reply
    requires call.Exchange?
  {
    if call.now > rec.expiresAt then InvalidGrant
    else if rec.clientId != call.clientId then InvalidGrant
    else if p.s256(call.verifier) != rec.challenge then PKCEVerificationFail
    else Token(AuthCodeClaims(p.iss, p.aud, rec.userId, rec.clientId, rec.scopes, call.now))
  }

  function PollReply(p: Provider, rec: Device, call: Call): Reply
    requires call.Poll?
  {
    if call.now > rec.expiresAt then DeviceAuthExpired
    else if rec.clientId != call.clientId then InvalidGrant
    else if !rec.approved then DeviceAuthPending
    else Token(DeviceClaims(p.iss, p.aud, rec.userId, rec.clientId, call.deviceCode, rec.scopes, call.now))
  }

  function Answer(p: Provider, s: State, call: Call): Reply {
    match call
    case RegisterClient(_, _) => Done
    case Authorize(_, _, _, challengeMethod, _, _, _) => if challengeMethod != "S256" then UnsupportedMethod else Done
    case Exchange(_, code, _, _) =>
      if code !in s.authCodes then InvalidGrant else ExchangeReply(p, s.authCodes[code], call)
    case IssueClientCredentials(clientId, secret, scopes, now) =>
      if clientId !in s.secrets || s.secrets[clientId] != secret then InvalidClient
      else Token(ClientCredentialsClaims(p.iss, p.aud, clientId, scopes, now))
    case RequestDevice(_, _, _, _, _) => Done
    case Approve(userCode, _, now) =>
      if userCode !in s.users || s.users[userCode] !in s.devices then UserCodeNotFound
      else if now > s.devices[s.users[userCode]].expiresAt then DeviceAuthExpired
      else Done
    case Poll(_, deviceCode, _) =>
      if deviceCode !in s.devices then InvalidGrant else PollReply(p, s.devices[deviceCode], call)
  }

  function Next(p: Provider, s: State, call: Call): State {
    var reply := Answer(p, s, call);
    match call
    case RegisterClient(clientId, secret) => s.(secrets := s.secrets[clientId := secret])
    case Authorize(_, _, _, _, _, code, _) =>
      if reply.Done? then s.(authCodes := s.authCodes[code := RecordOf(call)]) else s
    case Exchange(_, code, _, _) => s.(authCodes := s.authCodes - {code})
    case IssueClientCredentials(_, _, _, _) => s
    case RequestDevice(_, _, deviceCode, userCode, _) =>
      s.(devices := s.devices[deviceCode := NewDevice(call)], users := s.users[userCode := deviceCode])
    case Approve(userCode, userId, _) =>
      if reply.Done? then
        var d := s.users[userCode];
        s.(devices := s.devices[d := s.devices[d].(approved := true, userId := userId)])
      else s
    case Poll(_, deviceCode, _) =>
      if reply.Token? then
        s.(devices := s.devices - {deviceCode}, users := s.users - {s.devices[deviceCode].userCode})
      else s
  }

  // ---- Runs ----

  function StateAt(p: Provider, calls: seq<Call>, i: nat): State
    requires i <= |calls|
  {
    if i == 0 then EMPTY else Next(p, StateAt(p, calls, i - 1), calls[i - 1])
  }

  function ReplyAt(p: Provider, calls: seq<Call>, i: nat): Reply
    requires i < |calls|
  {
    Answer(p, StateAt(p, calls, i), calls[i])
  }

  /** No random code comes up twice. */
  ghost predicate FreshCodes(calls: seq<Call>) {
    && (forall i, j :: 0 <= i < j < |calls| && calls[i].Authorize? && calls[j].Authorize? ==>
      calls[i].code != calls[j].code)
    && (forall i, j :: 0 <= i < j < |calls| && calls[i].RequestDevice? && calls[j].RequestDevice? ==>
      calls[i].deviceCode != calls[j].deviceCode && calls[i].userCode != calls[j].userCode)
  }

  // ---- Authorization codes ----

  predicate Issues(call: Call, code: string) {
    call.Authorize? && call.challengeMethod == "S256" && call.code == code
  }

  predicate Attempts(call: Call, code: string) {
    call.Exchange? && call.code == code
  }

  /** Call `j` issued the code and nobody has tried to exchange it before `i`. */
  ghost predicate UntriedSince(calls: seq<Call>, j: nat, i: nat, code: string)
    requires i <= |calls|
  {
    j < i && Issues(calls[j], code) && forall k :: j < k < i ==> !Attempts(calls[k], code)
  }

  /** What one call does to one authorization code. */
  lemma AuthCodeStep(p: Provider, s: State, call: Call, code: string)
    ensures
      var after := Next(p, s, call).authCodes;
      if Issues(call, code) then code in after && after[code] == RecordOf(call)
      else if Attempts(call, code) then code !in after
      else (code in after <==> code in s.authCodes) && (code in after ==> after[code] == s.authCodes[code])
  {
  }

  /** A stored code was issued by some call and has not been tried since. */
  lemma {:induction false} StoredCodeIsUntried(p: Provider, calls: seq<Call>, i: nat, code: string) returns (j: nat)
    requires i <= |calls| && code in StateAt(p, calls, i).authCodes
    ensures UntriedSince(calls, j, i, code) && StateAt(p, calls, i).authCodes[code] == RecordOf(calls[j])
  {
    hide Next;
    assert i > 0;
    AuthCodeStep(p, StateAt(p, calls, i - 1), calls[i - 1], code);
    if Issues(calls[i - 1], code) {
      j := i - 1;
    } else {
      j := StoredCodeIsUntried(p, calls, i - 1, code);
    }
  }

  /** With fresh codes, an issued code stays stored until the first attempt. */
  lemma {:induction false} UntriedCodeIsStored(p: Provider, calls: seq<Call>, j: nat, i: nat, code: string)
    requires i <= |calls| && FreshCodes(calls) && UntriedSince(calls, j, i, code)
    ensures code in StateAt(p, calls, i).authCodes && StateAt(p, calls, i).authCodes[code] == RecordOf(calls[j])
  {
    hide Next;
    AuthCodeStep(p, StateAt(p, calls, i - 1), calls[i - 1], code);
    if j == i - 1 {
    } else {
      UntriedCodeIsStored(p, calls, j, i - 1, code);
    }
  }

  /** What the request and its code agree on when a token may be issued. */
  predicate Redeems(p: Provider, issue: Call, attempt: Call)
    requires issue.Authorize? && attempt.Exchange?
  {
    && attempt.now <= issue.now + 300
    && attempt.clientId == issue.clientId
    && p.s256(attempt.verifier) == issue.challenge
  }

  /** Exchange answers with a token iff it is the first attempt on a code whose call it matches. */
  lemma ExchangeSucceedsIff(p: Provider, calls: seq<Call>, i: nat)
    requires i < |calls| && calls[i].Exchange? && FreshCodes(calls)
    ensures ReplyAt(p, calls, i).Token? <==>
      exists j :: 0 <= j < i && UntriedSince(calls, j, i, calls[i].code) && Redeems(p, calls[j], calls[i])
  {
    var code := calls[i].code;
    if code in StateAt(p, calls, i).authCodes {
      var j := StoredCodeIsUntried(p, calls, i, code);
      assert ReplyAt(p, calls, i).Token? <==> Redeems(p, calls[j], calls[i]);
      forall k | 0 <= k < i && UntriedSince(calls, k, i, code)
        ensures k == j
      {
        assert calls[k].code == calls[j].code;
      }
    }
    forall j | 0 <= j < i && UntriedSince(calls, j, i, code)
      ensures code in StateAt(p, calls, i).authCodes
    {
      UntriedCodeIsStored(p, calls, j, i, code);
    }
  }

  /** The right client came in time, but its verifier does not hash to the challenge. */
  predicate FailsChallenge(p: Provider, issue: Call, attempt: Call)
    requires issue.Authorize? && attempt.Exchange?
  {
    && attempt.now <= issue.now + 300
    && attempt.clientId == issue.clientId
    && p.s256(attempt.verifier) != issue.challenge
  }

  /** Which refusal an exchange gets: a wrong verifier is told apart from everything else. */
  lemma ExchangeRefusals(p: Provider, calls: seq<Call>, i: nat)
    requires i < |calls| && calls[i].Exchange? && FreshCodes(calls)
    ensures ReplyAt(p, calls, i) == PKCEVerificationFail <==>
      exists j :: 0 <= j < i && UntriedSince(calls, j, i, calls[i].code) && FailsChallenge(p, calls[j], calls[i])
    ensures ReplyAt(p, calls, i) == InvalidGrant <==>
      forall j :: 0 <= j < i && UntriedSince(calls, j, i, calls[i].code) ==>
        calls[i].now > calls[j].now + 300 || calls[i].clientId != calls[j].clientId
  {
    hide Next;
    var code := calls[i].code;
    if code in StateAt(p, calls, i).authCodes {
      var j := StoredCodeIsUntried(p, calls, i, code);
      forall k | 0 <= k < i && UntriedSince(calls, k, i, code)
        ensures k == j
      {
        assert calls[k].code == calls[j].code;
      }
      assert UntriedSince(calls, j, i, code);
    }
    forall j | 0 <= j < i && UntriedSince(calls, j, i, code)
      ensures code in StateAt(p, calls, i).authCodes
    {
      UntriedCodeIsStored(p, calls, j, i, code);
    }
  }

  /** A token carries the user, client and scopes of the call that made the code, for an hour. */
  lemma ExchangedTokenNamesItsGrant(p: Provider, calls: seq<Call>, i: nat) returns (j: nat)
    requires i < |calls| && calls[i].Exchange? && ReplyAt(p, calls, i).Token?
    ensures UntriedSince(calls, j, i, calls[i].code) && Redeems(p, calls[j], calls[i])
    ensures ReplyAt(p, calls, i) ==
      Token(AuthCodeClaims(p.iss, p.aud, calls[j].userId, calls[j].clientId, calls[j].scopes, calls[i].now))
    ensures Issued(ReplyAt(p, calls, i).claims, calls[j].userId, calls[j].clientId, calls[j].scopes)
    ensures Dated(ReplyAt(p, calls, i).claims, p.iss, p.aud, calls[i].now, 3600)
  {
    hide Next, AuthCodeClaims, Issued, Dated;
    j := StoredCodeIsUntried(p, calls, i, calls[i].code);
    AuthCodeClaimsSay(p.iss, p.aud, calls[j].userId, calls[j].clientId, calls[j].scopes, calls[i].now);
  }

  /** The first attempt consumes the code, successful or not: every later one fails. */
  lemma FirstAttemptConsumesCode(p: Provider, calls: seq<Call>, j: nat, i: nat, k: nat)
    requires j < i < k < |calls| && FreshCodes(calls)
    requires calls[i].Exchange? && calls[k].Exchange? && calls[k].code == calls[i].code
    requires Issues(calls[j], calls[i].code)
    ensures ReplyAt(p, calls, k) == InvalidGrant
  {
    var code := calls[i].code;
    if code in StateAt(p, calls, k).authCodes {
      var l := StoredCodeIsUntried(p, calls, k, code);
      assert calls[l].code == calls[j].code;
      assert Attempts(calls[i], code);
      assert false;
    }
  }

  /** At most one token comes from a code. */
  lemma OneTokenPerAuthCode(p: Provider, calls: seq<Call>, i: nat, k: nat)
    requires i < |calls| && k < |calls| && FreshCodes(calls)
    requires calls[i].Exchange? && calls[k].Exchange? && calls[i].code == calls[k].code
    requires ReplyAt(p, calls, i).Token? && ReplyAt(p, calls, k).Token?
    ensures i == k
  {
    if i < k {
      var j := ExchangedTokenNamesItsGrant(p, calls, i);
      FirstAttemptConsumesCode(p, calls, j, i, k);
    } else if k < i {
      var j := ExchangedTokenNamesItsGrant(p, calls, k);
      FirstAttemptConsumesCode(p, calls, j, k, i);
    }
  }

  // ---- Client credentials ----

  /** The secret of a client after the first `i` calls: the last one registered. */
  function SecretAt(calls: seq<Call>, i: nat, client: string): Option<string>
    requires i <= |calls|
  {
    if i == 0 then if client == "service-worker-client" then Some("secret-worker-password-123") else None
    else if calls[i - 1].RegisterClient? && calls[i - 1].clientId == client then Some(calls[i - 1].secret)
    else SecretAt(calls, i - 1, client)
  }

  lemma SecretStep(p: Provider, s: State, call: Call, client: string)
    ensures
      var after := Next(p, s, call).secrets;
      if call.RegisterClient? && call.clientId == client then client in after && after[client] == call.secret
      else (client in after <==> client in s.secrets) && (client in after ==> after[client] == s.secrets[client])
  {
    hide Answer;
  }

  lemma {:induction false} SecretsAreRegistered(p: Provider, calls: seq<Call>, i: nat, client: string)
    requires i <= |calls|
    ensures
      var secrets := StateAt(p, calls, i).secrets;
      SecretAt(calls, i, client) == if client in secrets then Some(secrets[client]) else None
  {
    hide Next;
    if i == 0 {
    } else {
      SecretStep(p, StateAt(p, calls, i - 1), calls[i - 1], client);
      SecretsAreRegistered(p, calls, i - 1, client);
    }
  }

  /** A client gets a token for itself and the scopes it asks for, for two hours, iff it knows its last secret. */
  lemma ClientCredentialsAnswer(p: Provider, calls: seq<Call>, i: nat)
    requires i < |calls| && calls[i].IssueClientCredentials?
    ensures
      var call, r := calls[i], ReplyAt(p, calls, i);
      if SecretAt(calls, i, call.clientId) == Some(call.secret) then
        r.Token? && Issued(r.claims, call.clientId, call.clientId, call.scopes) &&
        Dated(r.claims, p.iss, p.aud, call.now, 7200)
      else r == InvalidClient
  {
    hide StateAt, ClientCredentialsClaims, Issued, Dated;
    SecretsAreRegistered(p, calls, i, calls[i].clientId);
    ClientCredentialsClaimsSay(p.iss, p.aud, calls[i].clientId, calls[i].scopes, calls[i].now);
  }

  // ---- The device flow ----

  /** Both indexes hold the same records, each under its own key. */
  ghost predicate Indexed(s: State) {
    && (forall d :: d in s.devices ==>
      s.devices[d].deviceCode == d && s.devices[d].userCode in s.users && s.users[s.devices[d].userCode] == d)
    && (forall u :: u in s.users ==> s.users[u] in s.devices && s.devices[s.users[u]].userCode == u)
  }

  lemma StepKeepsIndexed(p: Provider, s: State, call: Call)
    requires Indexed(s)
    requires call.RequestDevice? ==> call.deviceCode !in s.devices && call.userCode !in s.users
    ensures Indexed(Next(p, s, call))
  {
  }

  ghost predicate DeviceCodeRequested(calls: seq<Call>, i: nat, d: string)
    requires i <= |calls|
  {
    exists j :: 0 <= j < i && calls[j].RequestDevice? && calls[j].deviceCode == d
  }

  ghost predicate UserCodeRequested(calls: seq<Call>, i: nat, u: string)
    requires i <= |calls|
  {
    exists j :: 0 <= j < i && calls[j].RequestDevice? && calls[j].userCode == u
  }

  lemma CodesAppearByRequest(p: Provider, s: State, call: Call)
    ensures forall d :: d in Next(p, s, call).devices ==>
      d in s.devices || (call.RequestDevice? && call.deviceCode == d)
    ensures forall u :: u in Next(p, s, call).users ==> u in s.users || (call.RequestDevice? && call.userCode == u)
  {
  }

  /** Records only come from requests. */
  lemma {:induction false} CodesComeFromRequests(p: Provider, calls: seq<Call>, i: nat)
    requires i <= |calls|
    ensures forall d :: d in StateAt(p, calls, i).devices ==> DeviceCodeRequested(calls, i, d)
    ensures forall u :: u in StateAt(p, calls, i).users ==> UserCodeRequested(calls, i, u)
  {
    hide Next;
    if i == 0 {
    } else {
      CodesComeFromRequests(p, calls, i - 1);
      CodesAppearByRequest(p, StateAt(p, calls, i - 1), calls[i - 1]);
    }
  }

  lemma {:induction false} RunIndexed(p: Provider, calls: seq<Call>, i: nat)
    requires i <= |calls| && FreshCodes(calls)
    ensures Indexed(StateAt(p, calls, i))
  {
    hide Next;
    if i == 0 {
    } else {
      RunIndexed(p, calls, i - 1);
      CodesComeFromRequests(p, calls, i - 1);
      StepKeepsIndexed(p, StateAt(p, calls, i - 1), calls[i - 1]);
    }
  }

  /** A device code has been redeemed once a poll for it was answered with a token. */
  predicate RedeemsDevice(p: Provider, calls: seq<Call>, k: nat, deviceCode: string)
    requires k < |calls|
  {
    calls[k].Poll? && calls[k].deviceCode == deviceCode && ReplyAt(p, calls, k).Token?
  }

  /** An approval of this user code before the request's expiry. */
  predicate Approves(call: Call, request: Call)
    requires request.RequestDevice?
  {
    call.Approve? && call.userCode == request.userCode && call.now <= request.now + 600
  }

  /** Who approved request `j` last among the calls before `i`. */
  function LastApprover(calls: seq<Call>, j: nat, i: nat): Option<string>
    requires j < i <= |calls| && calls[j].RequestDevice?
  {
    if i == j + 1 then None
    else if Approves(calls[i - 1], calls[j]) then Some(calls[i - 1].userId)
    else LastApprover(calls, j, i - 1)
  }

  /** The record of request `j` as it stands before call `i`, as long as it is not redeemed. */
  function RecordAt(calls: seq<Call>, j: nat, i: nat): Device
    requires j < i <= |calls| && calls[j].RequestDevice?
  {
    match LastApprover(calls, j, i)
    case None => NewDevice(calls[j])
    case Some(user) => NewDevice(calls[j]).(approved := true, userId := user)
  }

  ghost predicate OpenSince(p: Provider, calls: seq<Call>, j: nat, i: nat, deviceCode: string)
    requires i <= |calls|
  {
    && j < i && calls[j].RequestDevice? && calls[j].deviceCode == deviceCode
    && forall k :: j < k < i ==> !RedeemsDevice(p, calls, k, deviceCode)
  }

  /** What one call does to one device record. */
  lemma DeviceStep(p: Provider, s: State, call: Call, d: string)
    requires Indexed(s)
    requires call.RequestDevice? ==> call.deviceCode !in s.devices && call.userCode !in s.users
    ensures
      var after := Next(p, s, call).devices;
      if call.RequestDevice? && call.deviceCode == d then d in after && after[d] == NewDevice(call)
      else if call.Poll? && call.deviceCode == d && Answer(p, s, call).Token? then d !in after
      else
        && (d in after <==> d in s.devices)
        && (d in after ==>
          after[d] ==
          if call.Approve? && call.userCode == s.devices[d].userCode && call.now <= s.devices[d].expiresAt
          then s.devices[d].(approved := true, userId := call.userId) else s.devices[d])
  {
  }

  lemma FreshRequest(p: Provider, calls: seq<Call>, i: nat)
    requires i < |calls| && FreshCodes(calls) && calls[i].RequestDevice?
    ensures calls[i].deviceCode !in StateAt(p, calls, i).devices && calls[i].userCode !in StateAt(p, calls, i).users
  {
    CodesComeFromRequests(p, calls, i);
  }

  /** A stored record is that of an unredeemed request, with the approvals made since. */
  lemma {:induction false} StoredDeviceIsOpen(p: Provider, calls: seq<Call>, i: nat, d: string) returns (j: nat)
    requires i <= |calls| && FreshCodes(calls) && d in StateAt(p, calls, i).devices
    ensures OpenSince(p, calls, j, i, d) && StateAt(p, calls, i).devices[d] == RecordAt(calls, j, i)
  {
    hide Next, Answer;
    assert i > 0;
    RunIndexed(p, calls, i - 1);
    if calls[i - 1].RequestDevice? {
      FreshRequest(p, calls, i - 1);
    }
    DeviceStep(p, StateAt(p, calls, i - 1), calls[i - 1], d);
    if calls[i - 1].RequestDevice? && calls[i - 1].deviceCode == d {
      j := i - 1;
    } else {
      j := StoredDeviceIsOpen(p, calls, i - 1, d);
    }
  }

  /** An unredeemed request keeps its record. */
  lemma {:induction false} OpenDeviceIsStored(p: Provider, calls: seq<Call>, j: nat, i: nat, d: string)
    requires i <= |calls| && FreshCodes(calls) && OpenSince(p, calls, j, i, d)
    ensures d in StateAt(p, calls, i).devices
  {
    hide Next, Answer;
    RunIndexed(p, calls, i - 1);
    if calls[i - 1].RequestDevice? {
      FreshRequest(p, calls, i - 1);
    }
    DeviceStep(p, StateAt(p, calls, i - 1), calls[i - 1], d);
    if j == i - 1 {
    } else {
      OpenDeviceIsStored(p, calls, j, i - 1, d);
      assert !RedeemsDevice(p, calls, i - 1, d);
    }
  }

  /** A poll may be answered with a token. */
  predicate MayRedeem(calls: seq<Call>, j: nat, i: nat)
    requires j < i < |calls| && calls[j].RequestDevice? && calls[i].Poll?
  {
    && calls[i].clientId == calls[j].clientId
    && calls[i].now <= calls[j].now + 600
    && LastApprover(calls, j, i).Some?
  }

  /**
   A poll is answered with a token iff its device code was requested by the polling client,
   was approved in time, has not expired, and has not been redeemed before.
   */
  lemma PollSucceedsIff(p: Provider, calls: seq<Call>, i: nat)
    requires i < |calls| && calls[i].Poll? && FreshCodes(calls)
    ensures ReplyAt(p, calls, i).Token? <==>
      exists j :: 0 <= j < i && OpenSince(p, calls, j, i, calls[i].deviceCode) && MayRedeem(calls, j, i)
  {
    var d := calls[i].deviceCode;
    if d in StateAt(p, calls, i).devices {
      var j := StoredDeviceIsOpen(p, calls, i, d);
      assert ReplyAt(p, calls, i).Token? <==> MayRedeem(calls, j, i);
      forall k | 0 <= k < i && OpenSince(p, calls, k, i, d)
        ensures k == j
      {
        assert calls[k].deviceCode == calls[j].deviceCode;
      }
    }
    forall j | 0 <= j < i && OpenSince(p, calls, j, i, d)
      ensures d in StateAt(p, calls, i).devices
    {
      OpenDeviceIsStored(p, calls, j, i, d);
    }
  }

  /** The polling client asked for the code, is in time, and nobody has approved. */
  predicate AwaitsApproval(calls: seq<Call>, j: nat, i: nat)
    requires j < i < |calls| && calls[j].RequestDevice? && calls[i].Poll?
  {
    && calls[i].clientId == calls[j].clientId
    && calls[i].now <= calls[j].now + 600
    && LastApprover(calls, j, i) == None
  }

  lemma OneOpenRequest(p: Provider, calls: seq<Call>, j: nat, k: nat, i: nat, d: string)
    requires i <= |calls| && FreshCodes(calls) && OpenSince(p, calls, j, i, d) && OpenSince(p, calls, k, i, d)
    ensures j == k
  {
    assert calls[k].deviceCode == calls[j].deviceCode;
  }

  /**
   Which refusal a poll gets: pending while the requesting client waits for its user, expired
   after ten minutes whoever asks, and an invalid grant otherwise.
   */
  lemma PollRefusals(p: Provider, calls: seq<Call>, i: nat)
    requires i < |calls| && calls[i].Poll? && FreshCodes(calls)
    ensures ReplyAt(p, calls, i) == DeviceAuthPending <==>
      exists j :: 0 <= j < i && OpenSince(p, calls, j, i, calls[i].deviceCode) && AwaitsApproval(calls, j, i)
    ensures ReplyAt(p, calls, i) == DeviceAuthExpired <==>
      exists j :: 0 <= j < i && OpenSince(p, calls, j, i, calls[i].deviceCode) && calls[i].now > calls[j].now + 600
    ensures ReplyAt(p, calls, i) == InvalidGrant <==>
      forall j :: 0 <= j < i && OpenSince(p, calls, j, i, calls[i].deviceCode) ==>
        calls[i].clientId != calls[j].clientId && calls[i].now <= calls[j].now + 600
  {
    hide Next, OpenSince;
    var d := calls[i].deviceCode;
    forall j | 0 <= j < i && OpenSince(p, calls, j, i, d)
      ensures d in StateAt(p, calls, i).devices
    {
      OpenDeviceIsStored(p, calls, j, i, d);
    }
    if d in StateAt(p, calls, i).devices {
      var j := StoredDeviceIsOpen(p, calls, i, d);
      OpenIsRequest(p, calls, j, i, d);
      forall k | 0 <= k < i && OpenSince(p, calls, k, i, d)
        ensures k == j
      {
        OneOpenRequest(p, calls, j, k, i, d);
      }
      PollAnswer(p, calls, j, i);
    }
  }

  lemma OpenIsRequest(p: Provider, calls: seq<Call>, j: nat, i: nat, d: string)
    requires i <= |calls| && OpenSince(p, calls, j, i, d)
    ensures j < i && calls[j].RequestDevice? && calls[j].deviceCode == d
  {
  }

  lemma PollAnswer(p: Provider, calls: seq<Call>, j: nat, i: nat)
    requires j < i < |calls| && calls[i].Poll? && calls[j].RequestDevice?
    ensures
      var r := PollReply(p, RecordAt(calls, j, i), calls[i]);
      && (r == DeviceAuthPending <==> AwaitsApproval(calls, j, i))
      && (r == DeviceAuthExpired <==> calls[i].now > calls[j].now + 600)
      && (r == InvalidGrant <==>
        calls[i].clientId != calls[j].clientId && calls[i].now <= calls[j].now + 600)
  {
  }

  /** Request `j` is open and gave out user code `u`. */
  ghost predicate OpenForUser(p: Provider, calls: seq<Call>, j: nat, i: nat, u: string)
    requires i <= |calls|
  {
    j < i && calls[j].RequestDevice? && calls[j].userCode == u && OpenSince(p, calls, j, i, calls[j].deviceCode)
  }

  /** An open request is the one its user code leads to. */
  lemma UserCodeLeadsToRequest(p: Provider, calls: seq<Call>, j: nat, i: nat, u: string)
    requires i <= |calls| && FreshCodes(calls) && OpenForUser(p, calls, j, i, u)
    ensures
      var s := StateAt(p, calls, i);
      u in s.users && s.users[u] == calls[j].deviceCode && s.users[u] in s.devices &&
      s.devices[s.users[u]].expiresAt == calls[j].now + 600
  {
    hide Next, StateAt;
    var d := calls[j].deviceCode;
    OpenDeviceIsStored(p, calls, j, i, d);
    var k := StoredDeviceIsOpen(p, calls, i, d);
    OneOpenRequest(p, calls, j, k, i, d);
    RunIndexed(p, calls, i);
  }

  /** A known user code leads to an open request. */
  lemma UserCodeIsOfRequest(p: Provider, calls: seq<Call>, i: nat, u: string) returns (j: nat)
    requires i <= |calls| && FreshCodes(calls) && u in StateAt(p, calls, i).users
    ensures OpenForUser(p, calls, j, i, u)
  {
    hide Next, StateAt;
    RunIndexed(p, calls, i);
    j := StoredDeviceIsOpen(p, calls, i, StateAt(p, calls, i).users[u]);
  }

  /** An approval succeeds iff the code is that of an open request at most ten minutes old; which refusal it gets. */
  lemma ApproveAnswer(p: Provider, calls: seq<Call>, i: nat)
    requires i < |calls| && calls[i].Approve? && FreshCodes(calls)
    ensures ReplyAt(p, calls, i) == Done <==>
      exists j :: 0 <= j < i && OpenForUser(p, calls, j, i, calls[i].userCode) && calls[i].now <= calls[j].now + 600
    ensures ReplyAt(p, calls, i) == DeviceAuthExpired <==>
      exists j :: 0 <= j < i && OpenForUser(p, calls, j, i, calls[i].userCode) && calls[i].now > calls[j].now + 600
    ensures ReplyAt(p, calls, i) == UserCodeNotFound <==>
      forall j :: 0 <= j < i ==> !OpenForUser(p, calls, j, i, calls[i].userCode)
  {
    hide Next, StateAt, OpenSince;
    var u := calls[i].userCode;
    forall j | 0 <= j < i && OpenForUser(p, calls, j, i, u)
      ensures
        var s := StateAt(p, calls, i);
        u in s.users && s.users[u] in s.devices && s.devices[s.users[u]].expiresAt == calls[j].now + 600
    {
      UserCodeLeadsToRequest(p, calls, j, i, u);
    }
    if u in StateAt(p, calls, i).users {
      var j := UserCodeIsOfRequest(p, calls, i, u);
      assert OpenForUser(p, calls, j, i, u);
    }
  }

  /** The token names the requesting client, its scopes, and the last user to approve. */
  lemma DeviceTokenNamesLastApprover(p: Provider, calls: seq<Call>, i: nat) returns (j: nat)
    requires i < |calls| && calls[i].Poll? && FreshCodes(calls) && ReplyAt(p, calls, i).Token?
    ensures OpenSince(p, calls, j, i, calls[i].deviceCode) && MayRedeem(calls, j, i)
    ensures ReplyAt(p, calls, i) ==
      Token(DeviceClaims(
        p.iss, p.aud, LastApprover(calls, j, i).value, calls[j].clientId, calls[j].deviceCode, calls[j].scopes,
        calls[i].now))
    ensures Issued(ReplyAt(p, calls, i).claims, LastApprover(calls, j, i).value, calls[j].clientId, calls[j].scopes)
    ensures Dated(ReplyAt(p, calls, i).claims, p.iss, p.aud, calls[i].now, 3600)
  {
    hide Next, DeviceClaims, Issued, Dated;
    j := StoredDeviceIsOpen(p, calls, i, calls[i].deviceCode);
    DeviceClaimsSay(
      p.iss, p.aud, LastApprover(calls, j, i).value, calls[j].clientId, calls[j].deviceCode, calls[j].scopes,
      calls[i].now);
  }

  /** The record is gone for good once a token was issued for it. */
  lemma {:induction false} RedeemedCodeIsGone(p: Provider, calls: seq<Call>, k: nat, i: nat, d: string)
    requires k < i <= |calls| && FreshCodes(calls) && RedeemsDevice(p, calls, k, d)
    ensures d !in StateAt(p, calls, i).devices
  {
    hide Next;
    RunIndexed(p, calls, i - 1);
    CodesComeFromRequests(p, calls, k);
    assert DeviceCodeRequested(calls, k, d);
    if calls[i - 1].RequestDevice? {
      FreshRequest(p, calls, i - 1);
    }
    DeviceStep(p, StateAt(p, calls, i - 1), calls[i - 1], d);
    if k == i - 1 {
    } else {
      RedeemedCodeIsGone(p, calls, k, i - 1, d);
    }
  }

  /** At most one token comes from a device code. */
  lemma OneTokenPerDeviceCode(p: Provider, calls: seq<Call>, i: nat, k: nat, d: string)
    requires i < |calls| && k < |calls| && FreshCodes(calls)
    requires RedeemsDevice(p, calls, i, d) && RedeemsDevice(p, calls, k, d)
    ensures i == k
  {
    if i < k {
      RedeemedCodeIsGone(p, calls, i, k, d);
    } else if k < i {
      RedeemedCodeIsGone(p, calls, k, i, d);
    }
  }
}
