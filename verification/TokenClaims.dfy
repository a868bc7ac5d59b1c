/**
 Token claims as the OAuth provider writes them (authn/oauthprovider/provider.go) and as the
 validator reads them back (authn/jwt_validator.go, authn/normalizer.go).
 */
module TokenClaims {
  import opened GoStrings

  /** A decoded JSON claim value; `Other` covers booleans, objects and null. */
  datatype Claim = Str(s: string) | Num(n: int) | List(items: seq<Claim>) | Other

  type Claims = map<string, Claim>

  datatype AuthMethod = AuthCodePKCE | ClientCredentials | DeviceFlow | Unknown

  datatype Principal = Principal(subject: string, clientId: string, flow: AuthMethod, scopes: seq<string>)

  datatype Normalized = Authenticated(principal: Principal) | MissingSubject

  const HOUR: int := 3600
  const DEVICE_GRANT: string := "urn:ietf:params:oauth:grant-type:device_code"

  // ---- Issued claims ----

  function AuthCodeClaims(
    iss: string, aud: string, sub: string, client: string, scopes: seq<string>, now: int): Claims
  {
    map[
      "iss" := Str(iss), "sub" := Str(sub), "aud" := Str(aud), "exp" := Num(now + HOUR), "iat" := Num(now),
      "gty" := Str("authorization_code"), "amr" := List([Str("pkce"), Str("pwd")]),
      "scope" := Str(Join(scopes, " ")), "client_id" := Str(client)]
  }

  function ClientCredentialsClaims(iss: string, aud: string, client: string, scopes: seq<string>, now: int): Claims {
    map[
      "iss" := Str(iss), "sub" := Str(client), "aud" := Str(aud), "exp" := Num(now + 2 * HOUR), "iat" := Num(now),
      "gty" := Str("client_credentials"), "client_id" := Str(client), "scope" := Str(Join(scopes, " "))]
  }

  function DeviceClaims(
    iss: string, aud: string, sub: string, client: string, deviceCode: string, scopes: seq<string>, now: int): Claims
  {
    map[
      "iss" := Str(iss), "sub" := Str(sub), "aud" := Str(aud), "exp" := Num(now + HOUR), "iat" := Num(now),
      "gty" := Str(DEVICE_GRANT), "client_id" := Str(client), "device_code" := Str(deviceCode),
      "scope" := Str(Join(scopes, " "))]
  }

  // ---- Reading claims ----

  /** The value of a claim asserted to be a string; "" when absent or of another kind. */
  function Text(claims: Claims, key: string): string {
    if key in claims && claims[key].Str? then claims[key].s else ""
  }

  function ClientIdOf(claims: Claims): string {
    if Text(claims, "client_id") != "" then Text(claims, "client_id")
    else if Text(claims, "azp") != "" then Text(claims, "azp")
    else Text(claims, "cid")
  }

  /** The words of a JSON list, whose non-string items are skipped. */
  function ListWords(items: seq<Claim>): seq<string> {
    if items == [] then []
    else
      var init, last := ListWords(items[..|items| - 1]), items[|items| - 1];
      if last.Str? && TrimSpace(last.s) != "" then init + [TrimSpace(last.s)] else init
  }

  function ScopeClaim(claims: Claims): seq<string> {
    if "scope" !in claims then []
    else
      match claims["scope"]
      case Str(s) => Words(Split(s, ' '))
      case List(items) => ListWords(items)
      case _ => []
  }

  function ScopesOf(claims: Claims): seq<string> {
    if ScopeClaim(claims) != [] then ScopeClaim(claims)
    else if "scp" in claims && claims["scp"].List? then ListWords(claims["scp"].items)
    else []
  }

  method SplitScopes(parts: seq<string>) returns (scopes: seq<string>)
    ensures scopes == Words(parts)
  {
    scopes := [];
    for i := 0 to |parts|
      invariant scopes == Words(parts[..i])
    {
      assert parts[..i + 1][..i] == parts[..i];
      var s := TrimSpace(parts[i]);
      if s != "" {
        scopes := scopes + [s];
      }
    }
    assert parts[..|parts|] == parts;
  }

  method ListScopes(items: seq<Claim>) returns (scopes: seq<string>)
    ensures scopes == ListWords(items)
  {
    scopes := [];
    for i := 0 to |items|
      invariant scopes == ListWords(items[..i])
    {
      assert items[..i + 1][..i] == items[..i];
      if items[i].Str? && TrimSpace(items[i].s) != "" {
        scopes := scopes + [TrimSpace(items[i].s)];
      }
    }
    assert items[..|items|] == items;
  }

  /** Reads 'scope' as a space-delimited string or a list, then falls back to the 'scp' list. */
  method ExtractScopes(claims: Claims) returns (scopes: seq<string>)
    ensures scopes == ScopesOf(claims)
    ensures forall s :: s in scopes ==> s != "" && IsTrimmed(s)
  {
    scopes := [];
    if "scope" in claims {
      match claims["scope"] {
        case Str(s) => scopes := SplitScopes(Split(s, ' '));
        case List(items) => scopes := ListScopes(items);
        case _ =>
      }
    }
    if |scopes| == 0 && "scp" in claims && claims["scp"].List? {
      scopes := ListScopes(claims["scp"].items);
    }
    ScopesAreWords(claims);
  }

  predicate Contains(s: string, part: string) {
    HasPrefix(s, part) || (s != [] && Contains(s[1..], part))
  }

  /** The first list item that decides, in order. */
  function AmrFlow(lower: string -> string, items: seq<Claim>): AuthMethod {
    if items == [] then Unknown
    else if items[0].Str? && lower(items[0].s) == "pkce" then AuthCodePKCE
    else if items[0].Str? && Contains(lower(items[0].s), "device") then DeviceFlow
    else AmrFlow(lower, items[1..])
  }

  function GrantFlow(grantType: string): AuthMethod {
    if grantType in {"client_credentials", "client-credentials"} then ClientCredentials
    else if grantType in {DEVICE_GRANT, "device_code", "device"} then DeviceFlow
    else if grantType in {"authorization_code", "auth_code", "pkce"} then AuthCodePKCE
    else Unknown
  }

  function GrantClaim(claims: Claims): string {
    if Text(claims, "gty") != "" then Text(claims, "gty") else Text(claims, "grant_type")
  }

  function FlowOf(lower: string -> string, claims: Claims, client: string, sub: string): AuthMethod {
    var granted := GrantFlow(lower(GrantClaim(claims)));
    var amr := if "amr" in claims && claims["amr"].List? then AmrFlow(lower, claims["amr"].items) else Unknown;
    if granted != Unknown then granted
    else if amr != Unknown then amr
    else if client != "" && (sub == client || HasPrefix(sub, "service-account-") || HasPrefix(sub, "client-"))
      then ClientCredentials
    else if "device_code" in claims then DeviceFlow
    else if sub != "" then AuthCodePKCE
    else Unknown
  }

  function NormalizedOf(lower: string -> string, claims: Claims): Normalized {
    var sub, client := Text(claims, "sub"), ClientIdOf(claims);
    if sub == "" then MissingSubject
    else Authenticated(Principal(sub, client, FlowOf(lower, claims, client, sub), ScopesOf(claims)))
  }

  // ---- What the claims say ----

  predicate IsText(claims: Claims, key: string) {
    key in claims && claims[key].Str? && claims[key].s != ""
  }

  /** `s` is the first of these claims that is a nonempty string; "" when none is. */
  ghost predicate SaysFirst(claims: Claims, keys: seq<string>, s: string) {
    if forall i :: 0 <= i < |keys| ==> !IsText(claims, keys[i]) then s == ""
    else
      exists i :: 0 <= i < |keys| && IsText(claims, keys[i]) && claims[keys[i]].s == s &&
        forall k :: 0 <= k < i ==> !IsText(claims, keys[k])
  }

  const GRANT_TYPES: map<string, AuthMethod> := map[
    "client_credentials" := ClientCredentials,
    "client-credentials" := ClientCredentials,
    "urn:ietf:params:oauth:grant-type:device_code" := DeviceFlow,
    "device_code" := DeviceFlow,
    "device" := DeviceFlow,
    "authorization_code" := AuthCodePKCE,
    "auth_code" := AuthCodePKCE,
    "pkce" := AuthCodePKCE]

  ghost predicate MentionsDevice(s: string) {
    exists before, after :: s == before + "device" + after
  }

  /** The item tells how the user was authenticated. */
  ghost predicate Tells(lower: string -> string, item: Claim) {
    item.Str? && (lower(item.s) == "pkce" || MentionsDevice(lower(item.s)))
  }

  ghost predicate FirstTelling(lower: string -> string, items: seq<Claim>, i: nat) {
    i < |items| && Tells(lower, items[i]) && forall k :: 0 <= k < i ==> !Tells(lower, items[k])
  }

  function AmrItems(claims: Claims): seq<Claim> {
    if "amr" in claims && claims["amr"].List? then claims["amr"].items else []
  }

  /** A machine speaks for itself, or under a service name. */
  predicate IsMachine(client: string, sub: string) {
    client != "" && (sub == client || "service-account-" <= sub || "client-" <= sub)
  }

  /** A known grant type, then the first telling `amr` item, then the subject, then a device code; else a user. */
  ghost predicate Classifies(
    lower: string -> string, claims: Claims, grantType: string, client: string, sub: string, flow: AuthMethod)
  {
    var items := AmrItems(claims);
    if lower(grantType) in GRANT_TYPES then flow == GRANT_TYPES[lower(grantType)]
    else if exists i :: 0 <= i < |items| && Tells(lower, items[i]) then
      exists i: nat :: FirstTelling(lower, items, i) &&
        flow == if lower(items[i].s) == "pkce" then AuthCodePKCE else DeviceFlow
    else if IsMachine(client, sub) then flow == ClientCredentials
    else flow == if "device_code" in claims then DeviceFlow else AuthCodePKCE
  }

  ghost predicate FlowRead(lower: string -> string, claims: Claims, client: string, sub: string, flow: AuthMethod) {
    exists grantType ::
      SaysFirst(claims, ["gty", "grant_type"], grantType) && Classifies(lower, claims, grantType, client, sub, flow)
  }

  function Strings(items: seq<Claim>): seq<string> {
    if items == [] then []
    else (if items[0].Str? then [items[0].s] else []) + Strings(items[1..])
  }

  function ClaimWords(c: Claim): seq<string> {
    match c
    case Str(s) => Words(Split(s, ' '))
    case List(items) => Words(Strings(items))
    case _ => []
  }

  /** The words of `scope`; those of an `scp` list when there are none. */
  ghost predicate ReadsScopes(claims: Claims, scopes: seq<string>) {
    if "scope" in claims && ClaimWords(claims["scope"]) != [] then scopes == ClaimWords(claims["scope"])
    else if "scp" in claims && claims["scp"].List? then scopes == ClaimWords(claims["scp"])
    else scopes == []
  }

  lemma {:induction false} ContainsIsSubstring(s: string)
    ensures Contains(s, "device") <==> MentionsDevice(s)
  {
    if HasPrefix(s, "device") {
      assert s == "" + "device" + s[6..];
    } else if s == [] {
    } else {
      ContainsIsSubstring(s[1..]);
      if MentionsDevice(s[1..]) {
        var before, after :| s[1..] == before + "device" + after;
        assert s == ([s[0]] + before) + "device" + after;
      }
      if MentionsDevice(s) {
        var before, after :| s == before + "device" + after;
        assert before != [];
        assert s[1..] == before[1..] + "device" + after;
      }
    }
  }

  lemma FirstTellingLater(lower: string -> string, items: seq<Claim>, i: nat)
    requires items != [] && !Tells(lower, items[0]) && FirstTelling(lower, items[1..], i)
    ensures FirstTelling(lower, items, i + 1) && items[1..][i] == items[i + 1]
  {
    hide Tells;
    assert forall k :: 0 < k < |items| ==> items[k] == items[1..][k - 1];
  }

  lemma {:induction false} AmrFlowIsFirstTelling(lower: string -> string, items: seq<Claim>)
    ensures AmrFlow(lower, items) == Unknown <==> forall i :: 0 <= i < |items| ==> !Tells(lower, items[i])
    ensures AmrFlow(lower, items) != Unknown ==>
      exists i: nat :: FirstTelling(lower, items, i) &&
        AmrFlow(lower, items) == if lower(items[i].s) == "pkce" then AuthCodePKCE else DeviceFlow
  {
    hide Contains, MentionsDevice;
    if items == [] {
    } else {
      if items[0].Str? {
        ContainsIsSubstring(lower(items[0].s));
      }
      if Tells(lower, items[0]) {
        assert FirstTelling(lower, items, 0);
      } else {
        var tail := items[1..];
        AmrFlowIsFirstTelling(lower, tail);
        if AmrFlow(lower, tail) != Unknown {
          var i: nat :| FirstTelling(lower, tail, i) &&
            AmrFlow(lower, tail) == if lower(tail[i].s) == "pkce" then AuthCodePKCE else DeviceFlow;
          FirstTellingLater(lower, items, i);
        }
        assert forall k :: 0 < k < |items| ==> items[k] == tail[k - 1];
        assert forall k :: 0 <= k < |tail| ==> tail[k] == items[k + 1];
      }
    }
  }

  lemma GrantFlowIsTable(grantType: string)
    ensures GrantFlow(grantType) == if grantType in GRANT_TYPES then GRANT_TYPES[grantType] else Unknown
  {
  }

  lemma FlowIsClassified(lower: string -> string, claims: Claims, client: string, sub: string)
    requires sub != ""
    ensures Classifies(lower, claims, GrantClaim(claims), client, sub, FlowOf(lower, claims, client, sub))
  {
    hide GrantFlow, Tells, FirstTelling, AmrFlow;
    GrantFlowIsTable(lower(GrantClaim(claims)));
    AmrFlowIsFirstTelling(lower, AmrItems(claims));
    assert AmrFlow(lower, []) == Unknown by { AmrFlowIsFirstTelling(lower, []); }
  }

  lemma FirstTexts(claims: Claims)
    ensures SaysFirst(claims, ["client_id", "azp", "cid"], ClientIdOf(claims))
    ensures SaysFirst(claims, ["gty", "grant_type"], GrantClaim(claims))
    ensures SaysFirst(claims, ["sub"], Text(claims, "sub"))
  {
    var clients, grants, subs := ["client_id", "azp", "cid"], ["gty", "grant_type"], ["sub"];
    assert clients[0] == "client_id" && clients[1] == "azp" && clients[2] == "cid";
    assert grants[0] == "gty" && grants[1] == "grant_type" && subs[0] == "sub";
  }

  lemma {:induction false} StringsAppend(a: seq<Claim>, b: seq<Claim>)
    ensures Strings(a + b) == Strings(a) + Strings(b)
  {
    if a == [] {
      assert a + b == b;
    } else {
      assert (a + b)[1..] == a[1..] + b;
      StringsAppend(a[1..], b);
    }
  }

  lemma {:induction false} ListWordsOfStrings(items: seq<Claim>)
    ensures ListWords(items) == Words(Strings(items))
  {
    hide TrimSpace;
    if items == [] {
    } else {
      var init, last := items[..|items| - 1], items[|items| - 1];
      ListWordsOfStrings(init);
      StringsAppend(init, [last]);
      assert items == init + [last];
      assert Strings([last]) == if last.Str? then [last.s] else [];
      if last.Str? {
        assert Strings(items)[..|Strings(items)| - 1] == Strings(init);
      } else {
        assert Strings(items) == Strings(init);
      }
    }
  }

  lemma ScopesAreRead(claims: Claims)
    ensures ReadsScopes(claims, ScopesOf(claims))
  {
    hide Words, ListWords, Strings;
    if "scope" in claims && claims["scope"].List? {
      ListWordsOfStrings(claims["scope"].items);
    }
    if "scp" in claims && claims["scp"].List? {
      ListWordsOfStrings(claims["scp"].items);
    }
  }

  /** The principal, read off the claims. */
  method Normalize(lower: string -> string, claims: Claims) returns (r: Normalized)
    ensures r == NormalizedOf(lower, claims)
    ensures r.MissingSubject? <==> !IsText(claims, "sub")
    ensures r.Authenticated? ==>
      var who := r.principal;
      && IsText(claims, "sub") && claims["sub"].s == who.subject
      && SaysFirst(claims, ["client_id", "azp", "cid"], who.clientId)
      && ReadsScopes(claims, who.scopes)
      && FlowRead(lower, claims, who.clientId, who.subject, who.flow)
  {
    hide FlowOf, SaysFirst, Classifies, ReadsScopes, ScopesOf, ClientIdOf, GrantClaim;
    FirstTexts(claims);
    ScopesAreRead(claims);
    var sub := Text(claims, "sub");
    if sub == "" {
      return MissingSubject;
    }
    var clientId := ClientIdOf(claims);
    var scopes := ExtractScopes(claims);
    FlowIsClassified(lower, claims, clientId, sub);
    r := Authenticated(Principal(sub, clientId, FlowOf(lower, claims, clientId, sub), scopes));
  }

  // ---- Round trip ----

  /** What survives a space-delimited claim: nonempty, without a space, not starting or ending with white space. */
  predicate IsScope(s: string) {
    s != "" && ' ' !in s && IsTrimmed(s)
  }

  lemma {:induction false} ListWordsAreTrimmed(items: seq<Claim>)
    ensures forall s :: s in ListWords(items) ==> s != "" && IsTrimmed(s)
  {
    if items == [] {
    } else {
      ListWordsAreTrimmed(items[..|items| - 1]);
      if items[|items| - 1].Str? {
        TrimSpaceTrims(items[|items| - 1].s);
      }
    }
  }

  lemma ScopesAreWords(claims: Claims)
    ensures forall s :: s in ScopesOf(claims) ==> s != "" && IsTrimmed(s)
  {
    if "scope" in claims {
      match claims["scope"] {
        case Str(s) => WordsAreWords(Split(s, ' '));
        case List(items) => ListWordsAreTrimmed(items);
        case _ =>
      }
    }
    if "scp" in claims && claims["scp"].List? {
      ListWordsAreTrimmed(claims["scp"].items);
    }
  }

  /** A joined scope list reads back unchanged iff each of its members is a scope. */
  lemma ScopesRoundTripIff(scopes: seq<string>)
    ensures Words(Split(Join(scopes, " "), ' ')) == scopes <==> forall i :: 0 <= i < |scopes| ==> IsScope(scopes[i])
  {
    var parts := Split(Join(scopes, " "), ' ');
    SplitPiecesLackSeparator(Join(scopes, " "), ' ');
    WordsAreWords(parts);
    if Words(parts) == scopes {
      assert forall i :: 0 <= i < |scopes| ==> scopes[i] in Words(parts);
    }
    if forall i :: 0 <= i < |scopes| ==> IsScope(scopes[i]) {
      WordsOfWords(scopes);
      if scopes == [] {
        assert parts == [""];
        assert Words([""]) == Words([""][..0]);
      } else {
        forall w | w in scopes
          ensures ' ' !in w
        {
          var i :| 0 <= i < |scopes| && scopes[i] == w;
          assert IsScope(scopes[i]);
        }
        SplitJoin(scopes, ' ');
      }
    }
  }

  /** strings.ToLower leaves ASCII text without capital letters alone. */
  ghost predicate KeepsLowerCase(lower: string -> string) {
    forall s :: IsLowerCase(s) ==> lower(s) == s
  }

  predicate IsLowerCase(s: string) {
    forall i :: 0 <= i < |s| ==> s[i] as int < 0x80 && !('A' <= s[i] <= 'Z')
  }

  lemma GrantTypesAreLowerCase()
    ensures IsLowerCase("authorization_code") && IsLowerCase("client_credentials") && IsLowerCase(DEVICE_GRANT)
  {
  }

  /** A recognised grant type decides the flow before any other claim is looked at. */
  lemma GrantTypeDecides(lower: string -> string, claims: Claims, grantType: string, client: string, sub: string)
    requires KeepsLowerCase(lower) && IsLowerCase(grantType)
    requires Text(claims, "gty") == grantType != "" && GrantFlow(grantType) != Unknown
    ensures FlowOf(lower, claims, client, sub) == GrantFlow(grantType)
  {
    hide GrantFlow, AmrFlow, IsLowerCase;
  }

  /** Issued by and for whom, when, and for how many seconds. */
  ghost predicate Dated(claims: Claims, iss: string, aud: string, now: int, seconds: int) {
    && "iss" in claims && claims["iss"] == Str(iss)
    && "aud" in claims && claims["aud"] == Str(aud)
    && "iat" in claims && claims["iat"] == Num(now)
    && "exp" in claims && claims["exp"] == Num(now + seconds)
  }

  /** The claims of every grant: who they name, and that only 'scope' can carry scopes. */
  ghost predicate Issued(claims: Claims, sub: string, client: string, scopes: seq<string>) {
    && "sub" in claims && claims["sub"] == Str(sub)
    && "client_id" in claims && claims["client_id"] == Str(client)
    && "scope" in claims && claims["scope"] == Str(Join(scopes, " "))
    && "azp" !in claims && "cid" !in claims && "scp" !in claims
  }

  lemma AuthCodeClaimsSay(iss: string, aud: string, sub: string, client: string, scopes: seq<string>, now: int)
    ensures
      var claims := AuthCodeClaims(iss, aud, sub, client, scopes, now);
      Issued(claims, sub, client, scopes) && Dated(claims, iss, aud, now, 3600)
  {
    hide Join;
  }

  lemma ClientCredentialsClaimsSay(iss: string, aud: string, client: string, scopes: seq<string>, now: int)
    ensures
      var claims := ClientCredentialsClaims(iss, aud, client, scopes, now);
      Issued(claims, client, client, scopes) && Dated(claims, iss, aud, now, 7200)
  {
    hide Join;
  }

  lemma DeviceClaimsSay(
    iss: string, aud: string, sub: string, client: string, deviceCode: string, scopes: seq<string>, now: int)
    ensures
      var claims := DeviceClaims(iss, aud, sub, client, deviceCode, scopes, now);
      && Issued(claims, sub, client, scopes) && Dated(claims, iss, aud, now, 3600)
      && "device_code" in claims && claims["device_code"] == Str(deviceCode)
  {
    hide Join;
  }

  /** Issued claims read back to the subject, client and grant; and to the scopes iff each is a scope. */
  lemma IssuedClaimsReadBack(
    lower: string -> string, claims: Claims, sub: string, client: string, scopes: seq<string>, flow: AuthMethod)
    requires Issued(claims, sub, client, scopes) && sub != ""
    requires FlowOf(lower, claims, client, sub) == flow
    ensures
      NormalizedOf(lower, claims) == Authenticated(Principal(sub, client, flow, scopes)) <==>
      forall i :: 0 <= i < |scopes| ==> IsScope(scopes[i])
    ensures NormalizedOf(lower, claims).Authenticated?
    ensures NormalizedOf(lower, claims).principal.(scopes := scopes) == Principal(sub, client, flow, scopes)
  {
    ScopesRoundTripIff(scopes);
  }

  /** Authorization-code tokens, whatever the subject looks like. */
  lemma AuthCodeRoundTrip(
    lower: string -> string, iss: string, aud: string, sub: string, client: string, scopes: seq<string>, now: int)
    requires KeepsLowerCase(lower) && sub != ""
    ensures
      NormalizedOf(lower, AuthCodeClaims(iss, aud, sub, client, scopes, now)) ==
      Authenticated(Principal(sub, client, AuthCodePKCE, scopes)) <==>
      forall i :: 0 <= i < |scopes| ==> IsScope(scopes[i])
  {
    hide ScopesOf, IsLowerCase, FlowOf, KeepsLowerCase, Join, NormalizedOf;
    var claims := AuthCodeClaims(iss, aud, sub, client, scopes, now);
    GrantTypesAreLowerCase();
    GrantTypeDecides(lower, claims, "authorization_code", client, sub);
    IssuedClaimsReadBack(lower, claims, sub, client, scopes, AuthCodePKCE);
  }

  lemma ClientCredentialsRoundTrip(
    lower: string -> string, iss: string, aud: string, client: string, scopes: seq<string>, now: int)
    requires KeepsLowerCase(lower) && client != ""
    ensures
      NormalizedOf(lower, ClientCredentialsClaims(iss, aud, client, scopes, now)) ==
      Authenticated(Principal(client, client, ClientCredentials, scopes)) <==>
      forall i :: 0 <= i < |scopes| ==> IsScope(scopes[i])
  {
    hide ScopesOf, IsLowerCase, FlowOf, KeepsLowerCase, Join, NormalizedOf;
    var claims := ClientCredentialsClaims(iss, aud, client, scopes, now);
    GrantTypesAreLowerCase();
    GrantTypeDecides(lower, claims, "client_credentials", client, client);
    IssuedClaimsReadBack(lower, claims, client, client, scopes, ClientCredentials);
  }

  lemma DeviceRoundTrip(
    lower: string -> string, iss: string, aud: string, sub: string, client: string, deviceCode: string,
    scopes: seq<string>, now: int)
    requires KeepsLowerCase(lower) && sub != ""
    ensures
      NormalizedOf(lower, DeviceClaims(iss, aud, sub, client, deviceCode, scopes, now)) ==
      Authenticated(Principal(sub, client, DeviceFlow, scopes)) <==>
      forall i :: 0 <= i < |scopes| ==> IsScope(scopes[i])
  {
    hide ScopesOf, IsLowerCase, FlowOf, KeepsLowerCase, Join, NormalizedOf;
    var claims := DeviceClaims(iss, aud, sub, client, deviceCode, scopes, now);
    GrantTypesAreLowerCase();
    GrantTypeDecides(lower, claims, DEVICE_GRANT, client, sub);
    IssuedClaimsReadBack(lower, claims, sub, client, scopes, DeviceFlow);
  }
}
