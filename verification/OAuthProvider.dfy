/**
 The in-memory OAuth provider (authn/oauthprovider/provider.go). Its maps are updated in
 place, and a device record is one object shared by the device-code and user-code indexes.
 Every method takes the step of OAuthProtocol named in its contract.
 */
module OAuthProvider {
  import opened TokenClaims
  import opened OAuthProtocol

  class DeviceCodeRecord {
    const deviceCode: string
    const userCode: string
    const clientId: string
    const scopes: seq<string>
    const expiresAt: int
    var userId: string
    var approved: bool

    constructor (call: Call)
      requires call.RequestDevice?
      ensures Value() == NewDevice(call)
    {
      deviceCode, userCode, clientId, scopes := call.deviceCode, call.userCode, call.clientId, call.scopes;
      expiresAt := call.now + 10 * MINUTE;
      userId, approved := "", false;
    }

    function Value(): Device
      reads this
    {
      Device(deviceCode, userCode, clientId, scopes, userId, approved, expiresAt)
    }
  }

  ghost function DevicesOf(index: map<string, DeviceCodeRecord>): map<string, Device>
    reads index.Values
  {
    map d | d in index :: index[d].Value()
  }

  ghost function UsersOf(index: map<string, DeviceCodeRecord>): map<string, string> {
    map u | u in index :: index[u].deviceCode
  }

  lemma IndexHolds(devices: map<string, DeviceCodeRecord>, d: string)
    ensures d in DevicesOf(devices) <==> d in devices
    ensures d in devices ==> DevicesOf(devices)[d] == devices[d].Value()
  {
  }

  lemma IndexAdds(devices: map<string, DeviceCodeRecord>, users: map<string, DeviceCodeRecord>, rec: DeviceCodeRecord)
    ensures DevicesOf(devices[rec.deviceCode := rec]) == DevicesOf(devices)[rec.deviceCode := rec.Value()]
    ensures UsersOf(users[rec.userCode := rec]) == UsersOf(users)[rec.userCode := rec.deviceCode]
  {
  }

  lemma IndexRemoves(devices: map<string, DeviceCodeRecord>, users: map<string, DeviceCodeRecord>, d: string, u: string)
    ensures DevicesOf(devices - {d}) == DevicesOf(devices) - {d}
    ensures UsersOf(users - {u}) == UsersOf(users) - {u}
  {
  }

  class MockOAuthProvider {
    const provider: Provider
    var authCodes: map<string, AuthCode>
    var deviceCodes: map<string, DeviceCodeRecord>
    var userCodes: map<string, DeviceCodeRecord>
    var clientSecret: map<string, string>

    /** The two indexes hold the same records, each under the key it carries. */
    ghost predicate Valid()
      reads this
    {
      && (forall d :: d in deviceCodes ==>
        && deviceCodes[d].deviceCode == d
        && deviceCodes[d].userCode in userCodes && userCodes[deviceCodes[d].userCode] == deviceCodes[d])
      && (forall u :: u in userCodes ==>
        && userCodes[u].userCode == u
        && userCodes[u].deviceCode in deviceCodes && deviceCodes[userCodes[u].deviceCode] == userCodes[u])
    }

    ghost function Abstract(): State
      reads this, deviceCodes.Values
    {
      State(authCodes, DevicesOf(deviceCodes), UsersOf(userCodes), clientSecret)
    }

    constructor (iss: string, aud: string, s256: string -> string)
      ensures Valid() && Abstract() == EMPTY && provider == Provider(iss, aud, s256)
    {
      provider := Provider(iss, aud, s256);
      authCodes, deviceCodes, userCodes := map[], map[], map[];
      clientSecret := map["service-worker-client" := "secret-worker-password-123"];
    }

    method AddClient(clientId: string, secret: string)
      requires Valid()
      modifies this`clientSecret
      ensures Valid() && Abstract() == Next(provider, old(Abstract()), RegisterClient(clientId, secret))
    {
      clientSecret := clientSecret[clientId := secret];
    }

    method AuthorizePKCE(
      clientId: string, userId: string, challenge: string, challengeMethod: string, scopes: seq<string>,
      code: string, now: int)
      returns (r: Reply)
      requires Valid()
      modifies this`authCodes
      ensures
        var call := Authorize(clientId, userId, challenge, challengeMethod, scopes, code, now);
        Valid() && r == Answer(provider, old(Abstract()), call) && Abstract() == Next(provider, old(Abstract()), call)
      ensures r == if challengeMethod == "S256" then Done else UnsupportedMethod
      ensures challengeMethod != "S256" ==> authCodes == old(authCodes)
    {
      if challengeMethod != "S256" {
        return UnsupportedMethod;
      }
      var rec := AuthCode(clientId, userId, challenge, challengeMethod, scopes, now + 5 * MINUTE);
      authCodes := authCodes[code := rec];
      return Done;
    }

    method ExchangeAuthCode(clientId: string, code: string, verifier: string, now: int) returns (r: Reply)
      requires Valid()
      modifies this`authCodes
      ensures
        var call := Exchange(clientId, code, verifier, now);
        Valid() && r == Answer(provider, old(Abstract()), call) && Abstract() == Next(provider, old(Abstract()), call)
      ensures code !in authCodes
    {
      if code !in authCodes {
        assert authCodes - {code} == authCodes;
        return InvalidGrant;
      }
      var rec := authCodes[code];
      authCodes := authCodes - {code};
      if now > rec.expiresAt {
        return InvalidGrant;
      }
      if rec.clientId != clientId {
        return InvalidGrant;
      }
      if provider.s256(verifier) != rec.challenge {
        return PKCEVerificationFail;
      }
      r := Token(AuthCodeClaims(provider.iss, provider.aud, rec.userId, rec.clientId, rec.scopes, now));
    }

    method IssueClientCredentialsToken(
      clientId: string, secret: string, scopes: seq<string>, now: int)
      returns (r: Reply)
      requires Valid()
      ensures r == Answer(provider, Abstract(), IssueClientCredentials(clientId, secret, scopes, now))
      ensures r.Token? <==> clientId in clientSecret && clientSecret[clientId] == secret
    {
      if clientId !in clientSecret || clientSecret[clientId] != secret {
        return InvalidClient;
      }
      r := Token(ClientCredentialsClaims(provider.iss, provider.aud, clientId, scopes, now));
    }

    /** A code already in use is taken over by the new record; with fresh codes this is the protocol's step. */
    method RequestDeviceCode(clientId: string, scopes: seq<string>, deviceCode: string, userCode: string, now: int)
      requires Valid()
      modifies this`deviceCodes, this`userCodes
      ensures deviceCode in deviceCodes && fresh(deviceCodes[deviceCode])
      ensures deviceCodes[deviceCode].Value() == NewDevice(RequestDevice(clientId, scopes, deviceCode, userCode, now))
      ensures deviceCodes == old(deviceCodes)[deviceCode := deviceCodes[deviceCode]]
      ensures userCodes == old(userCodes)[userCode := deviceCodes[deviceCode]]
      ensures deviceCode !in old(deviceCodes) && userCode !in old(userCodes) ==>
        && Valid()
        && Abstract() == Next(provider, old(Abstract()), RequestDevice(clientId, scopes, deviceCode, userCode, now))
    {
      hide DevicesOf, UsersOf;
      var rec := new DeviceCodeRecord(RequestDevice(clientId, scopes, deviceCode, userCode, now));
      IndexAdds(deviceCodes, userCodes, rec);
      deviceCodes := deviceCodes[deviceCode := rec];
      userCodes := userCodes[userCode := rec];
    }

    method ApproveDeviceCode(userCode: string, userId: string, now: int) returns (r: Reply)
      requires Valid()
      modifies if userCode in userCodes then {userCodes[userCode]} else {}
      ensures
        var call := Approve(userCode, userId, now);
        Valid() && r == Answer(provider, old(Abstract()), call) && Abstract() == Next(provider, old(Abstract()), call)
    {
      if userCode !in userCodes {
        return UserCodeNotFound;
      }
      var rec := userCodes[userCode];
      if now > rec.expiresAt {
        return DeviceAuthExpired;
      }
      ghost var before := Abstract();
      rec.approved := true;
      rec.userId := userId;
      assert Abstract().devices == before.devices[rec.deviceCode := rec.Value()];
      return Done;
    }

    method PollDeviceToken(clientId: string, deviceCode: string, now: int) returns (r: Reply)
      requires Valid()
      modifies this`deviceCodes, this`userCodes
      ensures
        var call := Poll(clientId, deviceCode, now);
        Valid() && r == Answer(provider, old(Abstract()), call) && Abstract() == Next(provider, old(Abstract()), call)
      ensures !r.Token? ==> deviceCodes == old(deviceCodes) && userCodes == old(userCodes)
    {
      hide DevicesOf, UsersOf;
      IndexHolds(deviceCodes, deviceCode);
      if deviceCode !in deviceCodes {
        return InvalidGrant;
      }
      var rec := deviceCodes[deviceCode];
      if now > rec.expiresAt {
        return DeviceAuthExpired;
      }
      if rec.clientId != clientId {
        return InvalidGrant;
      }
      if !rec.approved {
        return DeviceAuthPending;
      }
      IndexRemoves(deviceCodes, userCodes, rec.deviceCode, rec.userCode);
      deviceCodes := deviceCodes - {rec.deviceCode};
      userCodes := userCodes - {rec.userCode};
      r := Token(DeviceClaims(provider.iss, provider.aud, rec.userId, rec.clientId, deviceCode, rec.scopes, now));
    }
  }
}
