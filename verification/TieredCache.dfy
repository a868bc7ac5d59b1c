/**
 The two-tier cache provider (authz/cache/tiered.go) and the PARC handler's cache-or-
 repository path (authz/engine.go), as objects.  Cached bytes are modelled by the reading
 they encode.
 */
module TieredCache {
  import opened Options
  import opened Parc
  import opened PermissionProtocol
  import RevocationBus

  /** A stored value; `expires` is None when it was stored with a TTL of zero or less. */
  datatype Item = Item(reading: Reading, expires: Option<nat>)

  type Items = map<string, Item>

  const KEY_PREFIX := "perm:"

  function KeyOf(principal: string): string {
    KEY_PREFIX + principal
  }

  lemma KeyOfIsInjective(p: string, q: string)
    requires KeyOf(p) == KeyOf(q)
    ensures p == q
  {
    assert KeyOf(p)[|KEY_PREFIX|..] == p;
    assert KeyOf(q)[|KEY_PREFIX|..] == q;
  }

  function ExpiryFor(ttl: int, now: nat): Option<nat> {
    if ttl > 0 then Some(now + ttl) else None
  }

  predicate Holds(items: Items, key: string, now: nat) {
    key in items && (items[key].expires.Some? ==> now <= items[key].expires.value)
  }

  function Lookup(items: Items, key: string, now: nat): Option<Reading> {
    if Holds(items, key, now) then Some(items[key].reading) else None
  }

  /** Any CacheProvider, up to losing entries. */
  class Store {
    var items: Items

    constructor ()
      ensures items == map[]
    {
      items := map[];
    }

    method Get(key: string, now: nat) returns (r: Option<Reading>)
      ensures r == Lookup(items, key, now)
    {
      if Holds(items, key, now) {
        return Some(items[key].reading);
      }
      return None;
    }

    method Set(key: string, value: Reading, ttl: int, now: nat)
      modifies this
      ensures items == old(items)[key := Item(value, ExpiryFor(ttl, now))]
    {
      items := items[key := Item(value, ExpiryFor(ttl, now))];
    }

    method Delete(key: string)
      modifies this
      ensures items == old(items) - {key}
    {
      items := items - {key};
    }
  }

  // ---- What a tiered lookup finds and leaves behind ----

  function Found(l1: Items, l2: Items, key: string, now: nat): Option<Reading> {
    if Holds(l1, key, now) then Lookup(l1, key, now) else Lookup(l2, key, now)
  }

  function L1AfterGet(l1: Items, l2: Items, key: string, now: nat, l1TTL: int): Items {
    if !Holds(l1, key, now) && Holds(l2, key, now)
    then l1[key := Item(l2[key].reading, ExpiryFor(l1TTL, now))]
    else l1
  }

  class TieredCacheProvider {
    const l1: Store
    const l2: Store
    const l1TTL: int
    const bus: RevocationBus.Bus?

    ghost predicate Valid()
      reads this, l1, l2, bus
    {
      && l1TTL > 0
      && (bus != null ==> bus.Valid())
    }

    /** An L1TTL of zero or less means sixty seconds. */
    constructor (l1: Store, l2: Store, l1TTL: int, bus: RevocationBus.Bus?)
      requires bus != null ==> bus.Valid()
      ensures Valid() && this.l1 == l1 && this.l2 == l2 && this.bus == bus
      ensures this.l1TTL == if l1TTL <= 0 then 60 else l1TTL
    {
      this.l1 := l1;
      this.l2 := l2;
      this.bus := bus;
      this.l1TTL := if l1TTL <= 0 then 60 else l1TTL;
    }

    method Get(key: string, now: nat) returns (r: Option<Reading>)
      requires Valid()
      modifies l1
      ensures Valid()
      ensures r == Found(old(l1.items), old(l2.items), key, now)
      ensures l1.items == L1AfterGet(old(l1.items), old(l2.items), key, now, l1TTL)
    {
      r := l1.Get(key, now);
      if r.Some? {
        return;
      }
      r := l2.Get(key, now);
      if r.None? {
        return;
      }
      l1.Set(key, r.value, l1TTL, now);
    }

    /** With one store as both tiers, the L2 write is the one that stays. */
    method Set(key: string, value: Reading, ttl: int, now: nat)
      requires Valid()
      modifies l1, l2
      ensures Valid()
      ensures l1 != l2 ==>
        l1.items == old(l1.items)[key := Item(value, Some(now + if 0 < ttl < l1TTL then ttl else l1TTL))]
      ensures l2.items == old(l2.items)[key := Item(value, ExpiryFor(ttl, now))]
    {
      var ttl1 := l1TTL;
      if ttl > 0 && ttl < ttl1 {
        ttl1 := ttl;
      }
      l1.Set(key, value, ttl1, now);
      l2.Set(key, value, ttl, now);
    }

    method Delete(key: string)
      requires Valid()
      modifies l1, l2
      ensures Valid()
      ensures l1.items == old(l1.items) - {key} && l2.items == old(l2.items) - {key}
    {
      l1.Delete(key);
      l2.Delete(key);
    }

    /** Both caches forget the principal before the bus hears about it. */
    method PublishRevocation(principalID: string)
      requires Valid()
      modifies l1, l2, bus
      ensures Valid()
      ensures l1.items == old(l1.items) - {KeyOf(principalID)} && l2.items == old(l2.items) - {KeyOf(principalID)}
      ensures bus != null ==>
        RevocationBus.Step(old(bus.Value()), RevocationBus.Publish(principalID)) == Some(bus.Value())
    {
      l1.Delete(KeyOf(principalID));
      l2.Delete(KeyOf(principalID));
      if bus != null {
        bus.PublishRevocation(principalID);
      }
    }

    /** One turn of the revocation listener. */
    method OnRevocation(principalID: string)
      requires Valid()
      modifies l1
      ensures Valid() && l1.items == old(l1.items) - {KeyOf(principalID)}
    {
      l1.Delete(KeyOf(principalID));
    }
  }

  // ---- The handler ----

  /** The bundle decided on (None when the repository failed) and what is left in the tiers. */
  datatype Handled = Handled(used: Option<Reading>, l1: Items, l2: Items)

  function L1Expiry(now: nat, l1TTL: nat, grantTTL: int): nat {
    now + if 0 < grantTTL < l1TTL then grantTTL else l1TTL
  }

  /** Handle over two tiers; `current` is the repository's answer, `decodes` whether cached bytes decode. */
  function HandleEffect(
    l1: Items, l2: Items, p: string, now: nat, l1TTL: nat, grantTTL: int, current: Option<Reading>,
    decodes: Reading -> bool)
    : Handled
  {
    var found := Found(l1, l2, KeyOf(p), now);
    var l1' := L1AfterGet(l1, l2, KeyOf(p), now, l1TTL);
    if found.Some? && decodes(found.value) then Handled(found, l1', l2)
    else if current.None? then Handled(None, l1', l2)
    else
      Handled(
        current,
        l1'[KeyOf(p) := Item(current.value, Some(L1Expiry(now, l1TTL, grantTTL)))],
        l2[KeyOf(p) := Item(current.value, ExpiryFor(grantTTL, now))])
  }

  datatype HandledOnce = HandledOnce(used: Option<Reading>, items: Items)

  /** Handle over one store. */
  function HandleSingleEffect(
    items: Items, p: string, now: nat, grantTTL: int, current: Option<Reading>, decodes: Reading -> bool): HandledOnce
  {
    var found := Lookup(items, KeyOf(p), now);
    if found.Some? && decodes(found.value) then HandledOnce(found, items)
    else if current.None? then HandledOnce(None, items)
    else HandledOnce(current, items[KeyOf(p) := Item(current.value, ExpiryFor(grantTTL, now))])
  }

  /** What the repository answers; the call may fail. */
  ghost function RepositoryAnswer(repo: MemoryPermissionRepository, repoOk: bool, subject: string, ver: nat, now: nat)
    : Option<Reading>
    reads repo
  {
    if repoOk then Some(Reading(GrantedSinceRevoke(repo.log, subject), ver, now)) else None
  }

  /** The handler's cache: the tiered provider, or one store alone. */
  datatype Cache = Tiered(provider: TieredCacheProvider) | Single(store: Store) {

    ghost predicate Valid()
      reads if Tiered? then {provider, provider.l1, provider.l2} + {provider.bus} else {}
    {
      Tiered? ==> provider.Valid()
    }

    function Stores(): set<Store> {
      if Tiered? then {provider.l1, provider.l2} else {store}
    }

    method Get(key: string, now: nat) returns (r: Option<Reading>)
      requires Valid()
      modifies Stores()
      ensures Valid()
      ensures Tiered? ==>
        && r == Found(old(provider.l1.items), old(provider.l2.items), key, now)
        && provider.l1.items == L1AfterGet(old(provider.l1.items), old(provider.l2.items), key, now, provider.l1TTL)
        && (provider.l1 != provider.l2 ==> provider.l2.items == old(provider.l2.items))
      ensures Single? ==> r == Lookup(old(store.items), key, now) && store.items == old(store.items)
    {
      match this
      case Tiered(provider) => r := provider.Get(key, now);
      case Single(store) => r := store.Get(key, now);
    }

    method Set(key: string, value: Reading, ttl: int, now: nat)
      requires Valid()
      modifies Stores()
      ensures Valid()
      ensures Tiered? && provider.l1 == provider.l2 ==>
        provider.l1.items == old(provider.l1.items)[key := Item(value, ExpiryFor(ttl, now))]
      ensures Tiered? && provider.l1 != provider.l2 ==>
        && provider.l1.items == old(provider.l1.items)[key := Item(value, Some(L1Expiry(now, provider.l1TTL, ttl)))]
        && provider.l2.items == old(provider.l2.items)[key := Item(value, ExpiryFor(ttl, now))]
      ensures Single? ==> store.items == old(store.items)[key := Item(value, ExpiryFor(ttl, now))]
    {
      match this
      case Tiered(provider) => provider.Set(key, value, ttl, now);
      case Single(store) => store.Set(key, value, ttl, now);
    }
  }

  class PARCHandler {
    const cache: Cache
    const grantTTL: int

    constructor (cache: Cache, grantTTL: int)
      ensures this.cache == cache && this.grantTTL == if grantTTL <= 0 then 60 else grantTTL
    {
      this.cache := cache;
      this.grantTTL := if grantTTL <= 0 then 60 else grantTTL;
    }

    /** `ver` numbers the repository content that a miss would read; None is the repository's error. */
    method Handle(
      repo: MemoryPermissionRepository, g: Globs, subject: string, req: Request, now: nat, ver: nat,
      decodes: Reading -> bool, repoOk: bool)
      returns (allowed: Option<bool>, ghost used: Option<Reading>)
      requires cache.Valid() && repo.Valid()
      modifies cache.Stores()
      ensures cache.Valid()
      ensures cache.Tiered? && cache.provider.l1 != cache.provider.l2 ==>
        Handled(used, cache.provider.l1.items, cache.provider.l2.items) ==
        HandleEffect(
          old(cache.provider.l1.items), old(cache.provider.l2.items), subject, now, cache.provider.l1TTL, grantTTL,
          RepositoryAnswer(repo, repoOk, subject, ver, now), decodes)
      ensures cache.Tiered? && cache.provider.l1 == cache.provider.l2 ==>
        HandledOnce(used, cache.provider.l1.items) ==
        HandleSingleEffect(
          old(cache.provider.l1.items), subject, now, grantTTL,
          RepositoryAnswer(repo, repoOk, subject, ver, now), decodes)
      ensures cache.Single? ==>
        HandledOnce(used, cache.store.items) ==
        HandleSingleEffect(
          old(cache.store.items), subject, now, grantTTL, RepositoryAnswer(repo, repoOk, subject, ver, now), decodes)
      ensures allowed.Some? <==> used.Some?
      ensures allowed.Some? ==> (allowed.value <==> Allows(g, used.value.bundle, req))
    {
      var cached := cache.Get(KeyOf(subject), now);
      var perms: Reading;
      if cached.Some? && decodes(cached.value) {
        perms := cached.value;
      } else {
        if !repoOk {
          return None, None;
        }
        var bundle := repo.GetPermissions(subject);
        perms := Reading(bundle.rules, ver, now);
        cache.Set(KeyOf(subject), perms, grantTTL, now);
      }
      var d := Evaluate(g, perms.bundle, req);
      return Some(d.allowed), Some(perms);
    }
  }
}
