/**
 PARC rule evaluation (authz/parc.go) and the in-memory permission repository
 (authz/repository.go).
 */
module Parc {
  import opened Options

  datatype Effect = Permit | Deny | OtherEffect(name: string)

  datatype Rule = Rule(
    actionPattern: string,
    resourceType: string,
    resourceIDPattern: string,
    tenantID: string,
    effect: Effect)

  /** The parts of a PARC request that rules look at. */
  datatype Request = Request(
    actionName: string,
    httpMethod: string,
    resourceType: string,
    resourceID: string,
    tenantID: string)

  datatype Decision = Decision(allowed: bool, reason: string)

  /** Go's `path.Match` (None on a malformed pattern) and `strings.EqualFold`. */
  datatype Globs = Globs(pathMatch: (string, string) -> Option<bool>, equalFold: (string, string) -> bool)

  predicate MatchGlob(g: Globs, pattern: string, val: string) {
    if pattern == "*" || pattern == "" then true
    else if pattern == val then true
    else
      match g.pathMatch(pattern, val)
      case None => g.equalFold(pattern, val)
      case Some(b) => b
  }

  predicate Matches(g: Globs, r: Rule, req: Request) {
    && (MatchGlob(g, r.actionPattern, req.actionName) || MatchGlob(g, r.actionPattern, req.httpMethod))
    && MatchGlob(g, r.resourceType, req.resourceType)
    && MatchGlob(g, r.resourceIDPattern, req.resourceID)
    && (r.tenantID != "" && r.tenantID != "*" && req.tenantID != "" ==> r.tenantID == req.tenantID)
  }

  // ---- What a rule is about ----

  predicate IsOpen(name: string) {
    name in {"", "*"}
  }

  /** The values a pattern stands for; case is folded only where `path.Match` cannot read the pattern. */
  predicate StandsFor(g: Globs, pattern: string, val: string) {
    || IsOpen(pattern) || pattern == val
    || g.pathMatch(pattern, val) == Some(true)
    || (g.pathMatch(pattern, val) == None && g.equalFold(pattern, val))
  }

  /** A rule for one tenant is silent about the resources of another. */
  predicate OtherTenant(r: Rule, req: Request) {
    r.tenantID !in {"", "*", req.tenantID} && req.tenantID != ""
  }

  predicate Covers(g: Globs, r: Rule, req: Request) {
    && !OtherTenant(r, req)
    && StandsFor(g, r.resourceIDPattern, req.resourceID) && StandsFor(g, r.resourceType, req.resourceType)
    && (StandsFor(g, r.actionPattern, req.httpMethod) || StandsFor(g, r.actionPattern, req.actionName))
  }

  lemma MatchesIffCovers(g: Globs, r: Rule, req: Request)
    ensures Matches(g, r, req) <==> Covers(g, r, req)
  {
  }

  // ---- Deny-overrides, stated on the set of rules ----

  ghost predicate SomePermit(g: Globs, rules: seq<Rule>, req: Request) {
    exists r :: r in rules && Covers(g, r, req) && r.effect == Permit
  }

  ghost predicate SomeDeny(g: Globs, rules: seq<Rule>, req: Request) {
    exists r :: r in rules && Covers(g, r, req) && r.effect == Deny
  }

  ghost predicate Allows(g: Globs, rules: seq<Rule>, req: Request) {
    SomePermit(g, rules, req) && !SomeDeny(g, rules, req)
  }

  /** The evaluation loop: first matching deny wins, otherwise any matching permit. */
  method Evaluate(g: Globs, rules: seq<Rule>, req: Request) returns (d: Decision)
    ensures d.allowed <==> Allows(g, rules, req)
    ensures d.reason == (
      if rules == [] then "no permissions found for principal"
      else if SomeDeny(g, rules, req) then "explicitly denied by policy rule"
      else if SomePermit(g, rules, req) then ""
      else "no matching permit rule found for action on resource")
    ensures d.allowed && req.tenantID != "" ==>
      exists r :: r in rules && r.effect == Permit && r.tenantID in {"", "*", req.tenantID}
  {
    hide Matches, Covers;
    if |rules| == 0 {
      return Decision(false, "no permissions found for principal");
    }
    var matchedPermit := false;
    for i := 0 to |rules|
      invariant !SomeDeny(g, rules[..i], req)
      invariant matchedPermit <==> SomePermit(g, rules[..i], req)
    {
      assert rules[..i + 1] == rules[..i] + [rules[i]];
      MatchesIffCovers(g, rules[i], req);
      if Matches(g, rules[i], req) {
        if rules[i].effect == Deny {
          assert rules[i] in rules;
          return Decision(false, "explicitly denied by policy rule");
        }
        if rules[i].effect == Permit {
          matchedPermit := true;
        }
      }
    }
    assert rules[..|rules|] == rules;
    if matchedPermit {
      if req.tenantID != "" {
        PermitIsOfTenant(g, rules, req);
      }
      return Decision(true, "");
    }
    return Decision(false, "no matching permit rule found for action on resource");
  }

  lemma PermitIsOfTenant(g: Globs, rules: seq<Rule>, req: Request)
    requires SomePermit(g, rules, req) && req.tenantID != ""
    ensures exists r :: r in rules && r.effect == Permit && r.tenantID in {"", "*", req.tenantID}
  {
    var r :| r in rules && Covers(g, r, req) && r.effect == Permit;
  }

  /** Permits of other tenants allow nothing. */
  lemma OtherTenantsPermitNothing(g: Globs, rules: seq<Rule>, req: Request)
    requires req.tenantID != ""
    requires forall r :: r in rules && r.effect == Permit ==> r.tenantID !in {"", "*", req.tenantID}
    ensures !Allows(g, rules, req)
  {
    if SomePermit(g, rules, req) {
      PermitIsOfTenant(g, rules, req);
    }
  }

  /** Nor does a deny of another tenant change a decision, wherever it is stored. */
  lemma OtherTenantDeniesNothing(g: Globs, a: seq<Rule>, b: seq<Rule>, deny: Rule, req: Request)
    requires deny.effect == Deny && req.tenantID != "" && deny.tenantID !in {"", "*", req.tenantID}
    ensures Allows(g, a + [deny] + b, req) <==> Allows(g, a + b, req)
  {
    hide StandsFor;
    var with, without := a + [deny] + b, a + b;
    assert !Covers(g, deny, req);
    assert forall r :: r in without ==> r in with;
    assert forall r :: r in with && r != deny ==> r in without;
  }

  /** `path.Match` reads the pattern as plain text, as it does text without `*`, `?`, `[` and `\`. */
  ghost predicate IsPlain(g: Globs, pattern: string) {
    IsOpen(pattern) || forall val :: g.pathMatch(pattern, val) == Some(pattern == val)
  }

  ghost predicate IsPlainRule(g: Globs, r: Rule) {
    IsPlain(g, r.actionPattern) && IsPlain(g, r.resourceType) && IsPlain(g, r.resourceIDPattern)
  }

  /** A plain rule names the request: every part is open or the very text of the request. */
  predicate NamesRequest(r: Rule, req: Request) {
    && r.actionPattern in {"", "*", req.actionName, req.httpMethod}
    && r.resourceType in {"", "*", req.resourceType}
    && r.resourceIDPattern in {"", "*", req.resourceID}
    && (r.tenantID in {"", "*", req.tenantID} || req.tenantID == "")
  }

  lemma PlainRuleCovers(g: Globs, r: Rule, req: Request)
    requires IsPlainRule(g, r)
    ensures Covers(g, r, req) <==> NamesRequest(r, req)
  {
    assert IsPlain(g, r.actionPattern) && IsPlain(g, r.resourceType) && IsPlain(g, r.resourceIDPattern);
  }

  /** Plain rules decide by comparing texts; a rule open in every part applies to every request. */
  lemma PlainRulesDecide(g: Globs, rules: seq<Rule>, req: Request)
    requires forall r :: r in rules ==> IsPlainRule(g, r)
    ensures Allows(g, rules, req) <==>
      && (exists r :: r in rules && r.effect == Permit && NamesRequest(r, req))
      && (forall r :: r in rules && r.effect == Deny ==> !NamesRequest(r, req))
  {
    hide Covers, NamesRequest, IsPlainRule;
    forall r | r in rules
      ensures Covers(g, r, req) <==> NamesRequest(r, req)
    {
      PlainRuleCovers(g, r, req);
    }
  }

  /** A glob other than the value itself is left to `path.Match`; one it cannot read is compared ignoring case. */
  lemma GlobDecides(g: Globs, pattern: string, req: Request)
    requires pattern !in {"", "*", req.resourceID}
    ensures Allows(g, [Rule("*", "*", pattern, "*", Permit)], req) <==>
      match g.pathMatch(pattern, req.resourceID)
      case Some(matched) => matched
      case None => g.equalFold(pattern, req.resourceID)
  {
    var rule := Rule("*", "*", pattern, "*", Permit);
    assert Covers(g, rule, req) <==> StandsFor(g, pattern, req.resourceID);
    assert rule in [rule];
  }

  /** The order in which rules are stored never changes a decision. */
  lemma AllowsIgnoresOrder(g: Globs, a: seq<Rule>, b: seq<Rule>, req: Request)
    requires multiset(a) == multiset(b)
    ensures Allows(g, a, req) == Allows(g, b, req)
  {
    assert forall r :: r in a <==> r in multiset(a);
    assert forall r :: r in b <==> r in multiset(b);
  }

  /** Inserting a deny rule anywhere can only turn an allow into a refusal. */
  lemma DenyNeverAllows(g: Globs, a: seq<Rule>, b: seq<Rule>, deny: Rule, req: Request)
    requires deny.effect == Deny
    requires Allows(g, a + [deny] + b, req)
    ensures Allows(g, a + b, req)
    ensures !Covers(g, deny, req)
  {
    hide Covers;
    var with := a + [deny] + b;
    assert deny in with;
    assert forall r :: r in a + b ==> r in with;
    var r :| r in with && Covers(g, r, req) && r.effect == Permit;
    assert r in a + b;
  }

  // ---- Repository ----

  type Repo = map<string, seq<Rule>>

  function RulesOf(repo: Repo, p: string): seq<Rule> {
    if p in repo then repo[p] else []
  }

  datatype RepoEvent = Granted(p: string, rule: Rule) | RevokedAll(p: string)

  function ApplyEvent(repo: Repo, e: RepoEvent): Repo {
    match e
    case Granted(p, rule) => repo[p := RulesOf(repo, p) + [rule]]
    case RevokedAll(p) => repo - {p}
  }

  function ApplyEvents(log: seq<RepoEvent>): Repo {
    if log == [] then map[] else ApplyEvent(ApplyEvents(log[..|log| - 1]), log[|log| - 1])
  }

  lemma EventsAppend(log: seq<RepoEvent>, e: RepoEvent)
    ensures ApplyEvents(log + [e]) == ApplyEvent(ApplyEvents(log), e)
  {
    assert (log + [e])[..|log|] == log;
  }

  /** Position just after the last RevokeAll of `p`, or 0. */
  function AfterLastRevoke(log: seq<RepoEvent>, p: string): (n: nat)
    ensures n <= |log|
  {
    if log == [] then 0
    else if log[|log| - 1] == RevokedAll(p) then |log|
    else AfterLastRevoke(log[..|log| - 1], p)
  }

  /** Rules granted to `p` in `log`, oldest first. */
  function GrantsTo(log: seq<RepoEvent>, p: string): seq<Rule> {
    if log == [] then []
    else
      var init, last := log[..|log| - 1], log[|log| - 1];
      GrantsTo(init, p) + (if last.Granted? && last.p == p then [last.rule] else [])
  }

  function GrantedSinceRevoke(log: seq<RepoEvent>, p: string): seq<Rule> {
    GrantsTo(log[AfterLastRevoke(log, p)..], p)
  }

  /** After any history, a principal holds exactly the rules granted since their last RevokeAll. */
  lemma {:induction false} RepositoryHoldsGrantsSinceRevoke(log: seq<RepoEvent>, p: string)
    ensures RulesOf(ApplyEvents(log), p) == GrantedSinceRevoke(log, p)
  {
    if log == [] {
    } else {
      var init, last := log[..|log| - 1], log[|log| - 1];
      RepositoryHoldsGrantsSinceRevoke(init, p);
      if last != RevokedAll(p) {
        var n := AfterLastRevoke(init, p);
        assert log[n..][..|log[n..]| - 1] == init[n..];
      }
    }
  }

  /** One principal's stored record; the repository hands out copies, never this object. */
  class PrincipalPermissions {
    const principalID: string
    var rules: seq<Rule>

    constructor (principalID: string, rules: seq<Rule>)
      ensures this.principalID == principalID && this.rules == rules
    {
      this.principalID := principalID;
      this.rules := rules;
    }
  }

  class MemoryPermissionRepository {
    var permissions: map<string, PrincipalPermissions>
    ghost var log: seq<RepoEvent>

    ghost predicate Valid()
      reads this, permissions.Values
    {
      && (forall p :: p in permissions ==> permissions[p].principalID == p)
      && Contents() == ApplyEvents(log)
    }

    ghost function Contents(): Repo
      reads this, permissions.Values
    {
      map p | p in permissions :: permissions[p].rules
    }

    constructor ()
      ensures Valid() && log == [] && permissions == map[]
    {
      permissions := map[];
      log := [];
    }

    /** Returns a fresh record, so later grants and revokes cannot reach through it. */
    method GetPermissions(principalID: string) returns (bundle: PrincipalPermissions)
      requires Valid()
      ensures fresh(bundle)
      ensures bundle.principalID == principalID
      ensures bundle.rules == GrantedSinceRevoke(log, principalID)
    {
      RepositoryHoldsGrantsSinceRevoke(log, principalID);
      if principalID !in permissions {
        bundle := new PrincipalPermissions(principalID, []);
      } else {
        bundle := new PrincipalPermissions(principalID, permissions[principalID].rules);
      }
    }

    /** Appends in place to the stored record, creating it on first use. */
    method GrantPermission(principalID: string, rule: Rule)
      requires Valid()
      modifies this, permissions.Values
      ensures Valid() && log == old(log) + [Granted(principalID, rule)]
      ensures Contents() == ApplyEvent(old(Contents()), Granted(principalID, rule))
      ensures forall r: PrincipalPermissions :: r in permissions.Values ==> r in old(permissions.Values) || fresh(r)
    {
      hide ApplyEvents;
      EventsAppend(log, Granted(principalID, rule));
      if principalID !in permissions {
        var created := new PrincipalPermissions(principalID, []);
        permissions := permissions[principalID := created];
      }
      var bundle := permissions[principalID];
      bundle.rules := bundle.rules + [rule];
      log := log + [Granted(principalID, rule)];
      assert forall q :: q in permissions && q != principalID ==> permissions[q] != bundle;
    }

    method RevokeAll(principalID: string)
      requires Valid()
      modifies this
      ensures Valid() && log == old(log) + [RevokedAll(principalID)]
      ensures Contents() == ApplyEvent(old(Contents()), RevokedAll(principalID))
      ensures permissions.Values <= old(permissions.Values)
    {
      hide ApplyEvents;
      EventsAppend(log, RevokedAll(principalID));
      permissions := permissions - {principalID};
      log := log + [RevokedAll(principalID)];
    }
  }
}
