/** The policy decision point (authz/engine.go): named policies over registered requirement handlers. */
module PolicyEngine {
  import Parc

  /** A requirement is known to the engine by its type name only. */
  datatype Requirement = Requirement(kind: string, payload: string)

  datatype Policy = Policy(name: string, requirements: seq<Requirement>)

  datatype Answer = Allowed(yes: bool) | HandlerError(message: string)

  type Handler = Requirement -> Answer

  datatype Error = NoError | NilPrincipal | PolicyNotFound | FromHandler(message: string)

  datatype Result = Result(decision: Parc.Decision, error: Error)

  predicate Passes(handlers: map<string, Handler>, req: Requirement) {
    req.kind in handlers && handlers[req.kind](req) == Allowed(true)
  }

  /** The refusal for the first requirement that does not pass. */
  function Refusal(handlers: map<string, Handler>, req: Requirement): Result
    requires !Passes(handlers, req)
  {
    if req.kind !in handlers then
      Result(Parc.Decision(false, "no handler registered for requirement type '" + req.kind + "'"), NoError)
    else
      match handlers[req.kind](req)
      case HandlerError(message) => Result(Parc.Decision(false, message), FromHandler(message))
      case Allowed(_) => Result(Parc.Decision(false, "requirement '" + req.kind + "' failed"), NoError)
  }

  ghost predicate FirstFailure(handlers: map<string, Handler>, reqs: seq<Requirement>, i: nat) {
    && i < |reqs| && !Passes(handlers, reqs[i])
    && forall j :: 0 <= j < i ==> Passes(handlers, reqs[j])
  }

  class Engine {
    var policies: map<string, Policy>
    var handlers: map<string, Handler>

    constructor ()
      ensures policies == map[] && handlers == map[]
    {
      policies, handlers := map[], map[];
    }

    method RegisterPolicy(policy: Policy)
      modifies this`policies
      ensures policies == old(policies)[policy.name := policy]
    {
      policies := policies[policy.name := policy];
    }

    method RegisterHandler(kind: string, handler: Handler)
      modifies this`handlers
      ensures handlers == old(handlers)[kind := handler]
    {
      handlers := handlers[kind := handler];
    }

    /** Allowed iff every requirement has a handler that answers true; otherwise the first failure is reported. */
    method Evaluate(policy: Policy, hasPrincipal: bool) returns (r: Result)
      ensures r.decision.allowed <==> hasPrincipal && forall req :: req in policy.requirements ==> Passes(handlers, req)
      ensures r.decision.allowed ==> r == Result(Parc.Decision(true, ""), NoError)
      ensures !hasPrincipal ==> r == Result(Parc.Decision(false, "principal is nil"), NilPrincipal)
      ensures hasPrincipal && !r.decision.allowed ==>
        exists i: nat ::
          FirstFailure(handlers, policy.requirements, i) && r == Refusal(handlers, policy.requirements[i])
    {
      if !hasPrincipal {
        return Result(Parc.Decision(false, "principal is nil"), NilPrincipal);
      }
      for i := 0 to |policy.requirements|
        invariant forall j :: 0 <= j < i ==> Passes(handlers, policy.requirements[j])
      {
        var req := policy.requirements[i];
        assert req in policy.requirements;
        assert !Passes(handlers, req) ==> FirstFailure(handlers, policy.requirements, i);
        if req.kind !in handlers {
          return Result(Parc.Decision(false, "no handler registered for requirement type '" + req.kind + "'"), NoError);
        }
        match handlers[req.kind](req) {
          case HandlerError(message) =>
            return Result(Parc.Decision(false, message), FromHandler(message));
          case Allowed(yes) =>
            if !yes {
              return Result(Parc.Decision(false, "requirement '" + req.kind + "' failed"), NoError);
            }
        }
      }
      return Result(Parc.Decision(true, ""), NoError);
    }

    method EvaluatePolicy(name: string, hasPrincipal: bool) returns (r: Result)
      ensures name !in policies ==>
        r == Result(Parc.Decision(false, "policy '" + name + "' not found"), PolicyNotFound)
      ensures r.decision.allowed <==>
        name in policies && hasPrincipal && forall req :: req in policies[name].requirements ==> Passes(handlers, req)
      ensures r.decision.allowed ==> r == Result(Parc.Decision(true, ""), NoError)
      ensures name in policies && !hasPrincipal ==> r == Result(Parc.Decision(false, "principal is nil"), NilPrincipal)
      ensures name in policies && hasPrincipal && !r.decision.allowed ==>
        exists i: nat ::
          FirstFailure(handlers, policies[name].requirements, i) &&
          r == Refusal(handlers, policies[name].requirements[i])
    {
      if name !in policies {
        return Result(Parc.Decision(false, "policy '" + name + "' not found"), PolicyNotFound);
      }
      r := Evaluate(policies[name], hasPrincipal);
    }
  }
}
