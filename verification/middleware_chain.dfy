/**
  A route's middleware list, run the way Express runs it: one validator at a
  time, each on the request the previous one left, stopping at the first that
  responds. Reaching the end means the request is handed to the controller.
 */
module MiddlewareChain {
  import opened JsValue
  import opened UsersMiddleware

  /** The six validators of `UsersMiddleware`. */
  datatype Validator =
    | EmailUniqueness
    | UserExistence
    | EmailMatchesUserId
    | PatchEmail
    | ExtractId
    | CantChangePermission

  /** The validators that may read `locals.user`. */
  predicate ReadsStoredUser(v: Validator) {
    v == EmailMatchesUserId || v == PatchEmail || v == CantChangePermission
  }

  /** `v` can run on `req` without dereferencing a missing `locals.user`. */
  predicate Ready(v: Validator, req: Request) {
    match v
    case EmailMatchesUserId => req.user.Some?
    case PatchEmail => Truthy(Get(req.body, "email")) ==> req.user.Some?
    case CantChangePermission => "permissionFlags" in req.body ==> req.user.Some?
    case _ => true
  }

  /** One validator on one request. */
  function Apply(v: Validator, service: UserService, req: Request): (s: Step)
    requires Ready(v, req)
    ensures s.req.userId == req.userId
    ensures v != UserExistence ==> s.req.user == req.user
    ensures v != ExtractId ==> s.req.body == req.body
    ensures v != UserExistence && v != ExtractId ==> s.req == req
    ensures v == UserExistence && s.outcome == Continue ==> s.req.user.Some?
    ensures s.outcome.Respond? ==> s.outcome.status == 400 || s.outcome.status == 404
  {
    match v
    case EmailUniqueness => Step(ValidateEmailUniqueness(service, req), req)
    case UserExistence => UserExistenceStep(service, req)
    case EmailMatchesUserId => Step(ValidateUserEmailMatchesUserId(req), req)
    case PatchEmail => Step(ValidatePatchEmail(req), req)
    case ExtractId => ExtractUserIdStep(req)
    case CantChangePermission => Step(UserCantChangePermission(req), req)
  }

  /** Every validator the chain reaches finds `locals.user` filled whenever it needs it. */
  predicate Safe(chain: seq<Validator>, service: UserService, req: Request)
    decreases |chain|
  {
    chain == [] ||
    (Ready(chain[0], req) &&
     var s := Apply(chain[0], service, req);
     s.outcome == Continue ==> Safe(chain[1..], service, s.req))
  }

  /** How a chain ends: handed to the controller, or answered by the validator at index `at`. */
  datatype Verdict = Reached | Halted(at: nat, status: nat, payload: Value)

  datatype RunResult = RunResult(verdict: Verdict, final: Request)

  /** `r` with its halting index moved `k` places on, for a chain that had `k` validators before it. */
  function Shifted(k: nat, r: RunResult): RunResult {
    match r.verdict
    case Reached => r
    case Halted(at, status, payload) => RunResult(Halted(at + k, status, payload), r.final)
  }

  /** The chain run on `req`. */
  function Run(chain: seq<Validator>, service: UserService, req: Request): (r: RunResult)
    requires Safe(chain, service, req)
    ensures r.verdict.Halted? ==> r.verdict.at < |chain|
    ensures r.verdict.Halted? ==> r.verdict.status == 400 || r.verdict.status == 404
    ensures r.final.userId == req.userId
    decreases |chain|
  {
    if chain == [] then RunResult(Reached, req)
    else
      var s := Apply(chain[0], service, req);
      match s.outcome
      case Respond(status, payload) => RunResult(Halted(0, status, payload), s.req)
      case Continue => Shifted(1, Run(chain[1..], service, s.req))
  }

  /**
    The route-level ordering rule: every validator that reads `locals.user`
    comes after validateUserExistence, unless the slot is filled already.
   */
  predicate WellOrdered(chain: seq<Validator>, resolved: bool)
    decreases |chain|
  {
    chain == [] ||
    ((ReadsStoredUser(chain[0]) ==> resolved) &&
     WellOrdered(chain[1..], resolved || chain[0] == UserExistence))
  }

  /** A chain that puts validateUserExistence first is safe on every request and every service. */
  lemma {:induction false} WellOrderedIsSafe(chain: seq<Validator>, service: UserService, req: Request)
    requires WellOrdered(chain, req.user.Some?)
    ensures Safe(chain, service, req)
    decreases |chain|
  {
    if chain != [] {
      var s := Apply(chain[0], service, req);
      if s.outcome == Continue {
        WellOrderedIsSafe(chain[1..], service, s.req);
      }
    }
  }

  /** Running `a + b` is running `a` and, only if every validator of `a` continued, then `b`. */
  lemma {:induction false} RunAppend(a: seq<Validator>, b: seq<Validator>, service: UserService, req: Request)
    requires Safe(a + b, service, req)
    ensures Safe(a, service, req)
    ensures Run(a, service, req).verdict.Halted? ==> Run(a + b, service, req) == Run(a, service, req)
    ensures Run(a, service, req).verdict.Reached? ==>
              Safe(b, service, Run(a, service, req).final) &&
              Run(a + b, service, req) == Shifted(|a|, Run(b, service, Run(a, service, req).final))
    decreases |a|
  {
    if a == [] {
      assert a + b == b;
    } else {
      assert (a + b)[0] == a[0];
      assert (a + b)[1..] == a[1..] + b;
      var s := Apply(a[0], service, req);
      if s.outcome == Continue {
        RunAppend(a[1..], b, service, s.req);
      }
    }
  }

  /**
    A chain stops at its first response: when it halts at index k, every
    validator before k continued and validator k gave exactly that response.
   */
  lemma {:induction false} HaltsAtFirstResponse(chain: seq<Validator>, service: UserService, req: Request)
    requires Safe(chain, service, req)
    requires Run(chain, service, req).verdict.Halted?
    ensures var h := Run(chain, service, req).verdict;
            && Safe(chain[..h.at], service, req)
            && Run(chain[..h.at], service, req).verdict == Reached
            && Ready(chain[h.at], Run(chain[..h.at], service, req).final)
            && Apply(chain[h.at], service, Run(chain[..h.at], service, req).final).outcome
               == Respond(h.status, h.payload)
    decreases |chain|
  {
    var h := Run(chain, service, req).verdict;
    var s := Apply(chain[0], service, req);
    if s.outcome == Continue {
      var rest := Run(chain[1..], service, s.req);
      HaltsAtFirstResponse(chain[1..], service, s.req);
      var k := rest.verdict.at;
      assert h.at == k + 1;
      assert chain[..h.at][0] == chain[0];
      assert chain[..h.at][1..] == chain[1..][..k];
    } else {
      assert chain[..h.at] == [];
    }
  }

  /** A chain that reaches the controller has every one of its validators continue. */
  lemma {:induction false} ReachedMeansAllContinued(chain: seq<Validator>, service: UserService, req: Request, i: nat)
    requires Safe(chain, service, req)
    requires Run(chain, service, req).verdict == Reached
    requires i < |chain|
    ensures Safe(chain[..i], service, req)
    ensures Run(chain[..i], service, req).verdict == Reached
    ensures Ready(chain[i], Run(chain[..i], service, req).final)
    ensures Apply(chain[i], service, Run(chain[..i], service, req).final).outcome == Continue
    decreases |chain|
  {
    var s := Apply(chain[0], service, req);
    if i > 0 {
      ReachedMeansAllContinued(chain[1..], service, s.req, i - 1);
      assert chain[..i][0] == chain[0];
      assert chain[..i][1..] == chain[1..][..i - 1];
      assert chain[i] == chain[1..][i - 1];
    } else {
      assert chain[..0] == [];
    }
  }

  /**
    Only validateUserExistence writes `locals.user`, only extractUserId writes
    the body, and nothing writes the path parameter.
   */
  lemma {:induction false} RunFrame(chain: seq<Validator>, service: UserService, req: Request)
    requires Safe(chain, service, req)
    ensures Run(chain, service, req).final.userId == req.userId
    ensures UserExistence !in chain ==> Run(chain, service, req).final.user == req.user
    ensures ExtractId !in chain ==> Run(chain, service, req).final.body == req.body
    decreases |chain|
  {
    if chain != [] {
      var s := Apply(chain[0], service, req);
      if s.outcome == Continue {
        RunFrame(chain[1..], service, s.req);
        assert forall v :: v in chain[1..] ==> v in chain;
      }
    }
  }

  /** The service answers readById(id) with the user whose `_id` is id. */
  predicate ConsistentIds(service: UserService) {
    forall id :: id in service.byId ==> service.byId[id]._id == id
  }

  /**
    After validateUserExistence has stored the user read by the path's id,
    the ownership check compares that user's `_id` with the same id: with a
    consistent service it always continues.
   */
  lemma OwnershipAfterExistence(service: UserService, req: Request)
    requires ConsistentIds(service)
    ensures Safe([UserExistence, EmailMatchesUserId], service, req)
    ensures Run([UserExistence, EmailMatchesUserId], service, req).verdict ==
              if req.userId in service.byId then Reached
              else Halted(0, 404, ErrorBody(NotFound(req.userId)))
  {
  }

  /**
    With a consistent service, neither validateUserEmailMatchesUserId nor
    validatePatchEmail ever refuses, in any chain: the only user that can be in
    `locals.user` is the one read by the path's id, whose `_id` is that id.
    A request starts with `locals.user` empty, which meets the second requires.
   */
  lemma {:induction false} OwnershipCheckNeverRefuses(chain: seq<Validator>, service: UserService, req: Request)
    requires ConsistentIds(service)
    requires req.user.Some? ==> req.user.value._id == req.userId
    requires Safe(chain, service, req)
    ensures var v := Run(chain, service, req).verdict;
            v.Halted? ==> chain[v.at] != EmailMatchesUserId && chain[v.at] != PatchEmail
    decreases |chain|
  {
    if chain != [] {
      var s := Apply(chain[0], service, req);
      if s.outcome == Continue {
        OwnershipCheckNeverRefuses(chain[1..], service, s.req);
      }
    }
  }

  /**
    A request whose path id is unknown is answered 404 by a leading
    validateUserExistence, before any later validator or the controller runs.
   */
  lemma UnknownUserStopsChain(rest: seq<Validator>, service: UserService, req: Request)
    requires req.userId !in service.byId
    ensures Safe([UserExistence] + rest, service, req)
    ensures Run([UserExistence] + rest, service, req) ==
              RunResult(Halted(0, 404, ErrorBody(NotFound(req.userId))), req)
  {
  }

  /**
    A PATCH whose body carries an email, on a path whose stored user has a
    different `_id`, is refused by the ownership check at index 1 with
    `{error: "Invalid email"}`, before the controller runs. Its precondition
    needs a service whose `readById(id)` returns a user with `_id != id`; with
    a consistent service this cannot happen (OwnershipCheckNeverRefuses).
   */
  lemma ForeignOwnerStopsPatch(rest: seq<Validator>, service: UserService, req: Request)
    requires req.userId in service.byId && service.byId[req.userId]._id != req.userId
    requires Truthy(Get(req.body, "email"))
    ensures Safe([UserExistence, PatchEmail] + rest, service, req)
    ensures Run([UserExistence, PatchEmail] + rest, service, req) ==
              RunResult(Halted(1, 400, ErrorBody(InvalidEmail)), req.(user := Some(service.byId[req.userId])))
  {
  }
}
