/**
  The request as Express hands it from middleware to middleware: one object
  per request whose body and `locals.user` slot are changed in place.
  validateUserExistence and extractUserId are the two validators that write;
  each may change only its own field.
 */
module RequestState {
  import opened JsValue
  import opened UsersMiddleware
  import opened MiddlewareChain

  class RequestContext {
    /** `req.params.userId` */
    const userId: string
    /** `req.body` */
    var body: map<string, Value>
    /** `res.locals.user` */
    var user: Option<User>

    /** A new request: `res.locals` starts empty. */
    constructor (userId: string, body: map<string, Value>)
      ensures this.userId == userId && this.body == body && this.user == None
    {
      this.userId := userId;
      this.body := body;
      this.user := None;
    }

    /** The request as a value. */
    function Snapshot(): Request
      reads this
    {
      Request(userId, body, user)
    }

    /** validateUserExistence: fills `locals.user` from `readById`, or answers 404. */
    method ValidateUserExistence(service: UserService) returns (o: Outcome)
      modifies this`user
      ensures Step(o, Snapshot()) == UserExistenceStep(service, old(Snapshot()))
    {
      var found := ReadById(service, userId);
      if found.Some? {
        user := found;
        o := Continue;
      } else {
        o := Respond(404, ErrorBody(NotFound(userId)));
      }
    }

    /** extractUserId: copies the path's id into `body.id` and continues. */
    method ExtractUserId() returns (o: Outcome)
      modifies this`body
      ensures Step(o, Snapshot()) == ExtractUserIdStep(old(Snapshot()))
    {
      body := body["id" := Str(userId)];
      o := Continue;
    }

    /** Runs one validator on this request. */
    method Validate(v: Validator, service: UserService) returns (o: Outcome)
      requires Ready(v, Snapshot())
      modifies this`body, this`user
      ensures Step(o, Snapshot()) == Apply(v, service, old(Snapshot()))
    {
      match v
      case EmailUniqueness => o := ValidateEmailUniqueness(service, Snapshot());
      case UserExistence => o := ValidateUserExistence(service);
      case EmailMatchesUserId => o := ValidateUserEmailMatchesUserId(Snapshot());
      case PatchEmail => o := ValidatePatchEmail(Snapshot());
      case ExtractId => o := ExtractUserId();
      case CantChangePermission => o := UserCantChangePermission(Snapshot());
    }

    /**
      Runs a route's validators in order until one responds; reports that
      response and its index, or that the controller is reached.
     */
    method RunChain(chain: seq<Validator>, service: UserService) returns (verdict: Verdict)
      requires Safe(chain, service, Snapshot())
      modifies this`body, this`user
      ensures RunResult(verdict, Snapshot()) == Run(chain, service, old(Snapshot()))
    {
      var i := 0;
      while i < |chain|
        invariant 0 <= i <= |chain|
        invariant Safe(chain[i..], service, Snapshot())
        invariant Run(chain, service, old(Snapshot())) == Shifted(i, Run(chain[i..], service, Snapshot()))
      {
        assert chain[i..][0] == chain[i];
        assert chain[i..][1..] == chain[i + 1..];
        var o := Validate(chain[i], service);
        if o.Respond? {
          return Halted(i, o.status, o.payload);
        }
        i := i + 1;
      }
      verdict := Reached;
    }
  }
}
