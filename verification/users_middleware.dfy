/**
  The request validators of `UsersMiddleware`, each as a decision on one
  request. A validator either passes the request on (`next()`) or ends it
  with a status code and a JSON error body; the two that also write to the
  request are given here as the function of the old request that they
  compute, and as methods on a mutable context in module RequestState.
 */
module UsersMiddleware {
  import opened JsValue

  datatype Option<T> = None | Some(value: T)

  /** A user record as the user service returns it. */
  datatype User = User(_id: string, email: string, permissionFlags: int)

  /**
    The user service, seen only through its two lookups: `getUserByEmail`
    answers for the value of `body.email` (which may be `undefined`),
    `readById` for the path parameter. A key that is absent means "no user".
   */
  datatype UserService = UserService(byEmail: map<Value, User>, byId: map<string, User>)

  function GetUserByEmail(service: UserService, email: Value): Option<User> {
    if email in service.byEmail then Some(service.byEmail[email]) else None
  }

  function ReadById(service: UserService, id: string): Option<User> {
    if id in service.byId then Some(service.byId[id]) else None
  }

  /**
    What the validators see of one request: the path parameter
    `params.userId`, the parsed JSON body, and the slot `res.locals.user`.
   */
  datatype Request = Request(userId: string, body: map<string, Value>, user: Option<User>)

  /** `next()`, or `res.status(status).send(payload)`. */
  datatype Outcome = Continue | Respond(status: nat, payload: Value)

  /** The outcome of a validator together with the request it leaves behind. */
  datatype Step = Step(outcome: Outcome, req: Request)

  const EmailTaken := "A user with the given email already exists"
  const InvalidEmail := "Invalid email"
  const PermissionChange := "User cannot changer permission flags"

  /** `{error: msg}` */
  function ErrorBody(msg: string): Value {
    Obj(map["error" := Str(msg)])
  }

  /** `{errors: [msgs...]}` */
  function ErrorsBody(msgs: seq<string>): Value {
    Obj(map["errors" := Arr(seq(|msgs|, i requires 0 <= i < |msgs| => Str(msgs[i])))])
  }

  /** The message of the 404 response: `User ${userId} not found`. */
  function NotFound(userId: string): string {
    "User " + userId + " not found"
  }

  /** validateEmailUniqueness: refuse a body whose `email` already belongs to a user. */
  function ValidateEmailUniqueness(service: UserService, req: Request): (o: Outcome)
    ensures o == Continue <==> GetUserByEmail(service, Get(req.body, "email")) == None
    ensures o != Continue ==> o == Respond(400, ErrorBody(EmailTaken))
  {
    var user := GetUserByEmail(service, Get(req.body, "email"));
    if user.Some? then Respond(400, ErrorBody(EmailTaken)) else Continue
  }

  /**
    validateUserExistence: look the path's user up; when found, store it in
    `locals.user` and continue, otherwise answer 404 and leave the request as it was.
   */
  function UserExistenceStep(service: UserService, req: Request): (s: Step)
    ensures s.outcome == Continue <==> req.userId in service.byId
    ensures s.outcome == Continue ==>
              s.req.user == Some(service.byId[req.userId]) &&
              s.req.body == req.body && s.req.userId == req.userId
    ensures s.outcome != Continue ==>
              s.outcome == Respond(404, ErrorBody(NotFound(req.userId))) && s.req == req
  {
    match ReadById(service, req.userId)
    case Some(user) => Step(Continue, req.(user := Some(user)))
    case None => Step(Respond(404, ErrorBody(NotFound(req.userId))), req)
  }

  /**
    validateUserEmailMatchesUserId: the user in `locals.user` must carry the
    path's id in `_id`. Reading `_id` of a missing `locals.user` throws, so
    the slot must be filled.
   */
  function ValidateUserEmailMatchesUserId(req: Request): (o: Outcome)
    requires req.user.Some?
    ensures o == Continue <==> req.user.value._id == req.userId
    ensures o != Continue ==> o == Respond(400, ErrorBody(InvalidEmail))
  {
    if req.user.value._id == req.userId then Continue else Respond(400, ErrorBody(InvalidEmail))
  }

  /**
    validatePatchEmail: only a truthy `body.email` is checked, and then
    exactly as validateUserEmailMatchesUserId checks it.
   */
  function ValidatePatchEmail(req: Request): (o: Outcome)
    requires Truthy(Get(req.body, "email")) ==> req.user.Some?
    ensures !Truthy(Get(req.body, "email")) ==> o == Continue
    ensures Truthy(Get(req.body, "email")) ==> o == ValidateUserEmailMatchesUserId(req)
  {
    if Truthy(Get(req.body, "email")) then ValidateUserEmailMatchesUserId(req) else Continue
  }

  /** extractUserId: the request after `body.id` is set to the path's id. */
  function ExtractUserIdStep(req: Request): (s: Step)
    ensures s.outcome == Continue
    ensures "id" in s.req.body && s.req.body["id"] == Str(req.userId)
    ensures forall k :: k != "id" ==> (k in s.req.body <==> k in req.body)
    ensures forall k :: k != "id" && k in req.body ==> s.req.body[k] == req.body[k]
    ensures s.req.userId == req.userId && s.req.user == req.user
  {
    Step(Continue, req.(body := req.body["id" := Str(req.userId)]))
  }

  /**
    userCantChangePermission: a body that names `permissionFlags` must give
    exactly the stored flags (`!==` against a number holds for every value
    but that number). The stored user is only read when the key is present.
   */
  function UserCantChangePermission(req: Request): (o: Outcome)
    requires "permissionFlags" in req.body ==> req.user.Some?
    ensures o != Continue <==>
              "permissionFlags" in req.body &&
              req.body["permissionFlags"] != Num(req.user.value.permissionFlags)
    ensures o != Continue ==> o == Respond(400, ErrorsBody([PermissionChange]))
  {
    if "permissionFlags" in req.body && req.body["permissionFlags"] != Num(req.user.value.permissionFlags)
    then Respond(400, ErrorsBody([PermissionChange]))
    else Continue
  }

  /** Setting `body.id` twice is setting it once. */
  lemma ExtractUserIdIdempotent(req: Request)
    ensures ExtractUserIdStep(ExtractUserIdStep(req).req) == ExtractUserIdStep(req)
  {
  }

  /** validatePatchEmail continues exactly when the email is falsy or the stored user's `_id` is the path's id. */
  lemma PatchEmailContinuesIff(req: Request)
    requires Truthy(Get(req.body, "email")) ==> req.user.Some?
    ensures ValidatePatchEmail(req) == Continue <==>
              !Truthy(Get(req.body, "email")) || req.user.value._id == req.userId
  {
  }
}
