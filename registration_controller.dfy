// The REST registration controller (src/REST/RegistrationController.php):
// the guard chain of POST /fpse/v1/register with its status codes, the
// view permission and the read of one registration, and the password
// masking applied before a payload is logged. WordPress's answers (the
// nonce check, JSON decoding, `home_url`, an exception thrown inside the
// user service) are fields of `Env` and `Request`.

module RegistrationController {
  import opened Php
  import RegistrationDto
  import ProfileResolver
  import PermissionService
  import RateLimit
  import Events
  import UserService

  /** What `json_decode` produced: a value, or the message of `json_last_error_msg`. */
  datatype JsonBody = Decoded(value: Value) | JsonError(message: string)

  /** The parts of the request the handler reads: the sanitised `fpse_nonce` parameter and the body. */
  datatype Request = Request(nonce: Option<string>, body: JsonBody)

  /**
   * What escapes `createOrUpdate`: an `\Exception`, which `handleRegister`
   * catches, or an `\Error` (a `TypeError`, a call to an undefined method),
   * which `catch (\Exception)` lets through.
   */
  datatype Thrown = Exception(message: string) | Error(message: string)

  /**
   * The configuration and the answers of code outside the model:
   * `nonceValid` is `wp_verify_nonce`, `serviceThrows` what escapes
   * `createOrUpdate` (none when it returns), `createError`
   * what `wp_create_user` reports, `wpDebug` the WP_DEBUG constant, `homeUrl`
   * what `home_url('/')` returns, `insertOk` whether event inserts succeed.
   */
  datatype Env = Env(perms: PermissionService.Permissions, profiles: ProfileResolver.Profiles, states: map<string, string>,
                     flags: RateLimit.Flags, server: RateLimit.Server, sanitize: string -> string, validIp: string -> bool,
                     nonceValid: string -> bool, createError: Option<string>, serviceThrows: Option<Thrown>,
                     wpDebug: bool, homeUrl: string, now: string, insertOk: bool)

  /** A `WP_REST_Response`: the status and the data array. */
  datatype Response = Response(status: int, body: Entries)

  /** The handler either answers, or dies with an uncaught PHP error. */
  datatype Outcome = Respond(response: Response) | Fatal

  const DisabledMessage: string := "Registros não estão habilitados"
  const RateLimitedMessage: string := "Limite de requisições excedido. Tente novamente mais tarde."
  const BadNonceMessage: string := "Token de segurança inválido ou expirado"
  const BadJsonPrefix: string := "JSON inválido: "
  const ProfileFailedPrefix: string := "Validação de perfil falhou: "
  const UnknownStateMessage: string := "Estado inválido"
  const ServiceErrorPrefix: string := "Erro ao criar usuário: "
  const WelcomeMessage: string := "Cadastro realizado com sucesso! Bem-vindo ao Fortalece PSE."

  /** `['success' => false, 'message' => $message]` with the given status. */
  function Failure(status: int, message: string): Response
  {
    Response(status, [("success", Bool(false)), ("message", Str(message))])
  }

  /** `!$nonce`: a missing, empty or "0" parameter. */
  predicate Falsy(nonce: Option<string>)
  {
    nonce.None? || nonce.value == "" || nonce.value == "0"
  }

  /** `$body ?? []` as an array; any other decoded value makes `maskSensitiveFields(array ...)` raise a TypeError. */
  function BodyEntries(v: Value): Option<Entries>
  {
    match v
    case Null => Some([])
    case Arr(es) => Some(es)
    case _ => None
  }

  /** The key an array lookup uses for a value (`$states[$dto->estado]`); an array has none. */
  function ArrayKey(v: Value): Option<string>
  {
    match v
    case Str(s) => Some(s)
    case Int(i) => Some(IntText(i))
    case Bool(b) => Some(if b then "1" else "0")
    case Null => Some("")
    case Arr(_) => None
  }

  /** `isset($states[$dto->estado])`. */
  predicate KnownState(states: map<string, string>, estado: Value)
  {
    ArrayKey(estado).Some? && ArrayKey(estado).value in states
  }

  /** The profile id as the resolver receives it in a string context. */
  function PerfilOf(dto: RegistrationDto.Dto): string
  {
    UserService.StringCast(RegistrationDto.Prop(dto, "perfilUsuario"))
  }

  function EstadoOf(dto: RegistrationDto.Dto): string
  {
    UserService.StringCast(RegistrationDto.Prop(dto, "estado"))
  }

  /** `['error' => $message]`, the errors of the validation-error events the controller records. */
  function ErrorEntry(message: string): Value
  {
    Arr([("error", Str(message))])
  }

  /** The rate limiter's decision for the register endpoint, against the given counters. */
  function RegisterLimit(env: Env, transients: map<string, int>): RateLimit.Decision
  {
    RateLimit.LimitDecision(transients, env.flags, RateLimit.ClientIp(env.server, env.sanitize, env.validIp),
                            env.sanitize("register"), PermissionService.GetRateLimit(env.perms, env.sanitize, "register"))
  }

  /** Where the guard chain of `handleRegister` stops; `Accepted` is the call into the user service. */
  datatype Stage =
    | Disabled
    | RateLimited
    | BadNonce
    | BadJson(message: string)
    | NotAnArray
    | ProfileInvalid(dto: RegistrationDto.Dto, errors: seq<string>)
    | UnknownState(dto: RegistrationDto.Dto)
    | Accepted(dto: RegistrationDto.Dto)

  /**
   * The guards of `handleRegister`, in the order the code runs them:
   * registration enabled, the rate limit, the nonce, the JSON body, the
   * profile, the state.
   */
  function Gate(env: Env, transients: map<string, int>, req: Request): Stage
  {
    if !PermissionService.CanRegister(env.perms) then Disabled
    else if !RegisterLimit(env, transients).allowed then RateLimited
    else Screening(env, req)
  }

  /** The guards after the rate limit: the nonce, the JSON body, the profile, the state. */
  function Screening(env: Env, req: Request): Stage
  {
    if Falsy(req.nonce) || !env.nonceValid(req.nonce.value) then BadNonce
    else match req.body
      case JsonError(message) => BadJson(message)
      case Decoded(v) =>
        match BodyEntries(v)
        case None => NotAnArray
        case Some(data) => Checking(env, RegistrationDto.DtoOf(data))
  }

  /** The profile and state guards on the parsed registration. */
  function Checking(env: Env, dto: RegistrationDto.Dto): Stage
  {
    var check := ProfileResolver.ProfileValidation(env.profiles, env.sanitize, PerfilOf(dto), RegistrationDto.ArrayOf(dto));
    if !check.valid then ProfileInvalid(dto, check.errors)
    else if !KnownState(env.states, RegistrationDto.Prop(dto, "estado")) then UnknownState(dto)
    else Accepted(dto)
  }

  /** The response of a stage that stops the chain before the user service. */
  function Rejection(stage: Stage): Outcome
    requires !stage.Accepted?
  {
    match stage
    case Disabled => Respond(Failure(403, DisabledMessage))
    case RateLimited => Respond(Failure(429, RateLimitedMessage))
    case BadNonce => Respond(Failure(400, BadNonceMessage))
    case BadJson(message) => Respond(Failure(400, BadJsonPrefix + message))
    case NotAnArray => Fatal
    case ProfileInvalid(dto, errors) =>
      Respond(Response(400, [("success", Bool(false)), ("message", Str(ProfileFailedPrefix + Join(errors, ", "))),
                             ("errors", ListValue(errors)),
                             ("debug", Arr([("profile", RegistrationDto.Prop(dto, "perfilUsuario")),
                                            ("received_fields", ListValue(Keys(RegistrationDto.ArrayOf(dto))))]))]))
    case UnknownState(_) => Respond(Failure(400, UnknownStateMessage))
  }

  /** The validation-error event a rejecting stage records, as `(perfil, estado, errors)`; none for the others. */
  function RejectionEvent(stage: Stage): Option<(string, string, Value)>
  {
    match stage
    case BadNonce => Some(("unknown", "unknown", ErrorEntry("Invalid or missing nonce")))
    case ProfileInvalid(dto, errors) =>
      Some((UserService.OrUnknown(RegistrationDto.Prop(dto, "perfilUsuario")),
            UserService.OrUnknown(RegistrationDto.Prop(dto, "estado")), ListValue(errors)))
    case UnknownState(dto) => Some((PerfilOf(dto), EstadoOf(dto), ErrorEntry("Invalid state code")))
    case _ => None
  }

  /** The rows a validation error appends: one, when the insert succeeds. */
  function ErrorRows(env: Env, id: nat, e: Option<(string, string, Value)>): seq<Events.EventRow>
  {
    if e.Some? && env.insertOk
    then [Events.NewRow(id, 0, "validation_error", e.value.0, e.value.1, Events.ErrorsMetadata(e.value.2), env.sanitize, env.now)]
    else []
  }

  /** The response once the user service has answered `r` (or thrown an exception the handler catches). */
  function ServiceResponse(env: Env, dto: RegistrationDto.Dto, r: UserService.ServiceResult): Response
  {
    if env.serviceThrows.Some? then
      Failure(500, ServiceErrorPrefix + if env.wpDebug then env.serviceThrows.value.message else "Erro interno")
    else if !r.success then Failure(400, r.message)
    else Response(201, [("success", Bool(true)), ("message", Str(WelcomeMessage)),
                        ("user_id", match r.userId case Some(id) => Int(id) case None => Null),
                        ("perfil", RegistrationDto.Prop(dto, "perfilUsuario")), ("estado", RegistrationDto.Prop(dto, "estado")),
                        ("redirect_url", Str(env.homeUrl))])
  }

  /** How `handleRegister` ends past its guards: an uncaught `\Error` is fatal, anything else is answered. */
  function ServiceOutcome(env: Env, dto: RegistrationDto.Dto, r: UserService.ServiceResult): Outcome
  {
    if env.serviceThrows.Some? && env.serviceThrows.value.Error? then Fatal else Respond(ServiceResponse(env, dto, r))
  }

  /** The event rows following a successful registration: profile and state assigned, when the inserts succeed. */
  function AssignedRows(env: Env, dto: RegistrationDto.Dto, userId: nat, id: nat): seq<Events.EventRow>
  {
    if env.insertOk
    then [Events.NewRow(id, userId, "profile_assigned", PerfilOf(dto), EstadoOf(dto), Arr([]), env.sanitize, env.now),
          Events.NewRow(id + 1, userId, "state_assigned", PerfilOf(dto), EstadoOf(dto), Arr([]), env.sanitize, env.now)]
    else []
  }

  /** `maskSensitiveFields`' rule for one key: a set, truthy value becomes '***'. */
  function MaskKey(payload: Entries, key: string): (r: Entries)
  {
    if Isset(payload, key) && !EmptyValue(Get(payload, key)) then Put(payload, key, Str("***")) else payload
  }

  const SensitiveKeys: seq<string> := ["senha_login", "senha"]

  /** What `maskSensitiveFields` returns. */
  function Masked(payload: Entries): Entries
  {
    MaskKey(MaskKey(payload, SensitiveKeys[0]), SensitiveKeys[1])
  }

  /** `maskSensitiveFields`: both password keys, in turn, on a copy. */
  method MaskSensitiveFields(payload: Entries) returns (masked: Entries)
    ensures masked == Masked(payload)
  {
    masked := payload;
    var i := 0;
    while i < |SensitiveKeys|
      invariant 0 <= i <= |SensitiveKeys|
      invariant masked == if i == 0 then payload else if i == 1 then MaskKey(payload, SensitiveKeys[0]) else Masked(payload)
    {
      var key := SensitiveKeys[i];
      if Isset(masked, key) && !EmptyValue(Get(masked, key)) {
        masked := Put(masked, key, Str("***"));
      }
      i := i + 1;
    }
  }

  /**
   * The masked payload has the same keys in the same order; a truthy
   * password under either key reads '***'; every other entry, and a falsy
   * password, is what it was.
   */
  lemma MaskedFacts(payload: Entries)
    ensures Keys(Masked(payload)) == Keys(payload)
    ensures forall k :: k in SensitiveKeys && Isset(payload, k) && !EmptyValue(Get(payload, k)) ==> Lookup(Masked(payload), k) == Some(Str("***"))
    ensures forall k :: k in SensitiveKeys && !(Isset(payload, k) && !EmptyValue(Get(payload, k))) ==> Lookup(Masked(payload), k) == Lookup(payload, k)
    ensures forall k :: k !in SensitiveKeys ==> Lookup(Masked(payload), k) == Lookup(payload, k)
  {
    var once := MaskKey(payload, SensitiveKeys[0]);
    assert Keys(once) == Keys(payload) by {
      if Isset(payload, SensitiveKeys[0]) && !EmptyValue(Get(payload, SensitiveKeys[0])) {
        IssetKey(payload, SensitiveKeys[0]);
      }
    }
    if Isset(once, SensitiveKeys[1]) && !EmptyValue(Get(once, SensitiveKeys[1])) {
      IssetKey(once, SensitiveKeys[1]);
    }
    forall k | k in SensitiveKeys && Isset(payload, k) && !EmptyValue(Get(payload, k))
      ensures Lookup(Masked(payload), k) == Some(Str("***"))
    {
      if k == SensitiveKeys[1] {
        assert Lookup(once, k) == Lookup(payload, k);
      }
    }
  }

  /** Masking twice is masking once. */
  lemma MaskedIdempotent(payload: Entries)
    ensures Masked(Masked(payload)) == Masked(payload)
  {
    var once := MaskKey(payload, SensitiveKeys[0]);
    var twice := MaskKey(once, SensitiveKeys[1]);
    PutSame(once, SensitiveKeys[0]);
    assert MaskKey(twice, SensitiveKeys[0]) == twice by {
      if Isset(twice, SensitiveKeys[0]) && !EmptyValue(Get(twice, SensitiveKeys[0])) {
        assert Lookup(twice, SensitiveKeys[0]) == Lookup(once, SensitiveKeys[0]);
        PutSame(twice, SensitiveKeys[0]);
      }
    }
    assert MaskKey(twice, SensitiveKeys[1]) == twice by {
      if Isset(twice, SensitiveKeys[1]) && !EmptyValue(Get(twice, SensitiveKeys[1])) {
        PutSame(twice, SensitiveKeys[1]);
      }
    }
  }

  /** A key that `Isset` finds is among the keys. */
  lemma IssetKey(t: Entries, k: string)
    requires Isset(t, k)
    ensures k in Keys(t)
  {
  }

  /** Writing '***' under a key that already holds it changes nothing. */
  lemma PutSame(t: Entries, k: string)
    ensures Lookup(t, k) == Some(Str("***")) ==> Put(t, k, Str("***")) == t
  {
  }

  /** `checkViewPermission`: logged in, and the caller is the user asked for or may view registrations. */
  function CheckViewPermission(loggedIn: bool, currentUserId: nat, id: nat, userCan: string -> bool): (allowed: bool)
    ensures !loggedIn ==> !allowed
    ensures loggedIn ==> (allowed <==> currentUserId == id || userCan("view_fpse_registrations"))
  {
    if !loggedIn then false
    else currentUserId == id || userCan("view_fpse_registrations")
  }

  /** The position of the user with the given id (`get_userdata`). */
  function FindById(users: seq<UserService.User>, id: nat): (r: Option<nat>)
    ensures r.Some? ==> r.value < |users| && users[r.value].id == id
    ensures r.None? <==> forall j :: 0 <= j < |users| ==> users[j].id != id
  {
    if users == [] then None
    else if users[|users| - 1].id == id && FindById(users[..|users| - 1], id).None? then Some(|users| - 1)
    else FindById(users[..|users| - 1], id)
  }

  /** The controller and the objects it shares with the plugin. */
  class Controller {
    const rateLimit: RateLimit.RateLimiter
    const events: Events.EventRecorder
    const userService: UserService.UserService

    /** The user service writes its events to the controller's recorder. */
    predicate Valid()
      reads this, userService, events
    {
      userService.events == events && userService.Valid()
    }

    constructor(rateLimit: RateLimit.RateLimiter, userService: UserService.UserService)
      requires userService.Valid()
      ensures Valid() && this.rateLimit == rateLimit && this.userService == userService && events == userService.events
    {
      this.rateLimit := rateLimit;
      this.userService := userService;
      this.events := userService.events;
    }

    /**
     * `handleRegister`. Each guard that fails answers with its status,
     * after recording a validation error where the code does; only the
     * permission check runs before the rate counter, so a 403 leaves it
     * alone. Past the guards the user service runs, and the answer depends
     * on its result alone: a successful registration is answered 201
     * whether or not the assignment events could be written.
     */
    method HandleRegister(env: Env, req: Request) returns (outcome: Outcome)
      requires Valid()
      requires req.body.Decoded? && req.body.value.Arr? ==> DistinctKeys(req.body.value.entries)
      modifies rateLimit, events, userService
      ensures Valid()
      ensures Gate(env, old(rateLimit.transients), req) == Disabled ==> rateLimit.transients == old(rateLimit.transients)
      ensures Gate(env, old(rateLimit.transients), req) != Disabled ==> rateLimit.transients == RegisterLimit(env, old(rateLimit.transients)).transients
      ensures var stage := Gate(env, old(rateLimit.transients), req);
        !stage.Accepted? ==>
          outcome == Rejection(stage)
          && events.rows == old(events.rows) + ErrorRows(env, old(events.nextId), RejectionEvent(stage))
          && userService.Unchanged(old(userService.users), old(userService.meta), old(userService.nextUserId), events.rows)
      ensures var stage := Gate(env, old(rateLimit.transients), req);
        stage.Accepted? ==> Registered(env, stage.dto, outcome, old(userService.users), old(userService.meta),
                                       old(userService.nextUserId), old(events.rows), old(events.nextId))
    {
      if !PermissionService.CanRegister(env.perms) {
        return Respond(Failure(403, DisabledMessage));
      }
      var allowed := rateLimit.CheckLimit("register", PermissionService.GetRateLimit(env.perms, env.sanitize, "register"),
                                          env.flags, env.server, env.sanitize, env.validIp);
      if !allowed {
        return Respond(Failure(429, RateLimitedMessage));
      }
      outcome := Admit(env, req);
    }

    /** Past the permission and rate checks: the guards, then the registration when they all pass. */
    method Admit(env: Env, req: Request) returns (outcome: Outcome)
      requires Valid()
      requires req.body.Decoded? && req.body.value.Arr? ==> DistinctKeys(req.body.value.entries)
      modifies events, userService
      ensures Valid()
      ensures var stage := Screening(env, req);
        !stage.Accepted? ==>
          outcome == Rejection(stage)
          && events.rows == old(events.rows) + ErrorRows(env, old(events.nextId), RejectionEvent(stage))
          && userService.Unchanged(old(userService.users), old(userService.meta), old(userService.nextUserId), events.rows)
      ensures var stage := Screening(env, req);
        stage.Accepted? ==> Registered(env, stage.dto, outcome, old(userService.users), old(userService.meta),
                                       old(userService.nextUserId), old(events.rows), old(events.nextId))
    {
      var dto;
      dto, outcome := Screen(env, req);
      if dto.Some? {
        outcome := Register(env, dto.value);
      }
    }

    /**
     * The nonce, body, profile and state guards: a rejection, with its
     * validation error recorded where the code records one, or the
     * registration to hand to the service.
     */
    method Screen(env: Env, req: Request) returns (dto: Option<RegistrationDto.Dto>, outcome: Outcome)
      requires Valid()
      requires req.body.Decoded? && req.body.value.Arr? ==> DistinctKeys(req.body.value.entries)
      modifies events
      ensures Valid()
      ensures var stage := Screening(env, req);
        if stage.Accepted? then dto == Some(stage.dto) && events.rows == old(events.rows) && events.nextId == old(events.nextId)
        else dto.None? && outcome == Rejection(stage)
             && events.rows == old(events.rows) + ErrorRows(env, old(events.nextId), RejectionEvent(stage))
    {
      if Falsy(req.nonce) || !env.nonceValid(req.nonce.value) {
        outcome := Reject(env, BadNonce);
        return None, outcome;
      }
      if req.body.JsonError? {
        return None, Respond(Failure(400, BadJsonPrefix + req.body.message));
      }
      var data := BodyEntries(req.body.value);
      if data.None? {
        return None, Fatal;
      }
      var d := RegistrationDto.FromArray(data.value);
      dto, outcome := Check(env, d);
    }

    /** The profile and state guards: a rejection with its validation error, or the registration itself. */
    method Check(env: Env, d: RegistrationDto.Dto) returns (dto: Option<RegistrationDto.Dto>, outcome: Outcome)
      requires Valid()
      modifies events
      ensures Valid()
      ensures var stage := Checking(env, d);
        if stage.Accepted? then dto == Some(d) && events.rows == old(events.rows) && events.nextId == old(events.nextId)
        else dto.None? && outcome == Rejection(stage)
             && events.rows == old(events.rows) + ErrorRows(env, old(events.nextId), RejectionEvent(stage))
    {
      var dtoArray := RegistrationDto.ToArray(d);
      var check := ProfileResolver.ValidateProfile(env.profiles, env.sanitize, PerfilOf(d), dtoArray);
      if !check.valid {
        outcome := Reject(env, ProfileInvalid(d, check.errors));
        return None, outcome;
      }
      if !KnownState(env.states, RegistrationDto.Prop(d, "estado")) {
        outcome := Reject(env, UnknownState(d));
        return None, outcome;
      }
      return Some(d), Fatal;
    }

    /** A guard that refuses: its validation error, where it records one, and its response. */
    method Reject(env: Env, stage: Stage) returns (outcome: Outcome)
      requires Valid() && !stage.Accepted?
      modifies events
      ensures Valid()
      ensures outcome == Rejection(stage)
      ensures events.rows == old(events.rows) + ErrorRows(env, old(events.nextId), RejectionEvent(stage))
    {
      var e := RejectionEvent(stage);
      if e.Some? {
        var _ := events.RecordValidationError(e.value.0, e.value.1, e.value.2, env.sanitize, env.now, env.insertOk);
      }
      outcome := Rejection(stage);
    }

    /**
     * What `handleRegister` does past its guards, stated against the
     * tables before the call. Something thrown is modelled as thrown before
     * any change: an exception is answered 500, an error is fatal. Otherwise
     * the answer follows the service's result, users and meta change as the
     * service's path says, and the events table gains the service's own
     * row, then the two assignment rows after a registration or the
     * controller's validation error after a refusal.
     */
    ghost predicate Registered(env: Env, dto: RegistrationDto.Dto, outcome: Outcome, users0: seq<UserService.User>,
                               meta0: UserService.Meta, nextUserId0: nat, rows0: seq<Events.EventRow>, nextId0: nat)
      reads this, userService, events
    {
      if env.serviceThrows.Some? then
        outcome == ServiceOutcome(env, dto, UserService.ServiceResult(false, None, ""))
        && userService.users == users0 && userService.meta == meta0 && userService.nextUserId == nextUserId0 && events.rows == rows0
      else
        var path := UserService.Decide(dto, users0, env.createError);
        var served := UserService.ServiceRows(path, dto, users0, nextUserId0, nextId0, env.sanitize, env.now, env.insertOk);
        ServedAs(env, dto, outcome, path, UserService.Answer(path, users0, nextUserId0), users0, meta0, nextUserId0,
                 rows0 + served, nextId0 + |served|)
    }

    /**
     * The state after the user service answered `r` on `path`, its own
     * event rows already in `rows1` and the next event id at `next1`.
     */
    ghost predicate ServedAs(env: Env, dto: RegistrationDto.Dto, outcome: Outcome, path: UserService.Path,
                             r: UserService.ServiceResult, users0: seq<UserService.User>, meta0: UserService.Meta,
                             nextUserId0: nat, rows1: seq<Events.EventRow>, next1: nat)
      requires path.Update? ==> path.index < |users0|
      requires r.success ==> r.userId.Some?
      reads this, userService, events
    {
      outcome == Respond(ServiceResponse(env, dto, r))
      && ServiceDone(dto, path, users0, meta0, nextUserId0)
      && events.rows == rows1 + if r.success then AssignedRows(env, dto, r.userId.value, next1)
                                else ErrorRows(env, next1, Some((PerfilOf(dto), EstadoOf(dto), ErrorEntry(r.message))))
    }

    /** Users, next user id and meta once the service has decided `path`: as `createOrUpdate` leaves them. */
    ghost predicate ServiceDone(dto: RegistrationDto.Dto, path: UserService.Path, users0: seq<UserService.User>,
                                meta0: UserService.Meta, nextUserId0: nat)
      requires path.Update? ==> path.index < |users0|
      reads this, userService
    {
      userService.users == UserService.ServiceUsers(path, dto, users0, nextUserId0)
      && userService.nextUserId == nextUserId0 + (if path == UserService.Create then 1 else 0)
      && userService.meta == UserService.ServiceMeta(path, dto, users0, nextUserId0, meta0)
    }

    /** Lines 286-371 of `handleRegister`: the user service, then the assignment events. */
    method Register(env: Env, dto: RegistrationDto.Dto) returns (outcome: Outcome)
      requires Valid()
      modifies events, userService
      ensures Valid()
      ensures Registered(env, dto, outcome, old(userService.users), old(userService.meta),
                         old(userService.nextUserId), old(events.rows), old(events.nextId))
    {
      if env.serviceThrows.Some? {
        return ServiceOutcome(env, dto, UserService.ServiceResult(false, None, ""));
      }
      ghost var users0, meta0, nextUserId0 := userService.users, userService.meta, userService.nextUserId;
      ghost var rows0, nextId0 := events.rows, events.nextId;
      outcome := Answered(env, dto, UserService.Decide(dto, users0, env.createError),
                          UserService.Answer(UserService.Decide(dto, users0, env.createError), users0, nextUserId0),
                          users0, meta0, nextUserId0,
                          rows0 + UserService.ServiceRows(UserService.Decide(dto, users0, env.createError), dto, users0, nextUserId0, nextId0,
                                                          env.sanitize, env.now, env.insertOk),
                          nextId0 + |UserService.ServiceRows(UserService.Decide(dto, users0, env.createError), dto, users0, nextUserId0, nextId0,
                                                             env.sanitize, env.now, env.insertOk)|);
      ServedIsRegistered(env, dto, outcome, users0, meta0, nextUserId0, rows0, nextId0);
    }

    /** Past the guards, with nothing thrown, `Registered` is the state the service's answer leads to. */
    lemma ServedIsRegistered(env: Env, dto: RegistrationDto.Dto, outcome: Outcome, users0: seq<UserService.User>,
                             meta0: UserService.Meta, nextUserId0: nat, rows0: seq<Events.EventRow>, nextId0: nat)
      requires env.serviceThrows.None?
      requires var path := UserService.Decide(dto, users0, env.createError);
        var served := UserService.ServiceRows(path, dto, users0, nextUserId0, nextId0, env.sanitize, env.now, env.insertOk);
        ServedAs(env, dto, outcome, path, UserService.Answer(path, users0, nextUserId0), users0, meta0, nextUserId0,
                 rows0 + served, nextId0 + |served|)
      ensures Registered(env, dto, outcome, users0, meta0, nextUserId0, rows0, nextId0)
    {
    }

    /**
     * `handleRegister` once `createOrUpdate` has returned: the answer, and
     * the events that follow it. `path` and `r` are the service's decision
     * and answer, `rows1` and `next1` the events table after its own row.
     */
    method Answered(env: Env, dto: RegistrationDto.Dto, ghost path: UserService.Path, ghost r: UserService.ServiceResult,
                    ghost users0: seq<UserService.User>, ghost meta0: UserService.Meta, ghost nextUserId0: nat,
                    ghost rows1: seq<Events.EventRow>, ghost next1: nat)
      returns (outcome: Outcome)
      requires Valid() && env.serviceThrows.None?
      requires users0 == userService.users && meta0 == userService.meta && nextUserId0 == userService.nextUserId
      requires path == UserService.Decide(dto, users0, env.createError)
      requires r == UserService.Answer(path, users0, nextUserId0)
      requires var served := UserService.ServiceRows(path, dto, users0, nextUserId0, events.nextId,
                                                     env.sanitize, env.now, env.insertOk);
        rows1 == events.rows + served && next1 == events.nextId + |served|
      modifies events, userService
      ensures Valid()
      ensures ServedAs(env, dto, outcome, path, r, users0, meta0, nextUserId0, rows1, next1)
    {
      var result := Serve(env, dto, path, users0, meta0, nextUserId0, rows1, next1);
      if !result.success {
        return Respond(Failure(400, result.message));
      }
      outcome := Welcome(env, dto, path, result, users0, meta0, nextUserId0, rows1, next1);
    }

    /** A registration the service accepted: the 201 answer, then the assignment events. */
    method Welcome(env: Env, dto: RegistrationDto.Dto, ghost path: UserService.Path, result: UserService.ServiceResult,
                   ghost users0: seq<UserService.User>, ghost meta0: UserService.Meta, ghost nextUserId0: nat,
                   ghost rows1: seq<Events.EventRow>, ghost next1: nat)
      returns (outcome: Outcome)
      requires Valid() && result.success && result.userId.Some?
      requires path.Update? ==> path.index < |users0|
      requires ServiceDone(dto, path, users0, meta0, nextUserId0)
      requires events.rows == rows1 && events.nextId == next1
      modifies events
      ensures Valid()
      ensures ServedAs(env, dto, outcome, path, result, users0, meta0, nextUserId0, rows1, next1)
    {
      outcome := Respond(ServiceResponse(env, dto, result));
      Assign(env, dto, result.userId.value);
    }

    /**
     * `createOrUpdate`, and the validation error recorded when it declines.
     * `path` is the service's decision on the users `users0`, `rows1` and
     * `next1` the events table once the service has written its own row.
     */
    method Serve(env: Env, dto: RegistrationDto.Dto, ghost path: UserService.Path, ghost users0: seq<UserService.User>,
                 ghost meta0: UserService.Meta, ghost nextUserId0: nat, ghost rows1: seq<Events.EventRow>, ghost next1: nat)
      returns (result: UserService.ServiceResult)
      requires Valid()
      requires users0 == userService.users && meta0 == userService.meta && nextUserId0 == userService.nextUserId
      requires path == UserService.Decide(dto, users0, env.createError)
      requires var served := UserService.ServiceRows(path, dto, users0, nextUserId0, events.nextId,
                                                     env.sanitize, env.now, env.insertOk);
        rows1 == events.rows + served && next1 == events.nextId + |served|
      modifies events, userService
      ensures Valid()
      ensures result == UserService.Answer(path, users0, nextUserId0)
      ensures ServiceDone(dto, path, users0, meta0, nextUserId0)
      ensures var declined := if result.success then [] else ErrorRows(env, next1, Some((PerfilOf(dto), EstadoOf(dto), ErrorEntry(result.message))));
        events.rows == rows1 + declined && events.nextId == next1 + |declined|
    {
      result := userService.CreateOrUpdate(dto, env.createError, env.sanitize, env.now, env.insertOk);
      if !result.success {
        var _ := events.RecordValidationError(PerfilOf(dto), EstadoOf(dto), ErrorEntry(result.message),
                                              env.sanitize, env.now, env.insertOk);
      }
    }

    /** The profile-assigned and state-assigned events of a registered user. */
    method Assign(env: Env, dto: RegistrationDto.Dto, userId: nat)
      requires Valid()
      modifies events
      ensures Valid()
      ensures events.rows == old(events.rows) + AssignedRows(env, dto, userId, old(events.nextId))
      ensures events.nextId == old(events.nextId) + |AssignedRows(env, dto, userId, old(events.nextId))|
    {
      var _ := events.RecordProfileAssigned(userId, PerfilOf(dto), EstadoOf(dto), env.sanitize, env.now, env.insertOk);
      var _ := events.RecordStateAssigned(userId, PerfilOf(dto), EstadoOf(dto), env.sanitize, env.now, env.insertOk);
    }

    /**
     * `handleGetRegistration`: the id is made non-negative (`absint`); an
     * unknown user is answered 404, a known one 200 with `getUserData`.
     * `allMeta` and `unserialize` are the user's meta rows and
     * `maybe_unserialize`.
     */
    method HandleGetRegistration(id: int, allMeta: seq<(string, seq<Value>)>, unserialize: Value -> Value)
      returns (response: Response)
      ensures FindById(userService.users, AbsInt(id)).None? ==> response == Failure(404, "Usuário não encontrado")
      ensures FindById(userService.users, AbsInt(id)).Some? ==>
        response == Response(200, [("success", Bool(true)),
                                   ("data", Arr(UserService.UserData(Some(userService.users[FindById(userService.users, AbsInt(id)).value]),
                                                                     allMeta, unserialize)))])
    {
      var userId := AbsInt(id);
      var found := FindById(userService.users, userId);
      if found.None? {
        return Failure(404, "Usuário não encontrado");
      }
      var data := UserService.GetUserData(Some(userService.users[found.value]), allMeta, unserialize);
      response := Response(200, [("success", Bool(true)), ("data", Arr(data))]);
    }
  }

  /** A 403 answers before the rate check: the counters are untouched and nothing is recorded. */
  lemma DisabledSparesRateSlot(env: Env, transients: map<string, int>, req: Request)
    requires !PermissionService.CanRegister(env.perms)
    ensures Gate(env, transients, req) == Disabled
    ensures Rejection(Gate(env, transients, req)) == Respond(Failure(403, DisabledMessage))
    ensures RejectionEvent(Gate(env, transients, req)).None?
  {
  }

  /** The status each stage of the chain answers with. */
  lemma StageStatus(env: Env, transients: map<string, int>, req: Request)
    ensures var s := Gate(env, transients, req);
      match s
      case Disabled => Rejection(s).response.status == 403
      case RateLimited => Rejection(s).response.status == 429
      case BadNonce => Rejection(s).response.status == 400
      case BadJson(_) => Rejection(s).response.status == 400
      case NotAnArray => Rejection(s) == Fatal
      case ProfileInvalid(_, _) => Rejection(s).response.status == 400
      case UnknownState(_) => Rejection(s).response.status == 400
      case Accepted(_) => true
  {
  }

  /**
   * Past the guards the answer is 500 when the service throws an
   * exception, and the request dies unanswered when it throws an error
   * (`catch (\Exception)` does not catch `\Error`); otherwise 400 when it
   * declines and 201 when it registers. Which it is does not depend on
   * whether any event could be recorded.
   */
  lemma ServiceStatus(env: Env, dto: RegistrationDto.Dto, r: UserService.ServiceResult, insertOk: bool)
    ensures env.serviceThrows.Some? && env.serviceThrows.value.Exception? ==> ServiceOutcome(env, dto, r).response.status == 500
    ensures env.serviceThrows.Some? && env.serviceThrows.value.Error? ==> ServiceOutcome(env, dto, r) == Fatal
    ensures env.serviceThrows.None? && !r.success ==> ServiceResponse(env, dto, r) == Failure(400, r.message)
    ensures env.serviceThrows.None? && r.success ==> ServiceResponse(env, dto, r).status == 201
    ensures ServiceResponse(env.(insertOk := insertOk), dto, r) == ServiceResponse(env, dto, r)
  {
  }

  /** Each guard passes only when the earlier ones did: a rate-limited request had registration enabled, and so on. */
  lemma GateOrder(env: Env, transients: map<string, int>, req: Request)
    ensures Gate(env, transients, req) != Disabled ==> PermissionService.CanRegister(env.perms)
    ensures var s := Gate(env, transients, req);
      !s.Disabled? && !s.RateLimited? ==> RegisterLimit(env, transients).allowed
    ensures var s := Gate(env, transients, req);
      (s.BadJson? || s.NotAnArray? || s.ProfileInvalid? || s.UnknownState? || s.Accepted?)
        ==> !Falsy(req.nonce) && env.nonceValid(req.nonce.value)
    ensures var s := Gate(env, transients, req);
      s.Accepted? ==> (KnownState(env.states, RegistrationDto.Prop(s.dto, "estado"))
                       && ProfileResolver.IsValidProfile(env.profiles, env.sanitize, PerfilOf(s.dto)))
  {
  }
}
