/**
 * The value types exchanged with the registration front end: the
 * validation accumulator, the REST response and its JSON shape, and the
 * received step payload.
 */
module Types {
  import opened Php

  /** One `add_error` entry: `['field' => ..., 'message' => ...]`. */
  function ErrorEntry(field: string, message: string): Value
  {
    Arr([("field", Str(field)), ("message", Str(message))])
  }

  /** `ValidationResult`: a validity flag and the errors collected so far. */
  class ValidationResult {
    var valid: bool
    var errors: seq<Value>

    constructor(valid: bool, errors: seq<Value>)
      ensures this.valid == valid && this.errors == errors
    {
      this.valid := valid;
      this.errors := errors;
    }

    /** `success()`: valid, with no errors. */
    static method Success() returns (r: ValidationResult)
      ensures fresh(r) && r.valid && r.errors == []
    {
      r := new ValidationResult(true, []);
    }

    /** `failure($errors)`: invalid, carrying the given errors. */
    static method Failure(errors: seq<Value>) returns (r: ValidationResult)
      ensures fresh(r) && !r.valid && r.errors == errors
    {
      r := new ValidationResult(false, errors);
    }

    /**
     * `add_error`: the result becomes invalid and gains exactly one entry
     * at the end, keeping every earlier error. No method sets `valid`
     * back to true, so an invalid result stays invalid.
     */
    method AddError(field: string, message: string)
      modifies this
      ensures !valid
      ensures errors == old(errors) + [ErrorEntry(field, message)]
    {
      valid := false;
      errors := errors + [ErrorEntry(field, message)];
    }

    /** `to_array`. */
    function ToArray(): (v: Value)
      reads this
      ensures v.Arr? && Keys(v.entries) == ["valid", "errors"]
      ensures Get(v.entries, "valid") == Bool(valid)
      ensures Get(v.entries, "errors") == ValueList(errors) && Values(Get(v.entries, "errors").entries) == errors
    {
      var es := [("valid", Bool(valid)), ("errors", ValueList(errors))];
      assert Keys(es) == ["valid", "errors"];
      Arr(es)
    }
  }

  /** A PHP list of values under the keys "0", "1", ... */
  function ValueList(vs: seq<Value>): (v: Value)
    ensures v.Arr? && Values(v.entries) == vs
  {
    Arr(seq(|vs|, i requires 0 <= i < |vs| => (NatText(i), vs[i])))
  }

  /** The accumulator after a run of `add_error` calls: valid only when it was and no error was added. */
  function AfterErrors(valid: bool, errors: seq<Value>, added: seq<(string, string)>): (r: (bool, seq<Value>))
    ensures r.0 <==> valid && added == []
    ensures |r.1| == |errors| + |added| && r.1[..|errors|] == errors
    ensures forall i :: 0 <= i < |added| ==> r.1[|errors| + i] == ErrorEntry(added[i].0, added[i].1)
  {
    if added == [] then (valid, errors)
    else
      var (v, es) := AfterErrors(valid, errors, added[..|added| - 1]);
      var (f, m) := added[|added| - 1];
      (false, es + [ErrorEntry(f, m)])
  }

  /** Applying `add_error` for each pair in turn ends where `AfterErrors` says. */
  method AddErrors(r: ValidationResult, added: seq<(string, string)>)
    modifies r
    ensures (r.valid, r.errors) == AfterErrors(old(r.valid), old(r.errors), added)
  {
    var i := 0;
    while i < |added|
      invariant 0 <= i <= |added|
      invariant (r.valid, r.errors) == AfterErrors(old(r.valid), old(r.errors), added[..i])
    {
      assert added[..i + 1][..i] == added[..i];
      r.AddError(added[i].0, added[i].1);
      i := i + 1;
    }
    assert added[..i] == added;
  }

  /** `RestResponse`. */
  datatype RestResponse = RestResponse(success: bool, message: Option<string>, errors: seq<Value>, nextStep: Option<int>,
                                       httpStatus: int)

  /** `RestResponse::success`. */
  function SuccessResponse(message: string, nextStep: int): (r: RestResponse)
    ensures r.success && r.httpStatus == 200 && r.errors == []
    ensures r.message == Some(message) && r.nextStep == Some(nextStep)
  {
    RestResponse(true, Some(message), [], Some(nextStep), 200)
  }

  /** `RestResponse::validation_error`. */
  function ValidationErrorResponse(message: string, errors: seq<Value>): (r: RestResponse)
    ensures !r.success && r.httpStatus == 400 && r.errors == errors
    ensures r.message == Some(message) && r.nextStep.None?
  {
    RestResponse(false, Some(message), errors, None, 400)
  }

  /** `RestResponse::server_error`. */
  function ServerErrorResponse(message: string): (r: RestResponse)
    ensures !r.success && r.httpStatus == 500 && r.errors == []
    ensures r.message == Some(message) && r.nextStep.None?
  {
    RestResponse(false, Some(message), [], None, 500)
  }

  /** A key the response array holds only when `present`. */
  function Optional(present: bool, key: string, value: Value): (t: Entries)
    ensures forall k :: Lookup(t, k) == if present && k == key then Some(value) else None
  {
    if present then [(key, value)] else []
  }

  /** `to_array`: success always, the other three keys only when they carry something. */
  function ResponseArray(r: RestResponse): Entries
  {
    [("success", Bool(r.success))]
      + Optional(r.message.Some?, "message", Str(if r.message.Some? then r.message.value else ""))
      + Optional(r.errors != [], "errors", ValueList(r.errors))
      + Optional(r.nextStep.Some?, "nextStep", Int(if r.nextStep.Some? then r.nextStep.value else 0))
  }

  /**
   * The serialised response always holds `success`; it holds `message`
   * exactly when there is one, `errors` exactly when there are any, and
   * `nextStep` exactly when there is one; nothing else.
   */
  lemma ResponseArrayKeys(r: RestResponse, k: string)
    ensures Lookup(ResponseArray(r), k) ==
      if k == "success" then Some(Bool(r.success))
      else if k == "message" && r.message.Some? then Some(Str(r.message.value))
      else if k == "errors" && r.errors != [] then Some(ValueList(r.errors))
      else if k == "nextStep" && r.nextStep.Some? then Some(Int(r.nextStep.value))
      else None
  {
    var m := Optional(r.message.Some?, "message", Str(if r.message.Some? then r.message.value else ""));
    var e := Optional(r.errors != [], "errors", ValueList(r.errors));
    var n := Optional(r.nextStep.Some?, "nextStep", Int(if r.nextStep.Some? then r.nextStep.value else 0));
    var s := [("success", Bool(r.success))];
    assert Lookup(s, k) == if k == "success" then Some(Bool(r.success)) else None;
    LookupAppend(s, m, k);
    LookupAppend(s + m, e, k);
    LookupAppend(s + m + e, n, k);
  }

  /** A successful response serialises to success, message and nextStep and nothing else. */
  lemma SuccessResponseArray(message: string, nextStep: int)
    ensures ResponseArray(SuccessResponse(message, nextStep))
      == [("success", Bool(true)), ("message", Str(message)), ("nextStep", Int(nextStep))]
  {
  }

  /**
   * A validation-error response serialises to the failure flag and its
   * message, then its errors only when there are any: an empty error list
   * leaves no `errors` key.
   */
  lemma ValidationErrorResponseArray(message: string, errors: seq<Value>)
    ensures ValidationErrorResponse(message, errors).httpStatus == 400
    ensures ResponseArray(ValidationErrorResponse(message, errors))
      == [("success", Bool(false)), ("message", Str(message))] + (if errors == [] then [] else [("errors", ValueList(errors))])
  {
  }

  /** A server-error response serialises to the failure flag and its message, and nothing else. */
  lemma ServerErrorResponseArray(message: string)
    ensures ServerErrorResponse(message).httpStatus == 500
    ensures ResponseArray(ServerErrorResponse(message)) == [("success", Bool(false)), ("message", Str(message))]
  {
  }

  /** `ReceivedPayload`. */
  datatype ReceivedPayload = ReceivedPayload(etapaAtual: int, data: Entries)

  /** The decimal value of a run of digits. */
  function DigitsValue(ds: string): nat
    requires forall i :: 0 <= i < |ds| ==> '0' <= ds[i] <= '9'
  {
    if ds == [] then 0 else 10 * DigitsValue(ds[..|ds| - 1]) + (ds[|ds| - 1] as int - '0' as int)
  }

  /** The longest prefix made of decimal digits. */
  function LeadingDigits(s: string): (ds: string)
    ensures |ds| <= |s| && ds == s[..|ds|]
    ensures forall i :: 0 <= i < |ds| ==> '0' <= ds[i] <= '9'
    ensures |ds| < |s| ==> !('0' <= s[|ds|] <= '9')
  {
    if s != [] && '0' <= s[0] <= '9' then [s[0]] + LeadingDigits(s[1..]) else []
  }

  /** `(int)` of a string: leading whitespace, an optional sign, then as many digits as follow. */
  function StringToInt(s: string): int
  {
    var t := TrimLeft(s, {' ', '\t', '\n', '\r', '\U{B}', '\U{C}'});
    if t != [] && t[0] == '-' then 0 - DigitsValue(LeadingDigits(t[1..]))
    else if t != [] && t[0] == '+' then DigitsValue(LeadingDigits(t[1..]))
    else DigitsValue(LeadingDigits(t))
  }

  /** PHP's `(int)` cast. */
  function IntCast(v: Value): int
  {
    match v
    case Null => 0
    case Bool(b) => if b then 1 else 0
    case Int(i) => i
    case Str(s) => StringToInt(s)
    case Arr(es) => if es == [] then 0 else 1
  }

  /** PHP's `(array)` cast: arrays unchanged, null empty, a scalar wrapped under key 0. */
  function ArrayCast(v: Value): Entries
  {
    match v
    case Arr(es) => es
    case Null => []
    case _ => [("0", v)]
  }

  /** `from_request`: a payload only when both `etapaAtual` and `data` are set. */
  function FromRequest(request: Entries): (r: Option<ReceivedPayload>)
    ensures r.Some? <==> Isset(request, "etapaAtual") && Isset(request, "data")
    ensures r.Some? ==> r.value.etapaAtual == IntCast(Get(request, "etapaAtual")) && r.value.data == ArrayCast(Get(request, "data"))
  {
    if !Isset(request, "etapaAtual") || !Isset(request, "data") then None
    else Some(ReceivedPayload(IntCast(Get(request, "etapaAtual")), ArrayCast(Get(request, "data"))))
  }

  /** The first step of the registration form. */
  const FirstStep: int := 1

  /** The last step of the registration form. */
  const LastStep: int := 6

  /** The errors `validate_structure` adds: one for a step outside 1..6 (`data` is always an array here). */
  function StructureErrors(p: ReceivedPayload): (errors: seq<(string, string)>)
    ensures errors == [] <==> FirstStep <= p.etapaAtual <= LastStep
    ensures |errors| <= 1
  {
    if p.etapaAtual < FirstStep || p.etapaAtual > LastStep then
      [("etapaAtual", "Etapa deve estar entre 1 e 6. Recebido: " + IntText(p.etapaAtual))]
    else []
  }

  /** `validate_structure`: a fresh result, invalid exactly when the step is outside 1..6. */
  method ValidateStructure(p: ReceivedPayload) returns (r: ValidationResult)
    ensures fresh(r)
    ensures (r.valid, r.errors) == AfterErrors(true, [], StructureErrors(p))
    ensures r.valid <==> FirstStep <= p.etapaAtual <= LastStep
  {
    r := new ValidationResult(true, []);
    if p.etapaAtual < FirstStep || p.etapaAtual > LastStep {
      r.AddError("etapaAtual", "Etapa deve estar entre 1 e 6. Recebido: " + IntText(p.etapaAtual));
    }
  }
}
