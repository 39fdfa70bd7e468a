/** The composable validation engine: untyped input values, the schema tree a
    consumer builds with the factory and chain calls, and the recursive validate
    operation that turns a value into a result with typed data or a complete,
    path-qualified list of errors. */
module Validation {
  import opened Text


  /** The time a Date instance holds: milliseconds since the epoch, or the
      invalid date (whose getTime() is NaN). */
  datatype Moment = ValidTime(ms: int) | InvalidTime

  /** An untyped JavaScript input value. Numbers are reals with a separate
      NaN tag; an object is its own enumerable properties. */
  datatype Value =
    | Undefined
    | Null
    | Str(s: string)
    | Num(x: real)
    | NaN
    | Bool(b: bool)
    | DateObj(moment: Moment)
    | Arr(items: seq<Value>)
    | Obj(props: map<string, Value>)

  /** What validation needs from the JavaScript runtime and cannot be written
      out here: RegExp.prototype.test, given the pattern's source and the
      string, and the parsing done by new Date(string). */
  datatype Host = Host(regexTest: (string, string) -> bool, parseDate: string -> Moment)

  /** The message of an error. Each default message of the source is one
      constructor; `Custom` is a message set with withMessage. */
  datatype Message =
    | Custom(text: string)
    | Required                        // "Value is required"
    | ExpectedString                  // "Expected string"
    | StringTooShort(minLength: real) // "String must be at least ${minLength} characters"
    | StringTooLong(maxLength: real)  // "String must be at most ${maxLength} characters"
    | PatternMismatch                 // "String does not match required pattern"
    | ExpectedNumber                  // "Expected number"
    | NumberTooSmall(min: real)       // "Number must be at least ${min}"
    | NumberTooLarge(max: real)       // "Number must be at most ${max}"
    | NotInteger                      // "Number must be an integer"
    | ExpectedBoolean                 // "Expected boolean"
    | ExpectedDateLike                // "Expected Date, string, or number"
    | InvalidDate                     // "Invalid date"
    | NotBefore(before: int)          // "Date must be before ${before.toISOString()}"
    | NotAfter(after: int)            // "Date must be after ${after.toISOString()}"
    | ExpectedArray                   // "Expected array"
    | TooFewItems(minLength: real)    // "Array must have at least ${minLength} items"
    | TooManyItems(maxLength: real)   // "Array must have at most ${maxLength} items"
    | ExpectedObject                  // "Expected object"

  /** The configuration every validator carries: the optional flag and the
      custom message ("" when none was set: `_customMessage || message`
      treats an empty message as unset). */
  datatype Config = Config(optional: bool, customMessage: string)

  const DefaultConfig := Config(false, "")

  /** A node of the schema tree, with the bounds its chain calls set. */
  datatype Node =
    | StringNode(cfg: Config, minLength: Option<real>, maxLength: Option<real>, pattern: Option<string>)
    | NumberNode(cfg: Config, min: Option<real>, max: Option<real>, integer: bool)
    | BooleanNode(cfg: Config)
    | DateNode(cfg: Config, before: Option<Moment>, after: Option<Moment>)
    | ArrayNode(cfg: Config, item: Node, minLength: Option<real>, maxLength: Option<real>)
    | ObjectNode(cfg: Config, fields: seq<Field>)

  /** One entry of an object schema, in declaration order. */
  datatype Field = Field(key: string, validator: Node)

  datatype ValidationError = ValidationError(path: string, message: Message, value: Value)

  datatype ValidationResult = ValidationResult(success: bool, data: Option<Value>, errors: seq<ValidationError>)

  predicate IsAbsent(v: Value) {
    v.Undefined? || v.Null?
  }

  /** createError: the custom message, when set, replaces the default one. */
  function CreateError(cfg: Config, message: Message, value: Value, path: string): ValidationError {
    ValidationError(path, if cfg.customMessage != "" then Custom(cfg.customMessage) else message, value)
  }

  /** handleUndefined: a result for an undefined or null value, or None when
      validation goes on. */
  function HandleUndefined(cfg: Config, value: Value, path: string): (r: Option<ValidationResult>)
    ensures r.Some? <==> IsAbsent(value)
  {
    if IsAbsent(value) then
      if cfg.optional then Some(ValidationResult(true, None, []))
      else Some(ValidationResult(false, None, [CreateError(cfg, Required, value, path)]))
    else None
  }

  /** The single-error result of a failed type check. */
  function Fail(cfg: Config, message: Message, value: Value, path: string): ValidationResult {
    ValidationResult(false, None, [CreateError(cfg, message, value, path)])
  }

  /** The closing `return` of every validator: success exactly when no error
      was collected, and the data only then. */
  function Finish(errors: seq<ValidationError>, data: Value): ValidationResult {
    ValidationResult(errors == [], if errors == [] then Some(data) else None, errors)
  }

  /** `${path}[${i}]` */
  function ItemPath(path: string, i: nat): string {
    path + "[" + NatToString(i) + "]"
  }

  /** `path ? `${path}.${key}` : key` */
  function FieldPath(path: string, key: string): string {
    if path != "" then path + "." + key else key
  }

  /** value[key] on an object: undefined when the property is missing. */
  function Lookup(props: map<string, Value>, key: string): Value {
    if key in props then props[key] else Undefined
  }

  /** The properties the object validator reads. A Date instance passes the
      object type check and has no own properties. */
  function PropsOf(v: Value): map<string, Value> {
    if v.Obj? then v.props else map[]
  }

  /** Number.isInteger on a finite number. */
  predicate IsWhole(x: real) {
    x.Floor as real == x
  }

  /** Truncation toward zero, as ToIntegerOrInfinity does. */
  function Truncate(x: real): int {
    if x >= 0.0 then x.Floor else -((-x).Floor)
  }

  /** new Date(number): TimeClip keeps times within 8.64e15 ms of the epoch. */
  function TimeClip(x: real): Moment {
    if x < -8640000000000000.0 || x > 8640000000000000.0 then InvalidTime else ValidTime(Truncate(x))
  }

  /** The date the date validator works on: the instance itself, or a new
      Date built from a string or a number; None for every other kind. */
  function Coerce(host: Host, v: Value): Option<Moment> {
    match v
    case DateObj(m) => Some(m)
    case Str(s) => Some(host.parseDate(s))
    case Num(x) => Some(TimeClip(x))
    case NaN => Some(InvalidTime)
    case _ => None
  }

  /** `date >= bound` for a valid date: false against an invalid bound. */
  predicate AtOrAfter(t: int, bound: Option<Moment>) {
    bound.Some? && bound.value.ValidTime? && t >= bound.value.ms
  }

  /** `date <= bound` for a valid date: false against an invalid bound. */
  predicate AtOrBefore(t: int, bound: Option<Moment>) {
    bound.Some? && bound.value.ValidTime? && t <= bound.value.ms
  }

  /** The errors of the failed results, in order: what the composite
      validators push with `errors.push(...result.errors)`. */
  function FailureErrors(rs: seq<ValidationResult>): seq<ValidationError> {
    if rs == [] then []
    else FailureErrors(rs[..|rs| - 1]) + (if !rs[|rs| - 1].success then rs[|rs| - 1].errors else [])
  }

  /** The data of the successful results that have data, in order: the array
      validator's `validatedItems`. */
  function DefinedData(rs: seq<ValidationResult>): seq<Value> {
    if rs == [] then []
    else
      var last := rs[|rs| - 1];
      DefinedData(rs[..|rs| - 1]) + (if last.success && last.data.Some? then [last.data.value] else [])
  }

  /** The object validator's `validatedObject`: each successful field with
      data is assigned under its key, in declaration order. */
  function FieldData(fields: seq<Field>, rs: seq<ValidationResult>): map<string, Value>
    requires |fields| == |rs|
  {
    if rs == [] then map[]
    else
      var last := rs[|rs| - 1];
      var m := FieldData(fields[..|fields| - 1], rs[..|rs| - 1]);
      if last.success && last.data.Some? then m[fields[|fields| - 1].key := last.data.value] else m
  }

  /** The kind of data each validator produces. */
  predicate Typed(n: Node, d: Value) {
    match n
    case StringNode(_, _, _, _) => d.Str?
    case NumberNode(_, _, _, _) => d.Num?
    case BooleanNode(_) => d.Bool?
    case DateNode(_, _, _) => d.DateObj? && d.moment.ValidTime?
    case ArrayNode(_, _, _, _) => d.Arr?
    case ObjectNode(_, _) => d.Obj?
  }

  function ValidateString(host: Host, n: Node, v: Value, path: string): ValidationResult
    requires n.StringNode? && v.Str?
  {
    var len := |v.s| as real;
    var errors :=
      (if n.minLength.Some? && len < n.minLength.value then [CreateError(n.cfg, StringTooShort(n.minLength.value), v, path)] else [])
      + (if n.maxLength.Some? && len > n.maxLength.value then [CreateError(n.cfg, StringTooLong(n.maxLength.value), v, path)] else [])
      + (if n.pattern.Some? && !host.regexTest(n.pattern.value, v.s) then [CreateError(n.cfg, PatternMismatch, v, path)] else []);
    Finish(errors, v)
  }

  function ValidateNumber(n: Node, v: Value, path: string): ValidationResult
    requires n.NumberNode? && v.Num?
  {
    var errors :=
      (if n.min.Some? && v.x < n.min.value then [CreateError(n.cfg, NumberTooSmall(n.min.value), v, path)] else [])
      + (if n.max.Some? && v.x > n.max.value then [CreateError(n.cfg, NumberTooLarge(n.max.value), v, path)] else [])
      + (if n.integer && !IsWhole(v.x) then [CreateError(n.cfg, NotInteger, v, path)] else []);
    Finish(errors, v)
  }

  function ValidateDate(n: Node, t: int, v: Value, path: string): ValidationResult
    requires n.DateNode?
  {
    var errors :=
      (if AtOrAfter(t, n.before) then [CreateError(n.cfg, NotBefore(n.before.value.ms), v, path)] else [])
      + (if AtOrBefore(t, n.after) then [CreateError(n.cfg, NotAfter(n.after.value.ms), v, path)] else []);
    Finish(errors, DateObj(ValidTime(t)))
  }

  /** The array validator's own length checks, before any item is visited. */
  function ArrayLengthErrors(n: Node, v: Value, path: string): seq<ValidationError>
    requires n.ArrayNode? && v.Arr?
  {
    var len := |v.items| as real;
    (if n.minLength.Some? && len < n.minLength.value then [CreateError(n.cfg, TooFewItems(n.minLength.value), v, path)] else [])
    + (if n.maxLength.Some? && len > n.maxLength.value then [CreateError(n.cfg, TooManyItems(n.maxLength.value), v, path)] else [])
  }

  /** The results of validating every item, index by index. */
  function ItemResults(host: Host, item: Node, items: seq<Value>, path: string): (rs: seq<ValidationResult>)
    ensures |rs| == |items|
    decreases item, 1
  {
    seq(|items|, i requires 0 <= i < |items| => Validate(host, item, items[i], ItemPath(path, i)))
  }

  /** The results of validating every declared field, in declaration order. */
  function FieldResults(host: Host, fields: seq<Field>, props: map<string, Value>, path: string): (rs: seq<ValidationResult>)
    ensures |rs| == |fields|
    decreases fields, 1
  {
    seq(|fields|, i requires 0 <= i < |fields| =>
      Validate(host, fields[i].validator, Lookup(props, fields[i].key), FieldPath(path, fields[i].key)))
  }

  /** validate(value, path) of the validator tree `n`. */
  function Validate(host: Host, n: Node, v: Value, path: string): (r: ValidationResult)
    decreases n, 0
    ensures r.success <==> r.errors == []
    ensures !r.success ==> r.data.None?
    ensures r.success && r.data.None? <==> IsAbsent(v) && n.cfg.optional
    ensures r.data.Some? ==> Typed(n, r.data.value)
  {
    if IsAbsent(v) then HandleUndefined(n.cfg, v, path).value
    else
      match n
      case StringNode(cfg, _, _, _) =>
        if !v.Str? then Fail(cfg, ExpectedString, v, path) else ValidateString(host, n, v, path)
      case NumberNode(cfg, _, _, _) =>
        if !v.Num? then Fail(cfg, ExpectedNumber, v, path) else ValidateNumber(n, v, path)
      case BooleanNode(cfg) =>
        if !v.Bool? then Fail(cfg, ExpectedBoolean, v, path) else ValidationResult(true, Some(v), [])
      case DateNode(cfg, _, _) =>
        (match Coerce(host, v)
         case None => Fail(cfg, ExpectedDateLike, v, path)
         case Some(InvalidTime) => Fail(cfg, InvalidDate, v, path)
         case Some(ValidTime(t)) => ValidateDate(n, t, v, path))
      case ArrayNode(cfg, item, _, _) =>
        if !v.Arr? then Fail(cfg, ExpectedArray, v, path)
        else
          var rs := ItemResults(host, item, v.items, path);
          Finish(ArrayLengthErrors(n, v, path) + FailureErrors(rs), Arr(DefinedData(rs)))
      case ObjectNode(cfg, fields) =>
        if !(v.Obj? || v.DateObj?) then Fail(cfg, ExpectedObject, v, path)
        else
          var rs := FieldResults(host, fields, PropsOf(v), path);
          Finish(FailureErrors(rs), Obj(FieldData(fields, rs)))
  }
}
