/** What the validation engine promises, stated against independent
    definitions: which inputs conform to a schema, what the projection of a
    conforming input is, where errors are reported and how many there are. */
module ValidationFacts {
  import opened Text
  import opened Validation

  /** A length within the optional bounds (`length < min` and `length > max`
      are the failing checks). */
  predicate LengthWithin(len: nat, minLength: Option<real>, maxLength: Option<real>) {
    (minLength.None? || len as real >= minLength.value) && (maxLength.None? || len as real <= maxLength.value)
  }

  /** A valid date strictly before the bound; an unset or invalid bound
      accepts every date. */
  predicate StrictlyBefore(t: int, bound: Option<Moment>) {
    bound.None? || bound.value.InvalidTime? || t < bound.value.ms
  }

  /** A valid date strictly after the bound; an unset or invalid bound
      accepts every date. */
  predicate StrictlyAfter(t: int, bound: Option<Moment>) {
    bound.None? || bound.value.InvalidTime? || t > bound.value.ms
  }

  /** The reference meaning of a schema: the values it accepts, written as a
      plain conjunction of requirements rather than by collecting errors. */
  predicate Conforms(host: Host, n: Node, v: Value)
    decreases n
  {
    if IsAbsent(v) then n.cfg.optional
    else
      match n
      case StringNode(_, minL, maxL, pattern) =>
        v.Str? && LengthWithin(|v.s|, minL, maxL) && (pattern.None? || host.regexTest(pattern.value, v.s))
      case NumberNode(_, min, max, integer) =>
        v.Num? && (min.None? || v.x >= min.value) && (max.None? || v.x <= max.value) && (!integer || IsWhole(v.x))
      case BooleanNode(_) =>
        v.Bool?
      case DateNode(_, before, after) =>
        var m := Coerce(host, v);
        m.Some? && m.value.ValidTime? && StrictlyBefore(m.value.ms, before) && StrictlyAfter(m.value.ms, after)
      case ArrayNode(_, item, minL, maxL) =>
        v.Arr? && LengthWithin(|v.items|, minL, maxL)
        && forall i :: 0 <= i < |v.items| ==> Conforms(host, item, v.items[i])
      case ObjectNode(_, fields) =>
        (v.Obj? || v.DateObj?)
        && forall i :: 0 <= i < |fields| ==> Conforms(host, fields[i].validator, Lookup(PropsOf(v), fields[i].key))
  }

  lemma ItemResultAt(host: Host, item: Node, items: seq<Value>, path: string, i: nat)
    requires i < |items|
    ensures ItemResults(host, item, items, path)[i] == Validate(host, item, items[i], ItemPath(path, i))
  {
  }

  lemma FieldResultAt(host: Host, fields: seq<Field>, props: map<string, Value>, path: string, i: nat)
    requires i < |fields|
    ensures FieldResults(host, fields, props, path)[i]
            == Validate(host, fields[i].validator, Lookup(props, fields[i].key), FieldPath(path, fields[i].key))
  {
  }

  /** Results whose success is the emptiness of their errors. */
  predicate Coherent(rs: seq<ValidationResult>) {
    forall i :: 0 <= i < |rs| ==> (rs[i].success <==> rs[i].errors == [])
  }

  lemma ItemResultsCoherent(host: Host, item: Node, items: seq<Value>, path: string)
    ensures Coherent(ItemResults(host, item, items, path))
  {
    forall i | 0 <= i < |items| {
      ItemResultAt(host, item, items, path, i);
    }
  }

  lemma FieldResultsCoherent(host: Host, fields: seq<Field>, props: map<string, Value>, path: string)
    ensures Coherent(FieldResults(host, fields, props, path))
  {
    forall i | 0 <= i < |fields| {
      FieldResultAt(host, fields, props, path, i);
    }
  }

  /** A composite collects no child error exactly when every child succeeded. */
  lemma {:induction false} FailureErrorsEmpty(rs: seq<ValidationResult>)
    requires Coherent(rs)
    ensures FailureErrors(rs) == [] <==> forall i :: 0 <= i < |rs| ==> rs[i].success
  {
    if rs != [] {
      var init := rs[..|rs| - 1];
      assert Coherent(init) by {
        forall i | 0 <= i < |init| ensures init[i] == rs[i] { }
      }
      FailureErrorsEmpty(init);
      assert forall i :: 0 <= i < |init| ==> init[i] == rs[i];
    }
  }

  /** validate succeeds exactly on the values that conform to the schema. */
  lemma {:induction false} SucceedsIffConforms(host: Host, n: Node, v: Value, path: string)
    ensures Validate(host, n, v, path).success <==> Conforms(host, n, v)
    decreases n
  {
    if !IsAbsent(v) {
      match n
      case StringNode(_, _, _, _) =>
      case NumberNode(_, _, _, _) =>
      case BooleanNode(_) =>
      case DateNode(_, _, _) =>
      case ArrayNode(_, item, _, _) =>
        if v.Arr? {
          var rs := ItemResults(host, item, v.items, path);
          forall i | 0 <= i < |v.items| ensures rs[i].success <==> Conforms(host, item, v.items[i]) {
            ItemResultAt(host, item, v.items, path, i);
            SucceedsIffConforms(host, item, v.items[i], ItemPath(path, i));
          }
          ItemResultsCoherent(host, item, v.items, path);
          FailureErrorsEmpty(rs);
        }
      case ObjectNode(_, fields) =>
        if v.Obj? || v.DateObj? {
          var props := PropsOf(v);
          var rs := FieldResults(host, fields, props, path);
          forall i | 0 <= i < |fields|
            ensures rs[i].success <==> Conforms(host, fields[i].validator, Lookup(props, fields[i].key))
          {
            FieldResultAt(host, fields, props, path, i);
            SucceedsIffConforms(host, fields[i].validator, Lookup(props, fields[i].key), FieldPath(path, fields[i].key));
          }
          FieldResultsCoherent(host, fields, props, path);
          FailureErrorsEmpty(rs);
        }
    }
  }

  /** The presence gate: an undefined or null value is accepted without data
      by an optional validator and is otherwise exactly one "Value is
      required" error at the given path, whatever the validator's kind. */
  lemma AbsentValue(host: Host, n: Node, v: Value, path: string)
    requires IsAbsent(v)
    ensures n.cfg.optional ==> Validate(host, n, v, path) == ValidationResult(true, None, [])
    ensures !n.cfg.optional ==>
      Validate(host, n, v, path)
      == ValidationResult(false, None, [ValidationError(path, if n.cfg.customMessage != "" then Custom(n.cfg.customMessage) else Required, v)])
  {
  }

  /** The kinds of value each validator gets past its type check with. NaN is
      not a number; a date is a Date instance, string or number that gives a
      valid time; a Date instance counts as an object. */
  predicate KindAccepted(host: Host, n: Node, v: Value) {
    match n
    case StringNode(_, _, _, _) => v.Str?
    case NumberNode(_, _, _, _) => v.Num?
    case BooleanNode(_) => v.Bool?
    case DateNode(_, _, _) => Coerce(host, v).Some? && Coerce(host, v).value.ValidTime?
    case ArrayNode(_, _, _, _) => v.Arr?
    case ObjectNode(_, _) => v.Obj? || v.DateObj?
  }

  /** The message of the failed type check. */
  function KindMessage(host: Host, n: Node, v: Value): Message {
    match n
    case StringNode(_, _, _, _) => ExpectedString
    case NumberNode(_, _, _, _) => ExpectedNumber
    case BooleanNode(_) => ExpectedBoolean
    case DateNode(_, _, _) => if Coerce(host, v).None? then ExpectedDateLike else InvalidDate
    case ArrayNode(_, _, _, _) => ExpectedArray
    case ObjectNode(_, _) => ExpectedObject
  }

  /** A present value of the wrong kind gives exactly one type error and no
      constraint error, and composites do not visit their children. */
  lemma WrongKindSingleError(host: Host, n: Node, v: Value, path: string)
    requires !IsAbsent(v) && !KindAccepted(host, n, v)
    ensures Validate(host, n, v, path) == ValidationResult(false, None, [CreateError(n.cfg, KindMessage(host, n, v), v, path)])
  {
  }

  /** The position of a constraint check in the fixed order of a validator:
      lower bound, upper bound, then pattern or integer. */
  function CheckRank(m: Message): nat {
    match m
    case StringTooShort(_) => 0
    case NumberTooSmall(_) => 0
    case NotBefore(_) => 0
    case TooFewItems(_) => 0
    case StringTooLong(_) => 1
    case NumberTooLarge(_) => 1
    case NotAfter(_) => 1
    case TooManyItems(_) => 1
    case PatternMismatch => 2
    case NotInteger => 2
    case _ => 3
  }

  /** Some error of the result carries the message. */
  predicate Reports(r: ValidationResult, m: Message) {
    exists e :: e in r.errors && e.message == m
  }

  /** Errors listed in strictly increasing check order: at most one per check. */
  predicate InCheckOrder(errors: seq<ValidationError>) {
    forall i, j :: 0 <= i < j < |errors| ==> CheckRank(errors[i].message) < CheckRank(errors[j].message)
  }

  /** The errors of up to three checks, each added when its check fails. */
  function CheckErrors(a: bool, ea: ValidationError, b: bool, eb: ValidationError, c: bool, ec: ValidationError)
    : seq<ValidationError>
  {
    (if a then [ea] else []) + (if b then [eb] else []) + (if c then [ec] else [])
  }

  /** Checks of ranks 0, 1 and 2 give at most one error each, in that order,
      and exactly the errors of the checks that failed. */
  lemma CheckErrorsOrdered(a: bool, ea: ValidationError, b: bool, eb: ValidationError, c: bool, ec: ValidationError)
    requires CheckRank(ea.message) == 0 && CheckRank(eb.message) == 1 && CheckRank(ec.message) == 2
    ensures var es := CheckErrors(a, ea, b, eb, c, ec);
      && |es| <= 3
      && InCheckOrder(es)
      && (forall e :: e in es <==> (a && e == ea) || (b && e == eb) || (c && e == ec))
  {
  }

  /** A message is among the errors exactly when a failed check carries it. */
  lemma CheckErrorsReport(a: bool, ea: ValidationError, b: bool, eb: ValidationError, c: bool, ec: ValidationError,
                           d: Value, m: Message)
    ensures Reports(Finish(CheckErrors(a, ea, b, eb, c, ec), d), m) <==>
      (a && ea.message == m) || (b && eb.message == m) || (c && ec.message == m)
  {
    var es := CheckErrors(a, ea, b, eb, c, ec);
    if a && ea.message == m { assert ea in es; }
    if b && eb.message == m { assert eb in es; }
    if c && ec.message == m { assert ec in es; }
  }

  /** The result of three ranked checks at one path on one value: at most one
      error per check, in rank order, and each check's message reported
      exactly when that check failed. */
  lemma CheckFacts(a: bool, ea: ValidationError, b: bool, eb: ValidationError, c: bool, ec: ValidationError,
                   d: Value, path: string)
    requires CheckRank(ea.message) == 0 && CheckRank(eb.message) == 1 && CheckRank(ec.message) == 2
    requires ea.path == path && eb.path == path && ec.path == path
    requires ea.value == d && eb.value == d && ec.value == d
    ensures var r := Finish(CheckErrors(a, ea, b, eb, c, ec), d);
      && |r.errors| <= 3
      && InCheckOrder(r.errors)
      && (forall e :: e in r.errors ==> e.path == path && e.value == d)
      && (Reports(r, ea.message) <==> a)
      && (Reports(r, eb.message) <==> b)
      && (Reports(r, ec.message) <==> c)
  {
    CheckErrorsOrdered(a, ea, b, eb, c, ec);
    CheckErrorsReport(a, ea, b, eb, c, ec, d, ea.message);
    CheckErrorsReport(a, ea, b, eb, c, ec, d, eb.message);
    CheckErrorsReport(a, ea, b, eb, c, ec, d, ec.message);
  }

  /** The string validator past its type check, as the three checks. */
  lemma StringErrors(host: Host, n: Node, s: string, path: string)
    requires n.StringNode? && n.cfg.customMessage == ""
    ensures var len := |s| as real;
      Validate(host, n, Str(s), path) == Finish(CheckErrors(
        n.minLength.Some? && len < n.minLength.value,
        ValidationError(path, StringTooShort(if n.minLength.Some? then n.minLength.value else 0.0), Str(s)),
        n.maxLength.Some? && len > n.maxLength.value,
        ValidationError(path, StringTooLong(if n.maxLength.Some? then n.maxLength.value else 0.0), Str(s)),
        n.pattern.Some? && !host.regexTest(n.pattern.value, s),
        ValidationError(path, PatternMismatch, Str(s))), Str(s))
  {
  }

  /** The number validator past its type check, as the three checks. */
  lemma NumberErrors(n: Node, host: Host, x: real, path: string)
    requires n.NumberNode? && n.cfg.customMessage == ""
    ensures Validate(host, n, Num(x), path) == Finish(CheckErrors(
        n.min.Some? && x < n.min.value,
        ValidationError(path, NumberTooSmall(if n.min.Some? then n.min.value else 0.0), Num(x)),
        n.max.Some? && x > n.max.value,
        ValidationError(path, NumberTooLarge(if n.max.Some? then n.max.value else 0.0), Num(x)),
        n.integer && !IsWhole(x),
        ValidationError(path, NotInteger, Num(x))), Num(x))
  {
  }

  /** A string validator runs all three checks without stopping at the first
      failure; each failing check adds one error at the node's path, in the
      order minLength, maxLength, pattern. */
  lemma StringChecks(host: Host, n: Node, s: string, path: string)
    requires n.StringNode? && n.cfg.customMessage == ""
    ensures var r := Validate(host, n, Str(s), path);
      && |r.errors| <= 3
      && InCheckOrder(r.errors)
      && (forall e :: e in r.errors ==> e.path == path && e.value == Str(s))
      && (n.minLength.Some? ==> (Reports(r, StringTooShort(n.minLength.value)) <==> |s| as real < n.minLength.value))
      && (n.maxLength.Some? ==> (Reports(r, StringTooLong(n.maxLength.value)) <==> |s| as real > n.maxLength.value))
      && (Reports(r, PatternMismatch) <==> n.pattern.Some? && !host.regexTest(n.pattern.value, s))
  {
    var len := |s| as real;
    var a := n.minLength.Some? && len < n.minLength.value;
    var ea := ValidationError(path, StringTooShort(if n.minLength.Some? then n.minLength.value else 0.0), Str(s));
    var b := n.maxLength.Some? && len > n.maxLength.value;
    var eb := ValidationError(path, StringTooLong(if n.maxLength.Some? then n.maxLength.value else 0.0), Str(s));
    var c := n.pattern.Some? && !host.regexTest(n.pattern.value, s);
    var ec := ValidationError(path, PatternMismatch, Str(s));
    StringErrors(host, n, s, path);
    CheckFacts(a, ea, b, eb, c, ec, Str(s), path);
  }

  /** A number validator runs all three checks in the order min, max,
      integer, one error per failing check, at the node's path. */
  lemma NumberChecks(n: Node, host: Host, x: real, path: string)
    requires n.NumberNode? && n.cfg.customMessage == ""
    ensures var r := Validate(host, n, Num(x), path);
      && |r.errors| <= 3
      && InCheckOrder(r.errors)
      && (forall e :: e in r.errors ==> e.path == path && e.value == Num(x))
      && (n.min.Some? ==> (Reports(r, NumberTooSmall(n.min.value)) <==> x < n.min.value))
      && (n.max.Some? ==> (Reports(r, NumberTooLarge(n.max.value)) <==> x > n.max.value))
      && (Reports(r, NotInteger) <==> n.integer && !IsWhole(x))
  {
    var a := n.min.Some? && x < n.min.value;
    var ea := ValidationError(path, NumberTooSmall(if n.min.Some? then n.min.value else 0.0), Num(x));
    var b := n.max.Some? && x > n.max.value;
    var eb := ValidationError(path, NumberTooLarge(if n.max.Some? then n.max.value else 0.0), Num(x));
    var c := n.integer && !IsWhole(x);
    var ec := ValidationError(path, NotInteger, Num(x));
    NumberErrors(n, host, x, path);
    CheckFacts(a, ea, b, eb, c, ec, Num(x), path);
  }

  /** min(0).max(100).integer() on -5: only the lower bound fails. */
  lemma RangeAndIntegerOnMinusFive(host: Host)
    ensures Validate(host, NumberNode(DefaultConfig, Some(0.0), Some(100.0), true), Num(-5.0), "")
            == ValidationResult(false, None, [ValidationError("", NumberTooSmall(0.0), Num(-5.0))])
  {
  }

  /** before and after are strict: a date equal to either bound is rejected,
      and a valid date passes exactly when it lies strictly between them. */
  lemma DateBoundsStrict(host: Host, n: Node, v: Value, t: int, path: string)
    requires n.DateNode? && Coerce(host, v) == Some(ValidTime(t))
    ensures
      && (n.before == Some(ValidTime(t)) ==> !Validate(host, n, v, path).success)
      && (n.after == Some(ValidTime(t)) ==> !Validate(host, n, v, path).success)
      && (Validate(host, n, v, path).success <==> StrictlyBefore(t, n.before) && StrictlyAfter(t, n.after))
  {
  }

  /** A custom message replaces the message of every error a leaf validator
      creates: presence, type and constraint errors alike. */
  lemma CustomMessageOnLeaf(host: Host, n: Node, v: Value, path: string)
    requires !n.ArrayNode? && !n.ObjectNode? && n.cfg.customMessage != ""
    ensures forall e :: e in Validate(host, n, v, path).errors ==> e.message == Custom(n.cfg.customMessage)
  {
  }

  /** Every error a failed composite collects from its children comes from
      one failed child. */
  lemma {:induction false} FailureErrorSource(rs: seq<ValidationResult>, e: ValidationError)
    requires e in FailureErrors(rs)
    ensures exists i :: 0 <= i < |rs| && !rs[i].success && e in rs[i].errors
  {
    var k := |rs| - 1;
    if e !in (if !rs[k].success then rs[k].errors else []) {
      FailureErrorSource(rs[..k], e);
      var i :| 0 <= i < k && !rs[..k][i].success && e in rs[..k][i].errors;
      assert rs[..k][i] == rs[i];
    }
  }

  lemma PrefixTransitive(a: string, b: string, c: string)
    requires a <= b && b <= c
    ensures a <= c
  {
    assert c[..|b|][..|a|] == c[..|a|];
  }

  /** An array's errors are its own length errors followed by its failed
      items' errors. */
  lemma ArrayErrorsSplit(host: Host, n: Node, items: seq<Value>, path: string)
    requires n.ArrayNode?
    ensures Validate(host, n, Arr(items), path).errors
            == ArrayLengthErrors(n, Arr(items), path) + FailureErrors(ItemResults(host, n.item, items, path))
  {
  }

  /** An object's errors are its failed fields' errors. */
  lemma ObjectErrorsSplit(host: Host, n: Node, v: Value, path: string)
    requires n.ObjectNode? && (v.Obj? || v.DateObj?)
    ensures Validate(host, n, v, path).errors == FailureErrors(FieldResults(host, n.fields, PropsOf(v), path))
  {
  }

  /** Errors a node raises itself (a wrong kind, a failed check) carry the
      node's own path. */
  lemma OwnErrorsAtPath(host: Host, n: Node, v: Value, path: string)
    requires !IsAbsent(v)
    requires !(n.ArrayNode? && v.Arr?) && !(n.ObjectNode? && (v.Obj? || v.DateObj?))
    ensures forall e :: e in Validate(host, n, v, path).errors ==> e.path == path
  {
  }

  lemma ItemPathExtends(path: string, i: nat)
    ensures path <= ItemPath(path, i)
  {
    assert ItemPath(path, i)[..|path|] == path;
  }

  lemma ItemErrorsUnder(host: Host, item: Node, items: seq<Value>, path: string)
    ensures forall e :: e in FailureErrors(ItemResults(host, item, items, path)) ==> path <= e.path
    decreases item, 2
  {
    var rs := ItemResults(host, item, items, path);
    forall e | e in FailureErrors(rs) ensures path <= e.path {
      FailureErrorSource(rs, e);
      var i :| 0 <= i < |rs| && !rs[i].success && e in rs[i].errors;
      ItemErrorUnder(host, item, items, path, i, e);
    }
  }

  lemma ItemErrorUnder(host: Host, item: Node, items: seq<Value>, path: string, i: nat, e: ValidationError)
    requires i < |items| && e in ItemResults(host, item, items, path)[i].errors
    ensures path <= e.path
    decreases item, 1
  {
    var p := ItemPath(path, i);
    ItemResultAt(host, item, items, path, i);
    ErrorsUnderPath(host, item, items[i], p);
    ItemPathExtends(path, i);
    PrefixTransitive(path, p, e.path);
  }

  lemma FieldErrorsUnder(host: Host, fields: seq<Field>, props: map<string, Value>, path: string)
    ensures forall e :: e in FailureErrors(FieldResults(host, fields, props, path)) ==> path <= e.path
    decreases fields, 0
  {
    var rs := FieldResults(host, fields, props, path);
    forall e | e in FailureErrors(rs) ensures path <= e.path {
      FailureErrorSource(rs, e);
      var i :| 0 <= i < |rs| && !rs[i].success && e in rs[i].errors;
      var key := fields[i].key;
      FieldResultAt(host, fields, props, path, i);
      ErrorsUnderPath(host, fields[i].validator, Lookup(props, key), FieldPath(path, key));
      assert path <= FieldPath(path, key);
      PrefixTransitive(path, FieldPath(path, key), e.path);
    }
  }

  /** Errors are reported under the path they were validated at: a parent's
      path is a prefix of every error path below it. */
  lemma {:induction false} ErrorsUnderPath(host: Host, n: Node, v: Value, path: string)
    ensures forall e :: e in Validate(host, n, v, path).errors ==> path <= e.path
    decreases n, 0
  {
    if IsAbsent(v) {
      AbsentValue(host, n, v, path);
    } else if n.ArrayNode? && v.Arr? {
      ArrayErrorsSplit(host, n, v.items, path);
      ItemErrorsUnder(host, n.item, v.items, path);
    } else if n.ObjectNode? && (v.Obj? || v.DateObj?) {
      ObjectErrorsSplit(host, n, v, path);
      FieldErrorsUnder(host, n.fields, PropsOf(v), path);
    } else {
      OwnErrorsAtPath(host, n, v, path);
    }
  }

  /** The number of errors across all results. */
  function ErrorCount(rs: seq<ValidationResult>): nat {
    if rs == [] then 0 else ErrorCount(rs[..|rs| - 1]) + |rs[|rs| - 1].errors|
  }

  lemma {:induction false} FailureErrorsCount(rs: seq<ValidationResult>)
    requires Coherent(rs)
    ensures |FailureErrors(rs)| == ErrorCount(rs)
  {
    if rs != [] {
      var init := rs[..|rs| - 1];
      assert Coherent(init) by {
        forall i | 0 <= i < |init| ensures init[i] == rs[i] { }
      }
      FailureErrorsCount(init);
    }
  }

  /** The array validator checks its own length, then visits every index:
      its errors are its own length errors (at most two, at the array's
      path, carrying its custom message) followed by every item error, each
      reported under `${path}[i]` for its index i. */
  lemma ArrayErrors(host: Host, n: Node, items: seq<Value>, path: string)
    requires n.ArrayNode?
    ensures var r := Validate(host, n, Arr(items), path);
            var own := ArrayLengthErrors(n, Arr(items), path);
            var rs := ItemResults(host, n.item, items, path);
      && r.errors == own + FailureErrors(rs)
      && |r.errors| == |own| + ErrorCount(rs)
      && |own| <= 2
      && (forall e :: e in own ==> e.path == path && (n.cfg.customMessage != "" ==> e.message == Custom(n.cfg.customMessage)))
      && (forall e :: e in FailureErrors(rs) ==> exists i :: 0 <= i < |items| && ItemPath(path, i) <= e.path)
  {
    var rs := ItemResults(host, n.item, items, path);
    ItemResultsCoherent(host, n.item, items, path);
    FailureErrorsCount(rs);
    forall e | e in FailureErrors(rs) ensures exists i :: 0 <= i < |items| && ItemPath(path, i) <= e.path {
      FailureErrorSource(rs, e);
      var i :| 0 <= i < |rs| && !rs[i].success && e in rs[i].errors;
      ItemResultAt(host, n.item, items, path, i);
      ErrorsUnderPath(host, n.item, items[i], ItemPath(path, i));
    }
  }

  /** The object validator visits every declared field: its errors are
      exactly the field errors, in declaration order, each reported under its
      field's path (`path.key`, or `key` at the root). */
  lemma ObjectErrors(host: Host, n: Node, v: Value, path: string)
    requires n.ObjectNode? && (v.Obj? || v.DateObj?)
    ensures var r := Validate(host, n, v, path);
            var rs := FieldResults(host, n.fields, PropsOf(v), path);
      && r.errors == FailureErrors(rs)
      && |r.errors| == ErrorCount(rs)
      && (forall e :: e in r.errors ==> exists i :: 0 <= i < |n.fields| && FieldPath(path, n.fields[i].key) <= e.path)
  {
    var rs := FieldResults(host, n.fields, PropsOf(v), path);
    FieldResultsCoherent(host, n.fields, PropsOf(v), path);
    FailureErrorsCount(rs);
    forall e | e in FailureErrors(rs) ensures exists i :: 0 <= i < |n.fields| && FieldPath(path, n.fields[i].key) <= e.path {
      FailureErrorSource(rs, e);
      var i :| 0 <= i < |rs| && !rs[i].success && e in rs[i].errors;
      FieldResultAt(host, n.fields, PropsOf(v), path, i);
      ErrorsUnderPath(host, n.fields[i].validator, Lookup(PropsOf(v), n.fields[i].key), FieldPath(path, n.fields[i].key));
    }
  }

  /** How many items are present (neither undefined nor null). */
  function PresentCount(items: seq<Value>): nat {
    if items == [] then 0
    else PresentCount(items[..|items| - 1]) + (if IsAbsent(items[|items| - 1]) then 0 else 1)
  }

  lemma {:induction false} PresentCountAll(items: seq<Value>)
    ensures PresentCount(items) <= |items|
    ensures PresentCount(items) == |items| <==> forall i :: 0 <= i < |items| ==> !IsAbsent(items[i])
  {
    if items != [] {
      var k := |items| - 1;
      PresentCountAll(items[..k]);
      assert forall i :: 0 <= i < k ==> items[..k][i] == items[i];
    }
  }

  lemma {:induction false} DefinedDataCount(rs: seq<ValidationResult>, items: seq<Value>)
    requires |rs| == |items|
    requires forall i :: 0 <= i < |rs| ==> rs[i].success && (rs[i].data.None? <==> IsAbsent(items[i]))
    ensures |DefinedData(rs)| == PresentCount(items)
  {
    if rs != [] {
      var k := |rs| - 1;
      assert forall i :: 0 <= i < k ==> rs[..k][i] == rs[i] && items[..k][i] == items[i];
      DefinedDataCount(rs[..k], items[..k]);
    }
  }

  lemma {:induction false} DefinedDataAligned(rs: seq<ValidationResult>)
    requires forall i :: 0 <= i < |rs| ==> rs[i].success && rs[i].data.Some?
    ensures |DefinedData(rs)| == |rs|
    ensures forall i :: 0 <= i < |rs| ==> DefinedData(rs)[i] == rs[i].data.value
  {
    if rs != [] {
      var k := |rs| - 1;
      assert forall i :: 0 <= i < k ==> rs[..k][i] == rs[i];
      DefinedDataAligned(rs[..k]);
    }
  }

  /** A successful array validation: every item passed, a required item
      validator saw no undefined or null item, and the data holds one entry
      per present item. When every item is present the data is aligned with
      the input, index by index. */
  lemma ArraySuccessData(host: Host, n: Node, items: seq<Value>, path: string)
    requires n.ArrayNode? && Validate(host, n, Arr(items), path).success
    ensures var r := Validate(host, n, Arr(items), path);
      && r.data.Some? && r.data.value.Arr?
      && |r.data.value.items| == PresentCount(items)
      && (forall i :: 0 <= i < |items| ==> Validate(host, n.item, items[i], ItemPath(path, i)).success)
      && (!n.item.cfg.optional ==> PresentCount(items) == |items|)
      && (PresentCount(items) == |items| ==>
            forall i :: 0 <= i < |items| ==>
              var ri := Validate(host, n.item, items[i], ItemPath(path, i));
              ri.data.Some? && r.data.value.items[i] == ri.data.value)
  {
    var rs := ItemResults(host, n.item, items, path);
    ItemResultsCoherent(host, n.item, items, path);
    ArrayErrorsSplit(host, n, items, path);
    FailureErrorsEmpty(rs);
    forall i | 0 <= i < |items|
      ensures rs[i] == Validate(host, n.item, items[i], ItemPath(path, i))
      ensures rs[i].success && (rs[i].data.None? <==> IsAbsent(items[i]))
      ensures IsAbsent(items[i]) ==> n.item.cfg.optional
    {
      ItemResultAt(host, n.item, items, path, i);
      if IsAbsent(items[i]) {
        AbsentValue(host, n.item, items[i], ItemPath(path, i));
      }
    }
    DefinedDataCount(rs, items);
    PresentCountAll(items);
    if PresentCount(items) == |items| {
      DefinedDataAligned(rs);
    }
  }

  /** An optional item validator drops undefined and null items, so the data
      no longer lines up with the input: `[null, "a"]` comes back as `["a"]`. */
  lemma OptionalItemDropped(host: Host)
    ensures var n := ArrayNode(DefaultConfig, StringNode(Config(true, ""), None, None, None), None, None);
      Validate(host, n, Arr([Null, Str("a")]), "") == ValidationResult(true, Some(Arr([Str("a")])), [])
  {
    var item := StringNode(Config(true, ""), None, None, None);
    var items := [Null, Str("a")];
    var rs := ItemResults(host, item, items, "");
    ItemResultAt(host, item, items, "", 0);
    ItemResultAt(host, item, items, "", 1);
    assert rs[0] == ValidationResult(true, None, []);
    assert rs[1] == ValidationResult(true, Some(Str("a")), []);
    assert rs[..1][..0] == [] && rs[..1][0] == rs[0];
    assert DefinedData(rs[..1]) == [];
    assert DefinedData(rs) == [Str("a")];
    assert FailureErrors(rs[..1]) == [];
    assert FailureErrors(rs) == [];
  }

  /** Keys an object schema does not declare are neither read nor reported:
      two inputs that agree on the declared keys validate alike. */
  lemma UndeclaredKeysIgnored(host: Host, n: Node, p1: map<string, Value>, p2: map<string, Value>, path: string)
    requires n.ObjectNode?
    requires forall i :: 0 <= i < |n.fields| ==> Lookup(p1, n.fields[i].key) == Lookup(p2, n.fields[i].key)
    ensures Validate(host, n, Obj(p1), path) == Validate(host, n, Obj(p2), path)
  {
    var r1 := FieldResults(host, n.fields, p1, path);
    var r2 := FieldResults(host, n.fields, p2, path);
    forall i | 0 <= i < |n.fields| ensures r1[i] == r2[i] {
      FieldResultAt(host, n.fields, p1, path, i);
      FieldResultAt(host, n.fields, p2, path, i);
    }
    assert r1 == r2;
  }

  /** The keys a schema declares. */
  function KeysOf(fields: seq<Field>): set<string> {
    set i | 0 <= i < |fields| :: fields[i].key
  }

  lemma {:induction false} FieldDataKeys(fields: seq<Field>, rs: seq<ValidationResult>)
    requires |fields| == |rs|
    ensures FieldData(fields, rs).Keys <= KeysOf(fields)
  {
    if rs != [] {
      var k := |rs| - 1;
      FieldDataKeys(fields[..k], rs[..k]);
      assert forall i :: 0 <= i < k ==> fields[..k][i] == fields[i];
      assert KeysOf(fields[..k]) <= KeysOf(fields);
      assert fields[k].key in KeysOf(fields);
    }
  }

  /** The data of an object validation is a plain object (also for a Date
      input) holding only declared keys. */
  lemma ObjectDataKeys(host: Host, n: Node, v: Value, path: string)
    requires n.ObjectNode? && Validate(host, n, v, path).data.Some?
    ensures Validate(host, n, v, path).data.value.Obj?
    ensures Validate(host, n, v, path).data.value.props.Keys <= KeysOf(n.fields)
  {
    if !IsAbsent(v) && (v.Obj? || v.DateObj?) {
      FieldDataKeys(n.fields, FieldResults(host, n.fields, PropsOf(v), path));
    }
  }

  /** No two fields of an object schema share a key, as in the record that
      declares them. */
  predicate DistinctKeys(fields: seq<Field>) {
    forall i, j :: 0 <= i < j < |fields| ==> fields[i].key != fields[j].key
  }

  /** Distinct keys at every object node of the schema. */
  predicate WellFormed(n: Node)
    decreases n
  {
    match n
    case ArrayNode(_, item, _, _) => WellFormed(item)
    case ObjectNode(_, fields) =>
      DistinctKeys(fields) && forall i :: 0 <= i < |fields| ==> WellFormed(fields[i].validator)
    case _ => true
  }

  /** The values that are there, in order. */
  function Present(os: seq<Option<Value>>): seq<Value> {
    if os == [] then []
    else Present(os[..|os| - 1]) + (if os[|os| - 1].Some? then [os[|os| - 1].value] else [])
  }

  /** The object holding each field that has data, under its key. */
  function DataMap(fields: seq<Field>, ds: seq<Option<Value>>): map<string, Value>
    requires |fields| == |ds| && DistinctKeys(fields)
  {
    map i | 0 <= i < |fields| && ds[i].Some? :: fields[i].key := ds[i].value
  }

  /** The cleaned value a conforming input stands for: absent values dropped,
      array items compacted, objects cut down to their declared keys, date
      inputs turned into dates. */
  function Project(host: Host, n: Node, v: Value): Option<Value>
    requires WellFormed(n)
    decreases n, 0
  {
    if IsAbsent(v) then None
    else
      match n
      case DateNode(_, _, _) =>
        (match Coerce(host, v)
         case Some(ValidTime(t)) => Some(DateObj(ValidTime(t)))
         case _ => None)
      case ArrayNode(_, item, _, _) =>
        if v.Arr? then Some(Arr(Present(ProjectItems(host, item, v.items)))) else None
      case ObjectNode(_, fields) =>
        if v.Obj? || v.DateObj? then Some(Obj(DataMap(fields, ProjectFields(host, fields, PropsOf(v))))) else None
      case _ => Some(v)
  }

  function ProjectItems(host: Host, item: Node, items: seq<Value>): (ps: seq<Option<Value>>)
    requires WellFormed(item)
    ensures |ps| == |items|
    decreases item, 1
  {
    seq(|items|, i requires 0 <= i < |items| => Project(host, item, items[i]))
  }

  function ProjectFields(host: Host, fields: seq<Field>, props: map<string, Value>): (ps: seq<Option<Value>>)
    requires forall i :: 0 <= i < |fields| ==> WellFormed(fields[i].validator)
    ensures |ps| == |fields|
    decreases fields, 1
  {
    seq(|fields|, i requires 0 <= i < |fields| => Project(host, fields[i].validator, Lookup(props, fields[i].key)))
  }

  lemma {:induction false} DefinedDataIsPresent(rs: seq<ValidationResult>, ps: seq<Option<Value>>)
    requires |rs| == |ps|
    requires forall i :: 0 <= i < |rs| ==> rs[i] == ValidationResult(true, ps[i], [])
    ensures DefinedData(rs) == Present(ps)
    ensures FailureErrors(rs) == []
  {
    if rs != [] {
      var k := |rs| - 1;
      assert forall i :: 0 <= i < k ==> rs[..k][i] == rs[i] && ps[..k][i] == ps[i];
      DefinedDataIsPresent(rs[..k], ps[..k]);
    }
  }

  lemma DataMapAt(fields: seq<Field>, ds: seq<Option<Value>>, i: nat)
    requires |fields| == |ds| && DistinctKeys(fields)
    requires i < |ds| && ds[i].Some?
    ensures fields[i].key in DataMap(fields, ds) && DataMap(fields, ds)[fields[i].key] == ds[i].value
  {
  }

  lemma DataMapKey(fields: seq<Field>, ds: seq<Option<Value>>, x: string) returns (i: nat)
    requires |fields| == |ds| && DistinctKeys(fields)
    requires x in DataMap(fields, ds)
    ensures i < |ds| && ds[i].Some? && fields[i].key == x
  {
    i :| 0 <= i < |fields| && ds[i].Some? && fields[i].key == x;
  }

  /** The earlier fields' object with the last field's data, if any, added
      under its key. */
  function SnocMap(fields: seq<Field>, ds: seq<Option<Value>>): map<string, Value>
    requires |fields| == |ds| > 0 && DistinctKeys(fields)
  {
    var k := |fields| - 1;
    assert DistinctKeys(fields[..k]);
    if ds[k].Some? then DataMap(fields[..k], ds[..k])[fields[k].key := ds[k].value]
    else DataMap(fields[..k], ds[..k])
  }

  lemma DataMapSnocSub(fields: seq<Field>, ds: seq<Option<Value>>)
    requires |fields| == |ds| > 0 && DistinctKeys(fields)
    ensures forall x :: x in DataMap(fields, ds) ==>
      x in SnocMap(fields, ds) && DataMap(fields, ds)[x] == SnocMap(fields, ds)[x]
  {
    var k := |fields| - 1;
    var fs, ds' := fields[..k], ds[..k];
    forall x | x in DataMap(fields, ds)
      ensures x in SnocMap(fields, ds) && DataMap(fields, ds)[x] == SnocMap(fields, ds)[x]
    {
      var i := DataMapKey(fields, ds, x);
      DataMapAt(fields, ds, i);
      if i < k {
        assert fs[i] == fields[i] && ds'[i] == ds[i];
        DataMapAt(fs, ds', i);
      }
    }
  }

  lemma DataMapSnocSuper(fields: seq<Field>, ds: seq<Option<Value>>)
    requires |fields| == |ds| > 0 && DistinctKeys(fields)
    ensures forall x :: x in SnocMap(fields, ds) ==> x in DataMap(fields, ds)
  {
    var k := |fields| - 1;
    var fs, ds' := fields[..k], ds[..k];
    forall x | x in SnocMap(fields, ds) ensures x in DataMap(fields, ds) {
      if ds[k].Some? && x == fields[k].key {
        DataMapAt(fields, ds, k);
      } else {
        var i := DataMapKey(fs, ds', x);
        assert fs[i] == fields[i] && ds'[i] == ds[i];
        DataMapAt(fields, ds, i);
      }
    }
  }

  /** Extending the fields by one: the last field's data, if any, is added
      under its key, which no earlier field uses. */
  lemma DataMapSnoc(fields: seq<Field>, ds: seq<Option<Value>>)
    requires |fields| == |ds| > 0 && DistinctKeys(fields)
    ensures DistinctKeys(fields[..|fields| - 1])
    ensures var k := |fields| - 1;
      DataMap(fields, ds)
      == if ds[k].Some? then DataMap(fields[..k], ds[..k])[fields[k].key := ds[k].value]
         else DataMap(fields[..k], ds[..k])
  {
    DataMapSnocSub(fields, ds);
    DataMapSnocSuper(fields, ds);
    assert DataMap(fields, ds) == SnocMap(fields, ds);
  }

  lemma {:induction false} FieldDataIsDataMap(fields: seq<Field>, rs: seq<ValidationResult>, ds: seq<Option<Value>>)
    requires |fields| == |rs| == |ds| && DistinctKeys(fields)
    requires forall i :: 0 <= i < |rs| ==> rs[i].success && rs[i].data == ds[i]
    ensures FieldData(fields, rs) == DataMap(fields, ds)
  {
    if rs != [] {
      var k := |rs| - 1;
      DataMapSnoc(fields, ds);
      assert forall i :: 0 <= i < k ==> rs[..k][i] == rs[i] && ds[..k][i] == ds[i];
      FieldDataIsDataMap(fields[..k], rs[..k], ds[..k]);
    }
  }

  lemma ItemsRoundTrip(host: Host, item: Node, items: seq<Value>, path: string)
    requires WellFormed(item)
    requires forall i :: 0 <= i < |items| ==> Conforms(host, item, items[i])
    ensures forall i :: 0 <= i < |items| ==>
      ItemResults(host, item, items, path)[i] == ValidationResult(true, ProjectItems(host, item, items)[i], [])
    decreases item, 1
  {
    forall i | 0 <= i < |items|
      ensures ItemResults(host, item, items, path)[i] == ValidationResult(true, ProjectItems(host, item, items)[i], [])
    {
      ItemResultAt(host, item, items, path, i);
      ConformingRoundTrip(host, item, items[i], ItemPath(path, i));
    }
  }

  lemma FieldsRoundTrip(host: Host, fields: seq<Field>, props: map<string, Value>, path: string)
    requires forall i :: 0 <= i < |fields| ==> WellFormed(fields[i].validator)
    requires forall i :: 0 <= i < |fields| ==> Conforms(host, fields[i].validator, Lookup(props, fields[i].key))
    ensures forall i :: 0 <= i < |fields| ==>
      FieldResults(host, fields, props, path)[i] == ValidationResult(true, ProjectFields(host, fields, props)[i], [])
    decreases fields, 1
  {
    forall i | 0 <= i < |fields|
      ensures FieldResults(host, fields, props, path)[i] == ValidationResult(true, ProjectFields(host, fields, props)[i], [])
    {
      FieldResultAt(host, fields, props, path, i);
      ConformingRoundTrip(host, fields[i].validator, Lookup(props, fields[i].key), FieldPath(path, fields[i].key));
    }
  }

  /** A conforming input validates without errors, and its data is its
      projection: validation cleans a value without changing what it says. */
  lemma {:induction false} ConformingRoundTrip(host: Host, n: Node, v: Value, path: string)
    requires WellFormed(n) && Conforms(host, n, v)
    ensures Validate(host, n, v, path) == ValidationResult(true, Project(host, n, v), [])
    decreases n, 0
  {
    SucceedsIffConforms(host, n, v, path);
    if IsAbsent(v) {
      AbsentValue(host, n, v, path);
    } else {
      match n
      case StringNode(_, _, _, _) =>
      case NumberNode(_, _, _, _) =>
      case BooleanNode(_) =>
      case DateNode(_, _, _) =>
      case ArrayNode(_, item, _, _) =>
        var rs := ItemResults(host, item, v.items, path);
        ItemsRoundTrip(host, item, v.items, path);
        DefinedDataIsPresent(rs, ProjectItems(host, item, v.items));
      case ObjectNode(_, fields) =>
        var rs := FieldResults(host, fields, PropsOf(v), path);
        var ds := ProjectFields(host, fields, PropsOf(v));
        FieldsRoundTrip(host, fields, PropsOf(v), path);
        FieldDataIsDataMap(fields, rs, ds);
    }
  }
}
