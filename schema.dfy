/** The fluent validator objects: each validator is an object whose setters
    update its configuration in place and return the same object for
    chaining; array and object validators hold references to the validators
    they were built from, so a later change to a child shows through its
    parents. Every validator denotes a schema tree (`Spec`), and its
    `Validate` method computes exactly what `Validation.Validate` says of
    that tree. */
module Schema {
  import opened Text
  import opened Validation

  /** Which of the validator classes an object is an instance of. */
  datatype Kind = StringKind | NumberKind | BooleanKind | DateKind | ArrayKind | ObjectKind

  predicate IsLeaf(k: Kind) {
    !k.ArrayKind? && !k.ObjectKind?
  }

  predicate Distinct(keys: seq<string>) {
    forall i, j :: 0 <= i < j < |keys| ==> keys[i] != keys[j]
  }

  /** The objects below a list of validators. */
  ghost function ReprUnion(vs: seq<Validator>): (r: set<object>)
    ensures forall i :: 0 <= i < |vs| ==> vs[i].Repr <= r
    ensures forall o :: o in r ==> exists i :: 0 <= i < |vs| && o in vs[i].Repr
  {
    if vs == [] then {} else ReprUnion(vs[..|vs| - 1]) + vs[|vs| - 1].Repr
  }

  class Validator {
    const kind: Kind
    /** The array validator's item validator. */
    const item: Validator?
    /** The object validator's schema, as its entries in enumeration order. */
    const keys: seq<string>
    const children: seq<Validator>

    ghost const Repr: set<object>
    /** Every object below this one. */
    ghost const ChildRepr: set<object>

    var optional: bool
    /** The custom message; "" when none is set. */
    var customMessage: string
    var minLength: Option<real>
    var maxLength: Option<real>
    var pattern: Option<string>
    var min: Option<real>
    var max: Option<real>
    var integer: bool
    var before: Option<Moment>
    var after: Option<Moment>

    /** The object graph is a finite tree-shaped DAG under this object, and
        an object schema has one validator per key. */
    ghost predicate Valid()
      decreases Repr
    {
      && this in Repr
      && ChildRepr == Repr - {this}
      && (kind.ArrayKind? <==> item != null)
      && (item != null ==> item.Repr <= ChildRepr && item.Valid())
      && (kind.ObjectKind? ==> |keys| == |children| && Distinct(keys))
      && (!kind.ObjectKind? ==> children == [])
      && (forall i :: 0 <= i < |children| ==> children[i].Repr <= ChildRepr && children[i].Valid())
    }

    /** The schema tree this validator currently stands for. */
    ghost function Spec(): (n: Node)
      requires Valid()
      reads Repr
      ensures n.StringNode? <==> kind.StringKind?
      ensures n.NumberNode? <==> kind.NumberKind?
      ensures n.BooleanNode? <==> kind.BooleanKind?
      ensures n.DateNode? <==> kind.DateKind?
      ensures n.ArrayNode? <==> kind.ArrayKind?
      ensures n.ObjectNode? <==> kind.ObjectKind?
      decreases Repr, 1
    {
      var cfg := Config(optional, customMessage);
      match kind
      case StringKind => StringNode(cfg, minLength, maxLength, pattern)
      case NumberKind => NumberNode(cfg, min, max, integer)
      case BooleanKind => BooleanNode(cfg)
      case DateKind => DateNode(cfg, before, after)
      case ArrayKind => ArrayNode(cfg, item.Spec(), minLength, maxLength)
      case ObjectKind => ObjectNode(cfg, FieldSpecs(0))
    }

    /** The schema entries from the j-th on. */
    ghost function FieldSpecs(j: nat): (fs: seq<Field>)
      requires Valid() && kind.ObjectKind? && j <= |children|
      reads ChildRepr
      ensures |fs| == |children| - j
      ensures forall i :: j <= i < |children| ==> fs[i - j] == Field(keys[i], children[i].Spec())
      decreases Repr, 0, |children| - j
    {
      if j == |children| then [] else [Field(keys[j], children[j].Spec())] + FieldSpecs(j + 1)
    }

    constructor Leaf(k: Kind)
      requires IsLeaf(k)
      ensures Valid() && fresh(Repr)
      ensures Spec() == match k
        case StringKind => StringNode(DefaultConfig, None, None, None)
        case NumberKind => NumberNode(DefaultConfig, None, None, false)
        case BooleanKind => BooleanNode(DefaultConfig)
        case _ => DateNode(DefaultConfig, None, None)
    {
      kind, item, keys, children := k, null, [], [];
      Repr, ChildRepr := {this}, {};
      optional, customMessage := false, "";
      minLength, maxLength, pattern := None, None, None;
      min, max, integer := None, None, false;
      before, after := None, None;
    }

    constructor ArrayOf(itemValidator: Validator)
      requires itemValidator.Valid()
      ensures Valid() && fresh(Repr - itemValidator.Repr)
      ensures item == itemValidator
      ensures Spec() == ArrayNode(DefaultConfig, itemValidator.Spec(), None, None)
    {
      kind, item, keys, children := ArrayKind, itemValidator, [], [];
      Repr, ChildRepr := {this} + itemValidator.Repr, itemValidator.Repr;
      optional, customMessage := false, "";
      minLength, maxLength, pattern := None, None, None;
      min, max, integer := None, None, false;
      before, after := None, None;
    }

    constructor ObjectOf(schemaKeys: seq<string>, validators: seq<Validator>)
      requires |schemaKeys| == |validators| && Distinct(schemaKeys)
      requires forall i :: 0 <= i < |validators| ==> validators[i].Valid()
      ensures Valid() && fresh(Repr - ChildRepr)
      ensures kind.ObjectKind? && keys == schemaKeys && children == validators
      ensures !optional && customMessage == ""
    {
      kind, item, keys, children := ObjectKind, null, schemaKeys, validators;
      ghost var below := ReprUnion(validators);
      Repr, ChildRepr := {this} + below, below;
      optional, customMessage := false, "";
      minLength, maxLength, pattern := None, None, None;
      min, max, integer := None, None, false;
      before, after := None, None;
      new;
      forall i | 0 <= i < |validators| ensures this !in validators[i].Repr { }
    }

    /** optional(): undefined and null are accepted from now on. */
    method Optional() returns (self: Validator)
      requires Valid()
      modifies this
      ensures Valid() && self == this
      ensures Spec() == old(Spec()).(cfg := old(Spec()).cfg.(optional := true))
    {
      optional := true;
      self := this;
    }

    /** withMessage(message): every error of this validator carries the
        message instead. */
    method WithMessage(message: string) returns (self: Validator)
      requires Valid()
      modifies this
      ensures Valid() && self == this
      ensures Spec() == old(Spec()).(cfg := old(Spec()).cfg.(customMessage := message))
    {
      customMessage := message;
      self := this;
    }

    method MinLength(length: real) returns (self: Validator)
      requires Valid() && (kind.StringKind? || kind.ArrayKind?)
      modifies this
      ensures Valid() && self == this
      ensures (old(Spec()).StringNode? || old(Spec()).ArrayNode?) && Spec() == old(Spec()).(minLength := Some(length))
    {
      minLength := Some(length);
      self := this;
    }

    method MaxLength(length: real) returns (self: Validator)
      requires Valid() && (kind.StringKind? || kind.ArrayKind?)
      modifies this
      ensures Valid() && self == this
      ensures (old(Spec()).StringNode? || old(Spec()).ArrayNode?) && Spec() == old(Spec()).(maxLength := Some(length))
    {
      maxLength := Some(length);
      self := this;
    }

    method Pattern(regex: string) returns (self: Validator)
      requires Valid() && kind.StringKind?
      modifies this
      ensures Valid() && self == this
      ensures old(Spec()).StringNode? && Spec() == old(Spec()).(pattern := Some(regex))
    {
      pattern := Some(regex);
      self := this;
    }

    method Min(bound: real) returns (self: Validator)
      requires Valid() && kind.NumberKind?
      modifies this
      ensures Valid() && self == this
      ensures old(Spec()).NumberNode? && Spec() == old(Spec()).(min := Some(bound))
    {
      min := Some(bound);
      self := this;
    }

    method Max(bound: real) returns (self: Validator)
      requires Valid() && kind.NumberKind?
      modifies this
      ensures Valid() && self == this
      ensures old(Spec()).NumberNode? && Spec() == old(Spec()).(max := Some(bound))
    {
      max := Some(bound);
      self := this;
    }

    method Integer() returns (self: Validator)
      requires Valid() && kind.NumberKind?
      modifies this
      ensures Valid() && self == this
      ensures old(Spec()).NumberNode? && Spec() == old(Spec()).(integer := true)
    {
      integer := true;
      self := this;
    }

    method Before(date: Moment) returns (self: Validator)
      requires Valid() && kind.DateKind?
      modifies this
      ensures Valid() && self == this
      ensures old(Spec()).DateNode? && Spec() == old(Spec()).(before := Some(date))
    {
      before := Some(date);
      self := this;
    }

    method After(date: Moment) returns (self: Validator)
      requires Valid() && kind.DateKind?
      modifies this
      ensures Valid() && self == this
      ensures old(Spec()).DateNode? && Spec() == old(Spec()).(after := Some(date))
    {
      after := Some(date);
      self := this;
    }

    /** validate(value, path): the presence gate, the type check, then the
        kind's checks in order, collecting errors; arrays and objects visit
        their items and declared keys in order. */
    method Validate(host: Host, value: Value, path: string) returns (r: ValidationResult)
      requires Valid()
      ensures r == Validation.Validate(host, Spec(), value, path)
      decreases Repr
    {
      var cfg := Config(optional, customMessage);
      var undefinedResult := HandleUndefined(cfg, value, path);
      if undefinedResult.Some? {
        return undefinedResult.value;
      }
      match kind {
        case StringKind => r := ValidateStringValue(host, value, path);
        case NumberKind => r := ValidateNumberValue(value, path);
        case BooleanKind =>
          if !value.Bool? {
            return Fail(cfg, ExpectedBoolean, value, path);
          }
          r := ValidationResult(true, Some(value), []);
        case DateKind => r := ValidateDateValue(host, value, path);
        case ArrayKind => r := ValidateArray(host, value, path);
        case ObjectKind => r := ValidateObject(host, value, path);
      }
    }

    /** The string validator after the presence gate. */
    method ValidateStringValue(host: Host, value: Value, path: string) returns (r: ValidationResult)
      requires Valid() && kind.StringKind? && !IsAbsent(value)
      ensures r == Validation.Validate(host, Spec(), value, path)
    {
      var cfg := Config(optional, customMessage);
      if !value.Str? {
        return Fail(cfg, ExpectedString, value, path);
      }
      var errors := [];
      var len := |value.s| as real;
      if minLength.Some? && len < minLength.value {
        errors := errors + [CreateError(cfg, StringTooShort(minLength.value), value, path)];
      }
      if maxLength.Some? && len > maxLength.value {
        errors := errors + [CreateError(cfg, StringTooLong(maxLength.value), value, path)];
      }
      if pattern.Some? && !host.regexTest(pattern.value, value.s) {
        errors := errors + [CreateError(cfg, PatternMismatch, value, path)];
      }
      r := Finish(errors, value);
    }

    /** The number validator after the presence gate. */
    method ValidateNumberValue(value: Value, path: string) returns (r: ValidationResult)
      requires Valid() && kind.NumberKind? && !IsAbsent(value)
      ensures forall host :: r == Validation.Validate(host, Spec(), value, path)
    {
      var cfg := Config(optional, customMessage);
      if !value.Num? {
        return Fail(cfg, ExpectedNumber, value, path);
      }
      var errors := [];
      if min.Some? && value.x < min.value {
        errors := errors + [CreateError(cfg, NumberTooSmall(min.value), value, path)];
      }
      if max.Some? && value.x > max.value {
        errors := errors + [CreateError(cfg, NumberTooLarge(max.value), value, path)];
      }
      if integer && !IsWhole(value.x) {
        errors := errors + [CreateError(cfg, NotInteger, value, path)];
      }
      r := Finish(errors, value);
    }

    /** The date validator after the presence gate. */
    method ValidateDateValue(host: Host, value: Value, path: string) returns (r: ValidationResult)
      requires Valid() && kind.DateKind? && !IsAbsent(value)
      ensures r == Validation.Validate(host, Spec(), value, path)
    {
      var cfg := Config(optional, customMessage);
      var date := Coerce(host, value);
      if date.None? {
        return Fail(cfg, ExpectedDateLike, value, path);
      }
      if date.value.InvalidTime? {
        return Fail(cfg, InvalidDate, value, path);
      }
      var t := date.value.ms;
      var errors := [];
      if AtOrAfter(t, before) {
        errors := errors + [CreateError(cfg, NotBefore(before.value.ms), value, path)];
      }
      if AtOrBefore(t, after) {
        errors := errors + [CreateError(cfg, NotAfter(after.value.ms), value, path)];
      }
      r := Finish(errors, DateObj(ValidTime(t)));
    }

    /** The array validator after the presence gate. */
    method ValidateArray(host: Host, value: Value, path: string) returns (r: ValidationResult)
      requires Valid() && kind.ArrayKind? && !IsAbsent(value)
      ensures r == Validation.Validate(host, Spec(), value, path)
      decreases Repr, 1
    {
      var cfg := Config(optional, customMessage);
      ghost var n := Spec();
      assert n == ArrayNode(cfg, item.Spec(), minLength, maxLength);
      if !value.Arr? {
        return Fail(cfg, ExpectedArray, value, path);
      }
      var errors := [];
      var len := |value.items| as real;
      if minLength.Some? && len < minLength.value {
        errors := errors + [CreateError(cfg, TooFewItems(minLength.value), value, path)];
      }
      if maxLength.Some? && len > maxLength.value {
        errors := errors + [CreateError(cfg, TooManyItems(maxLength.value), value, path)];
      }
      assert errors == ArrayLengthErrors(n, value, path);
      var validatedItems;
      errors, validatedItems := ValidateItems(host, value.items, path, errors);
      r := Finish(errors, Arr(validatedItems));
      ArrayOutcome(host, n, value, path);
    }

    /** The array validator's loop: each item is validated at `${path}[i]`;
        a failed item's errors are appended, a successful item's data (when
        it has any) is kept. */
    method ValidateItems(host: Host, items: seq<Value>, path: string, errors0: seq<ValidationError>)
      returns (errors: seq<ValidationError>, validatedItems: seq<Value>)
      requires Valid() && kind.ArrayKind?
      ensures var rs := ItemResults(host, item.Spec(), items, path);
        errors == errors0 + FailureErrors(rs) && validatedItems == DefinedData(rs)
      decreases Repr, 0
    {
      ghost var itemSpec := item.Spec();
      ghost var rs := ItemResults(host, itemSpec, items, path);
      errors, validatedItems := errors0, [];
      var i := 0;
      while i < |items|
        invariant 0 <= i <= |items|
        invariant errors == errors0 + FailureErrors(rs[..i])
        invariant validatedItems == DefinedData(rs[..i])
      {
        var itemResult := item.Validate(host, items[i], ItemPath(path, i));
        ItemResultIs(host, itemSpec, items, path, i);
        CollectStep(rs, i, errors0, errors, validatedItems);
        if !itemResult.success {
          errors := errors + itemResult.errors;
        } else if itemResult.data.Some? {
          validatedItems := validatedItems + [itemResult.data.value];
        }
        i := i + 1;
      }
      assert rs[..i] == rs;
    }

    /** The object validator after the presence gate. */
    method ValidateObject(host: Host, value: Value, path: string) returns (r: ValidationResult)
      requires Valid() && kind.ObjectKind? && !IsAbsent(value)
      ensures r == Validation.Validate(host, Spec(), value, path)
      decreases Repr, 0
    {
      var cfg := Config(optional, customMessage);
      if !(value.Obj? || value.DateObj?) {
        return Fail(cfg, ExpectedObject, value, path);
      }
      var props := PropsOf(value);
      var errors := [];
      var validatedObject := map[];
      ghost var fields := FieldSpecs(0);
      ghost var rs := FieldResults(host, fields, props, path);
      var j := 0;
      while j < |children|
        invariant 0 <= j <= |children|
        invariant errors == FailureErrors(rs[..j])
        invariant validatedObject == FieldData(fields[..j], rs[..j])
      {
        var key := keys[j];
        var propertyPath := FieldPath(path, key);
        var result := children[j].Validate(host, Lookup(props, key), propertyPath);
        assert result == rs[j];
        FieldStep(fields, rs, j, errors, validatedObject);
        if !result.success {
          errors := errors + result.errors;
        } else if result.data.Some? {
          validatedObject := validatedObject[key := result.data.value];
        }
        j := j + 1;
      }
      assert rs[..j] == rs && fields[..j] == fields;
      r := Finish(errors, Obj(validatedObject));
      ObjectOutcome(host, Spec(), value, path);
    }
  }

  lemma ItemResultIs(host: Host, item: Node, items: seq<Value>, path: string, i: nat)
    requires i < |items|
    ensures ItemResults(host, item, items, path)[i] == Validation.Validate(host, item, items[i], ItemPath(path, i))
  {
  }

  /** One step of the collecting loops: a failed result's errors are
      appended, a successful result's data (when it has any) is kept. */
  lemma CollectStep(rs: seq<ValidationResult>, i: nat, errors0: seq<ValidationError>,
                    errors: seq<ValidationError>, data: seq<Value>)
    requires i < |rs|
    requires errors == errors0 + FailureErrors(rs[..i]) && data == DefinedData(rs[..i])
    ensures !rs[i].success ==> errors + rs[i].errors == errors0 + FailureErrors(rs[..i + 1]) && data == DefinedData(rs[..i + 1])
    ensures rs[i].success ==> errors == errors0 + FailureErrors(rs[..i + 1])
    ensures rs[i].success && rs[i].data.Some? ==> data + [rs[i].data.value] == DefinedData(rs[..i + 1])
    ensures rs[i].success && rs[i].data.None? ==> data == DefinedData(rs[..i + 1])
  {
    assert rs[..i + 1][..i] == rs[..i];
  }

  /** One step of the object loop: a failed field's errors are appended, a
      successful field's data (when it has any) is stored under its key. */
  lemma FieldStep(fields: seq<Field>, rs: seq<ValidationResult>, j: nat,
                  errors: seq<ValidationError>, data: map<string, Value>)
    requires j < |rs| == |fields|
    requires errors == FailureErrors(rs[..j]) && data == FieldData(fields[..j], rs[..j])
    ensures !rs[j].success ==> errors + rs[j].errors == FailureErrors(rs[..j + 1]) && data == FieldData(fields[..j + 1], rs[..j + 1])
    ensures rs[j].success ==> errors == FailureErrors(rs[..j + 1])
    ensures rs[j].success && rs[j].data.Some? ==> data[fields[j].key := rs[j].data.value] == FieldData(fields[..j + 1], rs[..j + 1])
    ensures rs[j].success && rs[j].data.None? ==> data == FieldData(fields[..j + 1], rs[..j + 1])
  {
    assert rs[..j + 1][..j] == rs[..j] && fields[..j + 1][..j] == fields[..j];
  }

  lemma ArrayOutcome(host: Host, n: Node, v: Value, path: string)
    requires n.ArrayNode? && v.Arr?
    ensures var rs := ItemResults(host, n.item, v.items, path);
      Validation.Validate(host, n, v, path)
      == Finish(ArrayLengthErrors(n, v, path) + FailureErrors(rs), Arr(DefinedData(rs)))
  {
  }

  lemma ObjectOutcome(host: Host, n: Node, v: Value, path: string)
    requires n.ObjectNode? && (v.Obj? || v.DateObj?)
    ensures var rs := FieldResults(host, n.fields, PropsOf(v), path);
      Validation.Validate(host, n, v, path) == Finish(FailureErrors(rs), Obj(FieldData(n.fields, rs)))
  {
  }

  /** Schema.string() */
  method String() returns (v: Validator)
    ensures fresh(v) && v.Valid() && fresh(v.Repr)
    ensures v.Spec() == StringNode(DefaultConfig, None, None, None)
  {
    v := new Validator.Leaf(StringKind);
  }

  /** Schema.number() */
  method Number() returns (v: Validator)
    ensures fresh(v) && v.Valid() && fresh(v.Repr)
    ensures v.Spec() == NumberNode(DefaultConfig, None, None, false)
  {
    v := new Validator.Leaf(NumberKind);
  }

  /** Schema.boolean() */
  method Boolean() returns (v: Validator)
    ensures fresh(v) && v.Valid() && fresh(v.Repr)
    ensures v.Spec() == BooleanNode(DefaultConfig)
  {
    v := new Validator.Leaf(BooleanKind);
  }

  /** Schema.date() */
  method Date() returns (v: Validator)
    ensures fresh(v) && v.Valid() && fresh(v.Repr)
    ensures v.Spec() == DateNode(DefaultConfig, None, None)
  {
    v := new Validator.Leaf(DateKind);
  }

  /** Schema.array(itemValidator) */
  method Array(itemValidator: Validator) returns (v: Validator)
    requires itemValidator.Valid()
    ensures fresh(v) && v.Valid() && fresh(v.Repr - itemValidator.Repr)
    ensures v.Spec() == ArrayNode(DefaultConfig, itemValidator.Spec(), None, None)
  {
    v := new Validator.ArrayOf(itemValidator);
  }

  /** Schema.object(schema), the schema given as its entries. */
  method Object(keys: seq<string>, validators: seq<Validator>) returns (v: Validator)
    requires |keys| == |validators| && Distinct(keys)
    requires forall i :: 0 <= i < |validators| ==> validators[i].Valid()
    ensures fresh(v) && v.Valid() && fresh(v.Repr - v.ChildRepr)
    ensures v.Spec().ObjectNode? && v.Spec().cfg == DefaultConfig
    ensures |v.Spec().fields| == |validators|
    ensures forall i :: 0 <= i < |validators| ==> v.Spec().fields[i] == Field(keys[i], validators[i].Spec())
  {
    v := new Validator.ObjectOf(keys, validators);
    ghost var fs := v.FieldSpecs(0);
    assert v.Spec() == ObjectNode(DefaultConfig, fs);
    forall i | 0 <= i < |validators| ensures fs[i] == Field(keys[i], validators[i].Spec()) {
      assert fs[i - 0] == Field(keys[i], validators[i].Spec());
    }
  }
}
