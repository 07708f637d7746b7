/**
 * `validateGameState` of server.js: a game-state message is accepted only if
 * it is an object whose fourteen schema fields have the right types and
 * bounds; the accepted state holds exactly those fields, strings sanitised,
 * numbers rounded, and nothing else.
 */
module GameStateValidation {
  import opened Wrappers
  import opened JsStrings
  import opened JsValue
  import opened Sanitize

  datatype FieldRule =
    | StringRule(maxLength: nat)
    | NumberRule(min: int, max: int)
    | BooleanRule

  datatype Field = Field(name: string, rule: FieldRule)

  /** The schema, in the order the fields are checked. */
  const Schema: seq<Field> := [
    Field("game_title", StringRule(100)),
    Field("team_top", StringRule(50)),
    Field("team_bottom", StringRule(50)),
    Field("game_inning", NumberRule(0, 99)),
    Field("top", BooleanRule),
    Field("first_base", BooleanRule),
    Field("second_base", BooleanRule),
    Field("third_base", BooleanRule),
    Field("ball_cnt", NumberRule(0, 3)),
    Field("strike_cnt", NumberRule(0, 2)),
    Field("out_cnt", NumberRule(0, 2)),
    Field("score_top", NumberRule(0, 999)),
    Field("score_bottom", NumberRule(0, 999)),
    Field("last_inning", NumberRule(1, 99))
  ]

  datatype ValidationError =
    | NotAnObject
    | NotString(field: string)
    | TooLong(field: string, maxLength: nat)
    | NotFiniteNumber(field: string)
    | BelowMin(field: string, min: int)
    | AboveMax(field: string, max: int)
    | NotBoolean(field: string)

  /** The `error` text of a rejected validation. */
  function Message(e: ValidationError): string
  {
    match e
    case NotAnObject => "Game data must be a non-null object"
    case NotString(f) => "Field '" + f + "' must be a string"
    case TooLong(f, n) => "Field '" + f + "' exceeds maximum length of " + NatToDecimal(n)
    case NotFiniteNumber(f) => "Field '" + f + "' must be a finite number"
    case BelowMin(f, n) => "Field '" + f + "' must be at least " + IntToDecimal(n)
    case AboveMax(f, n) => "Field '" + f + "' must be at most " + IntToDecimal(n)
    case NotBoolean(f) => "Field '" + f + "' must be a boolean"
  }

  /**
   * One iteration of the validation loop: the check of `value` against the
   * rule of `f`, and the value stored for it when the check passes.
   */
  function CheckField(f: Field, value: Value): (r: Result<Value, ValidationError>)
    ensures r.Err? ==> r.error != NotAnObject && r.error.field == f.name
  {
    match f.rule
    case StringRule(maxLength) =>
      if !value.Str? then Err(NotString(f.name))
      // `rules.maxLength && …`: a zero limit is falsy and switches the check off.
      else if maxLength != 0 && |value.s| > maxLength then Err(TooLong(f.name, maxLength))
      else Ok(Str(SanitizeHtml(value.s)))
    case NumberRule(min, max) =>
      if !value.Num? then Err(NotFiniteNumber(f.name))
      else if value.x < min as real then Err(BelowMin(f.name, min))
      else if value.x > max as real then Err(AboveMax(f.name, max))
      else Ok(Num(RoundHalfUp(value.x) as real))
    case BooleanRule =>
      if value.Bool? then Ok(value) else Err(NotBoolean(f.name))
  }

  /**
   * What one field's check accepts and what it stores: a string within its
   * limit, sanitised; a finite number within its bounds, rounded; a boolean,
   * as it is. Anything of the wrong type fails with the type error.
   */
  lemma CheckFieldMeaning(f: Field, value: Value)
    ensures var r := CheckField(f, value);
      && (f.rule.StringRule? ==>
        (r.Ok? <==> value.Str? && (f.rule.maxLength == 0 || |value.s| <= f.rule.maxLength))
        && (r.Ok? ==> r.value == Str(SanitizeHtml(value.s)))
        && (!value.Str? ==> r == Err(NotString(f.name))))
      && (f.rule.NumberRule? ==>
        (r.Ok? <==> value.Num? && f.rule.min as real <= value.x <= f.rule.max as real)
        && (r.Ok? ==> r.value == Num(RoundHalfUp(value.x) as real))
        && (!value.Num? ==> r == Err(NotFiniteNumber(f.name))))
      && (f.rule.BooleanRule? ==>
        (r.Ok? <==> value.Bool?) && (r.Ok? ==> r.value == value)
        && (!value.Bool? ==> r == Err(NotBoolean(f.name))))
  {
  }

  /** The check of field `f` of the object with properties `m`. */
  function FieldOutcome(m: map<string, Value>, f: Field): Result<Value, ValidationError>
  {
    CheckField(f, Prop(Obj(m), f.name))
  }

  /** The names of `fields`. */
  function Names(fields: seq<Field>): (r: set<string>)
    ensures forall i :: 0 <= i < |fields| ==> fields[i].name in r
  {
    if |fields| == 0 then {} else Names(fields[..|fields| - 1]) + {fields[|fields| - 1].name}
  }

  /**
   * The loop over `fields`, as a specification: the first failing field
   * decides the error; otherwise every field's checked value is stored.
   */
  function ValidateFields(m: map<string, Value>, fields: seq<Field>): (r: Result<map<string, Value>, ValidationError>)
    ensures r.Ok? ==> r.value.Keys == Names(fields)
    ensures r.Err? ==> r.error != NotAnObject
    decreases |fields|
  {
    if |fields| == 0 then Ok(map[])
    else
      var f := fields[|fields| - 1];
      match ValidateFields(m, fields[..|fields| - 1])
      case Err(e) => Err(e)
      case Ok(acc) =>
        match FieldOutcome(m, f)
        case Err(e) => Err(e)
        case Ok(x) => Ok(acc[f.name := x])
  }

  /** `validateGameState(gameData)`: the sanitised fields, or the first error. */
  function Validate(gameData: Value): (r: Result<map<string, Value>, ValidationError>)
    ensures r == Err(NotAnObject) <==> !gameData.Obj?
  {
    if !gameData.Obj? then Err(NotAnObject) else ValidateFields(gameData.props, Schema)
  }

  /** The validation loop of server.js, proved to compute `Validate`. */
  method ValidateGameState(gameData: Value) returns (r: Result<map<string, Value>, ValidationError>)
    ensures r == Validate(gameData)
  {
    if !gameData.Obj? {
      return Err(NotAnObject);
    }
    var sanitized: map<string, Value> := map[];
    for i := 0 to |Schema|
      invariant ValidateFields(gameData.props, Schema[..i]) == Ok(sanitized)
    {
      var field := Schema[i];
      var out := CheckValue(field, Prop(gameData, field.name));
      ValidateFieldsStep(gameData.props, Schema, i);
      if out.Err? {
        ErrorSticks(gameData.props, Schema, i + 1);
        return Err(out.error);
      }
      sanitized := sanitized[field.name := out.value];
    }
    assert Schema[..|Schema|] == Schema;
    return Ok(sanitized);
  }

  /** The body of the validation loop for one field, proved to compute `CheckField`. */
  method CheckValue(field: Field, value: Value) returns (r: Result<Value, ValidationError>)
    ensures r == CheckField(field, value)
  {
    match field.rule {
      case StringRule(maxLength) =>
        if !value.Str? {
          return Err(NotString(field.name));
        }
        if maxLength != 0 && |value.s| > maxLength {
          return Err(TooLong(field.name, maxLength));
        }
        return Ok(Str(SanitizeHtml(value.s)));
      case NumberRule(min, max) =>
        if !value.Num? {
          return Err(NotFiniteNumber(field.name));
        }
        if value.x < min as real {
          return Err(BelowMin(field.name, min));
        }
        if value.x > max as real {
          return Err(AboveMax(field.name, max));
        }
        return Ok(Num(RoundHalfUp(value.x) as real));
      case BooleanRule =>
        if !value.Bool? {
          return Err(NotBoolean(field.name));
        }
        return Ok(value);
    }
  }

  /** One more turn of the loop: the next field's check decides the outcome. */
  lemma ValidateFieldsStep(m: map<string, Value>, fields: seq<Field>, i: nat)
    requires i < |fields| && ValidateFields(m, fields[..i]).Ok?
    ensures var acc, out := ValidateFields(m, fields[..i]).value, FieldOutcome(m, fields[i]);
      ValidateFields(m, fields[..i + 1])
        == if out.Ok? then Ok(acc[fields[i].name := out.value]) else Err(out.error)
  {
    assert fields[..i + 1][..i] == fields[..i];
  }

  /** Once a prefix of the fields fails, the whole loop fails with the same error. */
  lemma {:induction false} ErrorSticks(m: map<string, Value>, fields: seq<Field>, k: nat)
    requires k <= |fields| && ValidateFields(m, fields[..k]).Err?
    ensures ValidateFields(m, fields) == ValidateFields(m, fields[..k])
    decreases |fields|
  {
    if k == |fields| {
      assert fields[..k] == fields;
    } else {
      var init := fields[..|fields| - 1];
      assert init[..k] == fields[..k];
      ErrorSticks(m, init, k);
    }
  }

  /** Every field in `fields` passes its check: all but the last do, and the last does. */
  predicate AllPass(m: map<string, Value>, fields: seq<Field>)
    decreases |fields|
  {
    |fields| == 0 || (AllPass(m, fields[..|fields| - 1]) && Passes(m, fields[|fields| - 1]))
  }

  /** Field `f` of the object with properties `m` passes its check. */
  predicate Passes(m: map<string, Value>, f: Field)
  {
    FieldOutcome(m, f).Ok?
  }

  /** Field `i` is the first of `fields` to fail, and it fails with `e`. */
  predicate FirstFailureAt(m: map<string, Value>, fields: seq<Field>, i: nat, e: ValidationError)
  {
    i < |fields|
    && FieldOutcome(m, fields[i]) == Err(e)
    && AllPass(m, fields[..i])
  }

  /** The loop succeeds exactly when every field passes. */
  lemma {:induction false} ValidateFieldsOkIff(m: map<string, Value>, fields: seq<Field>)
    ensures ValidateFields(m, fields).Ok? <==> AllPass(m, fields)
    decreases |fields|
  {
    if |fields| > 0 {
      var n := |fields| - 1;
      var init := fields[..n];
      ValidateFieldsOkIff(m, init);
    }
  }

  /** When the loop fails, its error is the one of the first failing field. */
  lemma {:induction false} ValidateFieldsFirstFailure(m: map<string, Value>, fields: seq<Field>)
    requires ValidateFields(m, fields).Err?
    ensures exists i: nat :: FirstFailureAt(m, fields, i, ValidateFields(m, fields).error)
    decreases |fields|
  {
    var n := |fields| - 1;
    var init := fields[..n];
    assert forall i :: 0 <= i < |init| ==> init[i] == fields[i];
    if ValidateFields(m, init).Err? {
      ValidateFieldsFirstFailure(m, init);
      var i: nat :| FirstFailureAt(m, init, i, ValidateFields(m, init).error);
      assert init[..i] == fields[..i];
      assert FirstFailureAt(m, fields, i, ValidateFields(m, fields).error);
    } else {
      ValidateFieldsOkIff(m, init);
      assert fields[..n] == init;
      assert FirstFailureAt(m, fields, n, ValidateFields(m, fields).error);
    }
  }

  /** On success, each field's stored value is the checked value of that field. */
  lemma {:induction false} ValidateFieldsStores(m: map<string, Value>, fields: seq<Field>, i: nat)
    requires ValidateFields(m, fields).Ok? && i < |fields|
    requires forall j :: i < j < |fields| ==> fields[j].name != fields[i].name
    ensures FieldOutcome(m, fields[i]).Ok?
    ensures ValidateFields(m, fields).value[fields[i].name] == FieldOutcome(m, fields[i]).value
    decreases |fields|
  {
    var n := |fields| - 1;
    var init := fields[..n];
    var acc := ValidateFields(m, init);
    var out := FieldOutcome(m, fields[n]);
    assert acc.Ok? && out.Ok?;
    assert ValidateFields(m, fields).value == acc.value[fields[n].name := out.value];
    if i < n {
      assert init[i] == fields[i];
      assert forall j :: i < j < |init| ==> init[j] == fields[j];
      ValidateFieldsStores(m, init, i);
    }
  }

  /** The schema names its fields once each. */
  lemma SchemaNamesDistinct()
    ensures forall i, j :: 0 <= i < j < |Schema| ==> Schema[i].name != Schema[j].name
  {
  }

  /**
   * A message is accepted exactly when it is an object and every schema field
   * passes its check; a rejection carries the error of the first field, in
   * schema order, that fails.
   */
  lemma ValidateAcceptsIff(gameData: Value)
    ensures Validate(gameData).Ok? <==> gameData.Obj? && AllPass(gameData.props, Schema)
    ensures Validate(gameData).Err? && gameData.Obj? ==>
      exists i: nat :: FirstFailureAt(gameData.props, Schema, i, Validate(gameData).error)
  {
    if gameData.Obj? {
      ValidateFieldsOkIff(gameData.props, Schema);
      if Validate(gameData).Err? {
        ValidateFieldsFirstFailure(gameData.props, Schema);
      }
    }
  }

  /** The value a schema field may hold in an accepted state. */
  predicate Conforms(rule: FieldRule, v: Value)
  {
    match rule
    case StringRule(maxLength) =>
      v.Str? && (maxLength == 0 || |v.s| <= maxLength) && NoOuterSpace(v.s)
      && forall i, j :: 0 <= i < j < |v.s| && v.s[i] == '<' ==> v.s[j] != '>'
    case NumberRule(min, max) =>
      v.Num? && v.x == v.x.Floor as real && min as real <= v.x <= max as real
    case BooleanRule => v.Bool?
  }

  /**
   * An accepted state holds exactly the schema fields, and each holds a value
   * of its declared type within its bounds: strings no longer than their limit,
   * trimmed and without a tag; numbers whole and in range.
   */
  lemma AcceptedStateConforms(gameData: Value)
    requires Validate(gameData).Ok?
    ensures Validate(gameData).value.Keys == Names(Schema)
    ensures forall i :: 0 <= i < |Schema| ==>
      Conforms(Schema[i].rule, Validate(gameData).value[Schema[i].name])
  {
    var out := Validate(gameData).value;
    SchemaNamesDistinct();
    forall i | 0 <= i < |Schema| ensures Conforms(Schema[i].rule, out[Schema[i].name]) {
      ValidateFieldsStores(gameData.props, Schema, i);
      CheckedValueConforms(gameData.props, Schema[i]);
    }
  }

  /** A value that passes its field's check is stored in conforming form. */
  lemma CheckedValueConforms(m: map<string, Value>, f: Field)
    requires FieldOutcome(m, f).Ok?
    ensures Conforms(f.rule, FieldOutcome(m, f).value)
  {
    var value := Prop(Obj(m), f.name);
    CheckFieldMeaning(f, value);
    match f.rule {
      case StringRule(maxLength) =>
        SanitizedConforms(value.s, maxLength);
      case NumberRule(min, max) =>
        RoundStaysInBounds(value.x, min, max);
      case BooleanRule =>
    }
  }

  /** A string within its limit is stored sanitised: within the limit, trimmed, without a tag. */
  lemma SanitizedConforms(s: string, maxLength: nat)
    requires maxLength == 0 || |s| <= maxLength
    ensures Conforms(StringRule(maxLength), Str(SanitizeHtml(s)))
  {
    SanitizeLeavesNoTagSpan(s);
  }

  /**
   * Fields outside the schema are ignored: two objects that agree on the
   * schema fields validate to the same result.
   */
  lemma {:induction false} ValidateFieldsIgnoresOthers(m1: map<string, Value>, m2: map<string, Value>, fields: seq<Field>)
    requires forall i :: 0 <= i < |fields| ==> Prop(Obj(m1), fields[i].name) == Prop(Obj(m2), fields[i].name)
    ensures ValidateFields(m1, fields) == ValidateFields(m2, fields)
    decreases |fields|
  {
    if |fields| > 0 {
      var init := fields[..|fields| - 1];
      assert forall i :: 0 <= i < |init| ==> init[i] == fields[i];
      ValidateFieldsIgnoresOthers(m1, m2, init);
    }
  }

  lemma UnexpectedFieldsIgnored(m: map<string, Value>, extra: map<string, Value>)
    requires forall i :: 0 <= i < |Schema| ==> Schema[i].name !in extra
    ensures Validate(Obj(m + extra)) == Validate(Obj(m))
  {
    ValidateFieldsIgnoresOthers(m + extra, m, Schema);
  }

  /** A value already in the form validation produces: trimmed text without `<` or `&`, a whole number, a boolean. */
  predicate Clean(rule: FieldRule, v: Value)
  {
    match rule
    case StringRule(maxLength) =>
      v.Str? && (maxLength == 0 || |v.s| <= maxLength) && '<' !in v.s && '&' !in v.s && NoOuterSpace(v.s)
    case NumberRule(min, max) =>
      v.Num? && v.x == v.x.Floor as real && min as real <= v.x <= max as real
    case BooleanRule => v.Bool?
  }

  /** A clean value passes its field's check and is stored as it is. */
  lemma CleanValueKept(f: Field, v: Value)
    requires Clean(f.rule, v)
    ensures CheckField(f, v) == Ok(v)
  {
    match f.rule {
      case StringRule(maxLength) =>
        SanitizePlainText(v.s);
        TrimOfTrimmed(v.s);
      case NumberRule(min, max) =>
        assert RoundHalfUp(v.x) == v.x.Floor;
      case BooleanRule =>
    }
  }

  /** When every field holds a clean value, the loop succeeds. */
  lemma {:induction false} CleanFieldsPass(m: map<string, Value>, fields: seq<Field>)
    requires forall i :: 0 <= i < |fields| ==> Clean(fields[i].rule, Prop(Obj(m), fields[i].name))
    ensures ValidateFields(m, fields).Ok?
    decreases |fields|
  {
    if |fields| > 0 {
      var n := |fields| - 1;
      var init := fields[..n];
      assert forall i :: 0 <= i < |init| ==> init[i] == fields[i];
      CleanFieldsPass(m, init);
      CleanValueKept(fields[n], Prop(Obj(m), fields[n].name));
    }
  }

  /**
   * A state whose schema fields are already clean validates to itself: the
   * result holds exactly the schema fields, each with the value it had.
   */
  lemma CleanStateValidatesToItself(m: map<string, Value>)
    requires forall i :: 0 <= i < |Schema| ==> Clean(Schema[i].rule, Prop(Obj(m), Schema[i].name))
    ensures Validate(Obj(m)).Ok?
    ensures Validate(Obj(m)).value.Keys == Names(Schema)
    ensures forall i :: 0 <= i < |Schema| ==> Validate(Obj(m)).value[Schema[i].name] == Prop(Obj(m), Schema[i].name)
  {
    CleanFieldsPass(m, Schema);
    SchemaNamesDistinct();
    forall i | 0 <= i < |Schema|
      ensures Validate(Obj(m)).value[Schema[i].name] == Prop(Obj(m), Schema[i].name)
    {
      ValidateFieldsStores(m, Schema, i);
      CleanValueKept(Schema[i], Prop(Obj(m), Schema[i].name));
    }
  }
}
