/** The request-validation middleware (backend/middleware/validator.js): the
    Joi schemas the patient and record routes use, read as data, and the
    `validate` / `validateQuery` wrappers that run a schema with
    `abortEarly: false` and `stripUnknown: true`.

    Joi's checks are written out in the order Joi applies them to one key:
    conversion (case, trim, numeric and boolean strings), presence and
    default, the allowed values, the base type (a base error ends that key),
    then every rule. Joi's address check and date parser are parameters, and so
    is the clock. */
module Validator {
  import opened Js
  import opened Patterns
  import PatientRecordModel

  /** A parsed JSON body or query-string value. */
  datatype Value =
    | VString(s: string)
    | VNumber(x: real)
    | VBool(b: bool)
    | VDate(time: int)
    | VNull
    | VArray(items: seq<Value>)
    | VObject(fields: map<string, Value>)

  function Get(fields: map<string, Value>, key: string): Option<Value> {
    if key in fields then Some(fields[key]) else None
  }

  datatype PathItem = Key(name: string) | Index(i: nat)

  /** Joi's error codes. */
  datatype ErrorKind =
    | AnyRequired | AnyOnly
    | StringBase | StringEmpty | StringMin(minLength: nat) | StringMax(maxLength: nat)
    | StringPattern | StringEmail
    | NumberBase | NumberInteger | NumberMin(min: int) | NumberMax(max: int)
    | BooleanBase | DateBase | DateMax
    | ArrayBase | ArrayMin(minItems: nat) | ObjectBase

  /** One entry of `error.details`. */
  datatype Detail = Detail(path: seq<PathItem>, kind: ErrorKind)

  /** The outcome for one value: its errors, and the converted value (None
      when the key is absent from the result). */
  datatype Checked = Checked(errors: seq<Detail>, value: Option<Value>)

  /** The outcome for an object: every error of every key, and the object with
      unknown keys stripped. */
  datatype ObjectResult = ObjectResult(errors: seq<Detail>, value: map<string, Value>)

  /** What the checks depend on beyond the value: Joi's address check, Joi's
      date conversion, and the current time for `max('now')`. */
  datatype Env = Env(isEmail: string -> bool, parseDate: Value -> Option<int>, now: int)

  // ---------------------------------------------------------------------------
  // Schemas as data

  datatype StringSpec = StringSpec(
    required: bool,
    lowercase: bool,
    trim: bool,
    only: seq<string>,
    minLength: Option<nat>,
    maxLength: Option<nat>,
    tenDigits: bool,
    email: bool,
    default: Option<string>)

  /** `Joi.number()`, optionally `.integer()`, `.min`, `.max` and `.default`. */
  datatype NumberSpec = NumberSpec(integer: bool, min: Option<int>, max: Option<int>, default: Option<int>)

  datatype ItemSchema = StringItem(spec: StringSpec) | ObjectItem(keys: seq<(string, StringSpec)>)

  datatype Rule =
    | StringRule(spec: StringSpec)
    | NumberRule(number: NumberSpec)
    | BooleanRule
      /** `Joi.date().max('now')` */
    | DateRule(required: bool)
    | ArrayRule(required: bool, item: ItemSchema, minItems: Option<nat>)

  /** `Joi.string()`: optional, no conversion, no rule. */
  const PLAIN: StringSpec := StringSpec(false, false, false, [], None, None, false, false, None)

  const CREATE_PATIENT: seq<(string, Rule)> := [
    ("name", StringRule(PLAIN.(required := true, trim := true, minLength := Some(3), maxLength := Some(100)))),
    ("dob", DateRule(true)),
    ("contact", StringRule(PLAIN.(required := true, tenDigits := true))),
    ("email", StringRule(PLAIN.(lowercase := true, trim := true, email := true))),
    ("medicalHistory", StringRule(PLAIN.(required := true, minLength := Some(10), maxLength := Some(1000))))]

  const UPDATE_PATIENT: seq<(string, Rule)> := [
    ("name", StringRule(PLAIN.(trim := true, minLength := Some(3), maxLength := Some(100)))),
    ("dob", DateRule(false)),
    ("contact", StringRule(PLAIN.(tenDigits := true))),
    ("email", StringRule(PLAIN.(lowercase := true, trim := true, email := true))),
    ("medicalHistory", StringRule(PLAIN.(minLength := Some(10), maxLength := Some(1000)))),
    ("bloodPressure", StringRule(PLAIN)),
    ("heartRate", StringRule(PLAIN)),
    ("respiratoryRate", StringRule(PLAIN)),
    ("oxygenLevel", StringRule(PLAIN)),
    ("isCritical", BooleanRule)]

  const READING: seq<(string, StringSpec)> := [
    ("testType", PLAIN.(required := true, only := PatientRecordModel.TEST_TYPES)),
    ("value", PLAIN.(required := true, trim := true))]

  const CREATE_PATIENT_RECORD: seq<(string, Rule)> := [
    ("patientId", StringRule(PLAIN.(required := true))),
    ("readings", ArrayRule(true, ObjectItem(READING), Some(1))),
    ("symptoms", ArrayRule(false, StringItem(PLAIN), None)),
    ("treatmentNotes", StringRule(PLAIN.(trim := true, maxLength := Some(1000)))),
    ("isCritical", BooleanRule)]

  const PAGINATION_QUERY: seq<(string, Rule)> := [
    ("page", NumberRule(NumberSpec(true, Some(1), None, Some(1)))),
    ("limit", NumberRule(NumberSpec(true, Some(1), Some(100), Some(10)))),
    ("sortBy", StringRule(PLAIN)),
    ("sortOrder", StringRule(PLAIN.(only := ["asc", "desc"], default := Some("desc")))),
    ("search", StringRule(PLAIN))]

  // ---------------------------------------------------------------------------
  // One value

  /** Every error lies under `path`. */
  predicate Under(errs: seq<Detail>, path: seq<PathItem>) {
    forall d | d in errs :: |path| <= |d.path| && d.path[..|path|] == path
  }

  /** The `lowercase()` and `trim()` conversions, lower-casing first. */
  function CoerceString(spec: StringSpec, v: Value): Value
  {
    if v.VString? then
      var lowered := if spec.lowercase then ToLower(v.s) else v.s;
      VString(if spec.trim then Trim(lowered) else lowered)
    else v
  }

  function StringRuleErrors(path: seq<PathItem>, spec: StringSpec, s: string, env: Env): seq<Detail>
  {
    (if spec.minLength.Some? && |s| < spec.minLength.value then [Detail(path, StringMin(spec.minLength.value))] else [])
    + (if spec.maxLength.Some? && |s| > spec.maxLength.value then [Detail(path, StringMax(spec.maxLength.value))] else [])
    + (if spec.tenDigits && !TenDigits(s) then [Detail(path, StringPattern)] else [])
    + (if spec.email && !env.isEmail(s) then [Detail(path, StringEmail)] else [])
  }

  /** The rules a converted string passes. */
  predicate StringRulesHold(spec: StringSpec, s: string, env: Env) {
    (spec.minLength.None? || |s| >= spec.minLength.value)
    && (spec.maxLength.None? || |s| <= spec.maxLength.value)
    && (!spec.tenDigits || TenDigits(s))
    && (!spec.email || env.isEmail(s))
  }

  /** A string key is accepted when it is absent and optional, or when its
      converted value is an allowed value, or, without a list of allowed
      values, a non-empty string that passes every rule. */
  predicate StringAccepted(spec: StringSpec, v: Option<Value>, env: Env) {
    if v.None? then !spec.required
    else
      var x := CoerceString(spec, v.value);
      x.VString? && (x.s in spec.only
        || (spec.only == [] && (x.s != [] || spec.minLength == Some(0)) && StringRulesHold(spec, x.s, env)))
  }

  /** `Joi.string()` with the given flags and rules, on one value. */
  function CheckString(path: seq<PathItem>, spec: StringSpec, v: Option<Value>, env: Env): (r: Checked)
    ensures r.errors == [] <==> StringAccepted(spec, v, env)
    ensures forall d | d in r.errors :: d.path == path
    ensures v.None? ==> r.value == (if !spec.required && spec.default.Some? then Some(VString(spec.default.value)) else None)
    ensures v.Some? ==> r.value == Some(CoerceString(spec, v.value))
  {
    if v.None? then
      if spec.required then Checked([Detail(path, AnyRequired)], None)
      else if spec.default.Some? then Checked([], Some(VString(spec.default.value)))
      else Checked([], None)
    else
      var x := CoerceString(spec, v.value);
      if x.VString? && x.s in spec.only then Checked([], Some(x))
      else
        var disallowed := if spec.only != [] then [Detail(path, AnyOnly)] else [];
        if !x.VString? then Checked(disallowed + [Detail(path, StringBase)], Some(x))
        else if x.s == [] && spec.minLength != Some(0) then Checked(disallowed + [Detail(path, StringEmpty)], Some(x))
        else
          var errs := StringRuleErrors(path, spec, x.s, env);
          assert errs == [] <==> StringRulesHold(spec, x.s, env);
          Checked(disallowed + errs, Some(x))
  }

  const MAX_SAFE_INTEGER: int := 9007199254740991

  /** The number a string converts to: Joi accepts a signed decimal literal
      with surrounding white space, and not the empty string. */
  function NumeralValue(s: string): (r: Option<real>)
    ensures Trim(s) == [] ==> r.None?
  {
    if Trim(s) == [] then None else ToNumber(s)
  }

  function CoerceNumber(v: Value): Value
  {
    if v.VString? && NumeralValue(v.s).Some? then VNumber(NumeralValue(v.s).value) else v
  }

  /** `Number.isSafeInteger` */
  predicate SafeInteger(x: real) {
    x == x.Floor as real && -MAX_SAFE_INTEGER <= x.Floor <= MAX_SAFE_INTEGER
  }

  predicate NumberAccepted(spec: NumberSpec, v: Option<Value>) {
    v.None? || (
      var x := CoerceNumber(v.value);
      x.VNumber? && (!spec.integer || SafeInteger(x.x))
      && (spec.min.None? || x.x >= spec.min.value as real)
      && (spec.max.None? || x.x <= spec.max.value as real))
  }

  /** `Joi.number()` with its rules; an absent key takes the default. */
  function CheckNumber(path: seq<PathItem>, spec: NumberSpec, v: Option<Value>): (r: Checked)
    ensures r.errors == [] <==> NumberAccepted(spec, v)
    ensures forall d | d in r.errors :: d.path == path
    ensures v.None? ==> r.value == (if spec.default.Some? then Some(VNumber(spec.default.value as real)) else None)
    ensures v.Some? ==> r.value == Some(CoerceNumber(v.value))
  {
    if v.None? then
      Checked([], if spec.default.Some? then Some(VNumber(spec.default.value as real)) else None)
    else
      var x := CoerceNumber(v.value);
      if !x.VNumber? then Checked([Detail(path, NumberBase)], Some(x))
      else
        Checked((if spec.integer && !SafeInteger(x.x) then [Detail(path, NumberInteger)] else [])
          + (if spec.min.Some? && x.x < spec.min.value as real then [Detail(path, NumberMin(spec.min.value))] else [])
          + (if spec.max.Some? && x.x > spec.max.value as real then [Detail(path, NumberMax(spec.max.value))] else []),
          Some(x))
  }

  /** Joi's boolean conversion compares the string case-insensitively with
      'true' and 'false', without trimming. */
  function CoerceBoolean(v: Value): Value
  {
    if v.VString? && ToLower(v.s) == "true" then VBool(true)
    else if v.VString? && ToLower(v.s) == "false" then VBool(false)
    else v
  }

  /** `Joi.boolean().optional()` */
  function CheckBoolean(path: seq<PathItem>, v: Option<Value>): (r: Checked)
    ensures r.errors == [] <==> v.None? || CoerceBoolean(v.value).VBool?
    ensures forall d | d in r.errors :: d.path == path
    ensures v.Some? ==> r.value == Some(CoerceBoolean(v.value))
    ensures v.None? ==> r.value.None?
  {
    if v.None? then Checked([], None)
    else
      var x := CoerceBoolean(v.value);
      Checked(if x.VBool? then [] else [Detail(path, BooleanBase)], Some(x))
  }

  /** `Joi.date().max('now')`: the value must convert to a time no later than now. */
  function CheckDate(path: seq<PathItem>, required: bool, v: Option<Value>, env: Env): (r: Checked)
    ensures r.errors == [] <==>
      (v.None? && !required) || (v.Some? && env.parseDate(v.value).Some? && env.parseDate(v.value).value <= env.now)
    ensures forall d | d in r.errors :: d.path == path
    ensures v.Some? && env.parseDate(v.value).Some? ==> r.value == Some(VDate(env.parseDate(v.value).value))
    ensures v.None? ==> r.value.None?
  {
    if v.None? then Checked(if required then [Detail(path, AnyRequired)] else [], None)
    else
      match env.parseDate(v.value)
      case None => Checked([Detail(path, DateBase)], v)
      case Some(t) => Checked(if t > env.now then [Detail(path, DateMax)] else [], Some(VDate(t)))
  }

  // ---------------------------------------------------------------------------
  // Objects and arrays

  /** Every error of every chunk, in order. */
  function Flatten(chunks: seq<seq<Detail>>): (r: seq<Detail>)
    ensures forall d :: d in r <==> exists i | 0 <= i < |chunks| :: d in chunks[i]
    ensures r == [] <==> forall i | 0 <= i < |chunks| :: chunks[i] == []
    decreases |chunks|
  {
    if chunks == [] then []
    else
      var n := |chunks| - 1;
      var front := Flatten(chunks[..n]);
      assert forall i | 0 <= i < n :: chunks[..n][i] == chunks[i];
      front + chunks[n]
  }

  predicate Distinct(names: seq<string>) {
    forall i, j | 0 <= i < j < |names| :: names[i] != names[j]
  }

  function ErrorsOf(results: seq<Checked>): (chunks: seq<seq<Detail>>)
    ensures |chunks| == |results| && forall i | 0 <= i < |results| :: chunks[i] == results[i].errors
  {
    seq(|results|, i requires 0 <= i < |results| => results[i].errors)
  }

  /** The object holding each key whose check produced a value. */
  function Fields(names: seq<string>, results: seq<Checked>): (m: map<string, Value>)
    requires |names| == |results|
    ensures forall k | k in m :: k in names
    ensures Distinct(names) ==> forall i | 0 <= i < |names| ::
      (names[i] in m <==> results[i].value.Some?) && (names[i] in m ==> m[names[i]] == results[i].value.value)
    decreases |names|
  {
    if names == [] then map[]
    else
      var n := |names| - 1;
      var front := Fields(names[..n], results[..n]);
      assert forall i | 0 <= i < n :: names[..n][i] == names[i] && results[..n][i] == results[i];
      if results[n].value.Some? then front[names[n] := results[n].value.value] else front
  }

  /** The result of checking each key: all the errors (`abortEarly: false`),
      and only the schema's keys (`stripUnknown: true`). */
  function Collect(names: seq<string>, results: seq<Checked>): (r: ObjectResult)
    requires |names| == |results|
    ensures forall d :: d in r.errors <==> exists i | 0 <= i < |results| :: d in results[i].errors
    ensures r.errors == [] <==> forall i | 0 <= i < |results| :: results[i].errors == []
    ensures forall k | k in r.value :: k in names
  {
    ObjectResult(Flatten(ErrorsOf(results)), Fields(names, results))
  }

  function Names<R>(schema: seq<(string, R)>): (names: seq<string>)
    ensures |names| == |schema| && forall i | 0 <= i < |schema| :: names[i] == schema[i].0
  {
    seq(|schema|, i requires 0 <= i < |schema| => schema[i].0)
  }

  function StringKeyResults(path: seq<PathItem>, keys: seq<(string, StringSpec)>, fields: map<string, Value>, env: Env)
    : (results: seq<Checked>)
    ensures |results| == |keys|
    ensures forall i | 0 <= i < |keys| ::
      results[i] == CheckString(path + [Key(keys[i].0)], keys[i].1, Get(fields, keys[i].0), env)
  {
    seq(|keys|, i requires 0 <= i < |keys| => CheckString(path + [Key(keys[i].0)], keys[i].1, Get(fields, keys[i].0), env))
  }

  lemma UnderPrefix(errs: seq<Detail>, path: seq<PathItem>, more: seq<PathItem>)
    requires Under(errs, path + more)
    ensures Under(errs, path)
  {
    forall d | d in errs ensures |path| <= |d.path| && d.path[..|path|] == path {
      assert d.path[..|path + more|] == path + more;
      assert d.path[..|path|] == d.path[..|path + more|][..|path|];
    }
  }

  lemma FlattenUnder(chunks: seq<seq<Detail>>, path: seq<PathItem>)
    requires forall i | 0 <= i < |chunks| :: Under(chunks[i], path)
    ensures Under(Flatten(chunks), path)
  {
    forall d | d in Flatten(chunks) ensures |path| <= |d.path| && d.path[..|path|] == path {
      var i :| 0 <= i < |chunks| && d in chunks[i];
    }
  }

  /** The errors of each key of an object item, all under the item's path. */
  function StringKeyErrors(path: seq<PathItem>, keys: seq<(string, StringSpec)>, fields: map<string, Value>, env: Env)
    : (r: ObjectResult)
    ensures r.errors == [] <==> forall i | 0 <= i < |keys| ::
      CheckString(path + [Key(keys[i].0)], keys[i].1, Get(fields, keys[i].0), env).errors == []
    ensures forall i, d | 0 <= i < |keys| && d in CheckString(path + [Key(keys[i].0)], keys[i].1, Get(fields, keys[i].0), env).errors ::
      d in r.errors
    ensures Under(r.errors, path)
  {
    var results := StringKeyResults(path, keys, fields, env);
    forall i | 0 <= i < |keys| ensures Under(ErrorsOf(results)[i], path) {
      UnderPrefix(results[i].errors, path, [Key(keys[i].0)]);
    }
    FlattenUnder(ErrorsOf(results), path);
    Collect(Names(keys), results)
  }

  /** One array element: a string, or an object whose keys are all strings. */
  function CheckItem(path: seq<PathItem>, item: ItemSchema, v: Value, env: Env): (r: Checked)
    ensures r.value.Some?
    ensures Under(r.errors, path)
    ensures item.ObjectItem? ==> (r.errors == [] <==> v.VObject? && forall i | 0 <= i < |item.keys| ::
      CheckString(path + [Key(item.keys[i].0)], item.keys[i].1, Get(v.fields, item.keys[i].0), env).errors == [])
    ensures item.ObjectItem? && v.VObject? ==> forall i, d | 0 <= i < |item.keys|
      && d in CheckString(path + [Key(item.keys[i].0)], item.keys[i].1, Get(v.fields, item.keys[i].0), env).errors ::
      d in r.errors
    ensures item.StringItem? ==> r == CheckString(path, item.spec, Some(v), env)
  {
    match item
    case StringItem(spec) => CheckString(path, spec, Some(v), env)
    case ObjectItem(keys) =>
      if !v.VObject? then Checked([Detail(path, ObjectBase)], Some(v))
      else
        var r := StringKeyErrors(path, keys, v.fields, env);
        Checked(r.errors, Some(VObject(r.value)))
  }

  function ItemResults(path: seq<PathItem>, item: ItemSchema, xs: seq<Value>, env: Env): (results: seq<Checked>)
    ensures |results| == |xs|
    ensures forall i | 0 <= i < |xs| :: results[i] == CheckItem(path + [Index(i)], item, xs[i], env)
  {
    seq(|xs|, i requires 0 <= i < |xs| => CheckItem(path + [Index(i)], item, xs[i], env))
  }

  /** The errors of every element, all under the array's path. */
  function ItemErrors(path: seq<PathItem>, item: ItemSchema, xs: seq<Value>, env: Env): (errs: seq<Detail>)
    ensures errs == [] <==> forall i | 0 <= i < |xs| :: CheckItem(path + [Index(i)], item, xs[i], env).errors == []
    ensures forall i, d | 0 <= i < |xs| && d in CheckItem(path + [Index(i)], item, xs[i], env).errors :: d in errs
    ensures Under(errs, path)
  {
    var results := ItemResults(path, item, xs, env);
    forall i | 0 <= i < |xs| ensures Under(ErrorsOf(results)[i], path) {
      UnderPrefix(results[i].errors, path, [Index(i)]);
    }
    FlattenUnder(ErrorsOf(results), path);
    Flatten(ErrorsOf(results))
  }

  /** `Joi.array().items(item)`, optionally `.min(n)` and `.required()`. */
  function CheckArray(path: seq<PathItem>, required: bool, item: ItemSchema, minItems: Option<nat>,
                      v: Option<Value>, env: Env): (r: Checked)
    ensures r.errors == [] <==>
      (v.None? && !required)
      || (v.Some? && v.value.VArray? && (minItems.None? || |v.value.items| >= minItems.value)
          && forall i | 0 <= i < |v.value.items| :: CheckItem(path + [Index(i)], item, v.value.items[i], env).errors == [])
    ensures v.Some? && v.value.VArray? ==> forall i, d | 0 <= i < |v.value.items|
      && d in CheckItem(path + [Index(i)], item, v.value.items[i], env).errors :: d in r.errors
    ensures Under(r.errors, path)
  {
    if v.None? then Checked(if required then [Detail(path, AnyRequired)] else [], None)
    else if !v.value.VArray? then Checked([Detail(path, ArrayBase)], v)
    else
      var xs := v.value.items;
      var errs := ItemErrors(path, item, xs, env);
      var short := minItems.Some? && |xs| < minItems.value;
      var results := ItemResults(path, item, xs, env);
      Checked(errs + (if short then [Detail(path, ArrayMin(minItems.value))] else []),
              Some(VArray(seq(|xs|, i requires 0 <= i < |xs| => results[i].value.value))))
  }

  function CheckRule(path: seq<PathItem>, rule: Rule, v: Option<Value>, env: Env): (r: Checked)
    ensures Under(r.errors, path)
  {
    match rule
    case StringRule(spec) => CheckString(path, spec, v, env)
    case NumberRule(spec) => CheckNumber(path, spec, v)
    case BooleanRule => CheckBoolean(path, v)
    case DateRule(required) => CheckDate(path, required, v, env)
    case ArrayRule(required, item, minItems) => CheckArray(path, required, item, minItems, v, env)
  }

  /** The check of one top-level key. */
  function KeyCheck(schema: seq<(string, Rule)>, body: map<string, Value>, env: Env, i: nat): Checked
    requires i < |schema|
  {
    CheckRule([Key(schema[i].0)], schema[i].1, Get(body, schema[i].0), env)
  }

  function KeyResults(schema: seq<(string, Rule)>, body: map<string, Value>, env: Env): (results: seq<Checked>)
    ensures |results| == |schema|
    ensures forall i | 0 <= i < |schema| :: results[i] == KeyCheck(schema, body, env, i)
  {
    seq(|schema|, i requires 0 <= i < |schema| => KeyCheck(schema, body, env, i))
  }

  /** `schema.validate(input, { abortEarly: false, stripUnknown: true })` */
  function CheckObject(schema: seq<(string, Rule)>, body: map<string, Value>, env: Env): (r: ObjectResult)
    ensures r.errors == [] <==> forall i | 0 <= i < |schema| :: KeyCheck(schema, body, env, i).errors == []
    ensures forall d :: d in r.errors <==> exists i | 0 <= i < |schema| :: d in KeyCheck(schema, body, env, i).errors
    ensures forall k | k in r.value :: exists i | 0 <= i < |schema| :: schema[i].0 == k
    ensures Distinct(Names(schema)) ==> forall i | 0 <= i < |schema| ::
      (schema[i].0 in r.value <==> KeyCheck(schema, body, env, i).value.Some?)
      && (schema[i].0 in r.value ==> r.value[schema[i].0] == KeyCheck(schema, body, env, i).value.value)
  {
    var results := KeyResults(schema, body, env);
    var r := Collect(Names(schema), results);
    assert forall k | k in r.value :: k in Names(schema);
    r
  }

  // ---------------------------------------------------------------------------
  // The middleware

  function PathText(p: PathItem): string {
    match p
    case Key(name) => name
    case Index(i) => NatToString(i)
  }

  /** `detail.path.join('.')` */
  function Field(path: seq<PathItem>): string {
    Join(seq(|path|, i requires 0 <= i < |path| => PathText(path[i])), '.')
  }

  datatype FieldError = FieldError(field: string, kind: ErrorKind)

  /** A 400 response listing every error, or the request continuing with the
      validated value in place of the body or query. */
  datatype Outcome = Rejected(status: int, errors: seq<FieldError>) | Passed(value: map<string, Value>)

  const BAD_REQUEST: int := 400

  /** `validate(schema)` and `validateQuery(schema)`: with errors, a 400 that
      reports every error of every key, each under its joined path; without,
      the request goes on with the stripped value. */
  function Validate(schema: seq<(string, Rule)>, input: map<string, Value>, env: Env): (o: Outcome)
    ensures o.Passed? <==> forall i | 0 <= i < |schema| :: KeyCheck(schema, input, env, i).errors == []
    ensures o.Passed? ==> forall k | k in o.value :: exists i | 0 <= i < |schema| :: schema[i].0 == k
    ensures o.Passed? && Distinct(Names(schema)) ==> forall i | 0 <= i < |schema| ::
      (schema[i].0 in o.value <==> KeyCheck(schema, input, env, i).value.Some?)
      && (schema[i].0 in o.value ==> o.value[schema[i].0] == KeyCheck(schema, input, env, i).value.value)
    ensures o.Rejected? ==> o.status == BAD_REQUEST && o.errors != []
    ensures o.Rejected? ==> forall i, d | 0 <= i < |schema| && d in KeyCheck(schema, input, env, i).errors ::
      FieldError(Field(d.path), d.kind) in o.errors
    ensures o.Rejected? ==> forall e | e in o.errors ::
      exists i, d | 0 <= i < |schema| && d in KeyCheck(schema, input, env, i).errors :: e == FieldError(Field(d.path), d.kind)
  {
    var r := CheckObject(schema, input, env);
    if r.errors == [] then Passed(r.value)
    else
      var errs := FieldErrors(r.errors);
      forall e | e in errs
        ensures exists i, d | 0 <= i < |schema| && d in KeyCheck(schema, input, env, i).errors :: e == FieldError(Field(d.path), d.kind)
      {
        var k :| 0 <= k < |errs| && errs[k] == e;
        assert r.errors[k] in r.errors;
      }
      Rejected(BAD_REQUEST, errs)
  }

  /** `error.details.map(detail => ({ field: detail.path.join('.'), ... }))` */
  function FieldErrors(details: seq<Detail>): (errs: seq<FieldError>)
    ensures |errs| == |details|
    ensures forall i | 0 <= i < |details| :: errs[i] == FieldError(Field(details[i].path), details[i].kind)
    ensures forall d | d in details :: FieldError(Field(d.path), d.kind) in errs
  {
    var errs := seq(|details|, i requires 0 <= i < |details| => FieldError(Field(details[i].path), details[i].kind));
    forall d | d in details ensures FieldError(Field(d.path), d.kind) in errs {
      var i :| 0 <= i < |details| && details[i] == d;
      assert errs[i] == FieldError(Field(d.path), d.kind);
    }
    errs
  }

  /** The field of an error inside a record reading is `readings.<index>.<key>`,
      and it splits back into the three parts. */
  lemma ReadingField(a: string, i: nat, b: string)
    requires '.' !in a && '.' !in b
    ensures Field([Key(a), Index(i), Key(b)]) == a + "." + NatToString(i) + "." + b
    ensures Split(Field([Key(a), Index(i), Key(b)]), '.') == [a, NatToString(i), b]
  {
    var parts := seq(3, k requires 0 <= k < 3 => PathText([Key(a), Index(i), Key(b)][k]));
    assert parts == [a, NatToString(i), b];
    assert Join(parts, '.') == a + "." + NatToString(i) + "." + b by {
      assert parts[1..] == [NatToString(i), b];
      assert parts[1..][1..] == [b];
      assert Join(parts[1..][1..], '.') == b;
      assert Join(parts[1..], '.') == NatToString(i) + "." + b;
    }
    assert '.' !in NatToString(i) by {
      assert AllDigits(NatToString(i));
    }
    JoinSplit(parts, '.');
  }

  // ---------------------------------------------------------------------------
  // The record batch

  predicate NonEmptyString(v: Option<Value>) { v.Some? && v.value.VString? && v.value.s != [] }

  /** A string with something besides white space. */
  predicate Filled(v: Option<Value>) { v.Some? && v.value.VString? && Trim(v.value.s) != [] }

  predicate ReadingValid(x: Value) {
    x.VObject?
    && Get(x.fields, "testType").Some? && Get(x.fields, "testType").value.VString?
    && Get(x.fields, "testType").value.s in PatientRecordModel.TEST_TYPES
    && Filled(Get(x.fields, "value"))
  }

  /** A JSON boolean, or a string that reads 'true' or 'false' in any case. */
  predicate BooleanLike(v: Option<Value>) {
    v.None? || v.value.VBool? || (v.value.VString? && ToLower(v.value.s) in ["true", "false"])
  }

  /** What `createPatientRecord` accepts: a patient id, at least one reading,
      each with a known test type and a non-blank value, and optional
      symptoms, notes and flag of the right shapes. */
  predicate RecordBatchValid(body: map<string, Value>) {
    NonEmptyString(Get(body, "patientId")) && ReadingsValid(Get(body, "readings"))
    && SymptomsValid(Get(body, "symptoms")) && NotesValid(Get(body, "treatmentNotes"))
    && BooleanLike(Get(body, "isCritical"))
  }

  /** At least one reading, each valid. */
  predicate ReadingsValid(v: Option<Value>) {
    v.Some? && v.value.VArray? && |v.value.items| >= 1
    && forall i | 0 <= i < |v.value.items| :: ReadingValid(v.value.items[i])
  }

  /** Absent, or a list of non-empty strings. */
  predicate SymptomsValid(v: Option<Value>) {
    v.None? || (v.value.VArray? && forall j | 0 <= j < |v.value.items| :: NonEmptyString(Some(v.value.items[j])))
  }

  /** Absent, or a non-blank text of at most 1000 characters once trimmed. */
  predicate NotesValid(v: Option<Value>) {
    v.None? || (Filled(v) && |Trim(v.value.s)| <= 1000)
  }

  lemma BooleanLikeChecked(path: seq<PathItem>, v: Option<Value>)
    ensures CheckBoolean(path, v).errors == [] <==> BooleanLike(v)
  {
  }

  lemma ReadingChecked(path: seq<PathItem>, x: Value, env: Env)
    ensures CheckItem(path, ObjectItem(READING), x, env).errors == [] <==> ReadingValid(x)
  {
    if x.VObject? {
      var t, w := Get(x.fields, "testType"), Get(x.fields, "value");
      assert READING[0].0 == "testType" && READING[1].0 == "value";
      assert CheckString(path + [Key("testType")], READING[0].1, t, env).errors == [] <==>
        t.Some? && t.value.VString? && t.value.s in PatientRecordModel.TEST_TYPES by {
        TestTypeAccepted(t, env);
      }
      assert CheckString(path + [Key("value")], READING[1].1, w, env).errors == [] <==> Filled(w) by {
        ReadingValueAccepted(w, env);
      }
      var r := CheckItem(path, ObjectItem(READING), x, env);
      assert r.errors == [] <==>
        CheckString(path + [Key("testType")], READING[0].1, t, env).errors == []
        && CheckString(path + [Key("value")], READING[1].1, w, env).errors == [] by {
        assert |READING| == 2;
      }
    }
  }

  lemma TestTypeAccepted(v: Option<Value>, env: Env)
    ensures StringAccepted(READING[0].1, v, env) <==> v.Some? && v.value.VString? && v.value.s in PatientRecordModel.TEST_TYPES
  {
  }

  lemma ReadingValueAccepted(v: Option<Value>, env: Env)
    ensures StringAccepted(READING[1].1, v, env) <==> Filled(v)
  {
  }

  predicate KeyPasses(schema: seq<(string, Rule)>, body: map<string, Value>, env: Env, i: nat)
    requires i < |schema|
  {
    KeyCheck(schema, body, env, i).errors == []
  }

  lemma FiveKeys(schema: seq<(string, Rule)>, body: map<string, Value>, env: Env)
    requires |schema| == 5
    ensures Validate(schema, body, env).Passed? <==>
      KeyPasses(schema, body, env, 0) && KeyPasses(schema, body, env, 1) && KeyPasses(schema, body, env, 2)
      && KeyPasses(schema, body, env, 3) && KeyPasses(schema, body, env, 4)
  {
    if KeyPasses(schema, body, env, 0) && KeyPasses(schema, body, env, 1) && KeyPasses(schema, body, env, 2)
      && KeyPasses(schema, body, env, 3) && KeyPasses(schema, body, env, 4) {
      forall i | 0 <= i < |schema| ensures KeyCheck(schema, body, env, i).errors == [] {
        assert KeyPasses(schema, body, env, i);
      }
    }
  }

  lemma ReadingsChecked(body: map<string, Value>, env: Env)
    ensures KeyPasses(CREATE_PATIENT_RECORD, body, env, 1) <==> ReadingsValid(Get(body, "readings"))
  {
    var readings := Get(body, "readings");
    assert KeyCheck(CREATE_PATIENT_RECORD, body, env, 1)
      == CheckArray([Key("readings")], true, ObjectItem(READING), Some(1), readings, env);
    if readings.Some? && readings.value.VArray? {
      var xs := readings.value.items;
      forall i | 0 <= i < |xs|
        ensures CheckItem([Key("readings")] + [Index(i)], ObjectItem(READING), xs[i], env).errors == [] <==> ReadingValid(xs[i])
      {
        ReadingChecked([Key("readings")] + [Index(i)], xs[i], env);
      }
    }
  }

  lemma SymptomsChecked(body: map<string, Value>, env: Env)
    ensures KeyPasses(CREATE_PATIENT_RECORD, body, env, 2) <==> SymptomsValid(Get(body, "symptoms"))
  {
    var symptoms := Get(body, "symptoms");
    assert KeyCheck(CREATE_PATIENT_RECORD, body, env, 2)
      == CheckArray([Key("symptoms")], false, StringItem(PLAIN), None, symptoms, env);
  }

  /** A record batch passes validation exactly when it has the shape above. */
  lemma RecordBatchAccepted(body: map<string, Value>, env: Env)
    ensures Validate(CREATE_PATIENT_RECORD, body, env).Passed? <==> RecordBatchValid(body)
  {
    FiveKeys(CREATE_PATIENT_RECORD, body, env);
    RecordScalarsChecked(body, env);
    ReadingsChecked(body, env);
    SymptomsChecked(body, env);
  }

  lemma RecordScalarsChecked(body: map<string, Value>, env: Env)
    ensures KeyPasses(CREATE_PATIENT_RECORD, body, env, 0) <==> NonEmptyString(Get(body, "patientId"))
    ensures KeyPasses(CREATE_PATIENT_RECORD, body, env, 3) <==> NotesValid(Get(body, "treatmentNotes"))
    ensures KeyPasses(CREATE_PATIENT_RECORD, body, env, 4) <==> BooleanLike(Get(body, "isCritical"))
  {
    StringKeyChecked(CREATE_PATIENT_RECORD, body, env, 0, PLAIN.(required := true));
    StringKeyChecked(CREATE_PATIENT_RECORD, body, env, 3, PLAIN.(trim := true, maxLength := Some(1000)));
    BooleanKeyChecked(CREATE_PATIENT_RECORD, body, env, 4);
  }

  /** A boolean key passes exactly when its value reads as a boolean. */
  lemma BooleanKeyChecked(schema: seq<(string, Rule)>, body: map<string, Value>, env: Env, i: nat)
    requires i < |schema| && schema[i].1 == BooleanRule
    ensures KeyPasses(schema, body, env, i) <==> BooleanLike(Get(body, schema[i].0))
  {
    BooleanLikeChecked([Key(schema[i].0)], Get(body, schema[i].0));
  }

  /** A reading whose test type is not one of the four is refused with any.only
      under its own `testType` path. */
  lemma UnknownTypeDetail(itemPath: seq<PathItem>, x: Value, bad: string, env: Env)
    requires bad !in PatientRecordModel.TEST_TYPES
    requires x == VObject(map["testType" := VString(bad)])
    ensures Detail(itemPath + [Key("testType")], AnyOnly) in CheckItem(itemPath, ObjectItem(READING), x, env).errors
  {
    var c := CheckString(itemPath + [Key(READING[0].0)], READING[0].1, Get(x.fields, READING[0].0), env);
    assert Get(x.fields, "testType") == Some(VString(bad));
    assert c.errors[0] == Detail(itemPath + [Key("testType")], AnyOnly);
  }

  lemma ReadingsKey(body: map<string, Value>, env: Env)
    ensures KeyCheck(CREATE_PATIENT_RECORD, body, env, 1)
      == CheckArray([Key("readings")], true, ObjectItem(READING), Some(1), Get(body, "readings"), env)
  {
  }

  lemma ArrayReportsItem(path: seq<PathItem>, required: bool, item: ItemSchema, minItems: Option<nat>,
                         xs: seq<Value>, i: nat, d: Detail, env: Env)
    requires i < |xs| && d in CheckItem(path + [Index(i)], item, xs[i], env).errors
    ensures d in CheckArray(path, required, item, minItems, Some(VArray(xs)), env).errors
  {
  }

  lemma SecondReadingDetail(body: map<string, Value>, env: Env, first: Value, bad: string)
    requires bad !in PatientRecordModel.TEST_TYPES
    requires Get(body, "readings") == Some(VArray([first, VObject(map["testType" := VString(bad)])]))
    ensures Detail([Key("readings"), Index(1), Key("testType")], AnyOnly) in KeyCheck(CREATE_PATIENT_RECORD, body, env, 1).errors
  {
    SecondItemDetail(env, first, bad);
    ReadingsKey(body, env);
  }

  lemma SecondItemDetail(env: Env, first: Value, bad: string)
    requires bad !in PatientRecordModel.TEST_TYPES
    ensures Detail([Key("readings"), Index(1), Key("testType")], AnyOnly) in
      CheckArray([Key("readings")], true, ObjectItem(READING), Some(1),
                 Some(VArray([first, VObject(map["testType" := VString(bad)])])), env).errors
  {
    var xs := [first, VObject(map["testType" := VString(bad)])];
    var itemPath := [Key("readings")] + [Index(1)];
    var d := Detail([Key("readings"), Index(1), Key("testType")], AnyOnly);
    assert itemPath + [Key("testType")] == [Key("readings"), Index(1), Key("testType")];
    UnknownTypeDetail(itemPath, xs[1], bad, env);
    ArrayReportsItem([Key("readings")], true, ObjectItem(READING), Some(1), xs, 1, d, env);
  }

  /** An error of any key makes the request fail, and it is among those reported. */
  lemma ValidateReports(schema: seq<(string, Rule)>, input: map<string, Value>, env: Env, i: nat, d: Detail)
    requires i < |schema| && d in KeyCheck(schema, input, env, i).errors
    ensures Validate(schema, input, env).Rejected?
    ensures FieldError(Field(d.path), d.kind) in Validate(schema, input, env).errors
  {
  }

  lemma SecondReadingTypeField()
    ensures Field([Key("readings"), Index(1), Key("testType")]) == "readings.1.testType"
  {
    var path := [Key("readings"), Index(1), Key("testType")];
    assert Field(path) == "readings" + "." + NatToString(1) + "." + "testType" by {
      ReadingField("readings", 1, "testType");
    }
    assert NatToString(1) == "1";
    assert "readings" + "." + "1" + "." + "testType" == "readings.1.testType";
  }

  /** An unknown test type in the second reading is reported under the field
      `readings.1.testType`. */
  lemma SecondReadingTypeReported(body: map<string, Value>, env: Env, first: Value, bad: string)
    requires bad !in PatientRecordModel.TEST_TYPES
    requires Get(body, "readings") == Some(VArray([first, VObject(map["testType" := VString(bad)])]))
    ensures Validate(CREATE_PATIENT_RECORD, body, env).Rejected?
    ensures FieldError("readings.1.testType", AnyOnly) in Validate(CREATE_PATIENT_RECORD, body, env).errors
  {
    var path := [Key("readings"), Index(1), Key("testType")];
    SecondReadingTypeField();
    var d := Detail(path, AnyOnly);
    assert d in KeyCheck(CREATE_PATIENT_RECORD, body, env, 1).errors by {
      SecondReadingDetail(body, env, first, bad);
    }
    ValidateReports(CREATE_PATIENT_RECORD, body, env, 1, d);
  }

  // ---------------------------------------------------------------------------
  // The patient bodies

  /** What `createPatient` accepts: a name of 3 to 100 characters once trimmed,
      a date of birth not in the future, exactly ten digits of contact, an
      optional address Joi accepts once lower-cased and trimmed, and a medical
      history of 10 to 1000 characters. */
  predicate PatientBodyValid(body: map<string, Value>, env: Env) {
    Get(body, "name").Some? && Get(body, "name").value.VString?
    && 3 <= |Trim(Get(body, "name").value.s)| <= 100
    && Get(body, "dob").Some? && env.parseDate(Get(body, "dob").value).Some?
    && env.parseDate(Get(body, "dob").value).value <= env.now
    && Get(body, "contact").Some? && Get(body, "contact").value.VString? && TenDigits(Get(body, "contact").value.s)
    && (Get(body, "email").None? || (Get(body, "email").value.VString?
          && Trim(ToLower(Get(body, "email").value.s)) != []
          && env.isEmail(Trim(ToLower(Get(body, "email").value.s)))))
    && Get(body, "medicalHistory").Some? && Get(body, "medicalHistory").value.VString?
    && 10 <= |Get(body, "medicalHistory").value.s| <= 1000
  }

  lemma TenDigitsNonEmpty(s: string)
    requires TenDigits(s)
    ensures s != []
  {
  }

  /** A string key passes exactly when its value is accepted by its spec. */
  lemma StringKeyChecked(schema: seq<(string, Rule)>, body: map<string, Value>, env: Env, i: nat, spec: StringSpec)
    requires i < |schema| && schema[i].1 == StringRule(spec)
    ensures KeyPasses(schema, body, env, i) <==> StringAccepted(spec, Get(body, schema[i].0), env)
  {
  }

  lemma NameChecked(schema: seq<(string, Rule)>, body: map<string, Value>, env: Env, required: bool)
    requires |schema| > 0 && schema[0] == ("name", StringRule(PLAIN.(required := required, trim := true, minLength := Some(3), maxLength := Some(100))))
    ensures KeyPasses(schema, body, env, 0) <==>
      (Get(body, "name").None? && !required)
      || (Get(body, "name").Some? && Get(body, "name").value.VString? && 3 <= |Trim(Get(body, "name").value.s)| <= 100)
  {
    StringKeyChecked(schema, body, env, 0, schema[0].1.spec);
  }

  lemma DobChecked(schema: seq<(string, Rule)>, body: map<string, Value>, env: Env, required: bool)
    requires |schema| > 1 && schema[1] == ("dob", DateRule(required))
    ensures KeyPasses(schema, body, env, 1) <==>
      (Get(body, "dob").None? && !required)
      || (Get(body, "dob").Some? && env.parseDate(Get(body, "dob").value).Some?
          && env.parseDate(Get(body, "dob").value).value <= env.now)
  {
    assert KeyCheck(schema, body, env, 1) == CheckDate([Key("dob")], required, Get(body, "dob"), env);
  }

  lemma ContactChecked(schema: seq<(string, Rule)>, body: map<string, Value>, env: Env, required: bool)
    requires |schema| > 2 && schema[2] == ("contact", StringRule(PLAIN.(required := required, tenDigits := true)))
    ensures KeyPasses(schema, body, env, 2) <==>
      (Get(body, "contact").None? && !required)
      || (Get(body, "contact").Some? && Get(body, "contact").value.VString? && TenDigits(Get(body, "contact").value.s))
  {
    StringKeyChecked(schema, body, env, 2, schema[2].1.spec);
    var v := Get(body, "contact");
    if v.Some? && v.value.VString? && TenDigits(v.value.s) {
      TenDigitsNonEmpty(v.value.s);
    }
  }

  lemma EmailChecked(schema: seq<(string, Rule)>, body: map<string, Value>, env: Env)
    requires |schema| > 3 && schema[3] == ("email", StringRule(PLAIN.(lowercase := true, trim := true, email := true)))
    ensures KeyPasses(schema, body, env, 3) <==>
      Get(body, "email").None? || (Get(body, "email").value.VString?
        && Trim(ToLower(Get(body, "email").value.s)) != []
        && env.isEmail(Trim(ToLower(Get(body, "email").value.s))))
  {
    StringKeyChecked(schema, body, env, 3, schema[3].1.spec);
  }

  lemma HistoryChecked(schema: seq<(string, Rule)>, body: map<string, Value>, env: Env, required: bool)
    requires |schema| > 4 && schema[4] == ("medicalHistory", StringRule(PLAIN.(required := required, minLength := Some(10), maxLength := Some(1000))))
    ensures KeyPasses(schema, body, env, 4) <==>
      (Get(body, "medicalHistory").None? && !required)
      || (Get(body, "medicalHistory").Some? && Get(body, "medicalHistory").value.VString?
          && 10 <= |Get(body, "medicalHistory").value.s| <= 1000)
  {
    StringKeyChecked(schema, body, env, 4, schema[4].1.spec);
  }

  /** A new patient passes validation exactly when it has the shape above. */
  lemma PatientBodyAccepted(body: map<string, Value>, env: Env)
    ensures Validate(CREATE_PATIENT, body, env).Passed? <==> PatientBodyValid(body, env)
  {
    FiveKeys(CREATE_PATIENT, body, env);
    NameChecked(CREATE_PATIENT, body, env, true);
    DobChecked(CREATE_PATIENT, body, env, true);
    ContactChecked(CREATE_PATIENT, body, env, true);
    EmailChecked(CREATE_PATIENT, body, env);
    HistoryChecked(CREATE_PATIENT, body, env, true);
  }

  /** Contact is not trimmed: ten digits with a leading space are refused. */
  lemma PaddedContactRefused(body: map<string, Value>, env: Env, digits: string)
    requires TenDigits(digits) && Get(body, "contact") == Some(VString(" " + digits))
    ensures Validate(CREATE_PATIENT, body, env).Rejected?
  {
    var padded := " " + digits;
    assert !TenDigits(padded) by {
      assert !IsDigit(padded[0]);
    }
    assert Detail([Key("contact")], StringPattern) in KeyCheck(CREATE_PATIENT, body, env, 2).errors;
    ValidateReports(CREATE_PATIENT, body, env, 2, Detail([Key("contact")], StringPattern));
  }

  /** An optional string field: absent, or a non-empty string. */
  predicate OptionalNonEmpty(v: Option<Value>) { v.None? || NonEmptyString(v) }

  /** What `updatePatient` accepts: every field optional; those present obey
      the rules of `createPatient`; the four vital fields are non-empty
      strings; `isCritical` is a boolean. */
  predicate PatientUpdateValid(body: map<string, Value>, env: Env) {
    UpdateFieldsValid(body, env) && UpdateVitalsValid(body)
  }

  /** The five patient fields of an update, each optional. */
  predicate UpdateFieldsValid(body: map<string, Value>, env: Env) {
    (Get(body, "name").None? || (Get(body, "name").value.VString?
        && 3 <= |Trim(Get(body, "name").value.s)| <= 100))
    && (Get(body, "dob").None? || (env.parseDate(Get(body, "dob").value).Some?
        && env.parseDate(Get(body, "dob").value).value <= env.now))
    && (Get(body, "contact").None? || (Get(body, "contact").value.VString? && TenDigits(Get(body, "contact").value.s)))
    && (Get(body, "email").None? || (Get(body, "email").value.VString?
          && Trim(ToLower(Get(body, "email").value.s)) != []
          && env.isEmail(Trim(ToLower(Get(body, "email").value.s)))))
    && (Get(body, "medicalHistory").None? || (Get(body, "medicalHistory").value.VString?
        && 10 <= |Get(body, "medicalHistory").value.s| <= 1000))
  }

  /** The vital fields and the critical flag of an update. */
  predicate UpdateVitalsValid(body: map<string, Value>) {
    OptionalNonEmpty(Get(body, "bloodPressure")) && OptionalNonEmpty(Get(body, "heartRate"))
    && OptionalNonEmpty(Get(body, "respiratoryRate")) && OptionalNonEmpty(Get(body, "oxygenLevel"))
    && BooleanLike(Get(body, "isCritical"))
  }

  lemma TenKeys(schema: seq<(string, Rule)>, body: map<string, Value>, env: Env)
    requires |schema| == 10
    ensures Validate(schema, body, env).Passed? <==>
      KeyPasses(schema, body, env, 0) && KeyPasses(schema, body, env, 1) && KeyPasses(schema, body, env, 2)
      && KeyPasses(schema, body, env, 3) && KeyPasses(schema, body, env, 4) && KeyPasses(schema, body, env, 5)
      && KeyPasses(schema, body, env, 6) && KeyPasses(schema, body, env, 7) && KeyPasses(schema, body, env, 8)
      && KeyPasses(schema, body, env, 9)
  {
    if KeyPasses(schema, body, env, 0) && KeyPasses(schema, body, env, 1) && KeyPasses(schema, body, env, 2)
      && KeyPasses(schema, body, env, 3) && KeyPasses(schema, body, env, 4) && KeyPasses(schema, body, env, 5)
      && KeyPasses(schema, body, env, 6) && KeyPasses(schema, body, env, 7) && KeyPasses(schema, body, env, 8)
      && KeyPasses(schema, body, env, 9) {
      forall i | 0 <= i < |schema| ensures KeyCheck(schema, body, env, i).errors == [] {
        assert KeyPasses(schema, body, env, i);
      }
    }
  }

  lemma UpdateFieldsChecked(body: map<string, Value>, env: Env)
    ensures (KeyPasses(UPDATE_PATIENT, body, env, 0) && KeyPasses(UPDATE_PATIENT, body, env, 1)
      && KeyPasses(UPDATE_PATIENT, body, env, 2) && KeyPasses(UPDATE_PATIENT, body, env, 3)
      && KeyPasses(UPDATE_PATIENT, body, env, 4)) <==> UpdateFieldsValid(body, env)
  {
    var u := UPDATE_PATIENT;
    assert u[..5] == [u[0], u[1], u[2], u[3], u[4]];
    NameChecked(u, body, env, false);
    DobChecked(u, body, env, false);
    ContactChecked(u, body, env, false);
    EmailChecked(u, body, env);
    HistoryChecked(u, body, env, false);
  }

  lemma UpdateVitalsChecked(body: map<string, Value>, env: Env)
    ensures (KeyPasses(UPDATE_PATIENT, body, env, 5) && KeyPasses(UPDATE_PATIENT, body, env, 6)
      && KeyPasses(UPDATE_PATIENT, body, env, 7) && KeyPasses(UPDATE_PATIENT, body, env, 8)
      && KeyPasses(UPDATE_PATIENT, body, env, 9)) <==> UpdateVitalsValid(body)
  {
    VitalChecked(body, env, 5);
    VitalChecked(body, env, 6);
    VitalChecked(body, env, 7);
    VitalChecked(body, env, 8);
    BooleanKeyChecked(UPDATE_PATIENT, body, env, 9);
  }

  lemma VitalChecked(body: map<string, Value>, env: Env, i: nat)
    requires 5 <= i <= 8
    ensures KeyPasses(UPDATE_PATIENT, body, env, i) <==> OptionalNonEmpty(Get(body, UPDATE_PATIENT[i].0))
  {
    StringKeyChecked(UPDATE_PATIENT, body, env, i, PLAIN);
  }

  /** A patient update passes validation exactly when it has the shape above. */
  lemma PatientUpdateAccepted(body: map<string, Value>, env: Env)
    ensures Validate(UPDATE_PATIENT, body, env).Passed? <==> PatientUpdateValid(body, env)
  {
    TenKeys(UPDATE_PATIENT, body, env);
    UpdateFieldsChecked(body, env);
    UpdateVitalsChecked(body, env);
  }

  /** Names whose first characters differ are distinct. */
  lemma DistinctByFirst(names: seq<string>)
    requires forall i | 0 <= i < |names| :: names[i] != []
    requires forall i, j | 0 <= i < j < |names| :: names[i][0] != names[j][0]
    ensures Distinct(names)
  {
  }

  lemma UpdateNamesDistinct()
    ensures Distinct(Names(UPDATE_PATIENT))
  {
    var n := Names(UPDATE_PATIENT);
    assert n == ["name", "dob", "contact", "email", "medicalHistory", "bloodPressure", "heartRate",
                 "respiratoryRate", "oxygenLevel", "isCritical"];
    DistinctByFirst(n);
  }

  lemma PaginationNamesDistinct()
    ensures Distinct(Names(PAGINATION_QUERY))
  {
    var n := Names(PAGINATION_QUERY);
    assert n == ["page", "limit", "sortBy", "sortOrder", "search"];
    assert n[2][1] != n[4][1] && |n[2]| != |n[3]| && |n[3]| != |n[4]|;
  }

  /** A rule without a default adds nothing for an absent key. */
  predicate NoDefault(rule: Rule) {
    match rule
    case StringRule(spec) => spec.default.None?
    case NumberRule(spec) => spec.default.None?
    case _ => true
  }

  lemma ValueWasSent(path: seq<PathItem>, rule: Rule, v: Option<Value>, env: Env)
    requires NoDefault(rule) && CheckRule(path, rule, v, env).value.Some?
    ensures v.Some?
  {
  }

  /** What the validated value holds for key i of a schema with distinct names. */
  lemma ValidatedValue(schema: seq<(string, Rule)>, input: map<string, Value>, env: Env, i: nat)
    requires Validate(schema, input, env).Passed? && Distinct(Names(schema)) && i < |schema|
    ensures schema[i].0 in Validate(schema, input, env).value <==> KeyCheck(schema, input, env, i).value.Some?
    ensures schema[i].0 in Validate(schema, input, env).value ==>
      Validate(schema, input, env).value[schema[i].0] == KeyCheck(schema, input, env, i).value.value
  {
  }

  /** Every key of a validated value names some key of the schema. */
  lemma ValidatedKey(schema: seq<(string, Rule)>, input: map<string, Value>, env: Env, k: string)
    requires Validate(schema, input, env).Passed? && k in Validate(schema, input, env).value
    ensures exists i | 0 <= i < |schema| :: schema[i].0 == k
  {
  }

  lemma UpdateRulesHaveNoDefault()
    ensures forall i | 0 <= i < |UPDATE_PATIENT| :: NoDefault(UPDATE_PATIENT[i].1)
  {
  }

  /** No update rule has a default, so a validated update carries only the
      fields the client sent: `findByIdAndUpdate` sets nothing else. */
  lemma UpdateKeepsOnlySent(body: map<string, Value>, env: Env)
    requires Validate(UPDATE_PATIENT, body, env).Passed?
    ensures forall k | k in Validate(UPDATE_PATIENT, body, env).value :: k in body
  {
    var o := Validate(UPDATE_PATIENT, body, env);
    UpdateNamesDistinct();
    forall k | k in o.value ensures k in body {
      ValidatedKey(UPDATE_PATIENT, body, env, k);
      var i :| 0 <= i < |UPDATE_PATIENT| && UPDATE_PATIENT[i].0 == k;
      ValidatedValue(UPDATE_PATIENT, body, env, i);
      UpdateRulesHaveNoDefault();
      ValueWasSent([Key(k)], UPDATE_PATIENT[i].1, Get(body, k), env);
    }
  }

  const CRITICAL_ONLY: map<string, Value> := map["isCritical" := VString("TRUE")]

  lemma CriticalOnlyPasses(env: Env)
    ensures Validate(UPDATE_PATIENT, CRITICAL_ONLY, env).Passed?
  {
    assert ToLower("TRUE") == "true";
    assert PatientUpdateValid(CRITICAL_ONLY, env);
    PatientUpdateAccepted(CRITICAL_ONLY, env);
  }

  /** The update schema lets a client set the critical flag: the string 'TRUE'
      passes and reaches the controller as the boolean true, alone. */
  lemma UpdateSetsCriticalFlag(env: Env)
    ensures Validate(UPDATE_PATIENT, CRITICAL_ONLY, env).Passed?
    ensures Validate(UPDATE_PATIENT, CRITICAL_ONLY, env).value == map["isCritical" := VBool(true)]
  {
    CriticalOnlyPasses(env);
    var o := Validate(UPDATE_PATIENT, CRITICAL_ONLY, env);
    UpdateKeepsOnlySent(CRITICAL_ONLY, env);
    assert KeyCheck(UPDATE_PATIENT, CRITICAL_ONLY, env, 9).value == Some(VBool(true)) by {
      assert ToLower("TRUE") == "true";
      assert KeyCheck(UPDATE_PATIENT, CRITICAL_ONLY, env, 9) == CheckBoolean([Key("isCritical")], Some(VString("TRUE")));
    }
    UpdateNamesDistinct();
    ValidatedValue(UPDATE_PATIENT, CRITICAL_ONLY, env, 9);
    assert o.value.Keys == {"isCritical"};
  }

  // ---------------------------------------------------------------------------
  // The list query

  /** Absent, or a string or number that converts to a safe integer in range. */
  predicate IntegerIn(v: Option<Value>, lo: int, hi: Option<int>) {
    v.None? || (
      var x := CoerceNumber(v.value);
      x.VNumber? && SafeInteger(x.x) && x.x >= lo as real && (hi.None? || x.x <= hi.value as real))
  }

  /** What `paginationQuery` accepts: an integer page from 1, an integer limit
      from 1 to 100, a non-empty sort field, 'asc' or 'desc', and a non-empty
      search text, each optional. */
  predicate PaginationValid(q: map<string, Value>) {
    IntegerIn(Get(q, "page"), 1, None) && IntegerIn(Get(q, "limit"), 1, Some(100))
    && OptionalNonEmpty(Get(q, "sortBy"))
    && (Get(q, "sortOrder").None? || (Get(q, "sortOrder").value.VString?
          && Get(q, "sortOrder").value.s in ["asc", "desc"]))
    && OptionalNonEmpty(Get(q, "search"))
  }

  /** A number key passes exactly when its value is accepted by its spec. */
  lemma NumberKeyChecked(schema: seq<(string, Rule)>, body: map<string, Value>, env: Env, i: nat, spec: NumberSpec)
    requires i < |schema| && schema[i].1 == NumberRule(spec)
    ensures KeyPasses(schema, body, env, i) <==> NumberAccepted(spec, Get(body, schema[i].0))
  {
  }

  lemma PageChecked(q: map<string, Value>, env: Env)
    ensures KeyPasses(PAGINATION_QUERY, q, env, 0) <==> IntegerIn(Get(q, "page"), 1, None)
    ensures KeyPasses(PAGINATION_QUERY, q, env, 1) <==> IntegerIn(Get(q, "limit"), 1, Some(100))
  {
    NumberKeyChecked(PAGINATION_QUERY, q, env, 0, NumberSpec(true, Some(1), None, Some(1)));
    NumberKeyChecked(PAGINATION_QUERY, q, env, 1, NumberSpec(true, Some(1), Some(100), Some(10)));
  }

  lemma SortChecked(q: map<string, Value>, env: Env)
    ensures KeyPasses(PAGINATION_QUERY, q, env, 2) <==> OptionalNonEmpty(Get(q, "sortBy"))
    ensures KeyPasses(PAGINATION_QUERY, q, env, 3) <==>
      Get(q, "sortOrder").None? || (Get(q, "sortOrder").value.VString? && Get(q, "sortOrder").value.s in ["asc", "desc"])
    ensures KeyPasses(PAGINATION_QUERY, q, env, 4) <==> OptionalNonEmpty(Get(q, "search"))
  {
    StringKeyChecked(PAGINATION_QUERY, q, env, 2, PLAIN);
    StringKeyChecked(PAGINATION_QUERY, q, env, 3, PLAIN.(only := ["asc", "desc"], default := Some("desc")));
    StringKeyChecked(PAGINATION_QUERY, q, env, 4, PLAIN);
  }

  /** A list query passes validation exactly when it has the shape above. */
  lemma PaginationAccepted(q: map<string, Value>, env: Env)
    ensures Validate(PAGINATION_QUERY, q, env).Passed? <==> PaginationValid(q)
  {
    FiveKeys(PAGINATION_QUERY, q, env);
    PageChecked(q, env);
    SortChecked(q, env);
  }

  const LIST_FILTERS: seq<string> := ["patientId", "testType", "isCritical", "startDate", "endDate"]

  /** None of the list filters is a key of the query schema. */
  lemma FiltersNotInQuery()
    ensures forall f, i | f in LIST_FILTERS && 0 <= i < |PAGINATION_QUERY| :: PAGINATION_QUERY[i].0 != f
  {
    forall f, i | f in LIST_FILTERS && 0 <= i < |PAGINATION_QUERY| ensures PAGINATION_QUERY[i].0 != f {
      var n := PAGINATION_QUERY[i].0;
      assert n in ["page", "limit", "sortBy", "sortOrder", "search"];
      if |n| == |f| {
        assert n[0] != f[0] || n[1] != f[1];
      }
    }
  }

  /** The validated query holds page, limit and sort order, with their
      defaults 1, 10 and 'desc' when absent. */
  lemma PaginationDefaults(q: map<string, Value>, env: Env)
    requires Validate(PAGINATION_QUERY, q, env).Passed?
    ensures var v := Validate(PAGINATION_QUERY, q, env).value;
      && "page" in v && v["page"] == (if "page" in q then CoerceNumber(q["page"]) else VNumber(1.0))
      && "limit" in v && v["limit"] == (if "limit" in q then CoerceNumber(q["limit"]) else VNumber(10.0))
      && "sortOrder" in v && v["sortOrder"] == (if "sortOrder" in q then q["sortOrder"] else VString("desc"))
  {
    PaginationNamesDistinct();
    QueryKeyValues(q, env);
    ValidatedValue(PAGINATION_QUERY, q, env, 0);
    ValidatedValue(PAGINATION_QUERY, q, env, 1);
    ValidatedValue(PAGINATION_QUERY, q, env, 3);
  }

  /** The values the checks of page, limit and sortOrder produce. */
  lemma QueryKeyValues(q: map<string, Value>, env: Env)
    ensures PAGINATION_QUERY[0].0 == "page" && PAGINATION_QUERY[1].0 == "limit" && PAGINATION_QUERY[3].0 == "sortOrder"
    ensures KeyCheck(PAGINATION_QUERY, q, env, 0).value == Some(if "page" in q then CoerceNumber(q["page"]) else VNumber(1.0))
    ensures KeyCheck(PAGINATION_QUERY, q, env, 1).value == Some(if "limit" in q then CoerceNumber(q["limit"]) else VNumber(10.0))
    ensures KeyCheck(PAGINATION_QUERY, q, env, 3).value == Some(if "sortOrder" in q then q["sortOrder"] else VString("desc"))
  {
    assert KeyCheck(PAGINATION_QUERY, q, env, 0) == CheckNumber([Key("page")], NumberSpec(true, Some(1), None, Some(1)), Get(q, "page"));
    assert KeyCheck(PAGINATION_QUERY, q, env, 1) == CheckNumber([Key("limit")], NumberSpec(true, Some(1), Some(100), Some(10)), Get(q, "limit"));
    var order := PLAIN.(only := ["asc", "desc"], default := Some("desc"));
    assert KeyCheck(PAGINATION_QUERY, q, env, 3) == CheckString([Key("sortOrder")], order, Get(q, "sortOrder"), env);
    assert CoerceString(order, VString("x")) == VString("x");
  }

  /** None of the list filters the controllers read survives validation:
      they are stripped as unknown keys. */
  lemma PaginationStripsFilters(q: map<string, Value>, env: Env)
    requires Validate(PAGINATION_QUERY, q, env).Passed?
    ensures forall f | f in LIST_FILTERS :: f !in Validate(PAGINATION_QUERY, q, env).value
  {
    FiltersNotInQuery();
    forall f | f in LIST_FILTERS ensures f !in Validate(PAGINATION_QUERY, q, env).value {
      if f in Validate(PAGINATION_QUERY, q, env).value {
        ValidatedKey(PAGINATION_QUERY, q, env, f);
      }
    }
  }
}
