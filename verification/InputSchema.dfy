/**
  The bounded JSON Schema subset for workflow inputs (`_validate_schema` and
  `validate_input_schema` in src/orcheo/hosted_apps/runtime.py). A schema is itself raw JSON,
  so a keyword's value may have any shape; what Python then does is modelled as an outcome.
 */
module InputSchema {
  import opened Common

  /** JSON as Python reads it: `whole` tells an int from a float of the same value. */
  datatype Json =
    | Null
    | Bool(b: bool)
    | Num(v: real, whole: bool)
    | Str(s: string)
    | Arr(items: seq<Json>)
    | Obj(fields: seq<Field>)

  datatype Field = Field(name: string, value: Json)

  /** `Raises`: a TypeError or AttributeError instead of a verdict. */
  datatype Outcome = Pass | Mismatch | Unsupported | Raises

  const CAP: real := 2147483648.0

  const KEYWORDS: set<string> := {
    "type", "properties", "required", "additionalProperties", "items", "enum",
    "minLength", "maxLength", "minimum", "maximum", "minItems", "maxItems"
  }

  const TYPES: set<string> := {"object", "array", "string", "integer", "number", "boolean", "null"}

  // ---------------------------------------------------------------- Python values

  /** Where a name stands in an object; its length if it does not. */
  function Find(fields: seq<Field>, name: string): (i: nat)
    ensures i <= |fields|
    ensures i < |fields| ==> fields[i].name == name
    ensures forall j :: 0 <= j < i ==> fields[j].name != name
  {
    if fields == [] || fields[0].name == name then 0 else 1 + Find(fields[1..], name)
  }

  predicate Has(fields: seq<Field>, name: string) { Find(fields, name) < |fields| }

  function Get(fields: seq<Field>, name: string): Json
    requires Has(fields, name)
  {
    fields[Find(fields, name)].value
  }

  /** A missing keyword reads as null; a null `type` counts as missing. */
  function GetOr(fields: seq<Field>, name: string, default: Json): Json {
    if Has(fields, name) then Get(fields, name) else default
  }

  predicate Falsy(j: Json) {
    match j
    case Null => true
    case Bool(b) => !b
    case Num(v, _) => v == 0.0
    case Str(s) => s == ""
    case Arr(items) => items == []
    case Obj(fields) => fields == []
  }

  predicate Hashable(j: Json) { !j.Arr? && !j.Obj? }

  /** Booleans are integers. */
  function Number(j: Json): Option<real> {
    match j
    case Num(v, _) => Some(v)
    case Bool(b) => Some(if b then 1.0 else 0.0)
    case _ => None
  }

  /** `==`: 1, 1.0 and True are equal; dictionaries compare as sets of entries. */
  predicate PyEq(a: Json, b: Json)
    decreases a, 1
  {
    match a
    case Null => b.Null?
    case Bool(_) => Number(b) == Number(a)
    case Num(_, _) => Number(b) == Number(a)
    case Str(s) => b == Str(s)
    case Arr(items) => b.Arr? && |b.items| == |items| && forall i :: 0 <= i < |items| ==> PyEq(items[i], b.items[i])
    case Obj(fields) =>
      b.Obj? && |b.fields| == |fields| &&
      forall i :: 0 <= i < |fields| ==> Has(b.fields, fields[i].name) && PyEq(fields[i].value, Get(b.fields, fields[i].name))
  }

  ghost predicate DistinctNames(fields: seq<Field>) { forall i, j :: 0 <= i < j < |fields| ==> fields[i].name != fields[j].name }

  /** What Python can hold: an int has no fraction, and a dictionary has no key twice. */
  ghost predicate PyValue(j: Json) {
    match j
    case Num(v, whole) => whole ==> v.Floor as real == v
    case Arr(items) => forall i :: 0 <= i < |items| ==> PyValue(items[i])
    case Obj(fields) => DistinctNames(fields) && forall i :: 0 <= i < |fields| ==> PyValue(fields[i].value)
    case _ => true
  }

  // ---------------------------------------------------------------- the checker

  predicate TypeMatches(value: Json, name: string) {
    match name
    case "object" => value.Obj?
    case "array" => value.Arr?
    case "string" => value.Str?
    case "integer" => value.Num? && value.whole
    case "number" => value.Num?
    case "boolean" => value.Bool?
    case "null" => value.Null?
    case _ => false
  }

  function CheckType(value: Json, expected: Json): Outcome {
    match expected
    case Null => Pass
    case Str(name) => if name in TYPES && TypeMatches(value, name) then Pass else Mismatch
    case _ => if Hashable(expected) then Mismatch else Raises
  }

  /** `value not in schema["enum"]`, for whatever container the keyword holds. */
  function CheckEnum(value: Json, options: Json): Outcome {
    match options
    case Arr(items) => if exists i :: 0 <= i < |items| && PyEq(value, items[i]) then Pass else Mismatch
    case Str(s) => if value.Str? then (if Substring(value.s, s) then Pass else Mismatch) else Raises
    case Obj(fields) =>
      if !Hashable(value) then Raises else if value.Str? && Has(fields, value.s) then Pass else Mismatch
    case _ => Raises
  }

  predicate Substring(a: string, b: string) { exists i :: 0 <= i <= |b| && StartsAt(b, i, a) }

  predicate StartsAt(b: string, i: nat, a: string) { i + |a| <= |b| && b[i..i + |a|] == a }

  /** Two comparisons joined by `or`: the second runs only if the first is false. */
  function CheckBounds(size: real, fields: seq<Field>, low: string, high: string, lowest: Option<real>, highest: Option<real>): Outcome {
    if Has(fields, low) && Number(Get(fields, low)).None? then Raises
    else
      var min := if Has(fields, low) then Number(Get(fields, low)) else lowest;
      if min.Some? && size < min.value then Mismatch
      else if Has(fields, high) && Number(Get(fields, high)).None? then Raises
      else
        var max := if Has(fields, high) then Number(Get(fields, high)) else highest;
        if max.Some? && size > max.value then Mismatch else Pass
  }

  /** `any(name not in value for name in required)`: stops at the first missing name. */
  function CheckRequired(fields: seq<Field>, names: seq<Json>): Outcome
    decreases |names|
  {
    if names == [] then Pass
    else if !Hashable(names[0]) then Raises
    else if !(names[0].Str? && Has(fields, names[0].s)) then Mismatch
    else CheckRequired(fields, names[1..])
  }

  /** What iterating a value yields; `None` where Python cannot iterate. */
  function Elements(j: Json): Option<seq<Json>> {
    match j
    case Arr(items) => Some(items)
    case Str(s) => Some(seq(|s|, i requires 0 <= i < |s| => Str([s[i]])))
    case Obj(fields) => Some(seq(|fields|, i requires 0 <= i < |fields| => Str(fields[i].name)))
    case _ => None
  }

  /** `name in properties`; `None` where Python raises. */
  function Mentions(properties: Json, name: string): Option<bool> {
    match properties
    case Obj(fields) => Some(Has(fields, name))
    case Arr(items) => Some(exists i :: 0 <= i < |items| && PyEq(Str(name), items[i]))
    case Str(s) => Some(Substring(name, s))
    case _ => None
  }

  /** `any(name not in properties for name in value)`. */
  function CheckExtra(fields: seq<Field>, properties: Json): Outcome
    decreases |fields|
  {
    if fields == [] then Pass
    else match Mentions(properties, fields[0].name)
      case None => Raises
      case Some(known) => if known then CheckExtra(fields[1..], properties) else Mismatch
  }

  function Then(first: Outcome, second: Outcome): Outcome { if first.Pass? then second else first }

  /** A schema that is not an object: what `set(schema)` and `schema.get` do. */
  function CheckNonObject(schema: Json): Outcome {
    if Falsy(schema) then Pass
    else match schema
      case Str(_) => Unsupported
      case Arr(items) =>
        if exists i :: 0 <= i < |items| && !Hashable(items[i]) then Raises
        else if exists i :: 0 <= i < |items| && !(items[i].Str? && items[i].s in KEYWORDS) then Unsupported
        else Raises
      case _ => Raises
  }

  function Check(value: Json, schema: Json): Outcome
    decreases value, 2
  {
    if !schema.Obj? || Falsy(schema) then CheckNonObject(schema)
    else if exists i :: 0 <= i < |schema.fields| && schema.fields[i].name !in KEYWORDS then Unsupported
    else
      Then(CheckType(value, GetOr(schema.fields, "type", Null)),
      Then(if Has(schema.fields, "enum") then CheckEnum(value, Get(schema.fields, "enum")) else Pass,
           CheckParts(value, schema.fields)))
  }

  /** The keywords for the value's own type. */
  function CheckParts(value: Json, keywords: seq<Field>): Outcome
    decreases value, 1
  {
    match value
    case Str(s) => CheckBounds(|s| as real, keywords, "minLength", "maxLength", Some(0.0), Some(CAP))
    case Num(v, _) => CheckBounds(v, keywords, "minimum", "maximum", None, None)
    case Arr(items) =>
      Then(CheckBounds(|items| as real, keywords, "minItems", "maxItems", Some(0.0), Some(CAP)),
           CheckItems(value, 0, GetOr(keywords, "items", Obj([]))))
    case Obj(fields) => CheckObject(value, keywords)
    case _ => Pass
  }

  function CheckItems(value: Json, i: nat, schema: Json): Outcome
    requires value.Arr? && i <= |value.items|
    decreases value, 0, |value.items| - i
  {
    if i == |value.items| then Pass
    else Then(Check(value.items[i], schema), CheckItems(value, i + 1, schema))
  }

  function CheckObject(value: Json, keywords: seq<Field>): Outcome
    requires value.Obj?
    decreases value, 0, |value.fields| + 1
  {
    var properties := GetOr(keywords, "properties", Obj([]));
    Then(match Elements(GetOr(keywords, "required", Arr([])))
         case None => Raises
         case Some(names) => CheckRequired(value.fields, names),
    Then(if GetOr(keywords, "additionalProperties", Null) == Bool(false) then CheckExtra(value.fields, properties) else Pass,
         CheckFields(value, 0, properties)))
  }

  /** `for name, item in value.items()`: only properties of the schema are looked into. */
  function CheckFields(value: Json, i: nat, properties: Json): Outcome
    requires value.Obj? && i <= |value.fields|
    decreases value, 0, |value.fields| - i
  {
    if i == |value.fields| then Pass
    else
      var field := value.fields[i];
      match Mentions(properties, field.name)
      case None => Raises
      case Some(known) =>
        if !known then CheckFields(value, i + 1, properties)
        else if !properties.Obj? then Raises
        else Then(Check(field.value, Get(properties.fields, field.name)), CheckFields(value, i + 1, properties))
  }

  // ---------------------------------------------------------------- the check before storage

  datatype Verdict = Accepted | Refused | Broken

  function ValidateSchema(schema: Json): Verdict
    requires schema.Obj?
    decreases schema, 2
  {
    var fields := schema.fields;
    if exists i :: 0 <= i < |fields| && fields[i].name !in KEYWORDS then Refused
    else if !Hashable(GetOr(fields, "type", Null)) then Broken
    else if !(GetOr(fields, "type", Null).Null? || (GetOr(fields, "type", Null).Str? && GetOr(fields, "type", Null).s in TYPES)) then Refused
    else
      var properties := GetOr(fields, "properties", Obj([]));
      if !properties.Obj? then Refused
      else if !RequiredNames(GetOr(fields, "required", Arr([])), properties.fields) then Refused
      else
        var children := if Has(fields, "properties") then ValidateChildren(fields[Find(fields, "properties")].value, 0) else Accepted;
        if !children.Accepted? then children
        else if !Has(fields, "items") then Accepted
        else
          var items := fields[Find(fields, "items")].value;
          if !items.Obj? then Refused else ValidateSchema(items)
  }

  predicate RequiredNames(required: Json, properties: seq<Field>) {
    required.Arr? && forall i :: 0 <= i < |required.items| ==> required.items[i].Str? && Has(properties, required.items[i].s)
  }

  function ValidateChildren(properties: Json, i: nat): Verdict
    requires properties.Obj? && i <= |properties.fields|
    decreases properties, 1, |properties.fields| - i
  {
    if i == |properties.fields| then Accepted
    else
      var child := properties.fields[i].value;
      if !child.Obj? then Refused
      else
        var verdict := ValidateSchema(child);
        if !verdict.Accepted? then verdict else ValidateChildren(properties, i + 1)
  }

  lemma {:induction false} AcceptedChildren(properties: Json, i: nat)
    requires properties.Obj? && i <= |properties.fields|
    ensures ValidateChildren(properties, i).Accepted? <==>
              forall j :: i <= j < |properties.fields| ==> properties.fields[j].value.Obj? && ValidateSchema(properties.fields[j].value).Accepted?
    decreases |properties.fields| - i
  {
    hide ValidateSchema;
    if i < |properties.fields| { AcceptedChildren(properties, i + 1); }
  }

  /** The schemas inside an accepted schema are accepted. */
  lemma AcceptedParts(schema: Json)
    requires schema.Obj? && ValidateSchema(schema).Accepted?
    ensures var properties := GetOr(schema.fields, "properties", Obj([]));
            && properties.Obj?
            && (forall name :: Has(properties.fields, name) ==>
                  Get(properties.fields, name).Obj? && ValidateSchema(Get(properties.fields, name)).Accepted?)
            && RequiredNames(GetOr(schema.fields, "required", Arr([])), properties.fields)
    ensures var items := GetOr(schema.fields, "items", Obj([])); items.Obj? && ValidateSchema(items).Accepted?
    ensures forall i :: 0 <= i < |schema.fields| ==> schema.fields[i].name in KEYWORDS
    ensures GetOr(schema.fields, "type", Null).Null? || (GetOr(schema.fields, "type", Null).Str? && GetOr(schema.fields, "type", Null).s in TYPES)
  {
    if Has(schema.fields, "properties") { AcceptedChildren(Get(schema.fields, "properties"), 0); }
    EmptySchemaAccepted();
  }

  lemma EmptySchemaAccepted()
    ensures ValidateSchema(Obj([])).Accepted?
  {
    assert !Has([], "items") && !Has([], "properties") && !Has([], "type") && !Has([], "required");
  }

  // ---------------------------------------------------------------- accepted schemas are supported

  /** No value makes the checker reject an accepted schema for its own shape. */
  lemma {:induction false} NeverUnsupported(value: Json, schema: Json)
    requires schema.Obj? && ValidateSchema(schema).Accepted?
    ensures !Check(value, schema).Unsupported?
    decreases value, 2
  {
    AcceptedParts(schema);
    PartsSupported(value, schema);
    TypeAndEnumSupported(value, schema.fields);
    hide ValidateSchema, CheckParts, CheckType, CheckEnum;
  }

  lemma TypeAndEnumSupported(value: Json, fields: seq<Field>)
    ensures !CheckType(value, GetOr(fields, "type", Null)).Unsupported?
    ensures Has(fields, "enum") ==> !CheckEnum(value, Get(fields, "enum")).Unsupported?
  {
    hide PyEq, Substring, TypeMatches;
  }

  lemma {:induction false} PartsSupported(value: Json, schema: Json)
    requires schema.Obj? && ValidateSchema(schema).Accepted?
    ensures !CheckParts(value, schema.fields).Unsupported?
    decreases value, 1
  {
    AcceptedParts(schema);
    hide ValidateSchema, CheckItems, CheckFields, CheckRequired, CheckExtra, Check;
    match value
    case Arr(items) => ItemsSupported(value, 0, GetOr(schema.fields, "items", Obj([])));
    case Obj(fields) =>
      FieldsSupported(value, 0, GetOr(schema.fields, "properties", Obj([])));
      NamesSupported(fields, GetOr(schema.fields, "required", Arr([])).items);
      ExtraSupported(fields, GetOr(schema.fields, "properties", Obj([])));
    case _ =>
  }

  lemma {:induction false} ItemsSupported(value: Json, i: nat, schema: Json)
    requires value.Arr? && i <= |value.items| && schema.Obj? && ValidateSchema(schema).Accepted?
    ensures !CheckItems(value, i, schema).Unsupported?
    decreases value, 0, |value.items| - i
  {
    if i < |value.items| {
      NeverUnsupported(value.items[i], schema);
      ItemsSupported(value, i + 1, schema);
    }
  }

  lemma {:induction false} FieldsSupported(value: Json, i: nat, properties: Json)
    requires value.Obj? && i <= |value.fields| && properties.Obj?
    requires forall name :: Has(properties.fields, name) ==>
               Get(properties.fields, name).Obj? && ValidateSchema(Get(properties.fields, name)).Accepted?
    ensures !CheckFields(value, i, properties).Unsupported?
    decreases value, 0, |value.fields| - i
  {
    if i < |value.fields| {
      if Has(properties.fields, value.fields[i].name) {
        NeverUnsupported(value.fields[i].value, Get(properties.fields, value.fields[i].name));
      }
      FieldsSupported(value, i + 1, properties);
    }
  }

  lemma {:induction false} NamesSupported(fields: seq<Field>, names: seq<Json>)
    ensures !CheckRequired(fields, names).Unsupported?
    decreases |names|
  {
    if names != [] { NamesSupported(fields, names[1..]); }
  }

  lemma {:induction false} ExtraSupported(fields: seq<Field>, properties: Json)
    ensures !CheckExtra(fields, properties).Unsupported?
    decreases |fields|
  {
    if fields != [] { ExtraSupported(fields[1..], properties); }
  }

  // ---------------------------------------------------------------- what Pass means

  predicate NumberIfThere(fields: seq<Field>, name: string) { Has(fields, name) ==> Number(Get(fields, name)).Some? }

  predicate AtLeast(size: real, fields: seq<Field>, low: string, otherwise: Option<real>) {
    var bound := if Has(fields, low) then Number(Get(fields, low)) else otherwise;
    bound.Some? ==> bound.value <= size
  }

  predicate AtMost(size: real, fields: seq<Field>, high: string, otherwise: Option<real>) {
    var bound := if Has(fields, high) then Number(Get(fields, high)) else otherwise;
    bound.Some? ==> size <= bound.value
  }

  /** The type keyword names the value's type; an integer is a number written without a fraction. */
  predicate OfType(value: Json, fields: seq<Field>) {
    var expected := GetOr(fields, "type", Null);
    expected.Null? || (expected.Str? && expected.s in TYPES && TypeMatches(value, expected.s))
  }

  /** Python's `in`: an element of a list, a part of a text, a key of a dictionary. */
  predicate Contains(options: Json, value: Json) {
    match options
    case Arr(items) => exists i :: 0 <= i < |items| && PyEq(value, items[i])
    case Str(s) => value.Str? && Substring(value.s, s)
    case Obj(fields) => value.Str? && Has(fields, value.s)
    case _ => false
  }

  predicate Listed(value: Json, fields: seq<Field>) {
    Has(fields, "enum") ==> Contains(Get(fields, "enum"), value)
  }

  predicate HasRequired(value: Json, fields: seq<Field>) {
    var required := GetOr(fields, "required", Arr([]));
    value.Obj? && required.Arr? ==>
      forall i :: 0 <= i < |required.items| ==> required.items[i].Str? && Has(value.fields, required.items[i].s)
  }

  predicate NoExtra(value: Json, fields: seq<Field>) {
    var properties := GetOr(fields, "properties", Obj([]));
    value.Obj? && properties.Obj? && GetOr(fields, "additionalProperties", Null) == Bool(false) ==>
      forall i :: 0 <= i < |value.fields| ==> Has(properties.fields, value.fields[i].name)
  }

  /**
    The declarative meaning of the subset: every keyword, and every part of the value, taken
    by itself. The empty schema accepts everything, without the size caps.
   */
  predicate Satisfies(value: Json, schema: Json)
    decreases value, 1
  {
    schema.Obj? && (schema.fields == [] ||
      (OfType(value, schema.fields) && Listed(value, schema.fields) && PartsSatisfy(value, schema.fields)))
  }

  predicate PartsSatisfy(value: Json, fields: seq<Field>)
    decreases value, 0, 1
  {
    match value
    case Str(s) => AtLeast(|s| as real, fields, "minLength", Some(0.0)) && AtMost(|s| as real, fields, "maxLength", Some(CAP))
    case Num(v, _) => AtLeast(v, fields, "minimum", None) && AtMost(v, fields, "maximum", None)
    case Arr(parts) =>
      && AtLeast(|parts| as real, fields, "minItems", Some(0.0)) && AtMost(|parts| as real, fields, "maxItems", Some(CAP))
      && EachSatisfies(value, GetOr(fields, "items", Obj([])))
    case Obj(parts) => HasRequired(value, fields) && NoExtra(value, fields) && PropertiesSatisfy(value, GetOr(fields, "properties", Obj([])))
    case _ => true
  }

  predicate EachSatisfies(value: Json, schema: Json)
    requires value.Arr?
    decreases value, 0, 0
  {
    forall i :: 0 <= i < |value.items| ==> Satisfies(value.items[i], schema)
  }

  predicate PropertiesSatisfy(value: Json, properties: Json)
    requires value.Obj?
    decreases value, 0, 0
  {
    properties.Obj? && forall i :: 0 <= i < |value.fields| ==> FieldSatisfies(value, i, properties)
  }

  /** A field that the schema declares satisfies its declaration. */
  predicate FieldSatisfies(value: Json, i: nat, properties: Json)
    requires value.Obj? && i < |value.fields| && properties.Obj?
    decreases value, 0, -1
  {
    Has(properties.fields, value.fields[i].name) ==> Satisfies(value.fields[i].value, Get(properties.fields, value.fields[i].name))
  }

  /** A verdict, and the right one. */
  predicate Decides(outcome: Outcome, holds: bool) { outcome == if holds then Pass else Mismatch }

  /** No verdict, or the right one. */
  predicate Sound(outcome: Outcome, holds: bool) { outcome.Raises? || Decides(outcome, holds) }

  lemma BoundsSound(size: real, fields: seq<Field>, low: string, high: string, lowest: Option<real>, highest: Option<real>)
    ensures Sound(CheckBounds(size, fields, low, high, lowest, highest), AtLeast(size, fields, low, lowest) && AtMost(size, fields, high, highest))
  {
  }

  lemma BoundsDecide(size: real, fields: seq<Field>, low: string, high: string, lowest: Option<real>, highest: Option<real>)
    requires NumberIfThere(fields, low) && NumberIfThere(fields, high)
    ensures Decides(CheckBounds(size, fields, low, high, lowest, highest), AtLeast(size, fields, low, lowest) && AtMost(size, fields, high, highest))
  {
  }

  lemma {:induction false} RequiredDecides(fields: seq<Field>, names: seq<Json>)
    requires forall i :: 0 <= i < |names| ==> names[i].Str?
    ensures Decides(CheckRequired(fields, names), forall i :: 0 <= i < |names| ==> Has(fields, names[i].s))
    decreases |names|
  {
    if names != [] {
      RequiredDecides(fields, names[1..]);
      assert forall i :: 1 <= i < |names| ==> names[i] == names[1..][i - 1];
    }
  }

  lemma {:induction false} ExtraDecides(fields: seq<Field>, properties: Json)
    requires properties.Obj?
    ensures Decides(CheckExtra(fields, properties), forall i :: 0 <= i < |fields| ==> Has(properties.fields, fields[i].name))
    decreases |fields|
  {
    if fields != [] {
      ExtraDecides(fields[1..], properties);
      assert forall i :: 1 <= i < |fields| ==> fields[i] == fields[1..][i - 1];
    }
  }

  /** On an accepted schema the checker passes exactly the values that satisfy the schema, unless it raises instead of giving a verdict. */
  lemma {:induction false} CheckMeansSatisfies(value: Json, schema: Json)
    requires schema.Obj? && ValidateSchema(schema).Accepted?
    ensures Sound(Check(value, schema), Satisfies(value, schema))
    decreases value, 2
  {
    AcceptedParts(schema);
    PartsDecide(value, schema);
    hide ValidateSchema, CheckParts, CheckNonObject, PartsSatisfy;
    if !Falsy(schema) {
      TypeAndEnumDecide(value, schema.fields);
      hide CheckType, CheckEnum, OfType, Listed;
    }
  }

  lemma {:induction false} PartsDecide(value: Json, schema: Json)
    requires schema.Obj? && ValidateSchema(schema).Accepted?
    ensures Sound(CheckParts(value, schema.fields), PartsSatisfy(value, schema.fields))
    decreases value, 1
  {
    AcceptedParts(schema);
    var fields := schema.fields;
    hide ValidateSchema, CheckItems, CheckBounds, AtLeast, AtMost, CheckObject, Check, Satisfies, EachSatisfies, PropertiesSatisfy,
      HasRequired, NoExtra;
    match value
    case Str(s) => BoundsSound(|s| as real, fields, "minLength", "maxLength", Some(0.0), Some(CAP));
    case Num(v, _) => BoundsSound(v, fields, "minimum", "maximum", None, None);
    case Arr(parts) =>
      BoundsSound(|parts| as real, fields, "minItems", "maxItems", Some(0.0), Some(CAP));
      ItemsDecide(value, 0, GetOr(fields, "items", Obj([])));
      EachIsAll(value, GetOr(fields, "items", Obj([])));
    case Obj(parts) => ObjectDecides(value, fields);
    case _ =>
  }

  lemma EachIsAll(value: Json, schema: Json)
    requires value.Arr?
    ensures EachSatisfies(value, schema) <==> forall j :: 0 <= j < |value.items| ==> Satisfies(value.items[j], schema)
  {
  }

  lemma TypeAndEnumDecide(value: Json, fields: seq<Field>)
    requires GetOr(fields, "type", Null).Null? || (GetOr(fields, "type", Null).Str? && GetOr(fields, "type", Null).s in TYPES)
    ensures Decides(CheckType(value, GetOr(fields, "type", Null)), OfType(value, fields))
    ensures Sound(if Has(fields, "enum") then CheckEnum(value, Get(fields, "enum")) else Pass, Listed(value, fields))
  {
    hide PyEq, TypeMatches, Substring;
  }

  lemma {:induction false} ItemsDecide(value: Json, i: nat, schema: Json)
    requires value.Arr? && i <= |value.items| && schema.Obj? && ValidateSchema(schema).Accepted?
    ensures Sound(CheckItems(value, i, schema), forall j :: i <= j < |value.items| ==> Satisfies(value.items[j], schema))
    decreases value, 0, |value.items| - i
  {
    hide ValidateSchema, Check, Satisfies;
    if i < |value.items| {
      CheckMeansSatisfies(value.items[i], schema);
      ItemsDecide(value, i + 1, schema);
    }
  }

  predicate FieldsFrom(value: Json, i: nat, properties: Json)
    requires value.Obj? && properties.Obj?
  {
    forall j :: i <= j < |value.fields| ==> FieldSatisfies(value, j, properties)
  }

  lemma FieldsStep(value: Json, i: nat, properties: Json)
    requires value.Obj? && properties.Obj? && i < |value.fields|
    ensures FieldsFrom(value, i, properties) <==> FieldSatisfies(value, i, properties) && FieldsFrom(value, i + 1, properties)
  {
    hide FieldSatisfies;
  }

  lemma {:induction false} FieldsDecide(value: Json, i: nat, properties: Json)
    requires value.Obj? && i <= |value.fields| && properties.Obj?
    requires forall name :: Has(properties.fields, name) ==>
               var child := Get(properties.fields, name); child.Obj? && ValidateSchema(child).Accepted?
    ensures Sound(CheckFields(value, i, properties), FieldsFrom(value, i, properties))
    decreases value, 0, |value.fields| - i
  {
    hide ValidateSchema, Check, Satisfies;
    if i < |value.fields| {
      if Has(properties.fields, value.fields[i].name) {
        CheckMeansSatisfies(value.fields[i].value, Get(properties.fields, value.fields[i].name));
      }
      FieldsDecide(value, i + 1, properties);
      FieldsStep(value, i, properties);
      hide FieldsFrom;
    }
  }

  lemma {:induction false} ObjectDecides(value: Json, fields: seq<Field>)
    requires value.Obj?
    requires var properties := GetOr(fields, "properties", Obj([]));
             && properties.Obj? && RequiredNames(GetOr(fields, "required", Arr([])), properties.fields)
             && forall name :: Has(properties.fields, name) ==>
                  var child := Get(properties.fields, name); child.Obj? && ValidateSchema(child).Accepted?
    ensures Sound(CheckObject(value, fields),
              HasRequired(value, fields) && NoExtra(value, fields) && PropertiesSatisfy(value, GetOr(fields, "properties", Obj([]))))
    decreases value, 0, |value.fields| + 1
  {
    var properties := GetOr(fields, "properties", Obj([]));
    FieldsDecide(value, 0, properties);
    NamesDecide(value, fields);
    PropertiesAreFields(value, properties);
    hide ValidateSchema, CheckFields, CheckRequired, CheckExtra, HasRequired, NoExtra, PropertiesSatisfy, FieldsFrom, Has, Get;
  }

  lemma PropertiesAreFields(value: Json, properties: Json)
    requires value.Obj? && properties.Obj?
    ensures PropertiesSatisfy(value, properties) <==> FieldsFrom(value, 0, properties)
  {
    hide FieldSatisfies;
  }

  /** The two tests on names. */
  lemma NamesDecide(value: Json, fields: seq<Field>)
    requires value.Obj?
    requires var properties := GetOr(fields, "properties", Obj([]));
             properties.Obj? && RequiredNames(GetOr(fields, "required", Arr([])), properties.fields)
    ensures var required := GetOr(fields, "required", Arr([]));
            required.Arr? && Decides(CheckRequired(value.fields, required.items), HasRequired(value, fields))
    ensures var properties := GetOr(fields, "properties", Obj([]));
            Decides(if GetOr(fields, "additionalProperties", Null) == Bool(false) then CheckExtra(value.fields, properties) else Pass,
              NoExtra(value, fields))
  {
    RequiredDecides(value.fields, GetOr(fields, "required", Arr([])).items);
    ExtraDecides(value.fields, GetOr(fields, "properties", Obj([])));
    hide CheckRequired, CheckExtra;
  }

  // ---------------------------------------------------------------- which unusable keywords a value can reach

  /** The declared type admits values of this kind. */
  predicate Allows(fields: seq<Field>, kind: string) {
    var declared := GetOr(fields, "type", Null);
    declared.Null? || declared == Str(kind)
  }

  predicate BoundsTyped(fields: seq<Field>, low: string, high: string) { NumberIfThere(fields, low) && NumberIfThere(fields, high) }

  /** `value in enum` raises for some value of the declared type: only a list never does. */
  predicate EnumCanRaise(fields: seq<Field>)
    requires Has(fields, "enum")
  {
    match Get(fields, "enum")
    case Arr(_) => false
    case Str(_) => !(Has(fields, "type") && Get(fields, "type") == Str("string"))
    case Obj(_) => Allows(fields, "array") || Allows(fields, "object")
    case _ => true
  }

  /** The keywords that look at a value as a whole: `type`, then `enum`. */
  function Entry(value: Json, fields: seq<Field>): Outcome {
    if !OfType(value, fields) then Mismatch
    else if Has(fields, "enum") then CheckEnum(value, Get(fields, "enum"))
    else Pass
  }

  /** The values equal to a number: the float, the int if there is no fraction, and the booleans. */
  function Spellings(v: real): seq<Json> {
    [Num(v, false)] + (if v.Floor as real == v then [Num(v, true)] else []) + (if v == 0.0 || v == 1.0 then [Bool(v == 1.0)] else [])
  }

  /**
    Can a value equal to `option` pass (or raise)? Texts are tried, numbers in each spelling; the
    items of a list one after the other, and the entries of a dictionary in whatever order.
   */
  predicate Reaches(option: Json, schema: Json, want: Outcome)
    decreases option, 2, 0
  {
    schema.Obj? &&
    if schema.fields == [] then want.Pass?
    else match option
      case Arr(items) =>
        var first := Then(Entry(option, schema.fields),
                          CheckBounds(|items| as real, schema.fields, "minItems", "maxItems", Some(0.0), Some(CAP)));
        if first.Pass? then ItemsReach(option, 0, GetOr(schema.fields, "items", Obj([])), want) else first == want
      case Obj(_) =>
        var first := Then(Entry(option, schema.fields),
                          if HasRequired(option, schema.fields) && NoExtra(option, schema.fields) then Pass else Mismatch);
        if first.Pass? then FieldsReach(option, GetOr(schema.fields, "properties", Obj([])), want) else first == want
      case Num(v, _) => SpellingReaches(v, schema, want)
      case Bool(b) => SpellingReaches(if b then 1.0 else 0.0, schema, want)
      case _ => Check(option, schema) == want
  }

  predicate SpellingReaches(v: real, schema: Json, want: Outcome) {
    exists i :: 0 <= i < |Spellings(v)| && Check(Spellings(v)[i], schema) == want
  }

  /** Each item passes, or one raises behind items that pass. */
  predicate ItemsReach(option: Json, i: nat, schema: Json, want: Outcome)
    requires option.Arr? && i <= |option.items|
    decreases option, 1, |option.items| - i
  {
    if i == |option.items| then want.Pass?
    else
      || (want.Raises? && Reaches(option.items[i], schema, Raises))
      || (Reaches(option.items[i], schema, Pass) && ItemsReach(option, i + 1, schema, want))
  }

  /** Each declared entry passes, or one raises. */
  predicate FieldsReach(option: Json, properties: Json, want: Outcome)
    requires option.Obj?
    decreases option, 1, 0
  {
    properties.Obj? &&
    if want.Raises? then exists i :: 0 <= i < |option.fields| && FieldReaches(option, i, properties, Raises)
    else
      want.Pass? &&
      forall i :: 0 <= i < |option.fields| && Has(properties.fields, option.fields[i].name) ==> FieldReaches(option, i, properties, Pass)
  }

  predicate FieldReaches(option: Json, i: nat, properties: Json, want: Outcome)
    requires option.Obj? && i < |option.fields| && properties.Obj?
    decreases option, 0, 0
  {
    && Has(properties.fields, option.fields[i].name)
    && Reaches(option.fields[i].value, Get(properties.fields, option.fields[i].name), want)
  }

  /** A text of this length reaches a bound that is no number. */
  predicate LengthRaises(n: nat, fields: seq<Field>) {
    || !NumberIfThere(fields, "minLength")
    || (AtLeast(n as real, fields, "minLength", Some(0.0)) && !NumberIfThere(fields, "maxLength"))
  }

  /** Some value the `enum` names raises: an element of a list, a part of a text, or a key of a dictionary. */
  predicate OptionRaises(schema: Json)
    requires schema.Obj? && Has(schema.fields, "enum")
  {
    match Get(schema.fields, "enum")
    case Arr(options) => exists i :: 0 <= i < |options| && Reaches(options[i], schema, Raises)
    case Str(s) => Allows(schema.fields, "string") && exists n :: 0 <= n <= |s| && LengthRaises(n, schema.fields)
    case Obj(keys) => Allows(schema.fields, "string") && exists i :: 0 <= i < |keys| && LengthRaises(|keys[i].name|, schema.fields)
    case _ => false
  }

  /** An array of this size is not refused for it. */
  predicate FitsItems(n: nat, fields: seq<Field>) {
    AtLeast(n as real, fields, "minItems", Some(0.0)) && AtMost(n as real, fields, "maxItems", Some(CAP))
  }

  /**
    Some value reaches an unusable keyword of this schema: the bounds of a kind the declared
    type admits, and the same of `items` if a non-empty array fits, and of any property. Where
    an `enum` names the values, they are looked through one by one.
   */
  ghost predicate CanRaise(schema: Json)
    decreases schema
  {
    schema.Obj? && schema.fields != [] &&
    var fields := schema.fields;
    if Has(fields, "enum") then EnumCanRaise(fields) || OptionRaises(schema)
    else
      || (Allows(fields, "string") && !BoundsTyped(fields, "minLength", "maxLength"))
      || ((Allows(fields, "integer") || Allows(fields, "number")) && !BoundsTyped(fields, "minimum", "maximum"))
      || (Allows(fields, "array") && !BoundsTyped(fields, "minItems", "maxItems"))
      || (Allows(fields, "array") && Has(fields, "items") && (exists n :: 1 <= n && FitsItems(n, fields))
          && CanRaise(fields[Find(fields, "items")].value))
      || (Allows(fields, "object") && Has(fields, "properties") &&
          var properties := fields[Find(fields, "properties")].value;
          properties.Obj? &&
          exists i :: 0 <= i < |properties.fields| && Find(properties.fields, properties.fields[i].name) == i
                      && CanRaise(properties.fields[i].value))
  }

  lemma BoundsRaise(size: real, fields: seq<Field>, low: string, high: string, lowest: Option<real>, highest: Option<real>)
    ensures BoundsTyped(fields, low, high) ==> !CheckBounds(size, fields, low, high, lowest, highest).Raises?
    ensures BoundsTyped(fields, low, high) && CheckBounds(size, fields, low, high, lowest, highest).Pass? ==>
              AtLeast(size, fields, low, lowest) && AtMost(size, fields, high, highest)
  {
  }

  predicate TypeKnown(fields: seq<Field>) {
    var declared := GetOr(fields, "type", Null);
    declared.Null? || (declared.Str? && declared.s in TYPES)
  }

  lemma TypeNeverRaises(value: Json, fields: seq<Field>)
    requires TypeKnown(fields)
    ensures CheckType(value, GetOr(fields, "type", Null)) == if OfType(value, fields) then Pass else Mismatch
  {
    hide TypeMatches;
  }

  /** What the declared type says of a value that passes it. */
  lemma PassingTypeAllows(value: Json, fields: seq<Field>)
    requires OfType(value, fields)
    ensures value.Str? ==> Allows(fields, "string")
    ensures value.Num? ==> Allows(fields, "integer") || Allows(fields, "number")
    ensures value.Arr? ==> Allows(fields, "array")
    ensures value.Obj? ==> Allows(fields, "object")
  {
  }

  lemma EnumRaises(value: Json, fields: seq<Field>)
    requires Has(fields, "enum") && OfType(value, fields) && CheckEnum(value, Get(fields, "enum")).Raises?
    ensures EnumCanRaise(fields)
  {
    PassingTypeAllows(value, fields);
    hide PyEq, Substring;
  }

  /** How `Check` proceeds on a schema that was accepted. */
  lemma CheckUnfolds(value: Json, schema: Json)
    requires schema.Obj? && ValidateSchema(schema).Accepted? && schema.fields != []
    ensures var fields := schema.fields;
            Check(value, schema) ==
            if !OfType(value, fields) then Mismatch
            else Then(if Has(fields, "enum") then CheckEnum(value, Get(fields, "enum")) else Pass, CheckParts(value, fields))
  {
    AcceptedParts(schema);
    hide ValidateSchema, CheckParts, CheckEnum;
    TypeNeverRaises(value, schema.fields);
    hide CheckType, OfType;
  }

  lemma CheckEmpty(value: Json)
    ensures Check(value, Obj([])).Pass?
  {
  }

  // ---------------------------------------------------------------- equality of Python values

  lemma {:induction false} HasAt(fields: seq<Field>, i: nat)
    requires i < |fields|
    ensures Has(fields, fields[i].name)
    decreases |fields|
  {
    if i > 0 && fields[0].name != fields[i].name { HasAt(fields[1..], i - 1); }
  }

  lemma FoundAt(fields: seq<Field>, i: nat)
    requires DistinctNames(fields) && i < |fields|
    ensures Has(fields, fields[i].name) && Find(fields, fields[i].name) == i && Get(fields, fields[i].name) == fields[i].value
  {
    HasAt(fields, i);
  }

  lemma PartIsPyValue(schema: Json, name: string)
    requires PyValue(schema) && schema.Obj?
    ensures Has(schema.fields, name) ==> PyValue(Get(schema.fields, name))
    ensures PyValue(GetOr(schema.fields, name, Obj([])))
  {
  }

  function Names(fields: seq<Field>): set<string> { set i | 0 <= i < |fields| :: fields[i].name }

  lemma NameIsThere(fields: seq<Field>, name: string)
    ensures Has(fields, name) <==> name in Names(fields)
  {
    if name in Names(fields) {
      var i :| 0 <= i < |fields| && fields[i].name == name;
      HasAt(fields, i);
    }
    assert Has(fields, name) ==> fields[Find(fields, name)].name == name;
  }

  lemma {:induction false} NamesCount(fields: seq<Field>)
    requires DistinctNames(fields)
    ensures |Names(fields)| == |fields|
    decreases |fields|
  {
    if fields == [] {
      assert Names(fields) == {};
    } else {
      var front, last := fields[..|fields| - 1], fields[|fields| - 1];
      NamesCount(front);
      assert forall i :: 0 <= i < |front| ==> front[i] == fields[i];
      assert Names(fields) == Names(front) + {last.name};
      assert last.name !in Names(front);
    }
  }

  lemma SubsetIsAll(a: set<string>, b: set<string>)
    requires a <= b && |a| == |b|
    ensures a == b
  {
    assert |b - a| == |b| - |a|;
    assert b == a + (b - a);
  }

  /** Equal dictionaries have the same keys. */
  lemma SameNames(a: Json, b: Json, name: string)
    requires a.Obj? && b.Obj? && DistinctNames(a.fields) && DistinctNames(b.fields) && PyEq(a, b)
    ensures Has(a.fields, name) <==> Has(b.fields, name)
  {
    NamesCount(a.fields);
    NamesCount(b.fields);
    forall n | n in Names(a.fields) ensures n in Names(b.fields) {
      var i :| 0 <= i < |a.fields| && a.fields[i].name == n;
      NameIsThere(b.fields, n);
    }
    SubsetIsAll(Names(a.fields), Names(b.fields));
    NameIsThere(a.fields, name);
    NameIsThere(b.fields, name);
    hide PyEq, Names, Has;
  }

  lemma {:induction false} EqReflexive(a: Json)
    requires PyValue(a)
    ensures PyEq(a, a)
    decreases a
  {
    match a
    case Arr(items) => forall i | 0 <= i < |items| ensures PyEq(items[i], items[i]) { EqReflexive(items[i]); }
    case Obj(fields) =>
      forall i | 0 <= i < |fields| ensures Has(fields, fields[i].name) && PyEq(fields[i].value, Get(fields, fields[i].name)) {
        FoundAt(fields, i);
        EqReflexive(fields[i].value);
      }
    case _ =>
  }

  lemma {:induction false} EqSymmetric(a: Json, b: Json)
    requires PyValue(a) && PyValue(b) && PyEq(a, b)
    ensures PyEq(b, a)
    decreases a
  {
    match a
    case Arr(items) => forall i | 0 <= i < |items| ensures PyEq(b.items[i], items[i]) { EqSymmetric(items[i], b.items[i]); }
    case Obj(fields) =>
      forall j | 0 <= j < |b.fields|
        ensures Has(fields, b.fields[j].name) && PyEq(b.fields[j].value, Get(fields, b.fields[j].name))
      {
        FoundAt(b.fields, j);
        SameNames(a, b, b.fields[j].name);
        EqSymmetric(Get(fields, b.fields[j].name), b.fields[j].value);
      }
    case _ =>
  }

  lemma {:induction false} EqTransitive(a: Json, b: Json, c: Json)
    requires PyEq(a, b) && PyEq(b, c)
    ensures PyEq(a, c)
    decreases a
  {
    match a
    case Arr(items) => forall i | 0 <= i < |items| ensures PyEq(items[i], c.items[i]) { EqTransitive(items[i], b.items[i], c.items[i]); }
    case Obj(fields) =>
      forall i | 0 <= i < |fields| ensures Has(c.fields, fields[i].name) && PyEq(fields[i].value, Get(c.fields, fields[i].name)) {
        EqTransitive(fields[i].value, Get(b.fields, fields[i].name), Get(c.fields, fields[i].name));
      }
    case _ =>
  }

  // ---------------------------------------------------------------- what equal values share

  /** Equal lists, and equal dictionaries, pass `type` and `enum` alike. */
  lemma EntryAlike(v: Json, e: Json, schema: Json)
    requires PyValue(v) && PyValue(e) && PyValue(schema) && schema.Obj? && PyEq(v, e) && (e.Arr? || e.Obj?)
    ensures Entry(v, schema.fields) == Entry(e, schema.fields)
  {
    KindAlike(v, e);
    if Has(schema.fields, "enum") { EnumAlike(v, e, schema); }
    hide PyEq, PyValue, Get, Has, GetOr, CheckEnum;
  }

  lemma EnumAlike(v: Json, e: Json, schema: Json)
    requires PyValue(v) && PyValue(e) && PyValue(schema) && schema.Obj? && PyEq(v, e) && (e.Arr? || e.Obj?) && Has(schema.fields, "enum")
    ensures CheckEnum(v, Get(schema.fields, "enum")) == CheckEnum(e, Get(schema.fields, "enum"))
  {
    hide Get, Has, PyEq, Substring;
    KindAlike(v, e);
    PartIsPyValue(schema, "enum");
    var options := Get(schema.fields, "enum");
    if options.Arr? { ListedAlike(v, e, options.items); }
    hide PyValue;
  }

  lemma KindAlike(v: Json, e: Json)
    requires PyEq(v, e) && (e.Arr? || e.Obj?)
    ensures (v.Arr? <==> e.Arr?) && (v.Obj? <==> e.Obj?)
  {
  }

  lemma ListedAlike(v: Json, e: Json, options: seq<Json>)
    requires PyValue(v) && PyValue(e) && PyEq(v, e) && forall i :: 0 <= i < |options| ==> PyValue(options[i])
    ensures (exists i :: 0 <= i < |options| && PyEq(v, options[i])) <==> (exists i :: 0 <= i < |options| && PyEq(e, options[i]))
  {
    EqSymmetric(v, e);
    hide PyEq, PyValue;
    forall i | 0 <= i < |options| ensures PyEq(v, options[i]) <==> PyEq(e, options[i]) {
      if PyEq(v, options[i]) { EqTransitive(e, v, options[i]); }
      if PyEq(e, options[i]) { EqTransitive(v, e, options[i]); }
    }
  }

  /** Equal dictionaries have the required keys, and extra keys, alike. */
  lemma NamesAlike(v: Json, e: Json, fields: seq<Field>)
    requires PyValue(v) && PyValue(e) && PyEq(v, e) && v.Obj? && e.Obj?
    ensures HasRequired(v, fields) == HasRequired(e, fields)
    ensures NoExtra(v, fields) == NoExtra(e, fields)
  {
    forall name ensures Has(v.fields, name) <==> Has(e.fields, name) { SameNames(v, e, name); }
    forall i | 0 <= i < |v.fields| ensures Has(v.fields, v.fields[i].name) { HasAt(v.fields, i); }
    forall i | 0 <= i < |e.fields| ensures Has(e.fields, e.fields[i].name) { HasAt(e.fields, i); }
    hide PyEq, PyValue;
    assert forall name :: Has(v.fields, name) ==> v.fields[Find(v.fields, name)].name == name;
    assert forall name :: Has(e.fields, name) ==> e.fields[Find(e.fields, name)].name == name;
  }

  /** Of two equal values that are no containers, the one is the other in some spelling. */
  lemma SpellingOf(v: Json, e: Json)
    requires PyValue(v) && PyEq(v, e) && !e.Arr? && !e.Obj?
    ensures if Number(e).None? then v == e else v in Spellings(Number(e).value)
  {
  }

  lemma SpellingsEqual(e: Json, i: nat)
    requires Number(e).Some? && i < |Spellings(Number(e).value)|
    ensures PyValue(Spellings(Number(e).value)[i]) && PyEq(Spellings(Number(e).value)[i], e)
  {
  }

  lemma CheckEnters(value: Json, schema: Json)
    requires schema.Obj? && ValidateSchema(schema).Accepted? && schema.fields != []
    ensures Check(value, schema) == Then(Entry(value, schema.fields), CheckParts(value, schema.fields))
  {
    CheckUnfolds(value, schema);
    hide ValidateSchema, CheckParts, CheckEnum, OfType, Check;
  }

  /** On an accepted schema a dictionary is checked for its keys, then entry by entry. */
  lemma ObjectChecks(value: Json, schema: Json)
    requires value.Obj? && schema.Obj? && ValidateSchema(schema).Accepted?
    ensures CheckParts(value, schema.fields) ==
            Then(if HasRequired(value, schema.fields) && NoExtra(value, schema.fields) then Pass else Mismatch,
                 CheckFields(value, 0, GetOr(schema.fields, "properties", Obj([]))))
  {
    hide ValidateSchema, HasRequired, NoExtra, CheckRequired, CheckExtra, CheckFields, RequiredNames, GetOr;
    RequiredAccepted(schema);
    NamesDecide(value, schema.fields);
  }

  lemma RequiredAccepted(schema: Json)
    requires schema.Obj? && ValidateSchema(schema).Accepted?
    ensures var properties := GetOr(schema.fields, "properties", Obj([]));
            properties.Obj? && RequiredNames(GetOr(schema.fields, "required", Arr([])), properties.fields)
  {
    AcceptedParts(schema);
  }

  // ---------------------------------------------------------------- what equal values can do is found

  predicate Answers(want: Outcome) { want.Pass? || want.Raises? }

  lemma {:induction false} VariantMeans(v: Json, e: Json, schema: Json, want: Outcome)
    requires PyValue(v) && PyValue(e) && PyValue(schema) && schema.Obj? && ValidateSchema(schema).Accepted? && Answers(want)
    requires PyEq(v, e) && Check(v, schema) == want
    ensures Reaches(e, schema, want)
    decreases v, 2
  {
    if schema.fields == [] {
      assert schema == Obj([]);
      CheckEmpty(v);
    } else if e.Arr? {
      ArrayVariant(v, e, schema, want);
    } else if e.Obj? {
      ObjectVariant(v, e, schema, want);
    } else {
      SpellingOf(v, e);
      hide Check, PyEq, PyValue, ValidateSchema, Spellings;
    }
  }

  lemma {:induction false} ArrayVariant(v: Json, e: Json, schema: Json, want: Outcome)
    requires PyValue(v) && PyValue(e) && PyValue(schema) && schema.Obj? && ValidateSchema(schema).Accepted? && Answers(want)
    requires PyEq(v, e) && Check(v, schema) == want && schema.fields != [] && e.Arr?
    ensures Reaches(e, schema, want)
    decreases v, 1
  {
    KindAlike(v, e);
    CheckEnters(v, schema);
    EntryAlike(v, e, schema);
    AcceptedParts(schema);
    PartIsPyValue(schema, "items");
    hide PyValue, ValidateSchema, Entry, CheckItems, Check, CheckBounds, ItemsReach, GetOr;
    var items := GetOr(schema.fields, "items", Obj([]));
    assert |v.items| == |e.items|;
    hide PyEq;
    if Then(Entry(v, schema.fields),
            CheckBounds(|v.items| as real, schema.fields, "minItems", "maxItems", Some(0.0), Some(CAP))).Pass? {
      ItemsVariant(v, e, 0, items, want);
    }
  }

  lemma {:induction false} ItemsVariant(v: Json, e: Json, i: nat, schema: Json, want: Outcome)
    requires PyValue(v) && PyValue(e) && PyValue(schema) && schema.Obj? && ValidateSchema(schema).Accepted? && Answers(want)
    requires v.Arr? && e.Arr? && PyEq(v, e) && i <= |v.items| && CheckItems(v, i, schema) == want
    ensures i <= |e.items| && ItemsReach(e, i, schema, want)
    decreases v, 0, |v.items| - i
  {
    hide ValidateSchema, Check, Reaches;
    if i < |v.items| {
      var first := Check(v.items[i], schema);
      VariantMeans(v.items[i], e.items[i], schema, first);
      if first.Pass? { ItemsVariant(v, e, i + 1, schema, want); }
    }
  }

  lemma {:induction false} ObjectVariant(v: Json, e: Json, schema: Json, want: Outcome)
    requires PyValue(v) && PyValue(e) && PyValue(schema) && schema.Obj? && ValidateSchema(schema).Accepted? && Answers(want)
    requires PyEq(v, e) && Check(v, schema) == want && schema.fields != [] && e.Obj?
    ensures Reaches(e, schema, want)
    decreases v, 1
  {
    KindAlike(v, e);
    CheckEnters(v, schema);
    ObjectChecks(v, schema);
    EntryAlike(v, e, schema);
    NamesAlike(v, e, schema.fields);
    AcceptedParts(schema);
    PartIsPyValue(schema, "properties");
    hide PyValue, PyEq, ValidateSchema, Entry, CheckFields, Check, CheckParts, HasRequired, NoExtra, FieldsReach, GetOr;
    if Then(Entry(v, schema.fields), if HasRequired(v, schema.fields) && NoExtra(v, schema.fields) then Pass else Mismatch).Pass? {
      FieldsVariant(v, e, GetOr(schema.fields, "properties", Obj([])), want);
    }
  }

  ghost predicate ChildrenAccepted(properties: Json) {
    properties.Obj? &&
    forall name :: Has(properties.fields, name) ==>
      Get(properties.fields, name).Obj? && ValidateSchema(Get(properties.fields, name)).Accepted?
  }

  lemma {:induction false} FieldsVariant(v: Json, e: Json, properties: Json, want: Outcome)
    requires PyValue(v) && PyValue(e) && PyValue(properties) && ChildrenAccepted(properties) && Answers(want)
    requires v.Obj? && e.Obj? && PyEq(v, e) && CheckFields(v, 0, properties) == want
    ensures FieldsReach(e, properties, want)
    decreases v, 0, |v.fields|
  {
    hide ValidateSchema, Check, Reaches;
    if want.Raises? {
      var k := RaisingField(v, 0, properties);
      var name := v.fields[k].name;
      PartIsPyValue(properties, name);
      PartIsPyValue(e, name);
      VariantMeans(v.fields[k].value, Get(e.fields, name), Get(properties.fields, name), Raises);
      assert FieldReaches(e, Find(e.fields, name), properties, Raises);
    } else {
      forall j | 0 <= j < |e.fields| && Has(properties.fields, e.fields[j].name) ensures FieldReaches(e, j, properties, Pass) {
        var name := e.fields[j].name;
        FoundAt(e.fields, j);
        SameNames(v, e, name);
        var k := Find(v.fields, name);
        PassingField(v, 0, properties, k);
        PartIsPyValue(properties, name);
        VariantMeans(v.fields[k].value, e.fields[j].value, Get(properties.fields, name), Pass);
      }
    }
  }

  lemma {:induction false} RaisingField(value: Json, i: nat, properties: Json) returns (k: nat)
    requires value.Obj? && i <= |value.fields| && properties.Obj? && CheckFields(value, i, properties).Raises?
    ensures k < |value.fields| && Has(properties.fields, value.fields[k].name)
    ensures Check(value.fields[k].value, Get(properties.fields, value.fields[k].name)).Raises?
    decreases |value.fields| - i
  {
    hide Check;
    if Has(properties.fields, value.fields[i].name) && Check(value.fields[i].value, Get(properties.fields, value.fields[i].name)).Raises? {
      k := i;
    } else {
      k := RaisingField(value, i + 1, properties);
    }
  }

  lemma {:induction false} PassingField(value: Json, i: nat, properties: Json, k: nat)
    requires value.Obj? && properties.Obj? && i <= k < |value.fields| && CheckFields(value, i, properties).Pass?
    ensures Has(properties.fields, value.fields[k].name) ==>
              Check(value.fields[k].value, Get(properties.fields, value.fields[k].name)).Pass?
    decreases |value.fields| - i
  {
    hide Check;
    if i < k { PassingField(value, i + 1, properties, k); }
  }

  // ---------------------------------------------------------------- and what is found, equal values can do

  lemma {:induction false} Variant(e: Json, schema: Json, want: Outcome) returns (v: Json)
    requires PyValue(e) && PyValue(schema) && schema.Obj? && ValidateSchema(schema).Accepted? && Answers(want)
    requires Reaches(e, schema, want)
    ensures PyValue(v) && PyEq(v, e) && Check(v, schema) == want
    decreases e, 2
  {
    EqReflexive(e);
    v := e;
    if schema.fields == [] {
      assert schema == Obj([]);
      CheckEmpty(e);
    } else if e.Arr? {
      v := ArrayWitness(e, schema, want);
    } else if e.Obj? {
      v := ObjectWitness(e, schema, want);
    } else if Number(e).Some? {
      hide Check, ValidateSchema, PyEq, PyValue, Spellings;
      var spellings := Spellings(Number(e).value);
      assert SpellingReaches(Number(e).value, schema, want);
      var i :| 0 <= i < |spellings| && Check(spellings[i], schema) == want;
      SpellingsEqual(e, i);
      v := spellings[i];
    }
  }

  lemma {:induction false} ArrayWitness(e: Json, schema: Json, want: Outcome) returns (v: Json)
    requires PyValue(e) && PyValue(schema) && schema.Obj? && ValidateSchema(schema).Accepted? && Answers(want)
    requires Reaches(e, schema, want) && e.Arr? && schema.fields != []
    ensures PyValue(v) && PyEq(v, e) && Check(v, schema) == want
    decreases e, 1
  {
    EqReflexive(e);
    AcceptedParts(schema);
    PartIsPyValue(schema, "items");
    CheckEnters(e, schema);
    hide ValidateSchema, Entry, CheckItems, Check, CheckBounds, ItemsReach, GetOr;
    v := e;
    var items := GetOr(schema.fields, "items", Obj([]));
    if Then(Entry(e, schema.fields), CheckBounds(|e.items| as real, schema.fields, "minItems", "maxItems", Some(0.0), Some(CAP))).Pass? {
      var parts := ItemsWitness(e, 0, items, want);
      v := Arr(parts);
      EntryAlike(v, e, schema);
      CheckEnters(v, schema);
    }
  }

  /** `CheckItems` looks only at the items from `i` on. */
  lemma {:induction false} ItemsShift(a: Json, i: nat, b: Json, j: nat, schema: Json)
    requires a.Arr? && b.Arr? && i <= |a.items| && j <= |b.items| && a.items[i..] == b.items[j..]
    ensures CheckItems(a, i, schema) == CheckItems(b, j, schema)
    decreases |a.items| - i
  {
    hide Check;
    assert |a.items[i..]| == |a.items| - i && |b.items[j..]| == |b.items| - j;
    if i < |a.items| {
      assert a.items[i] == a.items[i..][0] && b.items[j] == b.items[j..][0];
      assert a.items[i + 1..] == a.items[i..][1..] && b.items[j + 1..] == b.items[j..][1..];
      ItemsShift(a, i + 1, b, j + 1, schema);
    }
  }

  /** One item before others. */
  lemma ItemFirst(x: Json, rest: seq<Json>, schema: Json)
    ensures CheckItems(Arr([x] + rest), 0, schema) == Then(Check(x, schema), CheckItems(Arr(rest), 0, schema))
  {
    var a, b := Arr([x] + rest), Arr(rest);
    assert a.items[1..] == rest && b.items[0..] == rest;
    ItemsShift(a, 1, b, 0, schema);
    hide Check;
  }

  lemma {:induction false} ItemsWitness(e: Json, i: nat, schema: Json, want: Outcome) returns (parts: seq<Json>)
    requires PyValue(e) && PyValue(schema) && schema.Obj? && ValidateSchema(schema).Accepted? && Answers(want)
    requires e.Arr? && i <= |e.items| && ItemsReach(e, i, schema, want)
    ensures |parts| == |e.items| - i
    ensures forall k :: 0 <= k < |parts| ==> PyValue(parts[k]) && PyEq(parts[k], e.items[i + k])
    ensures CheckItems(Arr(parts), 0, schema) == want
    decreases e, 0, |e.items| - i
  {
    hide ValidateSchema, Check, Reaches;
    if i == |e.items| {
      parts := [];
    } else if want.Raises? && Reaches(e.items[i], schema, Raises) {
      var x := Variant(e.items[i], schema, Raises);
      parts := [x] + e.items[i + 1..];
      ItemFirst(x, e.items[i + 1..], schema);
      hide PyEq, PyValue;
      forall k | 1 <= k < |parts| ensures PyValue(parts[k]) && PyEq(parts[k], e.items[i + k]) {
        ItemIsPyValue(e, i + k);
        EqReflexive(e.items[i + k]);
      }
    } else {
      var x := Variant(e.items[i], schema, Pass);
      var rest := ItemsWitness(e, i + 1, schema, want);
      parts := [x] + rest;
      ItemFirst(x, rest, schema);
      hide PyEq, PyValue;
      forall k | 1 <= k < |parts| ensures PyValue(parts[k]) && PyEq(parts[k], e.items[i + k]) {
        assert parts[k] == rest[k - 1];
      }
    }
  }

  lemma ItemIsPyValue(e: Json, i: nat)
    requires PyValue(e) && e.Arr? && i < |e.items|
    ensures PyValue(e.items[i])
  {
  }

  lemma {:induction false} ObjectWitness(e: Json, schema: Json, want: Outcome) returns (v: Json)
    requires PyValue(e) && PyValue(schema) && schema.Obj? && ValidateSchema(schema).Accepted? && Answers(want)
    requires Reaches(e, schema, want) && e.Obj? && schema.fields != []
    ensures PyValue(v) && PyEq(v, e) && Check(v, schema) == want
    decreases e, 1
  {
    EqReflexive(e);
    AcceptedParts(schema);
    PartIsPyValue(schema, "properties");
    CheckEnters(e, schema);
    ObjectChecks(e, schema);
    hide PyValue, PyEq, ValidateSchema, Entry, CheckFields, Check, CheckParts, HasRequired, NoExtra, FieldsReach, GetOr;
    v := e;
    if Then(Entry(e, schema.fields), if HasRequired(e, schema.fields) && NoExtra(e, schema.fields) then Pass else Mismatch).Pass? {
      var parts := FieldsWitness(e, GetOr(schema.fields, "properties", Obj([])), want);
      v := Obj(parts);
      EntryAlike(v, e, schema);
      NamesAlike(v, e, schema.fields);
      CheckEnters(v, schema);
      ObjectChecks(v, schema);
    }
  }

  lemma {:induction false} FieldsWitness(e: Json, properties: Json, want: Outcome) returns (parts: seq<Field>)
    requires PyValue(e) && PyValue(properties) && ChildrenAccepted(properties) && Answers(want)
    requires e.Obj? && FieldsReach(e, properties, want)
    ensures PyValue(Obj(parts)) && PyEq(Obj(parts), e) && CheckFields(Obj(parts), 0, properties) == want
    decreases e, 0, |e.fields| + 2
  {
    hide ValidateSchema, Check, Reaches;
    if want.Raises? {
      var i :| 0 <= i < |e.fields| && FieldReaches(e, i, properties, Raises);
      var name := e.fields[i].name;
      PartIsPyValue(properties, name);
      FoundAt(e.fields, i);
      PartIsPyValue(e, name);
      var x := Variant(e.fields[i].value, Get(properties.fields, name), Raises);
      parts := MovedFirst(e.fields, i, x);
      MovedFirstEqual(e, i, x);
      assert parts[0] == Field(name, x);
    } else {
      parts := FieldsPass(e, 0, properties);
      assert forall k :: 0 <= k < |parts| ==> parts[k].name == e.fields[k].name;
      forall k | 0 <= k < |parts| ensures Corresponds(parts[k], e, k) { }
      SameOrderEqual(parts, e);
    }
  }

  /** One entry with a new value, before the others. */
  function MovedFirst(fields: seq<Field>, i: nat, x: Json): seq<Field>
    requires i < |fields|
  {
    [Field(fields[i].name, x)] + fields[..i] + fields[i + 1..]
  }

  ghost predicate Corresponds(part: Field, e: Json, j: nat)
    requires e.Obj?
  {
    j < |e.fields| && part.name == e.fields[j].name && PyValue(part.value) && PyEq(part.value, e.fields[j].value)
  }

  ghost predicate ComesFrom(part: Field, e: Json)
    requires e.Obj?
  {
    exists j: nat :: Corresponds(part, e, j)
  }

  /** Entries that correspond one by one make an equal dictionary, in whatever order. */
  lemma Rearranged(parts: seq<Field>, e: Json)
    requires PyValue(e) && e.Obj? && |parts| == |e.fields| && DistinctNames(parts)
    requires forall k :: 0 <= k < |parts| ==> ComesFrom(parts[k], e)
    ensures PyValue(Obj(parts)) && PyEq(Obj(parts), e)
  {
    forall k | 0 <= k < |parts|
      ensures PyValue(parts[k].value) && Has(e.fields, parts[k].name) && PyEq(parts[k].value, Get(e.fields, parts[k].name))
    {
      assert ComesFrom(parts[k], e);
      var j: nat :| Corresponds(parts[k], e, j);
      FoundAt(e.fields, j);
    }
    hide Corresponds, Get, Has;
  }

  lemma SameOrderEqual(parts: seq<Field>, e: Json)
    requires PyValue(e) && e.Obj? && |parts| == |e.fields|
    requires forall k :: 0 <= k < |parts| ==> Corresponds(parts[k], e, k)
    ensures PyValue(Obj(parts)) && PyEq(Obj(parts), e)
  {
    assert DistinctNames(parts);
    hide Corresponds;
    forall k | 0 <= k < |parts| ensures ComesFrom(parts[k], e) { assert Corresponds(parts[k], e, k); }
    Rearranged(parts, e);
  }

  lemma MovedFirstEqual(e: Json, i: nat, x: Json)
    requires PyValue(e) && e.Obj? && i < |e.fields| && PyValue(x) && PyEq(x, e.fields[i].value)
    ensures var parts := MovedFirst(e.fields, i, x); PyValue(Obj(parts)) && PyEq(Obj(parts), e)
  {
    var parts := MovedFirst(e.fields, i, x);
    assert DistinctNames(parts);
    assert Corresponds(parts[0], e, i);
    forall k | 1 <= k < |parts| ensures Corresponds(parts[k], e, if k <= i then k - 1 else k) {
      EqReflexive(parts[k].value);
    }
    hide MovedFirst, PyEq, PyValue, Corresponds;
    forall k | 0 <= k < |parts| ensures ComesFrom(parts[k], e) {
      if k == 0 { assert Corresponds(parts[k], e, i); } else { assert Corresponds(parts[k], e, if k <= i then k - 1 else k); }
    }
    Rearranged(parts, e);
  }

  /** `CheckFields` looks only at the entries from `i` on. */
  lemma {:induction false} FieldsShift(a: Json, i: nat, b: Json, j: nat, properties: Json)
    requires a.Obj? && b.Obj? && i <= |a.fields| && j <= |b.fields| && a.fields[i..] == b.fields[j..]
    ensures CheckFields(a, i, properties) == CheckFields(b, j, properties)
    decreases |a.fields| - i
  {
    hide Check, Mentions;
    assert |a.fields[i..]| == |a.fields| - i && |b.fields[j..]| == |b.fields| - j;
    if i < |a.fields| {
      assert a.fields[i] == a.fields[i..][0] && b.fields[j] == b.fields[j..][0];
      assert a.fields[i + 1..] == a.fields[i..][1..] && b.fields[j + 1..] == b.fields[j..][1..];
      FieldsShift(a, i + 1, b, j + 1, properties);
    }
  }

  /** One entry before others. */
  lemma FieldFirst(part: Field, rest: seq<Field>, properties: Json)
    requires properties.Obj? && CheckFields(Obj(rest), 0, properties).Pass?
    requires Has(properties.fields, part.name) ==> Check(part.value, Get(properties.fields, part.name)).Pass?
    ensures CheckFields(Obj([part] + rest), 0, properties).Pass?
  {
    var a, b := Obj([part] + rest), Obj(rest);
    assert a.fields[1..] == rest && b.fields[0..] == rest;
    FieldsShift(a, 1, b, 0, properties);
    hide Check;
  }

  lemma PropertiesAreObj(properties: Json)
    requires ChildrenAccepted(properties)
    ensures properties.Obj?
  {
  }

  lemma {:induction false} FieldPasses(e: Json, i: nat, properties: Json) returns (part: Field)
    requires PyValue(e) && PyValue(properties) && ChildrenAccepted(properties)
    requires e.Obj? && i < |e.fields| && FieldsReach(e, properties, Pass)
    ensures Corresponds(part, e, i)
    ensures properties.Obj? && (Has(properties.fields, part.name) ==> Check(part.value, Get(properties.fields, part.name)).Pass?)
    decreases e, 0, 0
  {
    hide ValidateSchema, Check, Reaches;
    part := e.fields[i];
    if Has(properties.fields, part.name) {
      assert FieldReaches(e, i, properties, Pass);
      PartIsPyValue(properties, part.name);
      var x := Variant(part.value, Get(properties.fields, part.name), Pass);
      part := Field(part.name, x);
    } else {
      EqReflexive(part.value);
    }
  }

  /** Each entry in turn, so that all pass. */
  lemma {:induction false} FieldsPass(e: Json, i: nat, properties: Json) returns (parts: seq<Field>)
    requires PyValue(e) && PyValue(properties) && ChildrenAccepted(properties)
    requires e.Obj? && i <= |e.fields| && FieldsReach(e, properties, Pass)
    ensures |parts| == |e.fields| - i
    ensures forall k :: 0 <= k < |parts| ==> Corresponds(parts[k], e, i + k)
    ensures CheckFields(Obj(parts), 0, properties).Pass?
    decreases e, 0, |e.fields| - i + 1
  {
    hide Corresponds, PyValue, PyEq, ChildrenAccepted, FieldsReach, Check, Has;
    PropertiesAreObj(properties);
    if i == |e.fields| {
      parts := [];
    } else {
      var part := FieldPasses(e, i, properties);
      var rest := FieldsPass(e, i + 1, properties);
      parts := [part] + rest;
      FieldFirst(part, rest, properties);
      forall k | 1 <= k < |parts| ensures Corresponds(parts[k], e, i + k) { assert parts[k] == rest[k - 1]; }
    }
  }

  /** Exactly what is found in an option, the values equal to it can do: pass, or raise. */
  lemma ReachesMeans(e: Json, schema: Json, want: Outcome)
    requires PyValue(e) && PyValue(schema) && schema.Obj? && ValidateSchema(schema).Accepted? && Answers(want)
    ensures Reaches(e, schema, want) <==> exists v :: PyValue(v) && PyEq(v, e) && Check(v, schema) == want
  {
    hide PyValue, PyEq, Check, Reaches, ValidateSchema;
    if Reaches(e, schema, want) { var v := Variant(e, schema, want); }
    forall v | PyValue(v) && PyEq(v, e) && Check(v, schema) == want ensures Reaches(e, schema, want) { VariantMeans(v, e, schema, want); }
  }

  lemma LengthMeans(n: nat, fields: seq<Field>)
    ensures LengthRaises(n, fields) <==> CheckBounds(n as real, fields, "minLength", "maxLength", Some(0.0), Some(CAP)).Raises?
  {
  }

  /** A value that an `enum` admits and that raises is one of the named ones. */
  lemma RaisesMeansOption(value: Json, schema: Json)
    requires PyValue(value) && PyValue(schema) && schema.Obj? && ValidateSchema(schema).Accepted?
    requires Has(schema.fields, "enum") && Check(value, schema).Raises?
    requires OfType(value, schema.fields) && !CheckEnum(value, Get(schema.fields, "enum")).Raises?
    ensures OptionRaises(schema)
  {
    var fields := schema.fields;
    PartIsPyValue(schema, "enum");
    CheckUnfolds(value, schema);
    PassingTypeAllows(value, fields);
    if value.Str? { LengthMeans(|value.s|, fields); }
    hide ValidateSchema, OfType, Check, CheckBounds, LengthRaises, PyEq, Reaches, Allows, Get, Has;
    match Get(fields, "enum")
    case Arr(options) =>
      var i :| 0 <= i < |options| && PyEq(value, options[i]);
      VariantMeans(value, options[i], schema, Raises);
    case Str(s) => assert LengthRaises(|value.s|, fields);
    case Obj(keys) => KeyRaises(keys, value.s, fields);
    case _ =>
  }

  lemma KeyRaises(keys: seq<Field>, name: string, fields: seq<Field>)
    requires Has(keys, name) && LengthRaises(|name|, fields)
    ensures exists i :: 0 <= i < |keys| && LengthRaises(|keys[i].name|, fields)
  {
    hide LengthRaises;
    assert keys[Find(keys, name)].name == name;
  }

  /** And a named value that raises is admitted. */
  lemma OptionMeansRaises(schema: Json)
    requires PyValue(schema) && schema.Obj? && ValidateSchema(schema).Accepted?
    requires Has(schema.fields, "enum") && OptionRaises(schema)
    ensures Raising(schema)
  {
    var fields := schema.fields;
    PartIsPyValue(schema, "enum");
    hide ValidateSchema, Check, LengthRaises, PyEq, Reaches, Allows, Get, Has;
    match Get(fields, "enum")
    case Arr(options) =>
      var i :| 0 <= i < |options| && Reaches(options[i], schema, Raises);
      var v := Variant(options[i], schema, Raises);
    case Str(s) =>
      var n :| 0 <= n <= |s| && LengthRaises(n, fields);
      assert StartsAt(s, 0, s[..n]);
      TextRaises(s[..n], schema);
    case Obj(keys) =>
      var i :| 0 <= i < |keys| && LengthRaises(|keys[i].name|, fields);
      HasAt(keys, i);
      TextRaises(keys[i].name, schema);
    case _ =>
  }

  lemma TextRaises(text: string, schema: Json)
    requires schema.Obj? && ValidateSchema(schema).Accepted? && Has(schema.fields, "enum")
    requires CheckEnum(Str(text), Get(schema.fields, "enum")).Pass? && Allows(schema.fields, "string") && LengthRaises(|text|, schema.fields)
    ensures Raising(schema)
  {
    CheckUnfolds(Str(text), schema);
    AllowedTypes(Str(text), schema.fields, "string");
    LengthMeans(|text|, schema.fields);
    hide ValidateSchema, OfType, Check, CheckBounds, CheckEnum, LengthRaises, Allows;
    assert PyValue(Str(text));
  }

  // ---------------------------------------------------------------- a value that raises reached one

  lemma {:induction false} RaisesMeansCan(value: Json, schema: Json)
    requires PyValue(value) && PyValue(schema)
    requires schema.Obj? && ValidateSchema(schema).Accepted? && Check(value, schema).Raises?
    ensures CanRaise(schema)
    decreases value, 2
  {
    if schema.fields == [] {
      assert schema == Obj([]);
      CheckEmpty(value);
    } else {
      var fields := schema.fields;
      CheckUnfolds(value, schema);
      if Has(fields, "enum") {
        hide PyValue, ValidateSchema, CheckParts, OfType, CheckEnum, EnumCanRaise, Check, OptionRaises;
        if CheckEnum(value, Get(fields, "enum")).Raises? { EnumRaises(value, fields); } else { RaisesMeansOption(value, schema); }
      } else {
        hide ValidateSchema, Check;
        PassingTypeAllows(value, fields);
        hide OfType, Allows;
        PartsMeanCan(value, schema);
      }
    }
  }

  lemma {:induction false} PartsMeanCan(value: Json, schema: Json)
    requires PyValue(value) && PyValue(schema)
    requires schema.Obj? && ValidateSchema(schema).Accepted? && schema.fields != [] && !Has(schema.fields, "enum")
    requires CheckParts(value, schema.fields).Raises?
    requires value.Str? ==> Allows(schema.fields, "string")
    requires value.Num? ==> Allows(schema.fields, "integer") || Allows(schema.fields, "number")
    requires value.Arr? ==> Allows(schema.fields, "array")
    requires value.Obj? ==> Allows(schema.fields, "object")
    ensures CanRaise(schema)
    decreases value, 1
  {
    var fields := schema.fields;
    match value
    case Str(s) => BoundsRaise(|s| as real, fields, "minLength", "maxLength", Some(0.0), Some(CAP));
    case Num(v, _) => BoundsRaise(v, fields, "minimum", "maximum", None, None);
    case Arr(parts) =>
      BoundsRaise(|parts| as real, fields, "minItems", "maxItems", Some(0.0), Some(CAP));
      hide CheckBounds, Allows, AtLeast, AtMost, NumberIfThere;
      if BoundsTyped(fields, "minItems", "maxItems") { ArrayMeansCan(value, schema); }
    case Obj(parts) => ObjectMeansCan(value, schema);
    case _ =>
  }

  lemma {:induction false} ArrayMeansCan(value: Json, schema: Json)
    requires PyValue(value) && PyValue(schema)
    requires schema.Obj? && ValidateSchema(schema).Accepted? && schema.fields != [] && !Has(schema.fields, "enum") && value.Arr?
    requires Allows(schema.fields, "array") && FitsItems(|value.items|, schema.fields)
    requires CheckItems(value, 0, GetOr(schema.fields, "items", Obj([]))).Raises?
    ensures CanRaise(schema)
    decreases value, 0, |value.items| + 1
  {
    AcceptedParts(schema);
    PartIsPyValue(schema, "items");
    hide ValidateSchema, Allows, FitsItems;
    var items := GetOr(schema.fields, "items", Obj([]));
    ItemsMeanCan(value, 0, items);
    if !Has(schema.fields, "items") { EmptyCannotRaise(); }
  }

  lemma EmptyCannotRaise()
    ensures !CanRaise(Obj([]))
  {
  }

  lemma {:induction false} ItemsMeanCan(value: Json, i: nat, schema: Json)
    requires PyValue(value) && PyValue(schema)
    requires value.Arr? && i <= |value.items| && schema.Obj? && ValidateSchema(schema).Accepted?
    requires CheckItems(value, i, schema).Raises?
    ensures CanRaise(schema) && i < |value.items|
    decreases value, 0, |value.items| - i
  {
    hide ValidateSchema, CanRaise, Check;
    if Check(value.items[i], schema).Raises? {
      RaisesMeansCan(value.items[i], schema);
    } else {
      ItemsMeanCan(value, i + 1, schema);
    }
  }

  lemma {:induction false} ObjectMeansCan(value: Json, schema: Json)
    requires PyValue(value) && PyValue(schema)
    requires schema.Obj? && ValidateSchema(schema).Accepted? && schema.fields != [] && !Has(schema.fields, "enum") && value.Obj?
    requires Allows(schema.fields, "object") && CheckObject(value, schema.fields).Raises?
    ensures CanRaise(schema)
    decreases value, 0, |value.fields| + 1
  {
    AcceptedParts(schema);
    PartIsPyValue(schema, "properties");
    hide ValidateSchema, Allows;
    var properties := GetOr(schema.fields, "properties", Obj([]));
    NamesDecide(value, schema.fields);
    hide CheckRequired, CheckExtra, CheckFields, HasRequired, NoExtra;
    assert forall name :: !Has([], name);
    var k := FieldsMeanCan(value, 0, properties);
    assert Find(properties.fields, properties.fields[Find(properties.fields, value.fields[k].name)].name) == Find(properties.fields, value.fields[k].name);
  }

  lemma {:induction false} FieldsMeanCan(value: Json, i: nat, properties: Json) returns (k: nat)
    requires PyValue(value) && PyValue(properties)
    requires value.Obj? && i <= |value.fields| && properties.Obj? && CheckFields(value, i, properties).Raises?
    requires forall name :: Has(properties.fields, name) ==>
               Get(properties.fields, name).Obj? && ValidateSchema(Get(properties.fields, name)).Accepted?
    ensures k < |value.fields| && Has(properties.fields, value.fields[k].name) && CanRaise(Get(properties.fields, value.fields[k].name))
    decreases value, 0, |value.fields| - i
  {
    hide ValidateSchema, CanRaise, Check;
    var field := value.fields[i];
    if Has(properties.fields, field.name) && Check(field.value, Get(properties.fields, field.name)).Raises? {
      RaisesMeansCan(field.value, Get(properties.fields, field.name));
      k := i;
    } else {
      k := FieldsMeanCan(value, i + 1, properties);
    }
  }

  // ---------------------------------------------------------------- and what can be reached is

  /** Some value raises. */
  ghost predicate Raising(schema: Json) { exists value :: PyValue(value) && Check(value, schema).Raises? }

  /** A size that meets a lower bound. */
  function SizeFor(fields: seq<Field>, low: string): (n: nat)
    ensures Has(fields, low) && Number(Get(fields, low)).Some? ==> n as real >= Number(Get(fields, low)).value
  {
    if Has(fields, low) && Number(Get(fields, low)).Some? && Number(Get(fields, low)).value > 0.0
    then Number(Get(fields, low)).value.Floor + 1 else 0
  }

  lemma SizeReaches(fields: seq<Field>, low: string, high: string, lowest: Option<real>, highest: Option<real>)
    requires !BoundsTyped(fields, low, high) && (lowest.Some? ==> lowest.value == 0.0)
    ensures CheckBounds(SizeFor(fields, low) as real, fields, low, high, lowest, highest).Raises?
  {
  }

  /** A value that no `enum` guards, of an admitted kind, is checked part by part. */
  lemma Unguarded(value: Json, schema: Json)
    requires PyValue(value)
    requires schema.Obj? && ValidateSchema(schema).Accepted? && schema.fields != [] && !Has(schema.fields, "enum")
    requires OfType(value, schema.fields) && CheckParts(value, schema.fields).Raises?
    ensures Raising(schema)
  {
    CheckUnfolds(value, schema);
    hide Check, CheckParts;
  }

  lemma AllowedTypes(value: Json, fields: seq<Field>, kind: string)
    requires kind in TYPES && TypeMatches(value, kind) && Allows(fields, kind)
    ensures OfType(value, fields)
  {
    hide TypeMatches;
  }

  lemma StringBoundRaises(schema: Json)
    requires schema.Obj? && ValidateSchema(schema).Accepted? && schema.fields != [] && !Has(schema.fields, "enum")
    requires Allows(schema.fields, "string") && !BoundsTyped(schema.fields, "minLength", "maxLength")
    ensures Raising(schema)
  {
    var value := Str(seq(SizeFor(schema.fields, "minLength"), _ => 'a'));
    SizeReaches(schema.fields, "minLength", "maxLength", Some(0.0), Some(CAP));
    AllowedTypes(value, schema.fields, "string");
    hide ValidateSchema, OfType, SizeFor, CheckBounds;
    Unguarded(value, schema);
  }

  lemma NumberBoundRaises(schema: Json)
    requires schema.Obj? && ValidateSchema(schema).Accepted? && schema.fields != [] && !Has(schema.fields, "enum")
    requires (Allows(schema.fields, "integer") || Allows(schema.fields, "number")) && !BoundsTyped(schema.fields, "minimum", "maximum")
    ensures Raising(schema)
  {
    var fields, n := schema.fields, SizeFor(schema.fields, "minimum");
    SizeReaches(fields, "minimum", "maximum", None, None);
    hide ValidateSchema, OfType, SizeFor, CheckBounds, BoundsTyped, Allows, Has;
    NumberHasType(n, fields);
    Unguarded(Num(n as real, true), schema);
  }

  lemma NumberHasType(n: nat, fields: seq<Field>)
    requires Allows(fields, "integer") || Allows(fields, "number")
    ensures OfType(Num(n as real, true), fields)
  {
    hide Allows, OfType;
    if Allows(fields, "integer") {
      AllowedTypes(Num(n as real, true), fields, "integer");
    } else {
      AllowedTypes(Num(n as real, true), fields, "number");
    }
  }

  lemma ArrayBoundRaises(schema: Json)
    requires schema.Obj? && ValidateSchema(schema).Accepted? && schema.fields != [] && !Has(schema.fields, "enum")
    requires Allows(schema.fields, "array") && !BoundsTyped(schema.fields, "minItems", "maxItems")
    ensures Raising(schema)
  {
    var value := Arr(seq(SizeFor(schema.fields, "minItems"), _ => Null));
    SizeReaches(schema.fields, "minItems", "maxItems", Some(0.0), Some(CAP));
    AllowedTypes(value, schema.fields, "array");
    hide ValidateSchema, OfType, SizeFor, CheckBounds, CheckItems;
    Unguarded(value, schema);
  }

  lemma ItemRaises(schema: Json, n: nat, item: Json)
    requires schema.Obj? && ValidateSchema(schema).Accepted? && schema.fields != [] && !Has(schema.fields, "enum")
    requires Allows(schema.fields, "array") && BoundsTyped(schema.fields, "minItems", "maxItems") && 1 <= n && FitsItems(n, schema.fields)
    requires PyValue(item) && Check(item, GetOr(schema.fields, "items", Obj([]))).Raises?
    ensures Raising(schema)
  {
    var value := Arr(seq(n, _ => item));
    BoundsDecide(n as real, schema.fields, "minItems", "maxItems", Some(0.0), Some(CAP));
    AllowedTypes(value, schema.fields, "array");
    hide ValidateSchema, OfType, CheckBounds, Check, AtLeast, AtMost;
    assert CheckItems(value, 0, GetOr(schema.fields, "items", Obj([]))).Raises?;
    Unguarded(value, schema);
  }

  /** The raising property first, then whatever is required. */
  function WithRequired(name: string, item: Json, required: seq<Json>): seq<Field> {
    [Field(name, item)] + StillRequired(required, {name})
  }

  /** The required names that are not there yet, each once. */
  function StillRequired(required: seq<Json>, there: set<string>): seq<Field>
    decreases |required|
  {
    if required == [] then []
    else if !required[0].Str? || required[0].s in there then StillRequired(required[1..], there)
    else [Field(required[0].s, Null)] + StillRequired(required[1..], there + {required[0].s})
  }

  lemma Consed(part: Field, rest: seq<Field>)
    requires DistinctNames(rest) && !Has(rest, part.name)
    ensures DistinctNames([part] + rest)
    ensures forall name :: Has([part] + rest, name) <==> part.name == name || Has(rest, name)
  {
    var all := [part] + rest;
    assert all[1..] == rest;
    forall i | 0 <= i < |rest| ensures rest[i].name != part.name { HasAt(rest, i); }
    hide Find;
    forall name ensures Has(all, name) <==> part.name == name || Has(rest, name) { HasConsed(part, rest, name); }
  }

  lemma HasConsed(part: Field, rest: seq<Field>, name: string)
    ensures Has([part] + rest, name) <==> part.name == name || Has(rest, name)
  {
    assert ([part] + rest)[1..] == rest;
  }

  /** They are distinct; together with those there they are the required ones. */
  lemma {:induction false} StillRequiredMeans(required: seq<Json>, there: set<string>, name: string)
    ensures DistinctNames(StillRequired(required, there))
    ensures Has(StillRequired(required, there), name) <==> Str(name) in required && name !in there
    decreases |required|
  {
    if required != [] {
      var rest := required[1..];
      hide Has, DistinctNames;
      assert Str(name) in required <==> required[0] == Str(name) || Str(name) in rest;
      if !required[0].Str? || required[0].s in there {
        StillRequiredMeans(rest, there, name);
      } else {
        var part, there' := Field(required[0].s, Null), there + {required[0].s};
        StillRequiredMeans(rest, there', part.name);
        StillRequiredMeans(rest, there', name);
        Consed(part, StillRequired(rest, there'));
      }
    } else {
      assert !Has([], name);
    }
  }

  /** None has a value yet. */
  lemma {:induction false} StillRequiredNull(required: seq<Json>, there: set<string>)
    ensures forall i :: 0 <= i < |StillRequired(required, there)| ==> StillRequired(required, there)[i].value == Null
    decreases |required|
  {
    if required != [] {
      StillRequiredNull(required[1..], there);
      if required[0].Str? { StillRequiredNull(required[1..], there + {required[0].s}); }
    }
  }

  lemma HasWithRequired(name: string, item: Json, required: seq<Json>, other: string)
    ensures DistinctNames(WithRequired(name, item, required))
    ensures Has(WithRequired(name, item, required), other) <==> other == name || Str(other) in required
  {
    StillRequiredMeans(required, {name}, name);
    StillRequiredMeans(required, {name}, other);
    hide StillRequired, DistinctNames, Has;
    Consed(Field(name, item), StillRequired(required, {name}));
  }

  lemma PropertyNames(fields: seq<Field>, name: string, item: Json)
    requires var properties := GetOr(fields, "properties", Obj([]));
             && properties.Obj? && Has(properties.fields, name) && RequiredNames(GetOr(fields, "required", Arr([])), properties.fields)
    ensures var value := Obj(WithRequired(name, item, GetOr(fields, "required", Arr([])).items));
            HasRequired(value, fields) && NoExtra(value, fields)
  {
    var required := GetOr(fields, "required", Arr([])).items;
    var all := WithRequired(name, item, required);
    hide WithRequired;
    forall i | 0 <= i < |required| ensures Has(all, required[i].s) { HasWithRequired(name, item, required, required[i].s); }
    var known := GetOr(fields, "properties", Obj([])).fields;
    forall i | 0 <= i < |all| ensures Has(known, all[i].name) {
      HasAt(all, i);
      HasWithRequired(name, item, required, all[i].name);
    }
    hide Has;
  }

  lemma WithRequiredIsPyValue(name: string, item: Json, required: seq<Json>)
    requires PyValue(item)
    ensures PyValue(Obj(WithRequired(name, item, required)))
  {
    HasWithRequired(name, item, required, name);
    StillRequiredNull(required, {name});
    hide DistinctNames;
  }

  lemma PropertyRaises(schema: Json, name: string, item: Json)
    requires schema.Obj? && ValidateSchema(schema).Accepted? && schema.fields != [] && !Has(schema.fields, "enum")
    requires Allows(schema.fields, "object")
    requires var properties := GetOr(schema.fields, "properties", Obj([]));
             PyValue(item) && properties.Obj? && Has(properties.fields, name) && Check(item, Get(properties.fields, name)).Raises?
    ensures Raising(schema)
  {
    AcceptedParts(schema);
    WithRequiredIsPyValue(name, item, GetOr(schema.fields, "required", Arr([])).items);
    hide ValidateSchema, PyValue;
    var fields := schema.fields;
    var properties := GetOr(fields, "properties", Obj([]));
    var value := Obj(WithRequired(name, item, GetOr(fields, "required", Arr([])).items));
    PropertyNames(fields, name, item);
    NamesDecide(value, fields);
    AllowedTypes(value, fields, "object");
    hide OfType, HasRequired, NoExtra, CheckRequired, CheckExtra, Check, Has, Get;
    assert value.fields[0] == Field(name, item);
    assert CheckFields(value, 0, properties).Raises?;
    assert CheckObject(value, fields).Raises?;
    Unguarded(value, schema);
  }

  lemma EnumOptionsRaise(schema: Json)
    requires schema.Obj? && ValidateSchema(schema).Accepted? && Has(schema.fields, "enum") && EnumCanRaise(schema.fields)
    ensures Raising(schema)
  {
    AcceptedParts(schema);
    var value := Refutes(schema.fields);
    CheckUnfolds(value, schema);
    RefutesEnum(schema.fields);
    hide ValidateSchema, Check, CheckParts, Refutes, CheckEnum, OfType, EnumCanRaise;
  }

  /** A value of the declared type on which `value in enum` raises. */
  function Refutes(fields: seq<Field>): Json
    requires Has(fields, "enum")
  {
    if Get(fields, "enum").Obj? then (if Allows(fields, "array") then Arr([]) else Obj([])) else Inhabitant(GetOr(fields, "type", Null))
  }

  function Inhabitant(declared: Json): Json {
    match declared
    case Str("object") => Obj([])
    case Str("array") => Arr([])
    case Str("string") => Str("")
    case Str("integer") => Num(0.0, true)
    case Str("number") => Num(0.0, true)
    case Str("boolean") => Bool(true)
    case _ => Null
  }

  lemma InhabitantHasType(fields: seq<Field>)
    requires TypeKnown(fields)
    ensures OfType(Inhabitant(GetOr(fields, "type", Null)), fields)
  {
    hide GetOr;
  }

  lemma RefutesEnum(fields: seq<Field>)
    requires TypeKnown(fields) && Has(fields, "enum") && EnumCanRaise(fields)
    ensures PyValue(Refutes(fields)) && OfType(Refutes(fields), fields) && CheckEnum(Refutes(fields), Get(fields, "enum")).Raises?
  {
    InhabitantHasType(fields);
    hide Find, PyEq, Substring;
  }

  lemma {:induction false} CanMeansRaises(schema: Json)
    requires PyValue(schema) && schema.Obj? && ValidateSchema(schema).Accepted? && CanRaise(schema)
    ensures Raising(schema)
    decreases schema
  {
    AcceptedParts(schema);
    PartIsPyValue(schema, "items");
    PartIsPyValue(schema, "properties");
    var fields := schema.fields;
    hide ValidateSchema, Check, Raising, CheckParts, OptionRaises, EnumCanRaise, Allows, BoundsTyped;
    if Has(fields, "enum") {
      if EnumCanRaise(fields) { EnumOptionsRaise(schema); } else { OptionMeansRaises(schema); }
    } else if Allows(fields, "string") && !BoundsTyped(fields, "minLength", "maxLength") {
      StringBoundRaises(schema);
    } else if (Allows(fields, "integer") || Allows(fields, "number")) && !BoundsTyped(fields, "minimum", "maximum") {
      NumberBoundRaises(schema);
    } else if Allows(fields, "array") && !BoundsTyped(fields, "minItems", "maxItems") {
      ArrayBoundRaises(schema);
    } else if Allows(fields, "array") && Has(fields, "items") && (exists n :: 1 <= n && FitsItems(n, fields))
              && CanRaise(fields[Find(fields, "items")].value) {
      var n: nat :| 1 <= n && FitsItems(n, fields);
      var items := fields[Find(fields, "items")].value;
      CanMeansRaises(items);
      var item := RaisingValue(items);
      ItemRaises(schema, n, item);
    } else {
      var properties := fields[Find(fields, "properties")].value;
      var i :| 0 <= i < |properties.fields| && Find(properties.fields, properties.fields[i].name) == i && CanRaise(properties.fields[i].value);
      assert Has(properties.fields, properties.fields[i].name) && Get(properties.fields, properties.fields[i].name) == properties.fields[i].value;
      CanMeansRaises(properties.fields[i].value);
      var item := RaisingValue(properties.fields[i].value);
      PropertyRaises(schema, properties.fields[i].name, item);
    }
  }

  lemma RaisingValue(schema: Json) returns (value: Json)
    requires Raising(schema)
    ensures PyValue(value) && Check(value, schema).Raises?
  {
    hide Check, PyValue;
    value :| PyValue(value) && Check(value, schema).Raises?;
  }

  /** A stored schema raises on no value at all exactly when no value reaches an unusable keyword. */
  lemma NeverRaisesIff(schema: Json)
    requires PyValue(schema) && schema.Obj? && ValidateSchema(schema).Accepted?
    ensures (forall value :: PyValue(value) ==> !Check(value, schema).Raises?) <==> !CanRaise(schema)
  {
    hide ValidateSchema, Check, CanRaise, PyValue;
    if CanRaise(schema) {
      CanMeansRaises(schema);
      var value := RaisingValue(schema);
    } else {
      forall value | PyValue(value) ensures !Check(value, schema).Raises? {
        if Check(value, schema).Raises? { RaisesMeansCan(value, schema); }
      }
    }
  }

  /** A bound of the wrong type raises on the first value that reaches it; a declared type that no text has shields it. */
  lemma UntypedBoundRaises(s: string)
    ensures var bound := Field("minLength", Str("x"));
            && ValidateSchema(Obj([bound])).Accepted? && Check(Str(s), Obj([bound])).Raises?
            && ValidateSchema(Obj([Field("type", Str("integer")), bound])).Accepted?
            && !CanRaise(Obj([Field("type", Str("integer")), bound]))
  {
    var bare := [Field("minLength", Str("x"))];
    assert bare[0].name == "minLength" && Find(bare, "minLength") == 0;
    assert !Has(bare, "type") && !Has(bare, "enum") && !Has(bare, "properties") && !Has(bare, "required") && !Has(bare, "items");
    var fields := [Field("type", Str("integer")), Field("minLength", Str("x"))];
    assert fields[0].name == "type" && fields[1].name == "minLength" && fields[1..][0] == fields[1] && fields[1..][1..] == [];
    assert Find(fields, "type") == 0 && Find(fields, "minLength") == 1;
    assert !Has(fields, "enum") && !Has(fields, "properties") && !Has(fields, "required") && !Has(fields, "items");
    assert !Has(fields, "minimum") && !Has(fields, "maximum");
  }
}
