/** The schema validator (internal/jsonschema/jsonschema.go) over decoded JSON. A schema is
    itself a decoded JSON object, and keywords of the wrong kind are ignored, as in the code.
    Numbers are reals; the bytes of a string are its characters. */
module JsonSchema {
  import opened Results
  import opened Strings

  type Object = map<string, Value>

  /** Go's decoded JSON values. `Number` is a `json.Number`, which keeps its text and may be
      too large for a float; `Float` and `Int` are Go numbers. */
  datatype Value =
    | Null
    | Bool(b: bool)
    | Float(r: real)
    | Int(i: int)
    | Number(text: string, parsed: Option<real>)
    | Str(s: string)
    | Arr(items: seq<Value>)
    | Obj(fields: Object)

  datatype Reason =
    | NotAllowed
    | NotA(expected: string)
    | MissingProperty(key: string)
    | UnknownProperty(key: string)
    | TooManyItems | TooFewItems
    | TooLong | TooShort
    | BelowMinimum | AboveMaximum
    | UnsupportedType

  /** What `validate` comes to. It can panic: Go's `==` does not compare maps or slices. */
  datatype Verdict = Accept | Reject(place: string, reason: Reason) | Panic

  // ----- reading schemas

  function NumberOf(v: Value): Option<real>
  {
    match v
    case Float(r) => Some(r)
    case Int(i) => Some(i as real)
    case Number(_, parsed) => parsed
    case _ => None
  }

  function NumericKeyword(schema: Object, key: string): Option<real>
  {
    if key in schema then NumberOf(schema[key]) else None
  }

  function TypeOf(schema: Object): string
  {
    if "type" in schema && schema["type"].Str? then schema["type"].s else ""
  }

  function PropertiesOf(schema: Object): Object
  {
    if "properties" in schema && schema["properties"].Obj? then schema["properties"].fields else map[]
  }

  function RequiredOf(schema: Object): seq<Value>
  {
    if "required" in schema && schema["required"].Arr? then schema["required"].items else []
  }

  predicate IsOpen(schema: Object)
  {
    !("additionalProperties" in schema && schema["additionalProperties"] == Bool(false))
  }

  /** A required name that is not a string counts as "". */
  function KeyOf(name: Value): string
  {
    if name.Str? then name.s else ""
  }

  datatype Comparison = Same | Different | Incomparable

  /** `equal`. */
  function Equal(a: Value, b: Value): Comparison
  {
    var m, n := NumberOf(a), NumberOf(b);
    if m.Some? && n.Some? then (if m.value == n.value then Same else Different)
    else if (a.Arr? && b.Arr?) || (a.Obj? && b.Obj?) then Incomparable
    else if a.Number? && b.Number? then (if a.text == b.text then Same else Different)
    else if a == b then Same else Different
  }

  /** A whole number that an int64 holds. */
  predicate IsInteger(r: real)
  {
    r == r.Floor as real && -0x8000_0000_0000_0000 <= r.Floor < 0x8000_0000_0000_0000
  }

  // ----- the validator

  /** The order in which Go's `range` visits a map, at each place where the code does so. */
  datatype Orders = Orders(unknown: (string, Object) -> seq<string>, properties: (string, Object) -> seq<string>)

  ghost predicate IsFair(orders: Orders)
  {
    forall place, fields: Object, key ::
      (key in orders.unknown(place, fields) <==> key in fields) &&
      (key in orders.properties(place, fields) <==> key in fields)
  }

  function Where(path: string): string
  {
    if path == "" then "arguments" else path
  }

  function JoinKey(path: string, key: string): string
  {
    if path == "" then key else path + "." + key
  }

  function Validate(orders: Orders, schema: Object, value: Value, path: string): Verdict
    decreases value, 2, 0
  {
    var where := Where(path);
    var enum := if "enum" in schema && schema["enum"].Arr? then SearchEnum(schema["enum"].items, value, where) else Accept;
    if enum != Accept then enum
    else
      var kind := TypeOf(schema);
      if kind == "object" then
        if value.Obj? then ValidateObject(orders, schema, value, path) else Reject(where, NotA("object"))
      else if kind == "array" then
        if value.Arr? then ValidateArray(orders, schema, value, where) else Reject(where, NotA("array"))
      else if kind == "string" then
        if value.Str? then ValidateString(schema, value.s, where) else Reject(where, NotA("string"))
      else if kind == "integer" then
        match NumberOf(value)
        case None => Reject(where, NotA("integer"))
        case Some(r) => if IsInteger(r) then ValidateRange(schema, r, where) else Reject(where, NotA("integer"))
      else if kind == "number" then
        match NumberOf(value)
        case None => Reject(where, NotA("number"))
        case Some(r) => ValidateRange(schema, r, where)
      else if kind == "boolean" then
        if value.Bool? then Accept else Reject(where, NotA("boolean"))
      else if kind == "" then Accept
      else Reject(where, UnsupportedType)
  }

  function SearchEnum(candidates: seq<Value>, value: Value, where: string): Verdict
  {
    if candidates == [] then Reject(where, NotAllowed)
    else match Equal(candidates[0], value)
      case Same => Accept
      case Incomparable => Panic
      case Different => SearchEnum(candidates[1..], value, where)
  }

  function ValidateObject(orders: Orders, schema: Object, value: Value, path: string): Verdict
    requires value.Obj?
    decreases value, 1, 0
  {
    var missing := CheckRequired(RequiredOf(schema), value.fields, Where(path));
    if missing != Accept then missing
    else
      var unknown := if IsOpen(schema) then Accept
                     else CheckKnown(PropertiesOf(schema), orders.unknown(path, value.fields), Where(path));
      if unknown != Accept then unknown
      else ValidateProperties(orders, PropertiesOf(schema), value, orders.properties(path, value.fields), path)
  }

  function CheckRequired(names: seq<Value>, fields: Object, where: string): Verdict
  {
    if names == [] then Accept
    else if KeyOf(names[0]) !in fields then Reject(where, MissingProperty(KeyOf(names[0])))
    else CheckRequired(names[1..], fields, where)
  }

  function CheckKnown(properties: Object, keys: seq<string>, where: string): Verdict
  {
    if keys == [] then Accept
    else if keys[0] !in properties then Reject(where, UnknownProperty(keys[0]))
    else CheckKnown(properties, keys[1..], where)
  }

  function ValidateProperties(orders: Orders, properties: Object, value: Value, keys: seq<string>, path: string): Verdict
    requires value.Obj?
    decreases value, 0, |keys|
  {
    if keys == [] then Accept
    else
      var key, rest := keys[0], keys[1..];
      if key !in value.fields || key !in properties || !properties[key].Obj? then
        ValidateProperties(orders, properties, value, rest, path)
      else
        var verdict := Validate(orders, properties[key].fields, value.fields[key], JoinKey(path, key));
        if verdict != Accept then verdict else ValidateProperties(orders, properties, value, rest, path)
  }

  function ValidateArray(orders: Orders, schema: Object, value: Value, where: string): Verdict
    requires value.Arr?
    decreases value, 1, 0
  {
    var most, least := NumericKeyword(schema, "maxItems"), NumericKeyword(schema, "minItems");
    if most.Some? && |value.items| as real > most.value then Reject(where, TooManyItems)
    else if least.Some? && (|value.items| as real) < least.value then Reject(where, TooFewItems)
    else if "items" in schema && schema["items"].Obj? then ValidateItems(orders, schema["items"].fields, value, 0, where)
    else Accept
  }

  function ValidateItems(orders: Orders, schema: Object, value: Value, index: nat, where: string): Verdict
    requires value.Arr? && index <= |value.items|
    decreases value, 0, |value.items| - index
  {
    if index == |value.items| then Accept
    else
      var verdict := Validate(orders, schema, value.items[index], where + "[" + Itoa(index) + "]");
      if verdict != Accept then verdict else ValidateItems(orders, schema, value, index + 1, where)
  }

  function ValidateString(schema: Object, text: string, where: string): Verdict
  {
    var most, least := NumericKeyword(schema, "maxLength"), NumericKeyword(schema, "minLength");
    if most.Some? && |text| as real > most.value then Reject(where, TooLong)
    else if least.Some? && (|text| as real) < least.value then Reject(where, TooShort)
    else Accept
  }

  function ValidateRange(schema: Object, number: real, where: string): Verdict
  {
    var least, most := NumericKeyword(schema, "minimum"), NumericKeyword(schema, "maximum");
    if least.Some? && number < least.value then Reject(where, BelowMinimum)
    else if most.Some? && number > most.value then Reject(where, AboveMaximum)
    else Accept
  }

  // ----- conformance, without orders, paths or early returns

  predicate IsWithin(least: Option<real>, x: real, most: Option<real>)
  {
    (least.Some? ==> least.value <= x) && (most.Some? ==> x <= most.value)
  }

  /** Some candidate is the same as the value, and none before it cannot be compared. */
  predicate IsListed(candidates: seq<Value>, value: Value)
  {
    exists i :: 0 <= i < |candidates| && Equal(candidates[i], value) == Same
      && forall j :: 0 <= j < i ==> Equal(candidates[j], value) == Different
  }

  predicate Conforms(schema: Object, value: Value)
    decreases value
  {
    && ("enum" in schema && schema["enum"].Arr? ==> IsListed(schema["enum"].items, value))
    && match TypeOf(schema)
       case "object" => value.Obj? && ObjectConforms(schema, value)
       case "array" => value.Arr? && ArrayConforms(schema, value)
       case "string" =>
         value.Str? && IsWithin(NumericKeyword(schema, "minLength"), |value.s| as real, NumericKeyword(schema, "maxLength"))
       case "integer" => NumberConforms(schema, value) && IsInteger(NumberOf(value).value)
       case "number" => NumberConforms(schema, value)
       case "boolean" => value.Bool?
       case "" => true
       case _ => false
  }

  predicate NumberConforms(schema: Object, value: Value)
  {
    NumberOf(value).Some?
    && IsWithin(NumericKeyword(schema, "minimum"), NumberOf(value).value, NumericKeyword(schema, "maximum"))
  }

  /** Required properties are there, a closed object has declared ones only, and a property
      whose declaration is a schema conforms to it. */
  predicate ObjectConforms(schema: Object, value: Value)
    requires value.Obj?
    decreases value, 0
  {
    var properties := PropertiesOf(schema);
    && (forall i :: 0 <= i < |RequiredOf(schema)| ==> KeyOf(RequiredOf(schema)[i]) in value.fields)
    && (!IsOpen(schema) ==> forall key :: key in value.fields ==> key in properties)
    && (forall key :: key in value.fields && key in properties && properties[key].Obj? ==>
          Conforms(properties[key].fields, value.fields[key]))
  }

  predicate ArrayConforms(schema: Object, value: Value)
    requires value.Arr?
    decreases value, 0
  {
    && IsWithin(NumericKeyword(schema, "minItems"), |value.items| as real, NumericKeyword(schema, "maxItems"))
    && ("items" in schema && schema["items"].Obj? ==>
          forall i :: 0 <= i < |value.items| ==> Conforms(schema["items"].fields, value.items[i]))
  }

  // ----- what the keywords of a schema ask for

  /** The keyword is there and a number, in any of the forms that decoding gives, and the number
      is `r`. */
  ghost predicate Says(schema: Object, key: string, r: real)
  {
    && key in schema
    && (|| schema[key] == Float(r)
        || (schema[key].Int? && schema[key].i as real == r)
        || (schema[key].Number? && schema[key].parsed == Some(r)))
  }

  ghost predicate SaysType(schema: Object, kind: string)
  {
    "type" in schema && schema["type"] == Str(kind)
  }

  /** The size lies within the bounds that the schema sets by these two keywords. */
  ghost predicate KeepsBounds(schema: Object, least: string, size: real, most: string)
  {
    forall r: real :: (Says(schema, least, r) ==> r <= size) && (Says(schema, most, r) ==> size <= r)
  }

  lemma {:induction false} BoundsAreKept(schema: Object, least: string, size: real, most: string)
    ensures IsWithin(NumericKeyword(schema, least), size, NumericKeyword(schema, most)) <==> KeepsBounds(schema, least, size, most)
  {
    forall key, r: real ensures Says(schema, key, r) <==> NumericKeyword(schema, key) == Some(r) {
    }
    var low, high := NumericKeyword(schema, least), NumericKeyword(schema, most);
    if KeepsBounds(schema, least, size, most) {
      assert low.Some? ==> Says(schema, least, low.value);
      assert high.Some? ==> Says(schema, most, high.value);
    }
  }

  /** The scalar types over the raw schema: exactly a string, a number or a whole number of 64
      bits whose length or value keeps the bounds, or a boolean; a type of another name accepts
      nothing, and none at all accepts everything. */
  lemma {:induction false} ScalarTypesAccept(schema: Object, value: Value)
    requires "enum" !in schema
    ensures SaysType(schema, "string") ==>
      (Conforms(schema, value) <==> value.Str? && KeepsBounds(schema, "minLength", |value.s| as real, "maxLength"))
    ensures SaysType(schema, "number") ==>
      (Conforms(schema, value) <==> NumberOf(value).Some? && KeepsBounds(schema, "minimum", NumberOf(value).value, "maximum"))
    ensures SaysType(schema, "integer") ==>
      (Conforms(schema, value) <==>
         && NumberOf(value).Some? && KeepsBounds(schema, "minimum", NumberOf(value).value, "maximum")
         && exists i: int :: IsInt64(NumberOf(value).value, i))
    ensures SaysType(schema, "boolean") ==> (Conforms(schema, value) <==> value.Bool?)
    ensures "type" !in schema || !schema["type"].Str? ==> Conforms(schema, value)
  {
    if value.Str? { BoundsAreKept(schema, "minLength", |value.s| as real, "maxLength"); }
    if NumberOf(value).Some? {
      BoundsAreKept(schema, "minimum", NumberOf(value).value, "maximum");
      WholeNumbers(NumberOf(value).value);
    }
    hide KeepsBounds, IsWithin, NumericKeyword, IsInteger;
  }

  ghost predicate IsInt64(r: real, i: int)
  {
    r == i as real && -0x8000_0000_0000_0000 <= i < 0x8000_0000_0000_0000
  }

  lemma {:induction false} WholeNumbers(r: real)
    ensures IsInteger(r) <==> exists i: int :: IsInt64(r, i)
  {
    if IsInteger(r) { assert IsInt64(r, r.Floor); }
    if i: int :| IsInt64(r, i) {
      assert (i as real).Floor == i;
    }
  }

  /** Objects over the raw schema: exactly those that have all required properties, no property
      that is not declared if `additionalProperties` is false, and values that conform to their
      declarations. */
  lemma {:induction false} ObjectsAccept(schema: Object, value: Value)
    requires "enum" !in schema && SaysType(schema, "object")
    ensures Conforms(schema, value) <==>
      && value.Obj?
      && ("required" in schema && schema["required"].Arr? ==>
            forall i :: 0 <= i < |schema["required"].items| ==>
              (if schema["required"].items[i].Str? then schema["required"].items[i].s else "") in value.fields)
      && ("additionalProperties" in schema && schema["additionalProperties"] == Bool(false) ==>
            forall key :: key in value.fields ==>
              "properties" in schema && schema["properties"].Obj? && key in schema["properties"].fields)
      && ("properties" in schema && schema["properties"].Obj? ==>
            forall key :: key in value.fields && key in schema["properties"].fields && schema["properties"].fields[key].Obj? ==>
              Conforms(schema["properties"].fields[key].fields, value.fields[key]))
  {
    assert TypeOf(schema) == "object";
    if value.Obj? {
      var properties, required := PropertiesOf(schema), RequiredOf(schema);
      assert Conforms(schema, value) <==> ObjectConforms(schema, value);
      assert ObjectConforms(schema, value) <==>
        && (forall i :: 0 <= i < |required| ==> KeyOf(required[i]) in value.fields)
        && (!IsOpen(schema) ==> forall key :: key in value.fields ==> key in properties)
        && (forall key :: key in value.fields && key in properties && properties[key].Obj? ==>
              Conforms(properties[key].fields, value.fields[key]));
      assert forall i :: 0 <= i < |required| ==> KeyOf(required[i]) == if required[i].Str? then required[i].s else "";
    }
  }

  /** Arrays over the raw schema: exactly those whose length keeps the bounds and whose items
      conform to `items`. */
  lemma {:induction false} ArraysAccept(schema: Object, value: Value)
    requires "enum" !in schema && SaysType(schema, "array")
    ensures Conforms(schema, value) <==>
      && value.Arr? && KeepsBounds(schema, "minItems", |value.items| as real, "maxItems")
      && ("items" in schema && schema["items"].Obj? ==>
            forall i :: 0 <= i < |value.items| ==> Conforms(schema["items"].fields, value.items[i]))
  {
    if value.Arr? { BoundsAreKept(schema, "minItems", |value.items| as real, "maxItems"); }
    hide KeepsBounds, IsWithin, NumericKeyword;
  }

  /** An enum is one condition more: some candidate is the same as the value and all before it are
      different. */
  lemma {:induction false} EnumsAccept(schema: Object, value: Value)
    requires "enum" in schema
    ensures Conforms(schema, value) <==>
      && Conforms(schema - {"enum"}, value)
      && (schema["enum"].Arr? ==>
            exists i :: 0 <= i < |schema["enum"].items| && Equal(schema["enum"].items[i], value) == Same
              && forall j :: 0 <= j < i ==> Equal(schema["enum"].items[j], value) == Different)
  {
    var rest := schema - {"enum"};
    OtherKeywordsStay(schema);
    hide NumericKeyword, TypeOf, PropertiesOf, RequiredOf, IsOpen, Equal, IsWithin;
    if value.Obj? { SameForObjects(schema, value); }
    if value.Arr? { SameForArrays(schema, value); }
    assert Conforms(schema, value) <==>
      Conforms(rest, value) && (schema["enum"].Arr? ==> IsListed(schema["enum"].items, value));
  }

  lemma {:induction false} OtherKeywordsStay(schema: Object)
    ensures var rest := schema - {"enum"};
      && TypeOf(schema) == TypeOf(rest) && PropertiesOf(schema) == PropertiesOf(rest) && RequiredOf(schema) == RequiredOf(rest)
      && (IsOpen(schema) <==> IsOpen(rest))
      && (forall key :: key != "enum" ==> NumericKeyword(schema, key) == NumericKeyword(rest, key))
  {
  }

  lemma {:induction false} SameForObjects(schema: Object, value: Value)
    requires value.Obj?
    ensures ObjectConforms(schema, value) <==> ObjectConforms(schema - {"enum"}, value)
  {
    OtherKeywordsStay(schema);
    hide NumericKeyword, TypeOf, PropertiesOf, RequiredOf, IsOpen;
  }

  lemma {:induction false} SameForArrays(schema: Object, value: Value)
    requires value.Arr?
    ensures ArrayConforms(schema, value) <==> ArrayConforms(schema - {"enum"}, value)
  {
    OtherKeywordsStay(schema);
    hide NumericKeyword, TypeOf, PropertiesOf, RequiredOf, IsOpen;
  }

  /** How the search through an enum compares: numbers by value, whatever their form; two arrays
      or two objects not at all; all else by equality. */
  lemma {:induction false} EnumCompares(a: Value, b: Value)
    ensures NumberOf(a).Some? && NumberOf(b).Some? ==> (Equal(a, b) == Same <==> NumberOf(a).value == NumberOf(b).value)
    ensures Equal(a, b) == Incomparable <==> (a.Arr? && b.Arr?) || (a.Obj? && b.Obj?)
    ensures !(NumberOf(a).Some? && NumberOf(b).Some?) && !(a.Number? && b.Number?) && Equal(a, b) != Incomparable ==>
      (Equal(a, b) == Same <==> a == b)
    ensures a.Number? && b.Number? && (a.parsed == None || b.parsed == None) ==> (Equal(a, b) == Same <==> a.text == b.text)
    ensures Equal(a, b) == Equal(b, a)
  {
  }

  // ----- the validator accepts exactly what conforms

  lemma {:induction false} EnumAcceptsListed(candidates: seq<Value>, value: Value, where: string)
    ensures SearchEnum(candidates, value, where) == Accept <==> IsListed(candidates, value)
  {
    if candidates != [] {
      var rest := candidates[1..];
      EnumAcceptsListed(rest, value, where);
      if Equal(candidates[0], value) == Different {
        ListedBehind(candidates, value);
      } else if Equal(candidates[0], value) == Same {
        assert IsListed(candidates, value);
      }
    }
  }

  lemma {:induction false} ListedBehind(candidates: seq<Value>, value: Value)
    requires candidates != [] && Equal(candidates[0], value) == Different
    ensures IsListed(candidates, value) <==> IsListed(candidates[1..], value)
  {
    hide Equal;
    var rest := candidates[1..];
    if IsListed(rest, value) {
      var i :| 0 <= i < |rest| && Equal(rest[i], value) == Same
        && forall j :: 0 <= j < i ==> Equal(rest[j], value) == Different;
      forall j | 0 <= j < i + 1 ensures Equal(candidates[j], value) == Different {
        if j > 0 { assert candidates[j] == rest[j - 1]; }
      }
      assert candidates[i + 1] == rest[i];
    }
    if IsListed(candidates, value) {
      var i :| 0 <= i < |candidates| && Equal(candidates[i], value) == Same
        && forall j :: 0 <= j < i ==> Equal(candidates[j], value) == Different;
      assert rest[i - 1] == candidates[i];
      forall j | 0 <= j < i - 1 ensures Equal(rest[j], value) == Different {
        assert rest[j] == candidates[j + 1];
      }
    }
  }

  lemma {:induction false} RequiredAccepts(names: seq<Value>, fields: Object, where: string)
    ensures CheckRequired(names, fields, where) == Accept <==> forall i :: 0 <= i < |names| ==> KeyOf(names[i]) in fields
  {
    if names != [] {
      RequiredAccepts(names[1..], fields, where);
      assert forall i :: 0 < i < |names| ==> names[i] == names[1..][i - 1];
      if CheckRequired(names, fields, where) == Accept {
        forall i | 0 <= i < |names| ensures KeyOf(names[i]) in fields {
          if i > 0 { assert KeyOf(names[1..][i - 1]) in fields; }
        }
      }
      if forall i :: 0 <= i < |names| ==> KeyOf(names[i]) in fields {
        forall i | 0 <= i < |names[1..]| ensures KeyOf(names[1..][i]) in fields {
          assert names[1..][i] == names[i + 1];
        }
      }
    }
  }

  lemma {:induction false} KnownAccepts(properties: Object, keys: seq<string>, where: string)
    ensures CheckKnown(properties, keys, where) == Accept <==> forall key :: key in keys ==> key in properties
  {
    if keys != [] {
      KnownAccepts(properties, keys[1..], where);
      assert keys == [keys[0]] + keys[1..];
    }
  }

  /** The validator accepts a value exactly if it conforms, in whatever order Go visits the
      maps and whatever the path. */
  lemma {:induction false} ValidateAcceptsConforming(orders: Orders, schema: Object, value: Value, path: string)
    requires IsFair(orders)
    ensures Validate(orders, schema, value, path) == Accept <==> Conforms(schema, value)
    decreases value, 2, 0
  {
    hide SearchEnum, IsListed, ValidateObject, ValidateArray, ObjectConforms, ArrayConforms, Where;
    if "enum" in schema && schema["enum"].Arr? {
      EnumAcceptsListed(schema["enum"].items, value, Where(path));
    }
    if TypeOf(schema) == "object" && value.Obj? {
      ObjectAccepts(orders, schema, value, path);
    } else if TypeOf(schema) == "array" && value.Arr? {
      ArrayAccepts(orders, schema, value, Where(path));
    }
  }

  lemma {:induction false} ObjectAccepts(orders: Orders, schema: Object, value: Value, path: string)
    requires IsFair(orders) && value.Obj?
    ensures ValidateObject(orders, schema, value, path) == Accept <==> ObjectConforms(schema, value)
    decreases value, 1, 0
  {
    var properties := PropertiesOf(schema);
    RequiredAccepts(RequiredOf(schema), value.fields, Where(path));
    KnownAccepts(properties, orders.unknown(path, value.fields), Where(path));
    PropertiesAccept(orders, properties, value, orders.properties(path, value.fields), path);
  }

  lemma {:induction false} ArrayAccepts(orders: Orders, schema: Object, value: Value, where: string)
    requires IsFair(orders) && value.Arr?
    ensures ValidateArray(orders, schema, value, where) == Accept <==> ArrayConforms(schema, value)
    decreases value, 1, 0
  {
    if "items" in schema && schema["items"].Obj? {
      ItemsAccept(orders, schema["items"].fields, value, 0, where);
    }
  }

  lemma {:induction false} PropertiesAccept(orders: Orders, properties: Object, value: Value, keys: seq<string>, path: string)
    requires IsFair(orders) && value.Obj?
    ensures ValidateProperties(orders, properties, value, keys, path) == Accept <==>
      forall key :: key in keys && key in value.fields && key in properties && properties[key].Obj? ==>
        Conforms(properties[key].fields, value.fields[key])
    decreases value, 0, |keys|
  {
    if keys != [] {
      var key, rest := keys[0], keys[1..];
      assert keys == [key] + rest;
      PropertiesAccept(orders, properties, value, rest, path);
      if key in value.fields && key in properties && properties[key].Obj? {
        ValidateAcceptsConforming(orders, properties[key].fields, value.fields[key], JoinKey(path, key));
      }
    }
  }

  lemma {:induction false} ItemsAccept(orders: Orders, schema: Object, value: Value, index: nat, where: string)
    requires IsFair(orders) && value.Arr? && index <= |value.items|
    ensures ValidateItems(orders, schema, value, index, where) == Accept <==>
      forall i :: index <= i < |value.items| ==> Conforms(schema, value.items[i])
    decreases value, 0, |value.items| - index
  {
    if index < |value.items| {
      hide Validate, Conforms;
      ValidateAcceptsConforming(orders, schema, value.items[index], where + "[" + Itoa(index) + "]");
      ItemsAccept(orders, schema, value, index + 1, where);
    }
  }

  /** So acceptance does not depend on the order of map iteration nor on the path. */
  lemma {:induction false} VerdictIgnoresOrder(orders: Orders, orders': Orders, schema: Object, value: Value, path: string, path': string)
    requires IsFair(orders) && IsFair(orders')
    ensures Validate(orders, schema, value, path) == Accept <==> Validate(orders', schema, value, path') == Accept
  {
    ValidateAcceptsConforming(orders, schema, value, path);
    ValidateAcceptsConforming(orders', schema, value, path');
  }

  // ----- panics

  predicate IsScalar(v: Value)
  {
    !v.Arr? && !v.Obj?
  }

  /** No enum anywhere in a schema lists an array or an object. */
  predicate HasScalarEnums(v: Value)
  {
    match v
    case Arr(items) => forall i :: 0 <= i < |items| ==> HasScalarEnums(items[i])
    case Obj(fields) =>
      && ("enum" in fields && fields["enum"].Arr? ==>
            forall i :: 0 <= i < |fields["enum"].items| ==> IsScalar(fields["enum"].items[i]))
      && forall key :: key in fields ==> HasScalarEnums(fields[key])
    case _ => true
  }

  lemma {:induction false} ScalarsCompare(candidates: seq<Value>, value: Value, where: string)
    requires forall i :: 0 <= i < |candidates| ==> IsScalar(candidates[i])
    ensures SearchEnum(candidates, value, where) != Panic
  {
    if candidates != [] {
      ScalarsCompare(candidates[1..], value, where);
    }
  }

  /** With such a schema the validator never panics: every value is accepted or rejected. */
  lemma {:induction false} ScalarEnumsNeverPanic(orders: Orders, schema: Object, value: Value, path: string)
    requires HasScalarEnums(Obj(schema))
    ensures Validate(orders, schema, value, path) != Panic
    decreases value, 1, 0
  {
    hide SearchEnum, CheckRequired, CheckKnown, ValidateProperties, ValidateItems, Where;
    if "enum" in schema && schema["enum"].Arr? {
      ScalarsCompare(schema["enum"].items, value, Where(path));
    }
    if TypeOf(schema) == "object" && value.Obj? {
      RequiredNeverPanics(RequiredOf(schema), value.fields, Where(path));
      KnownNeverPanics(PropertiesOf(schema), orders.unknown(path, value.fields), Where(path));
      PropertiesNeverPanic(orders, PropertiesOf(schema), value, orders.properties(path, value.fields), path);
    } else if TypeOf(schema) == "array" && value.Arr? && "items" in schema && schema["items"].Obj? {
      ItemsNeverPanic(orders, schema["items"].fields, value, 0, Where(path));
    }
  }

  lemma {:induction false} RequiredNeverPanics(names: seq<Value>, fields: Object, where: string)
    ensures CheckRequired(names, fields, where) != Panic
  {
    if names != [] { RequiredNeverPanics(names[1..], fields, where); }
  }

  lemma {:induction false} KnownNeverPanics(properties: Object, keys: seq<string>, where: string)
    ensures CheckKnown(properties, keys, where) != Panic
  {
    if keys != [] { KnownNeverPanics(properties, keys[1..], where); }
  }

  lemma {:induction false} PropertiesNeverPanic(orders: Orders, properties: Object, value: Value, keys: seq<string>, path: string)
    requires value.Obj? && forall key :: key in properties ==> HasScalarEnums(properties[key])
    ensures ValidateProperties(orders, properties, value, keys, path) != Panic
    decreases value, 0, |keys|
  {
    if keys != [] {
      var key := keys[0];
      PropertiesNeverPanic(orders, properties, value, keys[1..], path);
      if key in value.fields && key in properties && properties[key].Obj? {
        ScalarEnumsNeverPanic(orders, properties[key].fields, value.fields[key], JoinKey(path, key));
      }
    }
  }

  lemma {:induction false} ItemsNeverPanic(orders: Orders, schema: Object, value: Value, index: nat, where: string)
    requires value.Arr? && index <= |value.items| && HasScalarEnums(Obj(schema))
    ensures ValidateItems(orders, schema, value, index, where) != Panic
    decreases value, 0, |value.items| - index
  {
    if index < |value.items| {
      ScalarEnumsNeverPanic(orders, schema, value.items[index], where + "[" + Itoa(index) + "]");
      ItemsNeverPanic(orders, schema, value, index + 1, where);
    }
  }

  /** The search through an enum panics on some value exactly if the enum lists an array or an
      object, and the validator panics with it. */
  lemma {:induction false} EnumPanicsExactly(orders: Orders, schema: Object, path: string)
    requires "enum" in schema && schema["enum"].Arr?
    ensures var enum := schema["enum"].items;
      && ((exists i :: 0 <= i < |enum| && !IsScalar(enum[i])) <==> exists v :: SearchEnum(enum, v, Where(path)) == Panic)
      && forall v :: SearchEnum(enum, v, Where(path)) == Panic ==> Validate(orders, schema, v, path) == Panic
  {
    var enum := schema["enum"].items;
    if i :| 0 <= i < |enum| && !IsScalar(enum[i]) {
      var v := if enum[i].Arr? then Arr([]) else Obj(map[]);
      AggregatePanics(enum, i, v, Where(path));
    } else {
      forall v ensures SearchEnum(enum, v, Where(path)) != Panic {
        ScalarsCompare(enum, v, Where(path));
      }
    }
  }

  lemma {:induction false} AggregatePanics(candidates: seq<Value>, i: nat, v: Value, where: string)
    requires i < |candidates|
    requires (v == Arr([]) && candidates[i].Arr?) || (v == Obj(map[]) && candidates[i].Obj?)
    ensures SearchEnum(candidates, v, where) == Panic
  {
    assert NumberOf(v) == None;
    if Equal(candidates[0], v) == Different {
      AggregatePanics(candidates[1..], i - 1, v, where);
    } else {
      assert candidates[0] != v || candidates[0].Arr? || candidates[0].Obj?;
    }
  }
}
