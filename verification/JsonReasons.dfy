/** What a rejection by the schema validator says (internal/jsonschema/jsonschema.go): its reason
    holds of the value at the place it names. */
module JsonReasons {
  import opened Strings
  import opened JsonSchema

  /** The reason holds of the value itself. */
  ghost predicate Holds(schema: Object, value: Value, reason: Reason)
  {
    match reason
    case NotAllowed =>
      "enum" in schema && schema["enum"].Arr?
      && forall i :: 0 <= i < |schema["enum"].items| ==> Equal(schema["enum"].items[i], value) == Different
    case NotA(expected) =>
      && SaysType(schema, expected)
      && (|| (expected == "object" && !value.Obj?) || (expected == "array" && !value.Arr?) || (expected == "string" && !value.Str?)
          || (expected == "boolean" && !value.Bool?) || (expected == "number" && NumberOf(value).None?)
          || (expected == "integer" && !exists i: int :: NumberOf(value).Some? && IsInt64(NumberOf(value).value, i)))
    case MissingProperty(key) =>
      && SaysType(schema, "object") && value.Obj? && key !in value.fields && "required" in schema && schema["required"].Arr?
      && exists i :: 0 <= i < |schema["required"].items| && key == KeyOf(schema["required"].items[i])
    case UnknownProperty(key) =>
      && SaysType(schema, "object") && value.Obj? && key in value.fields
      && "additionalProperties" in schema && schema["additionalProperties"] == Bool(false)
      && !("properties" in schema && schema["properties"].Obj? && key in schema["properties"].fields)
    case TooManyItems => SaysType(schema, "array") && value.Arr? && IsAbove(schema, "maxItems", |value.items| as real)
    case TooFewItems => SaysType(schema, "array") && value.Arr? && IsBelow(schema, "minItems", |value.items| as real)
    case TooLong => SaysType(schema, "string") && value.Str? && IsAbove(schema, "maxLength", |value.s| as real)
    case TooShort => SaysType(schema, "string") && value.Str? && IsBelow(schema, "minLength", |value.s| as real)
    case BelowMinimum => IsNumeric(schema) && NumberOf(value).Some? && IsBelow(schema, "minimum", NumberOf(value).value)
    case AboveMaximum => IsNumeric(schema) && NumberOf(value).Some? && IsAbove(schema, "maximum", NumberOf(value).value)
    case UnsupportedType =>
      && "type" in schema && schema["type"].Str?
      && schema["type"].s !in ["object", "array", "string", "integer", "number", "boolean", ""]
  }

  ghost predicate IsAbove(schema: Object, key: string, size: real)
  {
    exists r: real :: Says(schema, key, r) && size > r
  }

  ghost predicate IsBelow(schema: Object, key: string, size: real)
  {
    exists r: real :: Says(schema, key, r) && size < r
  }

  ghost predicate IsNumeric(schema: Object)
  {
    SaysType(schema, "number") || SaysType(schema, "integer")
  }

  /** The place is the value itself, a declared property of it or an item of it, and there the
      reason holds. A place is written as the keys and indices that lead to it. */
  ghost predicate Blames(schema: Object, value: Value, path: string, place: string, reason: Reason)
    decreases value
  {
    || (place == (if path == "" then "arguments" else path) && Holds(schema, value, reason))
    || (SaysType(schema, "object") && value.Obj? && BlamesProperty(schema, value, path, place, reason))
    || (SaysType(schema, "array") && value.Arr? && BlamesItem(schema, value, path, place, reason))
  }

  ghost predicate BlamesProperty(schema: Object, value: Value, path: string, place: string, reason: Reason)
    requires value.Obj?
    decreases value, 0
  {
    && "properties" in schema && schema["properties"].Obj?
    && exists key :: key in value.fields && key in schema["properties"].fields && schema["properties"].fields[key].Obj?
         && Blames(schema["properties"].fields[key].fields, value.fields[key], if path == "" then key else path + "." + key, place, reason)
  }

  ghost predicate BlamesItem(schema: Object, value: Value, path: string, place: string, reason: Reason)
    requires value.Arr?
    decreases value, 0
  {
    && "items" in schema && schema["items"].Obj?
    && exists i :: 0 <= i < |value.items|
         && Blames(schema["items"].fields, value.items[i], (if path == "" then "arguments" else path) + "[" + Itoa(i) + "]", place, reason)
  }

  lemma {:induction false} BoundsSay(schema: Object, key: string, size: real)
    ensures NumericKeyword(schema, key).Some? && size > NumericKeyword(schema, key).value ==> IsAbove(schema, key, size)
    ensures NumericKeyword(schema, key).Some? && size < NumericKeyword(schema, key).value ==> IsBelow(schema, key, size)
  {
    var r := NumericKeyword(schema, key);
    assert r.Some? ==> Says(schema, key, r.value);
  }

  lemma {:induction false} EnumSays(candidates: seq<Value>, value: Value, where: string)
    ensures var v := SearchEnum(candidates, value, where);
      v.Reject? ==> v == Reject(where, NotAllowed) && forall i :: 0 <= i < |candidates| ==> Equal(candidates[i], value) == Different
  {
    if candidates != [] {
      hide Equal;
      EnumSays(candidates[1..], value, where);
      assert forall i :: 0 < i < |candidates| ==> candidates[i] == candidates[1..][i - 1];
    }
  }

  lemma {:induction false} RequiredSays(names: seq<Value>, fields: Object, where: string)
    ensures var v := CheckRequired(names, fields, where);
      v.Reject? ==>
        && v.place == where && v.reason.MissingProperty? && v.reason.key !in fields
        && exists i :: 0 <= i < |names| && v.reason.key == KeyOf(names[i])
  {
    if names != [] {
      RequiredSays(names[1..], fields, where);
      var v := CheckRequired(names[1..], fields, where);
      if v.Reject? {
        var i :| 0 <= i < |names[1..]| && v.reason.key == KeyOf(names[1..][i]);
        assert names[i + 1] == names[1..][i];
      }
    }
  }

  lemma {:induction false} KnownSays(properties: Object, keys: seq<string>, where: string)
    ensures var v := CheckKnown(properties, keys, where);
      v.Reject? ==> v.place == where && v.reason.UnknownProperty? && v.reason.key !in properties && v.reason.key in keys
  {
    if keys != [] { KnownSays(properties, keys[1..], where); }
  }

  /** Whatever the order of map iteration, a rejection names a real violation at a real place. */
  lemma {:induction false} RejectionsAreTrue(orders: Orders, schema: Object, value: Value, path: string)
    requires IsFair(orders)
    ensures var v := Validate(orders, schema, value, path); v.Reject? ==> Blames(schema, value, path, v.place, v.reason)
    decreases value, 2, 0
  {
    var v := Validate(orders, schema, value, path);
    if v.Reject? {
      if "enum" in schema && schema["enum"].Arr? && SearchEnum(schema["enum"].items, value, Where(path)) != Accept {
        EnumSays(schema["enum"].items, value, Where(path));
      } else if TypeOf(schema) == "object" && value.Obj? {
        ObjectsAreTrue(orders, schema, value, path);
      } else if TypeOf(schema) == "array" && value.Arr? {
        ArraysAreTrue(orders, schema, value, path);
      } else {
        ScalarsAreTrue(orders, schema, value, path);
      }
    }
  }

  lemma {:induction false} ScalarsAreTrue(orders: Orders, schema: Object, value: Value, path: string)
    requires "enum" in schema && schema["enum"].Arr? ==> SearchEnum(schema["enum"].items, value, Where(path)) == Accept
    requires !(TypeOf(schema) == "object" && value.Obj?) && !(TypeOf(schema) == "array" && value.Arr?)
    ensures var v := Validate(orders, schema, value, path); v.Reject? ==> v.place == Where(path) && Holds(schema, value, v.reason)
  {
    hide IsAbove, IsBelow, IsInteger, IsInt64, NumericKeyword, SearchEnum, Equal, ValidateString, ValidateRange;
    hide ValidateObject, ValidateArray, Where;
    var kind := TypeOf(schema);
    assert kind != "" ==> SaysType(schema, kind);
    if kind == "string" {
      if value.Str? { StringSays(schema, value.s, Where(path)); }
    } else if kind == "number" || kind == "integer" {
      if NumberOf(value).Some? {
        RangeSays(schema, NumberOf(value).value, Where(path));
        WholeNumbers(NumberOf(value).value);
      }
    }
  }

  lemma {:induction false} StringSays(schema: Object, text: string, where: string)
    ensures match ValidateString(schema, text, where)
      case Accept => true
      case Panic => false
      case Reject(place, reason) =>
        && place == where
        && ((reason == TooLong && IsAbove(schema, "maxLength", |text| as real))
            || (reason == TooShort && IsBelow(schema, "minLength", |text| as real)))
  {
    BoundsSay(schema, "minLength", |text| as real);
    BoundsSay(schema, "maxLength", |text| as real);
    hide IsAbove, IsBelow, NumericKeyword;
  }

  lemma {:induction false} RangeSays(schema: Object, number: real, where: string)
    ensures match ValidateRange(schema, number, where)
      case Accept => true
      case Panic => false
      case Reject(place, reason) =>
        && place == where
        && ((reason == AboveMaximum && IsAbove(schema, "maximum", number))
            || (reason == BelowMinimum && IsBelow(schema, "minimum", number)))
  {
    BoundsSay(schema, "minimum", number);
    BoundsSay(schema, "maximum", number);
    hide IsAbove, IsBelow, NumericKeyword;
  }

  lemma {:induction false} ObjectsAreTrue(orders: Orders, schema: Object, value: Value, path: string)
    requires IsFair(orders) && TypeOf(schema) == "object" && value.Obj?
    ensures var v := ValidateObject(orders, schema, value, path); v.Reject? ==> Blames(schema, value, path, v.place, v.reason)
    decreases value, 1, 0
  {
    assert SaysType(schema, "object");
    RequiredSays(RequiredOf(schema), value.fields, Where(path));
    KnownSays(PropertiesOf(schema), orders.unknown(path, value.fields), Where(path));
    PropertiesAreTrue(orders, schema, value, orders.properties(path, value.fields), path);
    hide CheckRequired, CheckKnown, ValidateProperties, BlamesProperty;
  }

  lemma {:induction false} PropertiesAreTrue(orders: Orders, schema: Object, value: Value, keys: seq<string>, path: string)
    requires IsFair(orders) && value.Obj?
    ensures var v := ValidateProperties(orders, PropertiesOf(schema), value, keys, path);
      v.Reject? ==> BlamesProperty(schema, value, path, v.place, v.reason)
    decreases value, 0, |keys|
  {
    if keys != [] {
      hide Blames, Validate;
      var key, properties := keys[0], PropertiesOf(schema);
      PropertiesAreTrue(orders, schema, value, keys[1..], path);
      if key in value.fields && key in properties && properties[key].Obj? {
        RejectionsAreTrue(orders, properties[key].fields, value.fields[key], JoinKey(path, key));
      }
    }
  }

  lemma {:induction false} ArraysAreTrue(orders: Orders, schema: Object, value: Value, path: string)
    requires IsFair(orders) && TypeOf(schema) == "array" && value.Arr?
    ensures var v := ValidateArray(orders, schema, value, Where(path)); v.Reject? ==> Blames(schema, value, path, v.place, v.reason)
    decreases value, 1, 0
  {
    assert SaysType(schema, "array");
    BoundsSay(schema, "minItems", |value.items| as real);
    BoundsSay(schema, "maxItems", |value.items| as real);
    if "items" in schema && schema["items"].Obj? {
      ItemsAreTrue(orders, schema, value, 0, path);
    }
    hide IsAbove, IsBelow, NumericKeyword, ValidateItems, BlamesItem;
  }

  lemma {:induction false} ItemsAreTrue(orders: Orders, schema: Object, value: Value, index: nat, path: string)
    requires IsFair(orders) && value.Arr? && index <= |value.items| && "items" in schema && schema["items"].Obj?
    ensures var v := ValidateItems(orders, schema["items"].fields, value, index, Where(path));
      v.Reject? ==> BlamesItem(schema, value, path, v.place, v.reason)
    decreases value, 0, |value.items| - index
  {
    if index < |value.items| {
      hide Blames, Validate;
      RejectionsAreTrue(orders, schema["items"].fields, value.items[index], Where(path) + "[" + Itoa(index) + "]");
      ItemsAreTrue(orders, schema, value, index + 1, path);
    }
  }
}
