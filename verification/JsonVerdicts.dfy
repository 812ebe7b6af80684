/** Which verdicts the schema validator can come to (internal/jsonschema/jsonschema.go). The
    order in which Go visits a map decides which failing property is met first, so one value
    can be rejected in one run and bring the validator down in another. */
module JsonVerdicts {
  import opened JsonSchema
  import Strings

  datatype Kind = Accepted | Rejected | Panicked

  function KindOf(v: Verdict): Kind
  {
    match v
    case Accept => Accepted
    case Reject(_, _) => Rejected
    case Panic => Panicked
  }

  // ----- what a schema and a value allow, without orders or paths

  /** The search through an enum meets a candidate that cannot be compared with the value,
      before one that is the same. */
  ghost predicate IsBarred(candidates: seq<Value>, value: Value)
  {
    exists i :: 0 <= i < |candidates| && Equal(candidates[i], value) == Incomparable
      && forall j :: 0 <= j < i ==> Equal(candidates[j], value) == Different
  }

  /** The checks at the value itself, apart from the enum. */
  predicate HasRightShape(schema: Object, value: Value)
  {
    match TypeOf(schema)
    case "object" =>
      && value.Obj?
      && (forall i :: 0 <= i < |RequiredOf(schema)| ==> KeyOf(RequiredOf(schema)[i]) in value.fields)
      && (!IsOpen(schema) ==> forall key :: key in value.fields ==> key in PropertiesOf(schema))
    case "array" =>
      && value.Arr?
      && IsWithin(NumericKeyword(schema, "minItems"), |value.items| as real, NumericKeyword(schema, "maxItems"))
    case "string" =>
      && value.Str?
      && IsWithin(NumericKeyword(schema, "minLength"), |value.s| as real, NumericKeyword(schema, "maxLength"))
    case "integer" => NumberConforms(schema, value) && IsInteger(NumberOf(value).value)
    case "number" => NumberConforms(schema, value)
    case "boolean" => value.Bool?
    case "" => true
    case _ => false
  }

  /** What the checks at the value itself come to, before any part of it is looked at. */
  ghost function OwnKind(schema: Object, value: Value): Kind
  {
    if "enum" in schema && schema["enum"].Arr? && !IsListed(schema["enum"].items, value) then
      if IsBarred(schema["enum"].items, value) then Panicked else Rejected
    else if HasRightShape(schema, value) then Accepted else Rejected
  }

  /** A property that is there and whose declaration is a schema. */
  predicate IsChecked(schema: Object, value: Value, key: string)
    requires value.Obj?
  {
    key in value.fields && key in PropertiesOf(schema) && PropertiesOf(schema)[key].Obj?
  }

  predicate ChecksItems(schema: Object)
  {
    "items" in schema && schema["items"].Obj?
  }

  /** The value may fail in this way: at once; or some property may; or an item may, once all
      items before it have passed. */
  ghost predicate May(k: Kind, schema: Object, value: Value)
    decreases value
  {
    OwnKind(schema, value) == k ||
    (OwnKind(schema, value) == Accepted &&
     ((TypeOf(schema) == "object" && value.Obj? &&
       exists key :: key in value.fields && IsChecked(schema, value, key) &&
         May(k, PropertiesOf(schema)[key].fields, value.fields[key])) ||
      (TypeOf(schema) == "array" && value.Arr? && ChecksItems(schema) &&
       exists i :: 0 <= i < |value.items| && May(k, schema["items"].fields, value.items[i]) &&
         forall j :: 0 <= j < i ==> Conforms(schema["items"].fields, value.items[j]))))
  }

  // ----- one level of the validator

  lemma {:induction false} SearchIsBarred(candidates: seq<Value>, value: Value, where: string)
    ensures SearchEnum(candidates, value, where) == Panic <==> IsBarred(candidates, value)
  {
    if candidates != [] {
      var rest := candidates[1..];
      SearchIsBarred(rest, value, where);
      if Equal(candidates[0], value) == Different {
        BarredBehind(candidates, value);
      } else {
        assert Equal(candidates[0], value) == Incomparable ==> IsBarred(candidates, value);
      }
    }
  }

  lemma {:induction false} BarredBehind(candidates: seq<Value>, value: Value)
    requires candidates != [] && Equal(candidates[0], value) == Different
    ensures IsBarred(candidates, value) <==> IsBarred(candidates[1..], value)
  {
    var rest := candidates[1..];
    assert forall j :: 0 <= j < |rest| ==> rest[j] == candidates[j + 1];
    if IsBarred(rest, value) {
      var i :| 0 <= i < |rest| && Equal(rest[i], value) == Incomparable
        && forall j :: 0 <= j < i ==> Equal(rest[j], value) == Different;
      forall j | 0 <= j < i + 1 ensures Equal(candidates[j], value) == Different {
        if j > 0 { assert candidates[j] == rest[j - 1]; }
      }
      assert candidates[i + 1] == rest[i];
    }
    if IsBarred(candidates, value) {
      var i :| 0 <= i < |candidates| && Equal(candidates[i], value) == Incomparable
        && forall j :: 0 <= j < i ==> Equal(candidates[j], value) == Different;
      assert rest[i - 1] == candidates[i];
      forall j | 0 <= j < i - 1 ensures Equal(rest[j], value) == Different {
        assert rest[j] == candidates[j + 1];
      }
    }
  }

  /** What follows the checks at the value itself. */
  function RestOf(orders: Orders, schema: Object, value: Value, path: string): Verdict
  {
    if TypeOf(schema) == "object" && value.Obj? then
      ValidateProperties(orders, PropertiesOf(schema), value, orders.properties(path, value.fields), path)
    else if TypeOf(schema) == "array" && value.Arr? && ChecksItems(schema) then
      ValidateItems(orders, schema["items"].fields, value, 0, Where(path))
    else Accept
  }

  lemma {:induction false} OneLevel(orders: Orders, schema: Object, value: Value, path: string)
    requires IsFair(orders)
    ensures KindOf(Validate(orders, schema, value, path)) ==
      if OwnKind(schema, value) == Accepted then KindOf(RestOf(orders, schema, value, path)) else OwnKind(schema, value)
  {
    hide SearchEnum, IsListed, IsBarred, CheckRequired, CheckKnown, ValidateProperties, ValidateItems;
    if "enum" in schema && schema["enum"].Arr? {
      EnumAcceptsListed(schema["enum"].items, value, Where(path));
      SearchIsBarred(schema["enum"].items, value, Where(path));
    }
    if TypeOf(schema) == "object" && value.Obj? {
      RequiredAccepts(RequiredOf(schema), value.fields, Where(path));
      RequiredNeverPanics(RequiredOf(schema), value.fields, Where(path));
      KnownAccepts(PropertiesOf(schema), orders.unknown(path, value.fields), Where(path));
      KnownNeverPanics(PropertiesOf(schema), orders.unknown(path, value.fields), Where(path));
    }
  }

  // ----- whatever happens was possible

  lemma {:induction false} VerdictWasPossible(orders: Orders, schema: Object, value: Value, path: string)
    requires IsFair(orders) && Validate(orders, schema, value, path) != Accept
    ensures May(KindOf(Validate(orders, schema, value, path)), schema, value)
    decreases value, 2, 0
  {
    OneLevel(orders, schema, value, path);
    if OwnKind(schema, value) == Accepted {
      if TypeOf(schema) == "object" && value.Obj? {
        var key := SomePropertyFails(orders, schema, value, orders.properties(path, value.fields), path);
      } else {
        var i := SomeItemFails(orders, schema["items"].fields, value, 0, Where(path));
      }
    }
  }

  lemma {:induction false} SomePropertyFails(orders: Orders, schema: Object, value: Value, keys: seq<string>, path: string)
    returns (key: string)
    requires IsFair(orders) && value.Obj?
    requires ValidateProperties(orders, PropertiesOf(schema), value, keys, path) != Accept
    ensures IsChecked(schema, value, key)
    ensures May(KindOf(ValidateProperties(orders, PropertiesOf(schema), value, keys, path)),
                PropertiesOf(schema)[key].fields, value.fields[key])
    decreases value, 0, |keys|
  {
    key := keys[0];
    if IsChecked(schema, value, key)
      && Validate(orders, PropertiesOf(schema)[key].fields, value.fields[key], JoinKey(path, key)) != Accept {
      VerdictWasPossible(orders, PropertiesOf(schema)[key].fields, value.fields[key], JoinKey(path, key));
    } else {
      key := SomePropertyFails(orders, schema, value, keys[1..], path);
    }
  }

  lemma {:induction false} SomeItemFails(orders: Orders, schema: Object, value: Value, index: nat, where: string)
    returns (i: nat)
    requires IsFair(orders) && value.Arr? && index <= |value.items|
    requires ValidateItems(orders, schema, value, index, where) != Accept
    ensures index <= i < |value.items|
    ensures May(KindOf(ValidateItems(orders, schema, value, index, where)), schema, value.items[i])
    ensures forall j :: index <= j < i ==> Conforms(schema, value.items[j])
    decreases value, 0, |value.items| - index
  {
    hide Validate, May, Conforms, Where;
    i := index;
    var place := where + "[" + Strings.Itoa(index) + "]";
    if Validate(orders, schema, value.items[index], place) != Accept {
      VerdictWasPossible(orders, schema, value.items[index], place);
    } else {
      ValidateAcceptsConforming(orders, schema, value.items[index], place);
      i := SomeItemFails(orders, schema, value, index + 1, where);
    }
  }

  // ----- whatever is possible can happen

  ghost function InSomeOrder(keys: set<string>): (r: seq<string>)
    ensures forall key :: key in r <==> key in keys
  {
    if keys == {} then []
    else
      var key :| key in keys;
      [key] + InSomeOrder(keys - {key})
  }

  lemma {:induction false} SomeOrders() returns (orders: Orders)
    ensures IsFair(orders)
  {
    var visit := (place: string, fields: Object) => InSomeOrder(fields.Keys);
    orders := Orders(visit, visit);
  }

  /** The same orders, except that at one object one property is visited first. */
  ghost function VisitFirst(orders: Orders, top: Object, first: string): Orders
  {
    Orders(orders.unknown,
           (place: string, fields: Object) =>
             if fields == top then [first] + orders.properties(place, fields) else orders.properties(place, fields))
  }

  lemma {:induction false} VisitFirstIsFair(orders: Orders, top: Object, first: string)
    requires IsFair(orders) && first in top
    ensures IsFair(VisitFirst(orders, top, first))
  {
  }

  /** A value inside an object is validated without asking in which order that object is
      visited. */
  lemma {:induction false} InsideIsUnaffected(orders: Orders, top: Object, first: string, schema: Object, value: Value, path: string)
    requires value < Obj(top)
    ensures Validate(VisitFirst(orders, top, first), schema, value, path) == Validate(orders, schema, value, path)
    decreases value, 2, 0
  {
    if TypeOf(schema) == "object" && value.Obj? {
      assert value.fields != top;
      PropertiesAreUnaffected(orders, top, first, PropertiesOf(schema), value, orders.properties(path, value.fields), path);
    } else if TypeOf(schema) == "array" && value.Arr? && ChecksItems(schema) {
      ItemsAreUnaffected(orders, top, first, schema["items"].fields, value, 0, Where(path));
    }
  }

  lemma {:induction false} PropertiesAreUnaffected(orders: Orders, top: Object, first: string, properties: Object, value: Value,
      keys: seq<string>, path: string)
    requires value.Obj? && value < Obj(top)
    ensures ValidateProperties(VisitFirst(orders, top, first), properties, value, keys, path)
      == ValidateProperties(orders, properties, value, keys, path)
    decreases value, 0, |keys|
  {
    if keys != [] {
      var key := keys[0];
      PropertiesAreUnaffected(orders, top, first, properties, value, keys[1..], path);
      if key in value.fields && key in properties && properties[key].Obj? {
        InsideIsUnaffected(orders, top, first, properties[key].fields, value.fields[key], JoinKey(path, key));
      }
    }
  }

  lemma {:induction false} ItemsAreUnaffected(orders: Orders, top: Object, first: string, schema: Object, value: Value,
      index: nat, where: string)
    requires value.Arr? && index <= |value.items| && value < Obj(top)
    ensures ValidateItems(VisitFirst(orders, top, first), schema, value, index, where)
      == ValidateItems(orders, schema, value, index, where)
    decreases value, 0, |value.items| - index
  {
    if index < |value.items| {
      InsideIsUnaffected(orders, top, first, schema, value.items[index], where + "[" + Strings.Itoa(index) + "]");
      ItemsAreUnaffected(orders, top, first, schema, value, index + 1, where);
    }
  }

  /** Orders in which the value fails in a way that is possible. */
  lemma {:induction false} PossibleHappens(k: Kind, schema: Object, value: Value, path: string) returns (orders: Orders)
    requires k != Accepted && May(k, schema, value)
    ensures IsFair(orders) && KindOf(Validate(orders, schema, value, path)) == k
    decreases value
  {
    if OwnKind(schema, value) == k {
      orders := SomeOrders();
    } else if TypeOf(schema) == "object" {
      var key :| key in value.fields && IsChecked(schema, value, key)
        && May(k, PropertiesOf(schema)[key].fields, value.fields[key]);
      var inner := PossibleHappens(k, PropertiesOf(schema)[key].fields, value.fields[key], JoinKey(path, key));
      orders := VisitFirst(inner, value.fields, key);
      FirstPropertyDecides(inner, schema, value, key, path);
    } else {
      var i :| 0 <= i < |value.items| && May(k, schema["items"].fields, value.items[i])
        && forall j :: 0 <= j < i ==> Conforms(schema["items"].fields, value.items[j]);
      orders := PossibleHappens(k, schema["items"].fields, value.items[i], Where(path) + "[" + Strings.Itoa(i) + "]");
      FirstBadItemDecides(orders, schema["items"].fields, value, 0, i, Where(path));
    }
    OneLevel(orders, schema, value, path);
  }

  lemma {:induction false} FirstPropertyDecides(inner: Orders, schema: Object, value: Value, key: string, path: string)
    requires IsFair(inner) && value.Obj? && TypeOf(schema) == "object" && IsChecked(schema, value, key)
    requires Validate(inner, PropertiesOf(schema)[key].fields, value.fields[key], JoinKey(path, key)) != Accept
    ensures IsFair(VisitFirst(inner, value.fields, key))
    ensures RestOf(VisitFirst(inner, value.fields, key), schema, value, path)
      == Validate(inner, PropertiesOf(schema)[key].fields, value.fields[key], JoinKey(path, key))
  {
    VisitFirstIsFair(inner, value.fields, key);
    InsideIsUnaffected(inner, value.fields, key, PropertiesOf(schema)[key].fields, value.fields[key], JoinKey(path, key));
    var keys := [key] + inner.properties(path, value.fields);
    assert keys[0] == key && VisitFirst(inner, value.fields, key).properties(path, value.fields) == keys;
  }

  lemma {:induction false} FirstBadItemDecides(orders: Orders, schema: Object, value: Value, index: nat, i: nat, where: string)
    requires IsFair(orders) && value.Arr? && index <= i < |value.items|
    requires forall j :: index <= j < i ==> Conforms(schema, value.items[j])
    requires Validate(orders, schema, value.items[i], where + "[" + Strings.Itoa(i) + "]") != Accept
    ensures ValidateItems(orders, schema, value, index, where)
      == Validate(orders, schema, value.items[i], where + "[" + Strings.Itoa(i) + "]")
    decreases i - index
  {
    hide Validate, Conforms;
    if index < i {
      ValidateAcceptsConforming(orders, schema, value.items[index], where + "[" + Strings.Itoa(index) + "]");
      FirstBadItemDecides(orders, schema, value, index + 1, i, where);
    }
  }

  // ----- the exact results

  /** In some order of map iteration the validator rejects the value, or panics on it, exactly
      if that is possible by the declarative definition. */
  lemma {:induction false} FailsExactly(k: Kind, schema: Object, value: Value, path: string)
    requires k != Accepted
    ensures (exists orders :: IsFair(orders) && KindOf(Validate(orders, schema, value, path)) == k) <==> May(k, schema, value)
  {
    if May(k, schema, value) {
      var orders := PossibleHappens(k, schema, value, path);
    }
    forall orders | IsFair(orders) && KindOf(Validate(orders, schema, value, path)) == k ensures May(k, schema, value) {
      VerdictWasPossible(orders, schema, value, path);
    }
  }

  /** The kind of the verdict is the same in all orders and under all paths exactly if the
      value cannot both be rejected and bring the validator down. In particular it is settled
      whenever no panic is possible. */
  lemma {:induction false} VerdictIsSettledExactly(schema: Object, value: Value, path: string)
    ensures (forall orders, orders', path' :: IsFair(orders) && IsFair(orders') ==>
               KindOf(Validate(orders, schema, value, path)) == KindOf(Validate(orders', schema, value, path')))
      <==> !(May(Rejected, schema, value) && May(Panicked, schema, value))
  {
    if May(Rejected, schema, value) && May(Panicked, schema, value) {
      var rejecting := PossibleHappens(Rejected, schema, value, path);
      var panicking := PossibleHappens(Panicked, schema, value, path);
      assert KindOf(Validate(rejecting, schema, value, path)) != KindOf(Validate(panicking, schema, value, path));
    } else {
      forall orders, orders', path' | IsFair(orders) && IsFair(orders')
        ensures KindOf(Validate(orders, schema, value, path)) == KindOf(Validate(orders', schema, value, path'))
      {
        OneKindOnly(orders, orders', schema, value, path, path');
      }
    }
  }

  lemma {:induction false} OneKindOnly(orders: Orders, orders': Orders, schema: Object, value: Value, path: string, path': string)
    requires IsFair(orders) && IsFair(orders')
    requires !(May(Rejected, schema, value) && May(Panicked, schema, value))
    ensures KindOf(Validate(orders, schema, value, path)) == KindOf(Validate(orders', schema, value, path'))
  {
    VerdictIgnoresOrder(orders, orders', schema, value, path, path');
    if Validate(orders, schema, value, path) != Accept {
      VerdictWasPossible(orders, schema, value, path);
      VerdictWasPossible(orders', schema, value, path');
    }
  }

  /** With enums of scalars a panic is not possible, so the verdict is settled. */
  lemma {:induction false} ScalarEnumsSettle(schema: Object, value: Value)
    requires HasScalarEnums(Obj(schema))
    ensures !May(Panicked, schema, value)
  {
    if May(Panicked, schema, value) {
      var orders := PossibleHappens(Panicked, schema, value, "");
      ScalarEnumsNeverPanic(orders, schema, value, "");
    }
  }

  // ----- an input on which the order decides

  /** A text at `a`, and at `b` an enum whose one candidate is a list. */
  function TextAndList(): Object
  {
    map["type" := Str("object"),
        "properties" := Obj(map["a" := Obj(map["type" := Str("string")]), "b" := Obj(map["enum" := Arr([Arr([])])])])]
  }

  /** The value with no text at `a` and a list at `b` is rejected when `a` is visited first,
      and brings the validator down when `b` is. */
  lemma {:induction false} OrderDecides(path: string) returns (rejecting: Orders, panicking: Orders)
    ensures IsFair(rejecting) && IsFair(panicking)
    ensures var value := Obj(map["a" := Bool(true), "b" := Arr([])]);
      && Validate(rejecting, TextAndList(), value, path).Reject?
      && Validate(panicking, TextAndList(), value, path) == Panic
  {
    var value := Obj(map["a" := Bool(true), "b" := Arr([])]);
    assert "a" != "b" && "a" != "type" && OwnKind(TextAndList(), value) == Accepted;
    assert May(Rejected, map["type" := Str("string")], Bool(true));
    assert IsChecked(TextAndList(), value, "a");
    assert May(Panicked, map["enum" := Arr([Arr([])])], Arr([])) by {
      assert Equal([Arr([])][0], Arr([])) == Incomparable;
      assert IsBarred([Arr([])], Arr([]));
    }
    assert IsChecked(TextAndList(), value, "b");
    rejecting := PossibleHappens(Rejected, TextAndList(), value, path);
    panicking := PossibleHappens(Panicked, TextAndList(), value, path);
  }
}
