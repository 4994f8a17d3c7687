/**
 Dropping empty fields from a JSON object (clientcmd/connection_crd.go): objects are cleaned from the inside out,
 arrays are only looked at for their length.
 */
module CleanJson {
  import opened Base

  datatype Json =
    | Null
    | Bool(b: bool)
    | Number(n: real)
    | Text(s: string)
    | Array(items: seq<Json>)
    | Object(fields: map<string, Json>)

  predicate Empty(value: Json) {
    match value
    case Null => true
    case Bool(b) => !b
    case Number(n) => n == 0.0
    case Text(s) => s == ""
    case Array(items) => items == []
    case Object(fields) => fields == map[]
  }

  /** A value after every object in it, reached through objects, lost its empty fields. */
  function Cleaned(value: Json): Json
    decreases value, 1
  {
    if value.Object? then Object(CleanFields(value)) else value
  }

  function CleanFields(value: Json): map<string, Json>
    requires value.Object?
    decreases value, 0
  {
    map key | key in value.fields && !Empty(Cleaned(value.fields[key])) :: Cleaned(value.fields[key])
  }

  /** No object reached through objects holds an empty field. */
  ghost predicate Tidy(value: Json) {
    value.Object? ==> forall key :: key in value.fields ==> !Empty(value.fields[key]) && Tidy(value.fields[key])
  }

  lemma {:induction false} CleanedIsTidy(value: Json)
    ensures Tidy(Cleaned(value))
  {
    if value.Object? {
      forall key | key in value.fields { CleanedIsTidy(value.fields[key]); }
    }
  }

  lemma {:induction false} TidyIsUnchanged(value: Json)
    requires Tidy(value)
    ensures Cleaned(value) == value
  {
    if value.Object? {
      forall key | key in value.fields { TidyIsUnchanged(value.fields[key]); }
      assert CleanFields(value) == value.fields;
    }
  }

  lemma CleaningIsIdempotent(value: Json)
    ensures Cleaned(Cleaned(value)) == Cleaned(value)
  {
    CleanedIsTidy(value);
    TidyIsUnchanged(Cleaned(value));
  }

  // ---------------------------------------------------------------- what stays where

  /** The value at a path of keys. */
  function At(value: Json, path: seq<string>): Option<Json>
    decreases |path|
  {
    if path == [] then Some(value)
    else if value.Object? && path[0] in value.fields then At(value.fields[path[0]], path[1..])
    else None
  }

  predicate Leaf(value: Option<Json>) {
    value.Some? && !value.value.Object?
  }

  /** A leaf is still at its path, unchanged, exactly when it is not empty, and no leaf appears anywhere else. */
  lemma {:induction false} LeavesStay(value: Json, path: seq<string>)
    requires value.Object?
    ensures Leaf(At(Cleaned(value), path)) <==> Leaf(At(value, path)) && !Empty(At(value, path).value)
    ensures Leaf(At(Cleaned(value), path)) ==> At(Cleaned(value), path) == At(value, path)
    decreases |path|
  {
    if path != [] && path[0] in value.fields {
      var field := value.fields[path[0]];
      if field.Object? {
        LeavesStay(field, path[1..]);
        if Empty(Cleaned(field)) { NothingBelowEmpty(Cleaned(field), path[1..]); }
      } else {
        assert Cleaned(field) == field;
        assert At(field, path[1..]) == if |path| == 1 then Some(field) else None;
      }
    }
  }

  /** The fields of an object that are not objects, value by value: what is dropped and what is kept as it was. */
  lemma FieldsStay(fields: map<string, Json>, key: string)
    requires key in fields
    ensures var kept := CleanFields(Object(fields));
            match fields[key]
            case Null => key !in kept
            case Bool(b) => if b then key in kept && kept[key] == Bool(true) else key !in kept
            case Number(n) => if n != 0.0 then key in kept && kept[key] == Number(n) else key !in kept
            case Text(s) => if s != "" then key in kept && kept[key] == Text(s) else key !in kept
            case Array(items) => if items != [] then key in kept && kept[key] == Array(items) else key !in kept
            case Object(below) =>
              if HasContent(Object(below)) then key in kept && kept[key] == Object(CleanFields(Object(below)))
              else key !in kept
  {
    EmptiedIffNoContent(fields[key]);
  }

  lemma NothingBelowEmpty(value: Json, path: seq<string>)
    requires value.Object? && Empty(value)
    ensures !Leaf(At(value, path))
  {
  }

  /** The object has a leaf that is worth keeping. */
  ghost predicate HasContent(value: Json) {
    exists path :: Leaf(At(value, path)) && !Empty(At(value, path).value)
  }

  lemma ContentOfField(value: Json, key: string)
    requires value.Object? && key in value.fields && HasContent(value.fields[key])
    ensures HasContent(value)
  {
    var path :| Leaf(At(value.fields[key], path)) && !Empty(At(value.fields[key], path).value);
    assert ([key] + path)[1..] == path;
    assert At(value, [key] + path) == At(value.fields[key], path);
  }

  /** Cleaning empties an object exactly when nothing below it is worth keeping. */
  lemma {:induction false} EmptiedIffNoContent(value: Json)
    ensures Empty(Cleaned(value)) <==> !HasContent(value)
  {
    if value.Object? {
      if HasContent(value) {
        var path :| Leaf(At(value, path)) && !Empty(At(value, path).value);
        LeavesStay(value, path);
        assert path != [] && path[0] in Cleaned(value).fields;
      }
      if !Empty(Cleaned(value)) {
        var key :| key in CleanFields(value);
        EmptiedIffNoContent(value.fields[key]);
        ContentOfField(value, key);
      }
    } else {
      assert At(value, []) == Some(value);
      forall path ensures Leaf(At(value, path)) <==> path == [] {}
    }
  }

  /** Objects below the top stay exactly when they have content. */
  lemma {:induction false} ObjectsStay(value: Json, path: seq<string>)
    requires value.Object? && path != []
    ensures At(Cleaned(value), path).Some? <==> At(value, path).Some? && HasContent(At(value, path).value)
    decreases |path|
  {
    if path[0] in value.fields {
      var field := value.fields[path[0]];
      EmptiedIffNoContent(field);
      if |path| == 1 {
        assert path[1..] == [];
      } else if field.Object? {
        ObjectsStay(field, path[1..]);
        if At(field, path[1..]).Some? && HasContent(At(field, path[1..]).value) { ContentBelow(field, path[1..]); }
      }
    }
  }

  lemma {:induction false} ContentBelow(value: Json, path: seq<string>)
    requires At(value, path).Some? && HasContent(At(value, path).value)
    ensures HasContent(value)
    decreases |path|
  {
    if path != [] {
      ContentBelow(value.fields[path[0]], path[1..]);
      ContentOfField(value, path[0]);
    }
  }
}

/** The objects as the source has them: maps that are changed in place, nested through references. */
module JsonObjects {
  import opened CleanJson

  /** Arrays and scalars are plain; an object is a reference. */
  datatype Value = Plain(json: Json) | Nested(obj: JsonObject)

  class JsonObject {
    var fields: map<string, Value>
    ghost var repr: set<JsonObject>

    constructor ()
      ensures Valid() && fresh(repr) && View() == Object(map[])
    {
      fields := map[];
      repr := {this};
    }

    /** The objects below form a tree; those that were cut off may stay in the footprint. */
    ghost predicate Valid()
      reads this, repr
      decreases repr
    {
      && this in repr
      && (forall key :: key in fields ==> match fields[key]
                                          case Plain(json) => !json.Object?
                                          case Nested(obj) => 
                                            obj in repr && obj.repr < repr && this !in obj.repr && obj.Valid())
      && (forall a, b :: a in fields && b in fields && a != b && fields[a].Nested? && fields[b].Nested? ==>
                           fields[a].obj.repr !! fields[b].obj.repr)
    }

    ghost function View(): (json: Json)
      requires Valid()
      reads this, repr
      ensures json.Object? && json.fields.Keys == fields.Keys
      decreases repr
    {
      Object(map key | key in fields :: match fields[key]
                                        case Plain(json) => json
                                        case Nested(obj) => obj.View())
    }

    ghost function FieldView(key: string): Json
      requires Valid() && key in fields
      reads this, repr
    {
      match fields[key]
      case Plain(json) => json
      case Nested(obj) => obj.View()
    }

    /** The fields show these values. */
    ghost predicate Shows(values: map<string, Json>)
      requires Valid()
      reads this, repr
    {
      fields.Keys == values.Keys && forall key :: key in fields ==> FieldView(key) == values[key]
    }

    lemma ShowsView(values: map<string, Json>)
      requires Valid()
      ensures Shows(values) <==> View() == Object(values)
    {
      forall key | key in fields ensures View().fields[key] == FieldView(key) {}
      if Shows(values) { SameMap(View().fields, values); }
    }

    method CleanEmptyFields()
      requires Valid()
      modifies repr
      ensures Valid() && repr == old(repr) && forall o :: o in repr ==> o.repr == old(o.repr)
      ensures View() == Cleaned(old(View()))
      decreases repr, 2
    {
      ghost var before := View().fields;
      ShowsView(before);
      CleanFieldsInPlace(before);
      ShowsView(CleanFields(Object(before)));
    }

    method CleanFieldsInPlace(ghost before: map<string, Json>)
      requires Valid() && Shows(before)
      modifies repr
      ensures Valid() && repr == old(repr) && forall o :: o in repr ==> o.repr == old(o.repr)
      ensures Shows(CleanFields(Object(before)))
      decreases repr, 1, 1
    {
      var left := fields.Keys;
      PartlyEnds(before);
      while left != {}
        invariant Valid() && repr == old(repr) && left <= fields.Keys
        invariant forall o :: o in repr ==> o.repr == old(o.repr)
        invariant Shows(Partly(before, left))
        decreases |left|
      {
        ghost var pending := left;
        var key :| key in left;
        left := left - {key};
        assert left + {key} == pending;
        PartlyStep(before, left, key);
        CleanField(key, Partly(before, pending));
      }
    }

    /** One field: an object is cleaned first, and an empty value is deleted. */
    method CleanField(key: string, ghost values: map<string, Json>)
      requires Valid() && key in fields && Shows(values)
      modifies repr
      ensures Valid() && repr == old(repr) && forall o :: o in repr ==> o.repr == old(o.repr)
      ensures Shows(Settled(values, key))
      decreases repr, 1, 0
    {
      match fields[key] {
        case Nested(obj) =>
          CleanNested(key, obj, values);
          if obj.fields == map[] {
            DeleteField(key, values[key := Cleaned(values[key])]);
          }
        case Plain(json) =>
          if Empty(json) {
            DeleteField(key, values);
          }
      }
    }

    method DeleteField(key: string, ghost values: map<string, Json>)
      requires Valid() && key in fields && Shows(values)
      modifies this`fields
      ensures Valid() && Shows(values - {key})
    {
      fields := fields - {key};
    }

    method CleanNested(key: string, obj: JsonObject, ghost values: map<string, Json>)
      requires Valid() && key in fields && fields[key] == Nested(obj) && Shows(values)
      modifies obj.repr
      ensures Valid() && fields == old(fields) && repr == old(repr) && forall o :: o in repr ==> o.repr == old(o.repr)
      ensures Shows(values[key := Cleaned(values[key])])
      decreases repr, 0, 1
    {
      assert FieldView(key) == obj.View();
      DescendInto(key, obj);
    }

    /** The objects under the other keys lie apart, so they still show what they showed. */
    method DescendInto(key: string, obj: JsonObject)
      requires Valid() && key in fields && fields[key] == Nested(obj)
      modifies obj.repr
      ensures Valid() && fields == old(fields) && repr == old(repr) && forall o :: o in repr ==> o.repr == old(o.repr)
      ensures forall other :: other in fields ==>
                FieldView(other) == if other == key then Cleaned(old(FieldView(other))) else old(FieldView(other))
      decreases repr, 0, 0
    {
      obj.CleanEmptyFields();
    }
  }

  lemma SameMap(a: map<string, Json>, b: map<string, Json>)
    requires a.Keys == b.Keys && forall key :: key in a ==> a[key] == b[key]
    ensures a == b
  {
  }

  /** The fields after one of them was visited. */
  ghost function Settled(fields: map<string, Json>, key: string): map<string, Json>
    requires key in fields
  {
    if Empty(Cleaned(fields[key])) then fields - {key} else fields[key := Cleaned(fields[key])]
  }

  lemma PartlyEnds(before: map<string, Json>)
    ensures Partly(before, before.Keys) == before && Partly(before, {}) == CleanFields(Object(before))
  {
  }

  lemma PartlyStep(before: map<string, Json>, left: set<string>, key: string)
    requires key in before && key !in left
    ensures key in Partly(before, left + {key}) && Settled(Partly(before, left + {key}), key) == Partly(before, left)
  {
  }

  /** The fields while those in `left` are still to be visited. */
  ghost function Partly(before: map<string, Json>, left: set<string>): map<string, Json> {
    map key | key in before && (key in left || !Empty(Cleaned(before[key]))) ::
      if key in left then before[key] else Cleaned(before[key])
  }
}
