/** JSON values as Python's json module decodes them: objects keep their order. */
module Json {
  import opened Common

  datatype Json =
    | JNull
    | JBool(b: bool)
    | JNum(n: real)
    | JStr(s: string)
    | JArr(items: seq<Json>)
    | JObj(fields: seq<Field>)

  datatype Field = Field(key: string, value: Json)

  /** `d.get(key)`, with absence kept apart from null. */
  function Get(fields: seq<Field>, key: string): (r: Option<Json>)
    ensures r.Some? <==> exists i :: 0 <= i < |fields| && fields[i].key == key
    ensures r.Some? ==> exists i :: 0 <= i < |fields| && fields[i] == Field(key, r.value)
  {
    if fields == [] then None
    else if fields[0].key == key then Some(fields[0].value)
    else Get(fields[1..], key)
  }

  /** Python's truth value. */
  predicate Truthy(j: Json) {
    match j
    case JNull => false
    case JBool(b) => b
    case JNum(n) => n != 0.0
    case JStr(s) => s != ""
    case JArr(items) => items != []
    case JObj(fields) => fields != []
  }

  /** Null, false, zero and whatever is empty. */
  predicate Falsy(j: Json) {
    j in [JNull, JBool(false), JNum(0.0), JStr(""), JArr([]), JObj([])]
  }

  lemma TruthyUnlessFalsy(j: Json)
    ensures Truthy(j) <==> !Falsy(j)
  {
  }

  /** A dictionary has each key once, at every level reached through dictionaries. */
  predicate UniqueKeys(fields: seq<Field>) {
    && (forall i, j :: 0 <= i < j < |fields| ==> fields[i].key != fields[j].key)
    && (forall i :: 0 <= i < |fields| && fields[i].value.JObj? ==> UniqueKeys(fields[i].value.fields))
  }

  lemma {:induction false} GetUnique(fields: seq<Field>, i: nat)
    requires UniqueKeys(fields) && i < |fields|
    ensures Get(fields, fields[i].key) == Some(fields[i].value)
  {
    var r := Get(fields, fields[i].key).value;
    var j :| 0 <= j < |fields| && fields[j] == Field(fields[i].key, r);
  }

  /** The first field of that key holds v. */
  ghost predicate FirstIs(fields: seq<Field>, key: string, v: Json) {
    exists i :: 0 <= i < |fields| && fields[i] == Field(key, v) && forall j :: 0 <= j < i ==> fields[j].key != key
  }

  lemma FirstOfRest(fields: seq<Field>, key: string, v: Json)
    requires fields != [] && fields[0].key != key
    ensures FirstIs(fields, key, v) <==> FirstIs(fields[1..], key, v)
  {
    var rest := fields[1..];
    assert forall j :: 0 <= j < |rest| ==> rest[j] == fields[j + 1];
    if FirstIs(rest, key, v) {
      var i :| 0 <= i < |rest| && rest[i] == Field(key, v) && forall j :: 0 <= j < i ==> rest[j].key != key;
      assert fields[i + 1] == Field(key, v);
      assert forall j :: 0 < j < i + 1 ==> fields[j] == rest[j - 1];
    }
    if FirstIs(fields, key, v) {
      var i :| 0 <= i < |fields| && fields[i] == Field(key, v) && forall j :: 0 <= j < i ==> fields[j].key != key;
      assert rest[i - 1] == Field(key, v);
    }
  }

  lemma {:induction false} GetIsFirst(fields: seq<Field>, key: string, v: Json)
    ensures Get(fields, key) == Some(v) <==> FirstIs(fields, key, v)
  {
    if fields != [] {
      if fields[0].key == key {
        assert fields[0] == Field(key, fields[0].value);
      } else {
        GetIsFirst(fields[1..], key, v);
        FirstOfRest(fields, key, v);
      }
    }
  }
}
