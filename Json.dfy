/** The JSON document model shared by the configuration readers: a jsoncpp
    Json::Value with the value kinds the core distinguishes. Objects are maps, so
    member order plays no part (jsoncpp keeps members sorted by key). */
module Json {
  import opened Wrappers

  datatype Value =
    | Null
    | Bool(b: bool)
    | Int(i: int)
    | Double(d: real)
    | Str(s: string)
    | Array(items: seq<Value>)
    | Object(members: map<string, Value>)

  /** Json::Value::isMember: only an object has members. */
  predicate HasMember(v: Value, key: string)
  {
    v.Object? && key in v.members
  }

  /** The const operator[]: the member, or null when there is none. */
  function Get(v: Value, key: string): (r: Value)
    ensures HasMember(v, key) ==> r == v.members[key]
    ensures !HasMember(v, key) ==> r == Null
  {
    if HasMember(v, key) then v.members[key] else Null
  }

  /** The non-const operator[] followed by an assignment: a null value first becomes
      an empty object, then the member is bound (replacing any earlier binding). */
  function Put(v: Value, key: string, x: Value): (r: Value)
    requires v.Null? || v.Object?
    ensures r.Object? && r.members.Keys == (if v.Object? then v.members.Keys else {}) + {key}
    ensures r.members[key] == x
    ensures v.Object? ==> forall k :: k in v.members && k != key ==> r.members[k] == v.members[k]
  {
    if v.Null? then Object(map[key := x]) else Object(v.members[key := x])
  }

  /** Json::Value::append: a null value first becomes an empty array. */
  function Append(v: Value, x: Value): (r: Value)
    requires v.Null? || v.Array?
    ensures r.Array? && |r.items| == (if v.Array? then |v.items| else 0) + 1
    ensures r.items[|r.items| - 1] == x
    ensures v.Array? ==> r.items[..|v.items|] == v.items
  {
    if v.Null? then Array([x]) else Array(v.items + [x])
  }

  /** The member as a string, when it is present and holds one. */
  function StringMember(v: Value, key: string): (r: Option<string>)
    ensures r.Some? <==> HasMember(v, key) && v.members[key].Str?
  {
    if HasMember(v, key) && v.members[key].Str? then Some(v.members[key].s) else None
  }

  /** The member as a boolean, when it is present and holds one. */
  function BoolMember(v: Value, key: string): (r: Option<bool>)
    ensures r.Some? <==> HasMember(v, key) && v.members[key].Bool?
  {
    if HasMember(v, key) && v.members[key].Bool? then Some(v.members[key].b) else None
  }

  /** The strings of an array whose every item is a string. */
  function StrItems(items: seq<Value>): (r: Option<seq<string>>)
    ensures r.Some? ==> |r.value| == |items|
    ensures r.Some? ==> forall i :: 0 <= i < |items| ==> items[i] == Str(r.value[i])
    ensures r.None? ==> exists i :: 0 <= i < |items| && !items[i].Str?
  {
    if items == [] then Some([])
    else match StrItems(items[..|items| - 1])
      case None => None
      case Some(front) =>
        if items[|items| - 1].Str? then Some(front + [items[|items| - 1].s]) else None
  }

  /** The member as a list of strings (GetMandatoryListParam of strings): an array
      holding strings only. */
  function StringListMember(v: Value, key: string): Option<seq<string>>
  {
    if HasMember(v, key) && v.members[key].Array? then StrItems(v.members[key].items) else None
  }
}
