/**
 * The parts of a pipeline that assemble the Go plugin pipelines as JSON
 * (merging an input's Go pipeline, adding a plugin, writing the global
 * parameters), the plugin-id counter, and the two success folds over the
 * flushers (sending event groups and flushing the batches).
 *
 * The router, the flushers and the batch manager are foreign code: their
 * answers are parameters, and the sends and flushes made are returned as a
 * log in call order.
 */
module Pipeline {
  import opened Wrappers
  import opened Strings
  import opened Json

  const Global: string := "global"
  const TypeKey: string := "Type"
  const PluginType: string := "type"
  const PluginDetail: string := "detail"
  const EnableTimestampNanosecond: string := "EnableTimestampNanosecond"
  const UsingOldContentTag: string := "UsingOldContentTag"

  // ---------------------------------------------------------------------------
  // Merging Go pipelines
  // ---------------------------------------------------------------------------

  /** A source section is an array of plugins or an object of settings. */
  predicate IsModule(v: Value)
  {
    v.Array? || v.Object?
  }

  /** jsoncpp accepts append only on null or an array and member assignment only
      on null or an object: the destination section must be of a kind the source
      section can be merged into. */
  predicate Compatible(prior: Value, v: Value)
  {
    (v.Array? ==> prior.Null? || prior.Array?) && (v.Object? ==> prior.Null? || prior.Object?)
  }

  /** The destination section after one source section is merged into it: the
      items appended, or the members assigned over it. With nothing to add it
      stays as it was, which is null when the member was absent, since the
      reference to it is taken first. */
  function MergeModule(prior: Value, v: Value): (r: Value)
    requires Compatible(prior, v)
    ensures Compatible(r, v)
  {
    if v.Array? then
      if v.items == [] then prior else Array((if prior.Array? then prior.items else []) + v.items)
    else if v.Object? then
      if v.members == map[] then prior else Object((if prior.Object? then prior.members else map[]) + v.members)
    else prior
  }

  predicate MergeableInto(src: map<string, Value>, dst: Value)
  {
    (dst.Null? || dst.Object?) && forall k :: k in src ==> Compatible(Get(dst, k), src[k])
  }

  /** The merge of the source members named by keys, in that order; scalar members are ignored. */
  function MergeKeys(src: map<string, Value>, dst: Value, keys: seq<string>): (r: Value)
    requires MergeableInto(src, dst) && forall k :: k in keys ==> k in src
    ensures MergeableInto(src, r)
  {
    if keys == [] then dst
    else
      var d := MergeKeys(src, dst, keys[..|keys| - 1]);
      var k := keys[|keys| - 1];
      if IsModule(src[k]) then Put(d, k, MergeModule(Get(d, k), src[k])) else d
  }

  /** Over distinct keys, each section named is merged once and every other member is left alone. */
  lemma {:induction false} MergeKeysMembers(src: map<string, Value>, dst: Value, keys: seq<string>, k: string)
    requires MergeableInto(src, dst) && forall k :: k in keys ==> k in src
    requires forall i, j :: 0 <= i < j < |keys| ==> keys[i] != keys[j]
    ensures k in keys && IsModule(src[k]) ==>
      Get(MergeKeys(src, dst, keys), k) == MergeModule(Get(dst, k), src[k])
    ensures !(k in keys && IsModule(src[k])) ==>
      Get(MergeKeys(src, dst, keys), k) == Get(dst, k)
      && (HasMember(MergeKeys(src, dst, keys), k) <==> HasMember(dst, k))
  {
    if keys != [] {
      var front := keys[..|keys| - 1];
      var last := keys[|keys| - 1];
      assert keys == front + [last];
      MergeKeysMembers(src, dst, front, k);
      assert last !in front by {
        forall i | 0 <= i < |front|
          ensures front[i] != last
        {
          assert keys[i] != keys[|keys| - 1];
        }
      }
      MergeKeysSnoc(src, dst, keys);
      var d := MergeKeys(src, dst, front);
      if IsModule(src[last]) {
        GetPut(d, last, MergeModule(Get(d, last), src[last]), k);
      }
    }
  }

  /** MergeKeys over one more key. */
  lemma MergeKeysSnoc(src: map<string, Value>, dst: Value, keys: seq<string>)
    requires MergeableInto(src, dst) && forall k :: k in keys ==> k in src
    requires keys != []
    ensures var d, last := MergeKeys(src, dst, keys[..|keys| - 1]), keys[|keys| - 1];
      MergeKeys(src, dst, keys) == if IsModule(src[last]) then Put(d, last, MergeModule(Get(d, last), src[last])) else d
  {
  }

  /** Reading a member after assigning one. */
  lemma GetPut(v: Value, key: string, x: Value, k: string)
    requires v.Null? || v.Object?
    ensures Get(Put(v, key, x), k) == if k == key then x else Get(v, k)
    ensures HasMember(Put(v, key, x), k) <==> k == key || HasMember(v, k)
  {
  }

  /** The destination stays null exactly when no section is merged into it. */
  lemma {:induction false} MergeKeysNull(src: map<string, Value>, dst: Value, keys: seq<string>)
    requires MergeableInto(src, dst) && forall k :: k in keys ==> k in src
    ensures MergeKeys(src, dst, keys).Null? <==> dst.Null? && forall k :: k in keys ==> !IsModule(src[k])
  {
    if keys != [] {
      var front := keys[..|keys| - 1];
      assert keys == front + [keys[|keys| - 1]];
      MergeKeysNull(src, dst, front);
    }
  }

  /** MergeGoPipeline(src, dst): the members of src in jsoncpp's order (ascending keys). */
  ghost function MergeOf(src: Value, dst: Value): Value
    requires src.Null? || src.Object?
    requires src.Object? ==> MergeableInto(src.members, dst)
  {
    if src.Null? then dst
    else
      SortedKeysSorted(src.members.Keys);
      MergeKeys(src.members, dst, SortedKeys(src.members.Keys))
  }

  /** An array section is appended item by item and an object section assigned member by member;
      scalar members and members src does not have are left alone. */
  lemma MergeGoPipelineModules(src: Value, dst: Value, k: string)
    requires src.Object? && MergeableInto(src.members, dst)
    ensures HasMember(src, k) && src.members[k].Array? ==>
      var prior := Get(dst, k);
      var r := Get(MergeOf(src, dst), k);
      if src.members[k].items == [] then r == prior
      else r.Array? && r.items == (if prior.Array? then prior.items else []) + src.members[k].items
    ensures HasMember(src, k) && src.members[k].Object? ==>
      var prior := Get(dst, k);
      var r := Get(MergeOf(src, dst), k);
      if src.members[k].members == map[] then r == prior
      else r.Object? && r.members == (if prior.Object? then prior.members else map[]) + src.members[k].members
    ensures !(HasMember(src, k) && IsModule(src.members[k])) ==>
      Get(MergeOf(src, dst), k) == Get(dst, k) && (HasMember(MergeOf(src, dst), k) <==> HasMember(dst, k))
  {
    var keys := SortedKeys(src.members.Keys);
    SortedKeysSorted(src.members.Keys);
    SortedDistinct(keys);
    MergeKeysMembers(src.members, dst, keys, k);
  }

  /** The append loop: each item of the source section goes to the end of the destination section. */
  method AppendItems(section: Value, items: seq<Value>) returns (r: Value)
    requires section.Null? || section.Array?
    ensures r == MergeModule(section, Array(items))
  {
    r := section;
    var i := 0;
    while i < |items|
      invariant 0 <= i <= |items|
      invariant r == if i == 0 then section else Array((if section.Array? then section.items else []) + items[..i])
    {
      assert items[..i + 1] == items[..i] + [items[i]];
      r := Append(r, items[i]);
      i := i + 1;
    }
    assert items[..i] == items;
  }

  /** The members of m named by keys assigned one after the other over d. */
  function PutAll(d: Value, m: map<string, Value>, keys: seq<string>): (r: Value)
    requires d.Null? || d.Object?
    requires forall k :: k in keys ==> k in m
    ensures r.Null? || r.Object?
  {
    if keys == [] then d
    else Put(PutAll(d, m, keys[..|keys| - 1]), keys[|keys| - 1], m[keys[|keys| - 1]])
  }

  /** After at least one assignment the section is an object holding the assigned members over the old ones. */
  lemma {:induction false} PutAllMembers(d: Value, m: map<string, Value>, keys: seq<string>)
    requires d.Null? || d.Object?
    requires forall k :: k in keys ==> k in m
    requires keys != []
    ensures var r := PutAll(d, m, keys);
      r.Object? && (forall k :: k in r.members <==> k in keys || (d.Object? && k in d.members))
      && (forall k :: k in keys ==> r.members[k] == m[k])
      && (forall k :: k !in keys && d.Object? && k in d.members ==> r.members[k] == d.members[k])
  {
    var front := keys[..|keys| - 1];
    assert keys == front + [keys[|keys| - 1]];
    if front != [] {
      PutAllMembers(d, m, front);
    }
  }

  /** The member loop: each member of the source section is assigned in the destination section. */
  method PutMembers(section: Value, members: map<string, Value>) returns (r: Value)
    requires section.Null? || section.Object?
    ensures r == MergeModule(section, Object(members))
  {
    var keys := SortedKeysOf(members.Keys);
    SortedKeysSorted(members.Keys);
    r := PutEach(section, members, keys);
    PutAllIsMerge(section, members, keys);
  }

  /** The loop of PutMembers over the given member names. */
  method PutEach(section: Value, members: map<string, Value>, keys: seq<string>) returns (r: Value)
    requires section.Null? || section.Object?
    requires forall k :: k in keys ==> k in members
    ensures r == PutAll(section, members, keys)
  {
    r := section;
    var i := 0;
    while i < |keys|
      invariant 0 <= i <= |keys|
      invariant r == PutAll(section, members, keys[..i])
    {
      assert keys[..i + 1][..i] == keys[..i];
      r := Put(r, keys[i], members[keys[i]]);
      i := i + 1;
    }
    assert keys[..i] == keys;
  }

  /** Assigning every member, in any order, is the merge of the object section. */
  lemma PutAllIsMerge(section: Value, members: map<string, Value>, keys: seq<string>)
    requires section.Null? || section.Object?
    requires forall k :: k in keys <==> k in members
    requires |keys| == |members.Keys|
    ensures PutAll(section, members, keys) == MergeModule(section, Object(members))
  {
    if members == map[] {
      assert members.Keys == {};
    } else {
      var k :| k in members;
      assert k in keys;
      PutAllCovers(section, members, keys);
    }
  }

  lemma PutAllCovers(section: Value, members: map<string, Value>, keys: seq<string>)
    requires section.Null? || section.Object?
    requires forall k :: k in keys <==> k in members
    requires keys != []
    ensures PutAll(section, members, keys) == Object((if section.Object? then section.members else map[]) + members)
  {
    PutAllMembers(section, members, keys);
    var r := PutAll(section, members, keys);
    var base: map<string, Value> := if section.Object? then section.members else map[];
    assert r.members.Keys == (base + members).Keys;
  }

  /** One turn of the loop of MergeGoPipeline: the named source section merged into the destination. */
  method MergeMember(src: map<string, Value>, d: Value, name: string) returns (r: Value)
    requires name in src && MergeableInto(src, d)
    ensures r == if IsModule(src[name]) then Put(d, name, MergeModule(Get(d, name), src[name])) else d
  {
    r := d;
    var v := src[name];
    if v.Array? {
      var section := AppendItems(Get(d, name), v.items);
      r := Put(d, name, section);
    } else if v.Object? {
      var section := PutMembers(Get(d, name), v.members);
      r := Put(d, name, section);
    }
  }

  /** The loop of MergeGoPipeline over the given member names. */
  method MergeMembers(src: map<string, Value>, dst: Value, keys: seq<string>) returns (r: Value)
    requires MergeableInto(src, dst) && forall k :: k in keys ==> k in src
    ensures r == MergeKeys(src, dst, keys)
  {
    r := dst;
    var i := 0;
    while i < |keys|
      invariant 0 <= i <= |keys|
      invariant r == MergeKeys(src, dst, keys[..i])
    {
      assert keys[..i + 1][..i] == keys[..i];
      r := MergeMember(src, r, keys[i]);
      i := i + 1;
    }
    assert keys[..i] == keys;
  }

  /** Pipeline::MergeGoPipeline: the members of the source pipeline merged in ascending key order. */
  method MergeGoPipeline(src: Value, dst: Value) returns (r: Value)
    requires src.Null? || src.Object?
    requires src.Object? ==> MergeableInto(src.members, dst)
    ensures r == MergeOf(src, dst)
  {
    r := dst;
    if src.Object? {
      var keys := SortedKeysOf(src.members.Keys);
      SortedKeysSorted(src.members.Keys);
      r := MergeMembers(src.members, dst, keys);
    }
  }

  // ---------------------------------------------------------------------------
  // Adding a plugin and the global parameters
  // ---------------------------------------------------------------------------

  /** The entry a native-unsupported plugin gets in a Go pipeline: its type and
      its configuration without the Type member. */
  function PluginEntry(plugin: Value): (r: Value)
    requires plugin.Null? || plugin.Object?
    ensures r.Object? && r.members.Keys == {PluginType, PluginDetail}
    ensures r.members[PluginType] == Get(plugin, TypeKey)
    ensures var d := r.members[PluginDetail];
      !HasMember(d, TypeKey) && forall k :: k != TypeKey ==> Get(d, k) == Get(plugin, k)
  {
    var detail := if plugin.Object? then Object(plugin.members - {TypeKey}) else plugin;
    Object(map[PluginType := Get(plugin, TypeKey), PluginDetail := detail])
  }

  /** Pipeline::AddPluginToGoPipeline: one entry appended to the named section, nothing else changed. */
  function AddPluginToGoPipeline(plugin: Value, section: string, dst: Value): (r: Value)
    requires plugin.Null? || plugin.Object?
    requires (dst.Null? || dst.Object?) && (Get(dst, section).Null? || Get(dst, section).Array?)
    ensures r.Object? && Get(r, section).Array?
    ensures Get(r, section).items == (if Get(dst, section).Array? then Get(dst, section).items else []) + [PluginEntry(plugin)]
    ensures forall k :: k != section ==> Get(r, k) == Get(dst, k) && (HasMember(r, k) <==> HasMember(dst, k))
  {
    Put(dst, section, Append(Get(dst, section), PluginEntry(plugin)))
  }

  /** The global section after the extended parameters are assigned over it.
      jsoncpp names the items of an array by the empty string, so an array of
      parameters leaves its last item under "", and a scalar has nothing to iterate. */
  function GlobalWith(pipeline: Value, extendedParams: Value): Value
    requires pipeline.Object?
    requires Get(pipeline, Global).Null? || Get(pipeline, Global).Object?
  {
    var global := Get(pipeline, Global);
    if extendedParams.Object? then MergeModule(global, extendedParams)
    else if extendedParams.Array? && extendedParams.items != [] then
      Put(global, "", extendedParams.items[|extendedParams.items| - 1])
    else global
  }

  /** AddExtendedGlobalParamToGoPipeline: a null pipeline stays null; otherwise only the global section changes. */
  function ExtendedGlobalParamsOf(extendedParams: Value, pipeline: Value): (r: Value)
    requires (pipeline.Null? || pipeline.Object?) && (Get(pipeline, Global).Null? || Get(pipeline, Global).Object?)
    ensures pipeline.Null? ==> r.Null?
    ensures pipeline.Object? ==> r.Object? && HasMember(r, Global)
    ensures forall k :: k != Global ==> Get(r, k) == Get(pipeline, k) && (HasMember(r, k) <==> HasMember(pipeline, k))
    ensures pipeline.Object? && extendedParams.Object? ==> forall k :: k in extendedParams.members ==>
      HasMember(Get(r, Global), k) && Get(Get(r, Global), k) == extendedParams.members[k]
    ensures pipeline.Object? && extendedParams.Object? ==> forall k :: k !in extendedParams.members ==>
      Get(Get(r, Global), k) == Get(Get(pipeline, Global), k)
  {
    if pipeline.Null? then pipeline else Put(pipeline, Global, GlobalWith(pipeline, extendedParams))
  }

  /** The loop over an array of parameters: every item is assigned to the same empty name. */
  method PutItemsUnnamed(global: Value, items: seq<Value>) returns (r: Value)
    requires global.Null? || global.Object?
    ensures r == if items == [] then global else Put(global, "", items[|items| - 1])
  {
    r := global;
    var i := 0;
    while i < |items|
      invariant 0 <= i <= |items|
      invariant r == if i == 0 then global else Put(global, "", items[i - 1])
    {
      r := Put(r, "", items[i]);
      i := i + 1;
    }
  }

  /** The loop of AddExtendedGlobalParamToGoPipeline. */
  method AddExtendedGlobalParamToGoPipeline(extendedParams: Value, pipeline: Value) returns (r: Value)
    requires (pipeline.Null? || pipeline.Object?) && (Get(pipeline, Global).Null? || Get(pipeline, Global).Object?)
    ensures r == ExtendedGlobalParamsOf(extendedParams, pipeline)
  {
    r := pipeline;
    if !pipeline.Null? {
      var global := Get(pipeline, Global);
      if extendedParams.Object? {
        global := PutMembers(global, extendedParams.members);
      } else if extendedParams.Array? {
        global := PutItemsUnnamed(global, extendedParams.items);
      }
      r := Put(pipeline, Global, global);
    }
  }

  /** CopyNativeGlobalParamToGoPipeline: the two native flags written under global of a non-null pipeline. */
  function CopyNativeGlobalParamToGoPipeline(pipeline: Value, enableTimestampNanosecond: bool, usingOldContentTag: bool): (r: Value)
    requires (pipeline.Null? || pipeline.Object?) && (Get(pipeline, Global).Null? || Get(pipeline, Global).Object?)
    ensures pipeline.Null? ==> r.Null?
    ensures pipeline.Object? ==>
      Get(Get(r, Global), EnableTimestampNanosecond) == Bool(enableTimestampNanosecond)
      && Get(Get(r, Global), UsingOldContentTag) == Bool(usingOldContentTag)
      && forall k :: k != EnableTimestampNanosecond && k != UsingOldContentTag ==>
        Get(Get(r, Global), k) == Get(Get(pipeline, Global), k)
    ensures forall k :: k != Global ==> Get(r, k) == Get(pipeline, k) && (HasMember(r, k) <==> HasMember(pipeline, k))
  {
    if pipeline.Null? then pipeline
    else
      var g1 := Put(Get(pipeline, Global), EnableTimestampNanosecond, Bool(enableTimestampNanosecond));
      Put(pipeline, Global, Put(g1, UsingOldContentTag, Bool(usingOldContentTag)))
  }

  // ---------------------------------------------------------------------------
  // Plugin ids
  // ---------------------------------------------------------------------------

  datatype PluginMeta = PluginMeta(pluginId: string, nodeId: string, childNodeId: string)

  /** The counter behind the plugin ids of one pipeline (Init stores 0 before the plugins are built). */
  class PluginIdCounter {
    var pluginId: int

    constructor ()
      ensures pluginId == 0
    {
      pluginId := 0;
    }

    /** GetNowPluginID. */
    function NowPluginId(): string
      reads this
    {
      IntToString(pluginId)
    }

    /** GenNextPluginID: the counter moves on by one and its new value is the id. */
    method GenNextPluginId() returns (id: string)
      modifies this
      ensures pluginId == old(pluginId) + 1
      ensures id == IntToString(pluginId)
    {
      pluginId := pluginId + 1;
      id := IntToString(pluginId);
    }

    /** GenNextPluginMeta: the counter moves on by one; plugin and node id are its new
        value, the child node id the next one, or -1 for the last plugin. */
    method GenNextPluginMeta(lastOne: bool) returns (meta: PluginMeta)
      modifies this
      ensures pluginId == old(pluginId) + 1
      ensures meta == PluginMeta(IntToString(pluginId), IntToString(pluginId),
                                 IntToString(if lastOne then -1 else pluginId + 1))
    {
      pluginId := pluginId + 1;
      var childNodeId := pluginId;
      if lastOne {
        childNodeId := -1;
      } else {
        childNodeId := childNodeId + 1;
      }
      meta := PluginMeta(IntToString(pluginId), IntToString(pluginId), IntToString(childNodeId));
    }
  }

  /** The metas handed out from a counter at c: the node ids are those of the next call. */
  function MetaAfter(c: int, lastOne: bool): PluginMeta
  {
    PluginMeta(IntToString(c + 1), IntToString(c + 1), IntToString(if lastOne then -1 else c + 2))
  }

  /** Successive metas name distinct plugins, and a plugin's child is the plugin built next. */
  lemma MetasChain(c: int, lastOne: bool)
    requires c >= 0
    ensures MetaAfter(c, false).childNodeId == MetaAfter(c + 1, lastOne).nodeId
    ensures MetaAfter(c, false).pluginId != MetaAfter(c + 1, lastOne).pluginId
    ensures MetaAfter(c, lastOne).childNodeId != MetaAfter(c, lastOne).nodeId
  {
    if MetaAfter(c, false).pluginId == MetaAfter(c + 1, lastOne).pluginId {
      IntToStringInjective(c + 1, c + 2);
    }
    if MetaAfter(c, lastOne).childNodeId == MetaAfter(c, lastOne).nodeId {
      IntToStringInjective(if lastOne then -1 else c + 2, c + 1);
    }
  }

  // ---------------------------------------------------------------------------
  // Send and FlushBatch
  // ---------------------------------------------------------------------------

  /** One call to a flusher's Send: the flusher index, the position of the group
      in the list, and whether the flusher was given a copy of the group. */
  datatype Delivery = Delivery(flusher: nat, group: nat, copy: bool)

  /** The sends made for the first n routed targets of group g: invalid indices
      are skipped; every target but the last in the route receives a copy. */
  function GroupLog(targets: seq<nat>, flusherCount: nat, g: nat, n: nat): seq<Delivery>
    requires n <= |targets|
  {
    if n == 0 then []
    else
      GroupLog(targets, flusherCount, g, n - 1)
      + (if targets[n - 1] < flusherCount then [Delivery(targets[n - 1], g, n != |targets|)] else [])
  }

  /** The sends made for the first n groups, in order. */
  function SendLog<G>(groups: seq<G>, route: G -> seq<nat>, flusherCount: nat, n: nat): seq<Delivery>
    requires n <= |groups|
  {
    if n == 0 then []
    else
      SendLog(groups, route, flusherCount, n - 1)
      + GroupLog(route(groups[n - 1]), flusherCount, n - 1, |route(groups[n - 1])|)
  }

  /** Every routed index of the first n groups names a flusher. */
  predicate RoutesValid<G>(groups: seq<G>, route: G -> seq<nat>, flusherCount: nat, n: nat)
    requires n <= |groups|
  {
    forall g, i :: 0 <= g < n && 0 <= i < |route(groups[g])| ==> route(groups[g])[i] < flusherCount
  }

  /** Pipeline::Send: every valid target is sent to, even after a failure, and the
      result is true exactly when every index was valid and every send succeeded. */
  method Send<G>(groups: seq<G>, route: G -> seq<nat>, flusherCount: nat, send: Delivery -> bool)
    returns (allSucceeded: bool, log: seq<Delivery>)
    ensures log == SendLog(groups, route, flusherCount, |groups|)
    ensures allSucceeded <==> RoutesValid(groups, route, flusherCount, |groups|) && forall d :: d in log ==> send(d)
  {
    allSucceeded := true;
    log := [];
    var g := 0;
    while g < |groups|
      invariant 0 <= g <= |groups|
      invariant log == SendLog(groups, route, flusherCount, g)
      invariant allSucceeded <==> RoutesValid(groups, route, flusherCount, g) && forall d :: d in log ==> send(d)
    {
      var ok, sent := SendGroup(route(groups[g]), flusherCount, g, send);
      allSucceeded := ok && allSucceeded;
      log := log + sent;
      g := g + 1;
    }
  }

  /** The inner loop of Send over the flusher indices of one group. */
  method SendGroup(targets: seq<nat>, flusherCount: nat, g: nat, send: Delivery -> bool)
    returns (allSucceeded: bool, log: seq<Delivery>)
    ensures log == GroupLog(targets, flusherCount, g, |targets|)
    ensures allSucceeded <==> (forall i :: 0 <= i < |targets| ==> targets[i] < flusherCount) && forall d :: d in log ==> send(d)
  {
    allSucceeded := true;
    log := [];
    var i := 0;
    while i < |targets|
      invariant 0 <= i <= |targets|
      invariant log == GroupLog(targets, flusherCount, g, i)
      invariant allSucceeded <==> (forall j :: 0 <= j < i ==> targets[j] < flusherCount) && forall d :: d in log ==> send(d)
    {
      if targets[i] >= flusherCount {
        allSucceeded := false;
        i := i + 1;
        continue;
      }
      var d := Delivery(targets[i], g, i + 1 != |targets|);
      allSucceeded := send(d) && allSucceeded;
      log := log + [d];
      i := i + 1;
    }
  }

  /** Within one group only the last target can receive the group itself; every other send gets a copy. */
  lemma {:induction false} OnlyLastTargetMoves(targets: seq<nat>, flusherCount: nat, g: nat, n: nat)
    requires n <= |targets|
    ensures forall d :: d in GroupLog(targets, flusherCount, g, n) && !d.copy ==>
      n == |targets| && d.flusher == targets[|targets| - 1]
    ensures |GroupLog(targets, flusherCount, g, n)| <= n
  {
    if n > 0 {
      OnlyLastTargetMoves(targets, flusherCount, g, n - 1);
    }
  }

  /** Pipeline::FlushBatch: every flusher is flushed, in order, whatever the earlier ones
      answered, and the result is the conjunction of their answers. Afterwards the
      timeout-flush records, kept per pipeline name, lose this pipeline's entry and
      keep every other pipeline's. */
  method FlushBatch<R>(name: string, flusherCount: nat, flushAll: nat -> bool, timeoutRecords: map<string, R>)
    returns (allSucceeded: bool, flushed: seq<nat>, remainingRecords: map<string, R>)
    ensures flushed == seq(flusherCount, i => i)
    ensures allSucceeded <==> forall i :: 0 <= i < flusherCount ==> flushAll(i)
    ensures name !in remainingRecords
    ensures forall p :: p != name ==> (p in remainingRecords <==> p in timeoutRecords)
    ensures forall p :: p in remainingRecords ==> remainingRecords[p] == timeoutRecords[p]
  {
    allSucceeded := true;
    flushed := [];
    var i := 0;
    while i < flusherCount
      invariant 0 <= i <= flusherCount
      invariant flushed == seq(i, j => j)
      invariant allSucceeded <==> forall j :: 0 <= j < i ==> flushAll(j)
    {
      allSucceeded := flushAll(i) && allSucceeded;
      flushed := flushed + [i];
      i := i + 1;
    }
    remainingRecords := timeoutRecords - {name};
  }
}
