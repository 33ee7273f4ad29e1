/**
 * The Kubernetes metadata collector of the kubernetes_meta_v2 input: a
 * registry from resource type to an ordered list of transforms, the event
 * dispatcher that runs them, the two bounded queues the results go to, and
 * the background batcher that drains those queues in groups of 100.
 *
 * The transforms, the metadata manager, the MD5 digest and the clock are
 * foreign code: they are parameters of the operations or recorded calls.
 */
module MetaCollector {
  import opened Wrappers
  import opened Strings

  // Resource type names of the metadata manager. The k8smeta package that
  // defines them is not part of this model; these values are taken as given, and
  // only their shape matters: the link type contains the link separator and
  // the other two do not.
  const Pod: string := "pod"
  const Service: string := "service"
  const LinkSplitCharacter: string := "->"
  const PodService: string := Pod + LinkSplitCharacter + Service

  /** A group is handed to the collector once it holds this many events. */
  const GroupFlushSize: nat := 100

  datatype EventType = EventTypeAdd | EventTypeUpdate | EventTypeDelete | OtherEventType(name: string)

  /** The object carried by a metadata event; its payload is opaque here. */
  datatype MetaObject = MetaObject(resourceType: string, payload: string)

  datatype MetaEvent = MetaEvent(eventType: EventType, obj: MetaObject)

  /** The four transforms the collector registers. */
  datatype ProcessFunc = ProcessPodEntity | ProcessPodReplicasetLink | ProcessServiceEntity | ProcessPodServiceLink

  datatype ContentValue = StringValue(s: string) | OtherValue(repr: string)

  /** A pipeline event: a log with its contents in iteration order, or any other kind of event. */
  datatype PipelineEvent = LogEvent(contents: seq<(string, ContentValue)>, timestamp: nat) | OtherEvent(repr: string)

  datatype LogContent = LogContent(key: string, value: string)

  /** The protocol log handed to the collector. */
  datatype Log = Log(contents: seq<LogContent>, time: nat)

  /** What the transforms return for an object and a verb; their bodies are not part of this model. */
  type Transform = (ProcessFunc, MetaObject, string) -> Option<PipelineEvent>

  /** Calls made on the metadata manager. */
  datatype ManagerCall = RegisterSendFunc(resourceType: string) | UnRegisterSendFunc(resourceType: string)

  // ---------------------------------------------------------------------------
  // Routing
  // ---------------------------------------------------------------------------

  /** isLink: the resource type names a link between two kinds of obj. */
  predicate IsLink(resourceType: string)
  {
    Contains(resourceType, LinkSplitCharacter)
  }

  /** Pods and services are entities, the pod-service type is a link. */
  lemma ResourceTypesRouting()
    ensures !IsLink(Pod) && !IsLink(Service) && IsLink(PodService)
  {
    forall i | 0 <= i
      ensures !OccursAt(Pod, LinkSplitCharacter, i) && !OccursAt(Service, LinkSplitCharacter, i)
    {
      if i + 2 <= |Pod| {
        assert Pod[i..i + 2][0] == Pod[i] != '-';
      }
      if i + 2 <= |Service| {
        assert Service[i..i + 2][0] == Service[i] != '-';
      }
    }
    ContainsIff(Pod, LinkSplitCharacter);
    ContainsIff(Service, LinkSplitCharacter);
    ContainsIff(PodService, LinkSplitCharacter);
    assert OccursAt(PodService, LinkSplitCharacter, 3);
  }

  /**
   * The entity flag of send is isLink of the type, so the pod-service link
   * records land on entityBuffer and the pod and service entity records on
   * entityLinkBuffer.
   */
  lemma LinkRecordsGoToEntityBuffer(queues: (seq<PipelineEvent>, seq<PipelineEvent>), capacity: nat, es: seq<PipelineEvent>)
    ensures Route(queues, capacity, IsLink(PodService), es) == (OfferAll(queues.0, capacity, es), queues.1)
    ensures Route(queues, capacity, IsLink(Pod), es) == (queues.0, OfferAll(queues.1, capacity, es))
    ensures Route(queues, capacity, IsLink(Service), es) == (queues.0, OfferAll(queues.1, capacity, es))
  {
    ResourceTypesRouting();
  }

  /** The verb handed to the transforms for each kind of event; other kinds are not handled. */
  function Label(t: EventType): Option<string>
  {
    match t
    case EventTypeAdd => Some("create")
    case EventTypeUpdate => Some("update")
    case EventTypeDelete => Some("delete")
    case OtherEventType(_) => None
  }

  /** What send is called with for one transform result: nothing for nil. */
  function Sent(log: Option<PipelineEvent>): seq<PipelineEvent>
  {
    match log
    case Some(e) => [e]
    case None => []
  }

  /** The non-nil results of running the transforms fs in order on obj with the given verb. */
  function Outputs(run: Transform, fs: seq<ProcessFunc>, obj: MetaObject, verb: string): seq<PipelineEvent>
  {
    if |fs| == 0 then []
    else
      Outputs(run, fs[..|fs| - 1], obj, verb) + Sent(run(fs[|fs| - 1], obj, verb))
  }

  /** Every non-nil result is sent, and nothing else is. */
  lemma {:induction false} OutputsMembership(run: Transform, fs: seq<ProcessFunc>, obj: MetaObject, verb: string, e: PipelineEvent)
    ensures e in Outputs(run, fs, obj, verb) <==> exists i :: 0 <= i < |fs| && run(fs[i], obj, verb) == Some(e)
  {
    if |fs| > 0 {
      var init := fs[..|fs| - 1];
      OutputsMembership(run, init, obj, verb, e);
      if exists i :: 0 <= i < |fs| && run(fs[i], obj, verb) == Some(e) {
        var i :| 0 <= i < |fs| && run(fs[i], obj, verb) == Some(e);
        if i < |fs| - 1 {
          assert init[i] == fs[i];
        }
      }
      if exists i :: 0 <= i < |init| && run(init[i], obj, verb) == Some(e) {
        var i :| 0 <= i < |init| && run(init[i], obj, verb) == Some(e);
        assert fs[i] == init[i];
      }
    }
  }

  /** Transforms that all return nil send nothing. */
  lemma {:induction false} OutputsOfNilTransforms(run: Transform, fs: seq<ProcessFunc>, obj: MetaObject, verb: string)
    requires forall i :: 0 <= i < |fs| ==> run(fs[i], obj, verb).None?
    ensures Outputs(run, fs, obj, verb) == []
  {
    if |fs| > 0 {
      OutputsOfNilTransforms(run, fs[..|fs| - 1], obj, verb);
    }
  }

  /** What handleEvent sends for an event, given the registry. */
  function Dispatched(processors: map<string, seq<ProcessFunc>>, run: Transform, event: MetaEvent): seq<PipelineEvent>
  {
    match Label(event.eventType)
    case None => []
    case Some(verb) =>
      if event.obj.resourceType in processors then
        Outputs(run, processors[event.obj.resourceType], event.obj, verb)
      else []
  }

  /** Nothing is sent for an unknown event kind or an unregistered resource type. */
  lemma DispatchedNeedsKnownKindAndType(processors: map<string, seq<ProcessFunc>>, run: Transform, event: MetaEvent)
    ensures Dispatched(processors, run, event) != [] ==>
      Label(event.eventType).Some? && event.obj.resourceType in processors
  {
  }

  // ---------------------------------------------------------------------------
  // Bounded queues
  // ---------------------------------------------------------------------------

  /** send on a queue of the given capacity: the event is enqueued if there is room, else dropped. */
  function Offer(q: seq<PipelineEvent>, capacity: nat, e: PipelineEvent): seq<PipelineEvent>
  {
    if |q| < capacity then q + [e] else q
  }

  /** Successive sends of es, in order. */
  function OfferAll(q: seq<PipelineEvent>, capacity: nat, es: seq<PipelineEvent>): seq<PipelineEvent>
  {
    if |es| == 0 then q
    else Offer(OfferAll(q, capacity, es[..|es| - 1]), capacity, es[|es| - 1])
  }

  lemma OfferAllSnoc(q: seq<PipelineEvent>, capacity: nat, es: seq<PipelineEvent>, e: PipelineEvent)
    ensures OfferAll(q, capacity, es + [e]) == Offer(OfferAll(q, capacity, es), capacity, e)
  {
    assert (es + [e])[..|es|] == es;
  }

  /** The two queues (entity, link) after sending es with the given entity flag. */
  function Route(queues: (seq<PipelineEvent>, seq<PipelineEvent>), capacity: nat, entity: bool, es: seq<PipelineEvent>)
    : (seq<PipelineEvent>, seq<PipelineEvent>)
  {
    if entity then (OfferAll(queues.0, capacity, es), queues.1) else (queues.0, OfferAll(queues.1, capacity, es))
  }

  lemma RouteSnoc(queues: (seq<PipelineEvent>, seq<PipelineEvent>), capacity: nat, entity: bool, es: seq<PipelineEvent>, log: Option<PipelineEvent>)
    ensures Route(queues, capacity, entity, es + Sent(log))
      == Route(Route(queues, capacity, entity, es), capacity, entity, Sent(log))
  {
    if log.Some? {
      OfferAllSnoc(queues.0, capacity, es, log.value);
      OfferAllSnoc(queues.1, capacity, es, log.value);
      var q := Route(queues, capacity, entity, es);
      OfferAllSnoc(q.0, capacity, [], log.value);
      OfferAllSnoc(q.1, capacity, [], log.value);
      assert [] + [log.value] == [log.value];
    } else {
      assert es + [] == es;
    }
  }

  function Room(q: seq<PipelineEvent>, capacity: nat): nat
  {
    if |q| < capacity then capacity - |q| else 0
  }

  function Min(a: nat, b: nat): nat
  {
    if a <= b then a else b
  }

  /**
   * Successive sends keep what was queued and enqueue the longest prefix
   * of es that fits: once the queue is full every later event is dropped.
   */
  lemma {:induction false} OfferAllTakesPrefix(q: seq<PipelineEvent>, capacity: nat, es: seq<PipelineEvent>)
    ensures OfferAll(q, capacity, es) == q + es[..Min(|es|, Room(q, capacity))]
  {
    if |es| > 0 {
      var init := es[..|es| - 1];
      OfferAllTakesPrefix(q, capacity, init);
      assert es[..Min(|init|, Room(q, capacity))] == init[..Min(|init|, Room(q, capacity))];
      if |init| < Room(q, capacity) {
        assert es[..|init|] + [es[|es| - 1]] == es;
      }
    }
  }

  /** With room for all of them, every sent event is enqueued exactly once, in order. */
  lemma OfferAllWithRoom(q: seq<PipelineEvent>, capacity: nat, es: seq<PipelineEvent>)
    requires |q| + |es| <= capacity
    ensures OfferAll(q, capacity, es) == q + es
  {
    OfferAllTakesPrefix(q, capacity, es);
    assert es[..|es|] == es;
  }

  // ---------------------------------------------------------------------------
  // Registry
  // ---------------------------------------------------------------------------

  /** append(m.processors[k], f): a missing key reads as the empty list. */
  function AppendProcessor(p: map<string, seq<ProcessFunc>>, k: string, f: ProcessFunc): map<string, seq<ProcessFunc>>
  {
    p[k := (if k in p then p[k] else []) + [f]]
  }

  /** The registry Start builds on top of p. */
  function StartProcessors(p: map<string, seq<ProcessFunc>>, pod: bool, service: bool, podServiceLink: bool): map<string, seq<ProcessFunc>>
  {
    var p1 := if pod then AppendProcessor(AppendProcessor(p, Pod, ProcessPodEntity), Pod, ProcessPodReplicasetLink) else p;
    var p2 := if service then AppendProcessor(p1, Service, ProcessServiceEntity) else p1;
    if pod && service && podServiceLink then AppendProcessor(p2, PodService, ProcessPodServiceLink) else p2
  }

  function StartTypes(pod: bool, service: bool, podServiceLink: bool): seq<string>
  {
    (if pod then [Pod] else []) + (if service then [Service] else [])
    + (if pod && service && podServiceLink then [PodService] else [])
  }

  /** The manager registrations of Start: the link type is never registered. */
  function StartCalls(pod: bool, service: bool): seq<ManagerCall>
  {
    (if pod then [RegisterSendFunc(Pod)] else []) + (if service then [RegisterSendFunc(Service)] else [])
  }

  /** The manager unregistrations of Stop, including the never-registered link type. */
  function StopCalls(pod: bool, service: bool, podServiceLink: bool): seq<ManagerCall>
  {
    (if pod then [UnRegisterSendFunc(Pod)] else []) + (if service then [UnRegisterSendFunc(Service)] else [])
    + (if pod && service && podServiceLink then [UnRegisterSendFunc(PodService)] else [])
  }

  /**
   * Starting from an empty registry, POD maps to [pod entity, pod-replicaset
   * link], SERVICE to [service entity], and POD_SERVICE to [pod-service link]
   * exactly when pods, services and the link are all enabled; no other type
   * is registered.
   */
  lemma StartFromEmpty(pod: bool, service: bool, podServiceLink: bool)
    ensures var p := StartProcessors(map[], pod, service, podServiceLink);
      && (Pod in p <==> pod)
      && (pod ==> p[Pod] == [ProcessPodEntity, ProcessPodReplicasetLink])
      && (Service in p <==> service)
      && (service ==> p[Service] == [ProcessServiceEntity])
      && (PodService in p <==> pod && service && podServiceLink)
      && (pod && service && podServiceLink ==> p[PodService] == [ProcessPodServiceLink])
      && (forall k :: k in p ==> k == Pod || k == Service || k == PodService)
  {
    assert |Pod| == 3 && |Service| == 7 && |PodService| == 12;
  }

  /** Stop unregisters the link type, which Start never registered. */
  lemma StopUnregistersUnregisteredLink(pod: bool, service: bool, podServiceLink: bool)
    ensures RegisterSendFunc(PodService) !in StartCalls(pod, service)
    ensures UnRegisterSendFunc(PodService) in StopCalls(pod, service, podServiceLink) <==> pod && service && podServiceLink
  {
    assert |Pod| == 3 && |Service| == 7 && |PodService| == 12;
  }

  // ---------------------------------------------------------------------------
  // Conversion and keys
  // ---------------------------------------------------------------------------

  /** The string-valued contents, in order; other values are skipped. */
  function StringContents(cs: seq<(string, ContentValue)>): seq<LogContent>
  {
    if |cs| == 0 then []
    else
      var last := cs[|cs| - 1];
      StringContents(cs[..|cs| - 1])
      + (if last.1.StringValue? then [LogContent(last.0, last.1.s)] else [])
  }

  /** convertPipelineEvent2Log; the timestamp is truncated to 32 bits. */
  function ConvertedLog(event: PipelineEvent): Option<Log>
  {
    match event
    case LogEvent(contents, timestamp) => Some(Log(StringContents(contents), timestamp % 0x1_0000_0000))
    case OtherEvent(_) => None
  }

  /** The converted log holds exactly the string-valued contents. */
  lemma {:induction false} StringContentsExactly(cs: seq<(string, ContentValue)>, k: string, v: string)
    ensures LogContent(k, v) in StringContents(cs) <==> (k, StringValue(v)) in cs
    ensures |StringContents(cs)| <= |cs|
  {
    if |cs| > 0 {
      var init := cs[..|cs| - 1];
      StringContentsExactly(init, k, v);
      assert cs == init + [cs[|cs| - 1]];
    }
  }

  /** Only log events convert; others give nil. */
  lemma ConvertedLogIff(event: PipelineEvent)
    ensures ConvertedLog(event).Some? <==> event.LogEvent?
    ensures ConvertedLog(event).Some? ==> ConvertedLog(event).value.time < 0x1_0000_0000
  {
  }

  function ConvertAll(group: seq<PipelineEvent>): seq<Option<Log>>
  {
    if |group| == 0 then [] else ConvertAll(group[..|group| - 1]) + [ConvertedLog(group[|group| - 1])]
  }

  lemma ConvertAllAppend(a: seq<PipelineEvent>, b: seq<PipelineEvent>)
    ensures ConvertAll(a + b) == ConvertAll(a) + ConvertAll(b)
    decreases |b|
  {
    if |b| > 0 {
      ConvertAllAppend(a, b[..|b| - 1]);
      assert (a + b)[..|a + b| - 1] == a + b[..|b| - 1];
    } else {
      assert a + b == a;
    }
  }

  /** convertPipelineEvent2Log. */
  method ConvertPipelineEventToLog(event: PipelineEvent) returns (log: Option<Log>)
    ensures log == ConvertedLog(event)
  {
    if event.OtherEvent? {
      return None;
    }
    var contents: seq<LogContent> := [];
    var i := 0;
    while i < |event.contents|
      invariant 0 <= i <= |event.contents|
      invariant contents == StringContents(event.contents[..i])
    {
      var kv := event.contents[i];
      if kv.1.StringValue? {
        contents := contents + [LogContent(kv.0, kv.1.s)];
      }
      assert event.contents[..i + 1][..i] == event.contents[..i];
      i := i + 1;
    }
    assert event.contents[..i] == event.contents;
    return Some(Log(contents, event.timestamp % 0x1_0000_0000));
  }

  /** genKey: the hex MD5 digest of namespace+kind+name, joined without a separator. */
  function GenKey(md5Hex: string -> string, namespace: string, kind: string, name: string): string
  {
    md5Hex(namespace + kind + name)
  }

  /** The key depends on the concatenation only. */
  lemma GenKeyOfConcatenation(md5Hex: string -> string, n1: string, k1: string, m1: string, n2: string, k2: string, m2: string)
    requires n1 + k1 + m1 == n2 + k2 + m2
    ensures GenKey(md5Hex, n1, k1, m1) == GenKey(md5Hex, n2, k2, m2)
  {
  }

  /** Different triples share a key when their concatenations agree. */
  lemma GenKeyCollision(md5Hex: string -> string)
    ensures GenKey(md5Hex, "ab", "c", "pod") == GenKey(md5Hex, "a", "bc", "pod")
  {
    assert "ab" + "c" + "pod" == "a" + "bc" + "pod";
  }

  /**
   * Changing exactly one of the three components always changes the digested
   * string: when two components agree and the concatenations agree, so does
   * the third.
   */
  lemma ConcatenationDeterminesOneComponent(n1: string, k1: string, m1: string, n2: string, k2: string, m2: string)
    requires (n1 == n2 && k1 == k2) || (n1 == n2 && m1 == m2) || (k1 == k2 && m1 == m2)
    requires n1 + k1 + m1 == n2 + k2 + m2
    ensures n1 == n2 && k1 == k2 && m1 == m2
  {
    var s := n1 + k1 + m1;
    if n1 == n2 && k1 == k2 {
      assert m1 == s[|n1 + k1|..];
      assert m2 == (n2 + k2 + m2)[|n2 + k2|..];
    }
    if n1 == n2 && m1 == m2 {
      assert |k1| == |k2|;
      assert k1 == s[|n1|..|n1| + |k1|];
      assert k2 == (n2 + k2 + m2)[|n2|..|n2| + |k2|];
    }
    if k1 == k2 && m1 == m2 {
      assert |n1| == |n2|;
      assert n1 == s[..|n1|];
      assert n2 == (n2 + k2 + m2)[..|n2|];
    }
  }

  // ---------------------------------------------------------------------------
  // The collector
  // ---------------------------------------------------------------------------

  class Collector {
    // Switches of the owning input.
    const pod: bool
    const service: bool
    const podServiceLink: bool
    /** Capacity of each of the two buffered channels. */
    const capacity: nat

    var processors: map<string, seq<ProcessFunc>>
    var entityTypes: seq<string>
    /** The calls made on the metadata manager so far. */
    var managerCalls: seq<ManagerCall>
    var entityBuffer: seq<PipelineEvent>
    var entityLinkBuffer: seq<PipelineEvent>
    /** The stop channel has been closed. */
    var stopClosed: bool

    constructor (pod: bool, service: bool, podServiceLink: bool, capacity: nat)
      ensures this.pod == pod && this.service == service && this.podServiceLink == podServiceLink
      ensures this.capacity == capacity
      ensures processors == map[] && entityTypes == [] && managerCalls == []
      ensures entityBuffer == [] && entityLinkBuffer == [] && !stopClosed
    {
      this.pod := pod;
      this.service := service;
      this.podServiceLink := podServiceLink;
      this.capacity := capacity;
      processors := map[];
      entityTypes := [];
      managerCalls := [];
      entityBuffer := [];
      entityLinkBuffer := [];
      stopClosed := false;
    }

    /** Start: registers the enabled transforms and starts the batcher it returns. */
    method Start() returns (b: Batcher)
      modifies this
      ensures processors == StartProcessors(old(processors), pod, service, podServiceLink)
      ensures entityTypes == old(entityTypes) + StartTypes(pod, service, podServiceLink)
      ensures managerCalls == old(managerCalls) + StartCalls(pod, service)
      ensures entityBuffer == old(entityBuffer) && entityLinkBuffer == old(entityLinkBuffer)
      ensures stopClosed == old(stopClosed)
      ensures fresh(b) && b.Valid() && b.entityGroup == [] && b.entityLinkGroup == []
      ensures b.collected == [] && !b.returned
    {
      var calls, procs, types := managerCalls, processors, entityTypes;
      if pod {
        calls := calls + [RegisterSendFunc(Pod)];
        procs := AppendProcessor(procs, Pod, ProcessPodEntity);
        procs := AppendProcessor(procs, Pod, ProcessPodReplicasetLink);
        types := types + [Pod];
      }
      if service {
        calls := calls + [RegisterSendFunc(Service)];
        procs := AppendProcessor(procs, Service, ProcessServiceEntity);
        types := types + [Service];
      }
      if pod && service && podServiceLink {
        procs := AppendProcessor(procs, PodService, ProcessPodServiceLink);
        types := types + [PodService];
      }
      assert procs == StartProcessors(processors, pod, service, podServiceLink);
      assert types == entityTypes + StartTypes(pod, service, podServiceLink);
      assert calls == managerCalls + StartCalls(pod, service);
      managerCalls, processors, entityTypes := calls, procs, types;
      b := new Batcher();
    }

    /** Stop: unregisters the enabled types and closes the stop channel. */
    method Stop()
      modifies this
      ensures managerCalls == old(managerCalls) + StopCalls(pod, service, podServiceLink)
      ensures stopClosed
      ensures processors == old(processors) && entityTypes == old(entityTypes)
      ensures entityBuffer == old(entityBuffer) && entityLinkBuffer == old(entityLinkBuffer)
    {
      if pod {
        managerCalls := managerCalls + [UnRegisterSendFunc(Pod)];
      }
      if service {
        managerCalls := managerCalls + [UnRegisterSendFunc(Service)];
      }
      if pod && service && podServiceLink {
        managerCalls := managerCalls + [UnRegisterSendFunc(PodService)];
      }
      stopClosed := true;
    }

    /** send: the flag chooses entityBuffer; the event is enqueued if there is room, else dropped. */
    method Send(event: PipelineEvent, entity: bool)
      modifies this
      ensures entityBuffer == if entity then Offer(old(entityBuffer), capacity, event) else old(entityBuffer)
      ensures entityLinkBuffer == if entity then old(entityLinkBuffer) else Offer(old(entityLinkBuffer), capacity, event)
      ensures processors == old(processors) && entityTypes == old(entityTypes)
      ensures managerCalls == old(managerCalls) && stopClosed == old(stopClosed)
    {
      if entity {
        if |entityBuffer| < capacity {
          entityBuffer := entityBuffer + [event];
        }
      } else {
        if |entityLinkBuffer| < capacity {
          entityLinkBuffer := entityLinkBuffer + [event];
        }
      }
    }

    /** One iteration of the handlers' loop: runs transform f and sends its result, if any. */
    method RunTransform(run: Transform, f: ProcessFunc, obj: MetaObject, verb: string, link: bool)
      modifies this
      ensures (entityBuffer, entityLinkBuffer)
        == Route((old(entityBuffer), old(entityLinkBuffer)), capacity, link, Sent(run(f, obj, verb)))
      ensures processors == old(processors) && entityTypes == old(entityTypes)
      ensures managerCalls == old(managerCalls) && stopClosed == old(stopClosed)
    {
      var log := run(f, obj, verb);
      if log.Some? {
        Send(log.value, link);
        OfferAllSnoc(old(entityBuffer), capacity, [], log.value);
        OfferAllSnoc(old(entityLinkBuffer), capacity, [], log.value);
        assert [] + [log.value] == [log.value];
      }
    }

    /**
     * handleAdd, handleUpdate and handleDelete: runs the transforms registered
     * for the object's type in order and sends each non-nil result, passing
     * isLink of the type as send's entity flag.
     */
    method HandleWithLabel(run: Transform, obj: MetaObject, verb: string)
      modifies this
      ensures (entityBuffer, entityLinkBuffer) == Route((old(entityBuffer), old(entityLinkBuffer)), capacity,
        IsLink(obj.resourceType),
        if obj.resourceType in processors then Outputs(run, processors[obj.resourceType], obj, verb) else [])
      ensures processors == old(processors) && entityTypes == old(entityTypes)
      ensures managerCalls == old(managerCalls) && stopClosed == old(stopClosed)
    {
      if obj.resourceType in processors {
        var fs := processors[obj.resourceType];
        var link := IsLink(obj.resourceType);
        ghost var queues := (entityBuffer, entityLinkBuffer);
        var i := 0;
        while i < |fs|
          invariant 0 <= i <= |fs|
          invariant processors == old(processors) && entityTypes == old(entityTypes)
          invariant managerCalls == old(managerCalls) && stopClosed == old(stopClosed)
          invariant (entityBuffer, entityLinkBuffer) == Route(queues, capacity, link, Outputs(run, fs[..i], obj, verb))
        {
          assert fs[..i + 1][..i] == fs[..i];
          assert fs[..i + 1][i] == fs[i];
          RouteSnoc(queues, capacity, link, Outputs(run, fs[..i], obj, verb), run(fs[i], obj, verb));
          RunTransform(run, fs[i], obj, verb, link);
          i := i + 1;
        }
        assert fs[..i] == fs;
      }
    }

    /** handleEvent: dispatches on the event kind; an unknown kind sends nothing. */
    method HandleEvent(run: Transform, event: MetaEvent)
      modifies this
      ensures (entityBuffer, entityLinkBuffer) == Route((old(entityBuffer), old(entityLinkBuffer)), capacity,
        IsLink(event.obj.resourceType), Dispatched(old(processors), run, event))
      ensures processors == old(processors) && entityTypes == old(entityTypes)
      ensures managerCalls == old(managerCalls) && stopClosed == old(stopClosed)
    {
      match event.eventType
      case EventTypeAdd => HandleWithLabel(run, event.obj, "create");
      case EventTypeUpdate => HandleWithLabel(run, event.obj, "update");
      case EventTypeDelete => HandleWithLabel(run, event.obj, "delete");
      case OtherEventType(_) =>
    }
  }

  /**
   * The loop of sendInBackground as a step machine: its two local groups, the
   * logs handed to the collector so far, and whether the loop has returned.
   * The ghost fields record every event taken off each queue and every event
   * flushed from each group.
   */
  class Batcher {
    var entityGroup: seq<PipelineEvent>
    var entityLinkGroup: seq<PipelineEvent>
    /** The arguments of AddRawLog so far; a nil log is None. */
    var collected: seq<Option<Log>>
    var returned: bool
    ghost var entityReceived: seq<PipelineEvent>
    ghost var linkReceived: seq<PipelineEvent>
    ghost var entityFlushed: seq<PipelineEvent>
    ghost var linkFlushed: seq<PipelineEvent>

    /** Groups stay below the flush size, and every received event is flushed or still in its group, in order. */
    ghost predicate Valid()
      reads this
    {
      && |entityGroup| < GroupFlushSize && |entityLinkGroup| < GroupFlushSize
      && entityReceived == entityFlushed + entityGroup
      && linkReceived == linkFlushed + entityLinkGroup
    }

    constructor ()
      ensures Valid() && entityGroup == [] && entityLinkGroup == [] && collected == [] && !returned
      ensures entityReceived == [] && linkReceived == []
    {
      entityGroup := [];
      entityLinkGroup := [];
      collected := [];
      returned := false;
      entityReceived := [];
      linkReceived := [];
      entityFlushed := [];
      linkFlushed := [];
    }

    /** sendFunc without the reset: hands every event of the group to the collector, in order. */
    method Collect(group: seq<PipelineEvent>)
      modifies this`collected
      ensures collected == old(collected) + ConvertAll(group)
    {
      var i := 0;
      while i < |group|
        invariant 0 <= i <= |group|
        invariant collected == old(collected) + ConvertAll(group[..i])
      {
        var log := ConvertPipelineEventToLog(group[i]);
        assert group[..i + 1][..i] == group[..i];
        collected := collected + [log];
        i := i + 1;
      }
      assert group[..i] == group;
    }

    /** The select case that takes an event off entityBuffer. */
    method ReceiveEntity(c: Collector)
      requires Valid()
      modifies this, c`entityBuffer
      ensures Valid()
      ensures entityLinkGroup == old(entityLinkGroup) && returned == old(returned)
      ensures old(returned) || old(c.entityBuffer) == [] ==>
        c.entityBuffer == old(c.entityBuffer) && entityGroup == old(entityGroup) && collected == old(collected)
      ensures !old(returned) && old(c.entityBuffer) != [] ==>
        var e := old(c.entityBuffer)[0];
        && c.entityBuffer == old(c.entityBuffer)[1..]
        && entityReceived == old(entityReceived) + [e]
        && (|old(entityGroup)| + 1 < GroupFlushSize ==> entityGroup == old(entityGroup) + [e] && collected == old(collected))
        && (|old(entityGroup)| + 1 == GroupFlushSize ==>
              entityGroup == [] && collected == old(collected) + ConvertAll(old(entityGroup) + [e]))
    {
      if returned || |c.entityBuffer| == 0 {
        return;
      }
      var e := c.entityBuffer[0];
      c.entityBuffer := c.entityBuffer[1..];
      entityReceived := entityReceived + [e];
      entityGroup := entityGroup + [e];
      if |entityGroup| >= GroupFlushSize {
        Collect(entityGroup);
        entityFlushed := entityFlushed + entityGroup;
        entityGroup := [];
      }
    }

    /** The select case that takes an event off entityLinkBuffer. */
    method ReceiveLink(c: Collector)
      requires Valid()
      modifies this, c`entityLinkBuffer
      ensures Valid()
      ensures entityGroup == old(entityGroup) && returned == old(returned)
      ensures old(returned) || old(c.entityLinkBuffer) == [] ==>
        c.entityLinkBuffer == old(c.entityLinkBuffer) && entityLinkGroup == old(entityLinkGroup) && collected == old(collected)
      ensures !old(returned) && old(c.entityLinkBuffer) != [] ==>
        var e := old(c.entityLinkBuffer)[0];
        && c.entityLinkBuffer == old(c.entityLinkBuffer)[1..]
        && linkReceived == old(linkReceived) + [e]
        && (|old(entityLinkGroup)| + 1 < GroupFlushSize ==> entityLinkGroup == old(entityLinkGroup) + [e] && collected == old(collected))
        && (|old(entityLinkGroup)| + 1 == GroupFlushSize ==>
              entityLinkGroup == [] && collected == old(collected) + ConvertAll(old(entityLinkGroup) + [e]))
    {
      if returned || |c.entityLinkBuffer| == 0 {
        return;
      }
      var e := c.entityLinkBuffer[0];
      c.entityLinkBuffer := c.entityLinkBuffer[1..];
      linkReceived := linkReceived + [e];
      entityLinkGroup := entityLinkGroup + [e];
      if |entityLinkGroup| >= GroupFlushSize {
        Collect(entityLinkGroup);
        linkFlushed := linkFlushed + entityLinkGroup;
        entityLinkGroup := [];
      }
    }

    /** The idle-timeout case: flushes the entity group, then the link group. */
    method Timeout()
      requires Valid()
      modifies this
      ensures Valid()
      ensures returned == old(returned)
      ensures !old(returned) ==>
        && entityGroup == [] && entityLinkGroup == []
        && collected == old(collected) + ConvertAll(old(entityGroup)) + ConvertAll(old(entityLinkGroup))
      ensures old(returned) ==>
        entityGroup == old(entityGroup) && entityLinkGroup == old(entityLinkGroup) && collected == old(collected)
      ensures entityReceived == old(entityReceived) && linkReceived == old(linkReceived)
    {
      if returned {
        return;
      }
      if |entityGroup| > 0 {
        Collect(entityGroup);
        entityFlushed := entityFlushed + entityGroup;
        entityGroup := [];
      }
      if |entityLinkGroup| > 0 {
        Collect(entityLinkGroup);
        linkFlushed := linkFlushed + entityLinkGroup;
        entityLinkGroup := [];
      }
    }

    /** The stop case: once the stop channel is closed the loop returns, and buffered events are not flushed. */
    method StopStep(c: Collector)
      requires Valid()
      modifies this`returned
      ensures Valid()
      ensures returned == (old(returned) || c.stopClosed)
      ensures entityGroup == old(entityGroup) && entityLinkGroup == old(entityLinkGroup) && collected == old(collected)
    {
      if c.stopClosed {
        returned := true;
      }
    }
  }
}
