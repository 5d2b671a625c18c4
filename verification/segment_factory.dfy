/** The two producer entry points: each starts one message broker segment for
    the publish call and, when the call carries the client's own properties
    type, injects distributed-trace headers into it. */
module SegmentFactory {
  import opened Options
  import opened Destinations
  import opened Headers
  import opened Accessors
  import opened HeaderWriter

  /** Full name of the only carrier type header injection is attempted on. */
  const BasicPropertiesType: string := "RabbitMQ.Client.Framing.BasicProperties"

  const VendorName: string := "RabbitMQ"

  datatype BrokerAction = Produce | Consume | Purge

  datatype Segment = MessageBrokerSegment(vendor: string, kind: DestinationKind,
                                          action: BrokerAction, destinationName: Option<string>)

  /** The enclosing transaction as far as this code sees it: the segments
      started so far, and the propagation headers it will inject. */
  datatype Transaction = Transaction(segments: seq<Segment>, traceHeaders: seq<Header>)

  /** A value passed to the instrumented method. */
  datatype Argument = NullArgument | StringArgument(text: string) | ObjectArgument(obj: Carrier)

  datatype MethodCall = MethodCall(arguments: seq<Argument>)

  /** Starting a segment records it on the transaction and returns it. */
  function StartMessageBrokerSegment(tx: Transaction, kind: DestinationKind, action: BrokerAction,
                                     vendor: string, name: Option<string>): (r: (Segment, Transaction))
    ensures r.0 == MessageBrokerSegment(vendor, kind, action, name)
    ensures r.1.segments == tx.segments + [r.0]
    ensures r.1.traceHeaders == tx.traceHeaders
  {
    var s := MessageBrokerSegment(vendor, kind, action, name);
    (s, tx.(segments := tx.segments + [s]))
  }

  /** The argument extractions succeed: a properties object at
      `propertiesIndex` and a non-null routing key at position 1. */
  predicate Extractable(call: MethodCall, propertiesIndex: int) {
    && 0 <= propertiesIndex < |call.arguments|
    && call.arguments[propertiesIndex].ObjectArgument?
    && 1 < |call.arguments|
    && call.arguments[1].StringArgument?
  }

  function RoutingKey(call: MethodCall): string
    requires 1 < |call.arguments| && call.arguments[1].StringArgument?
  {
    call.arguments[1].text
  }

  function Properties(call: MethodCall, propertiesIndex: int): Carrier
    requires Extractable(call, propertiesIndex)
  {
    call.arguments[propertiesIndex].obj
  }

  /** The segment and transaction after the call, and the properties object
      with the dictionaries after injection (or as they were when skipped). */
  datatype Published = Published(segment: Segment, transaction: Transaction, target: Target)

  /** The cached-getter entry point also reports the getter slot and any
      fault raised by its callback. */
  datatype PublishedCached = PublishedCached(segment: Segment, transaction: Transaction, target: Target,
                                             slot: Option<Accessor>, fault: Option<Fault>)

  /** Exactly one Produce segment is started for the routing key, tagged with
      its destination kind and its (possibly hidden) name, and returned. On a
      properties object of any other type nothing is injected and nothing is
      touched; on the client's own type the transaction's headers are written
      through the late-bound callback. */
  function CreateSegmentForPublishWrappers(call: MethodCall, tx: Transaction, propertiesIndex: int,
                                           heap: Heap, freshIsReadOnlyView: bool): (p: Published)
    requires Extractable(call, propertiesIndex)
    requires WellFormed(heap, Properties(call, propertiesIndex))
    ensures p.transaction.segments == tx.segments + [p.segment]
    ensures p.transaction.traceHeaders == tx.traceHeaders
    ensures p.segment.vendor == VendorName && p.segment.action == Produce
    ensures p.segment.kind == GetBrokerDestinationType(RoutingKey(call))
    ensures p.segment.destinationName == None <==> HasTempPrefix(RoutingKey(call))
    ensures p.segment.destinationName != None ==> p.segment.destinationName == Some(RoutingKey(call))
    ensures Properties(call, propertiesIndex).typeName != BasicPropertiesType ==>
      p.target == Target(Properties(call, propertiesIndex), heap)
    ensures Properties(call, propertiesIndex).typeName == BasicPropertiesType ==>
      p.target == InjectDynamic(Target(Properties(call, propertiesIndex), heap), tx.traceHeaders, freshIsReadOnlyView)
  {
    var properties := Properties(call, propertiesIndex);
    var routingKey := RoutingKey(call);
    var kind := GetBrokerDestinationType(routingKey);
    var name := ResolveDestinationName(kind, routingKey);
    var (segment, tx') := StartMessageBrokerSegment(tx, kind, Produce, VendorName, name);
    var t := Target(properties, heap);
    if properties.typeName != BasicPropertiesType then Published(segment, tx', t)
    else Published(segment, tx', InjectDynamic(t, tx.traceHeaders, freshIsReadOnlyView))
  }

  /** The statically typed entry point: the same segment and the same skip
      rule, with headers written through the cached-getter callback; the
      slot is left alone when injection is skipped. */
  function CreateSegmentForPublishWrappers6Plus(call: MethodCall, tx: Transaction, propertiesIndex: int,
                                                heap: Heap, slot: Option<Accessor>,
                                                freshIsReadOnlyView: bool): (p: PublishedCached)
    requires Extractable(call, propertiesIndex)
    requires WellFormed(heap, Properties(call, propertiesIndex))
    ensures p.transaction.segments == tx.segments + [p.segment]
    ensures p.transaction.traceHeaders == tx.traceHeaders
    ensures p.segment.vendor == VendorName && p.segment.action == Produce
    ensures p.segment.kind == GetBrokerDestinationType(RoutingKey(call))
    ensures p.segment.destinationName == None <==> HasTempPrefix(RoutingKey(call))
    ensures p.segment.destinationName != None ==> p.segment.destinationName == Some(RoutingKey(call))
    ensures Properties(call, propertiesIndex).typeName != BasicPropertiesType ==>
      p.target == Target(Properties(call, propertiesIndex), heap) && p.slot == slot && p.fault == None
    ensures Properties(call, propertiesIndex).typeName == BasicPropertiesType ==>
      var s := InjectCached(slot, Target(Properties(call, propertiesIndex), heap), tx.traceHeaders, freshIsReadOnlyView);
      p.target == s.target && p.slot == s.slot && p.fault == s.fault
  {
    var properties := Properties(call, propertiesIndex);
    var routingKey := RoutingKey(call);
    var kind := GetBrokerDestinationType(routingKey);
    var name := ResolveDestinationName(kind, routingKey);
    var (segment, tx') := StartMessageBrokerSegment(tx, kind, Produce, VendorName, name);
    var t := Target(properties, heap);
    if properties.typeName != BasicPropertiesType then PublishedCached(segment, tx', t, slot, None)
    else
      var s := InjectCached(slot, t, tx.traceHeaders, freshIsReadOnlyView);
      PublishedCached(segment, tx', s.target, s.slot, s.fault)
  }

  /** On a properties object of another type, or when the getter slot is
      empty or serves the client's type, the two entry points are
      interchangeable: same segment, same transaction, same
      carrier and dictionaries, and no fault. */
  lemma EntryPointsAgree(call: MethodCall, tx: Transaction, propertiesIndex: int, heap: Heap,
                         slot: Option<Accessor>, freshIsReadOnlyView: bool)
    requires Extractable(call, propertiesIndex)
    requires WellFormed(heap, Properties(call, propertiesIndex))
    requires Properties(call, propertiesIndex).typeName == BasicPropertiesType ==> Serves(slot, BasicPropertiesType)
    ensures var a := CreateSegmentForPublishWrappers(call, tx, propertiesIndex, heap, freshIsReadOnlyView);
      var b := CreateSegmentForPublishWrappers6Plus(call, tx, propertiesIndex, heap, slot, freshIsReadOnlyView);
      a.segment == b.segment && a.transaction == b.transaction && a.target == b.target && b.fault == None
  {
    var c := Properties(call, propertiesIndex);
    if c.typeName == BasicPropertiesType {
      CachedMatchesDynamic(slot, Target(c, heap), tx.traceHeaders, freshIsReadOnlyView);
    }
  }

  /** A temporary routing key with a properties object of the client's type
      whose headers are null, published through the statically typed entry
      point with an empty getter slot: the segment is a temporary queue with its name
      hidden, and the carrier ends up with a dictionary holding exactly the
      requested propagation keys and did not exist before. */
  lemma TempQueueWithNullHeaders(heap: Heap, tx: Transaction, freshIsReadOnlyView: bool)
    requires heap.Valid()
    requires |tx.traceHeaders| > 0
    ensures var call := MethodCall([NullArgument, StringArgument("amq.gen-abc123"),
                                    ObjectArgument(Carrier(BasicPropertiesType, NullValue))]);
      var p := CreateSegmentForPublishWrappers6Plus(call, tx, 2, heap, None, freshIsReadOnlyView);
      && p.segment == MessageBrokerSegment(VendorName, TempQueue, Produce, None)
      && p.fault == None
      && p.target.carrier.headers.MapValue?
      && p.target.carrier.headers.ref !in heap.maps
      && p.target.heap.maps[p.target.carrier.headers.ref].entries.Keys == KeysOf(tx.traceHeaders)
  {
    var c := Carrier(BasicPropertiesType, NullValue);
    PrefixWinsOverDots("gen-abc123");
    assert TempQueuePrefix + "gen-abc123" == "amq.gen-abc123";
    CachedMatchesDynamic(None, Target(c, heap), tx.traceHeaders, freshIsReadOnlyView);
    InjectIntoNullHeaders(Target(c, heap), tx.traceHeaders, freshIsReadOnlyView);
  }

  /** A dotted routing key with a properties object of some other type: the
      segment is a topic under its own name, and the carrier and every
      dictionary are left as they were, through either entry point; the
      statically typed one also leaves the getter slot alone and never
      faults. */
  lemma TopicWithUnknownCarrier(heap: Heap, tx: Transaction, c: Carrier, slot: Option<Accessor>,
                                freshIsReadOnlyView: bool)
    requires WellFormed(heap, c)
    requires c.typeName != BasicPropertiesType
    ensures var call := MethodCall([NullArgument, StringArgument("orders.created"), ObjectArgument(c)]);
      var p := CreateSegmentForPublishWrappers(call, tx, 2, heap, freshIsReadOnlyView);
      var q := CreateSegmentForPublishWrappers6Plus(call, tx, 2, heap, slot, freshIsReadOnlyView);
      && p.segment == MessageBrokerSegment(VendorName, Topic, Produce, Some("orders.created"))
      && p.target == Target(c, heap)
      && q.segment == p.segment
      && q.target == Target(c, heap)
      && q.slot == slot
      && q.fault == None
  {
    assert !HasTempPrefix("orders.created") by {
      assert "orders.created"[0] != TempQueuePrefix[0];
    }
    assert "orders.created"[6] == '.';
  }

  /** On a properties object of the client's type with headers to inject,
      the late-bound entry point leaves the carrier bound to a dictionary
      showing its previous entries overlaid with the transaction's headers,
      and changes no dictionary the carrier did not own. */
  lemma InjectionOnBasicProperties(call: MethodCall, tx: Transaction, propertiesIndex: int,
                                   heap: Heap, freshIsReadOnlyView: bool)
    requires Extractable(call, propertiesIndex)
    requires WellFormed(heap, Properties(call, propertiesIndex))
    requires Properties(call, propertiesIndex).typeName == BasicPropertiesType
    requires |tx.traceHeaders| > 0
    ensures var c := Properties(call, propertiesIndex);
      var p := CreateSegmentForPublishWrappers(call, tx, propertiesIndex, heap, freshIsReadOnlyView);
      && p.target.carrier.typeName == BasicPropertiesType
      && p.target.carrier.headers.MapValue?
      && p.target.heap.maps[p.target.carrier.headers.ref].entries == Overlay(Entries(heap, c), tx.traceHeaders)
      && Framed(Target(c, heap), p.target)
  {
    var t := Target(Properties(call, propertiesIndex), heap);
    InjectEntries(t, tx.traceHeaders, freshIsReadOnlyView);
    InjectOwnership(t, tx.traceHeaders, freshIsReadOnlyView);
  }
}
