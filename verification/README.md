# RabbitMQ producer instrumentation: a Dafny model

This project models the producer-side helper of the New Relic .NET agent's
RabbitMQ wrapper (`RabbitMqHelper`). When an application publishes a message,
the helper does the following:

- It classifies the routing key as a queue, a topic or a temporary queue.
- It hides the names of temporary destinations.
- It starts one message broker "Produce" segment on the current transaction.
- If the publish call carries the client's own `BasicProperties` object, it
  asks the transaction to inject distributed-trace headers. The write
  callback it supplies never writes into a header dictionary of a read-only
  type. It copies that dictionary into a new one, binds the new one to the
  properties object, and writes there.

The model is purely functional:

- **Destinations**: `GetBrokerDestinationType` and `ResolveDestinationName`.
- **Headers**: header dictionaries live in a `Heap` that maps object identities
  (`MapRef`) to `HeaderMap` values.
  - Each dictionary carries an opaque `readOnlyView` flag. The flag stands for
    "its runtime type implements the read-only dictionary interface".
  - A properties object is a `Carrier`: its runtime type name and its
    `Headers` property. That property is null, a dictionary, or some other
    object.
- **Accessors**: the static getter slot behind `GetHeaders`, an
  `Option<Accessor>`.
- **HeaderWriter**: the copy-on-write callback.
  - `SetHeaderDynamic` is the callback of the late-bound entry point.
  - `SetHeaderCached` is the callback of the statically typed entry point.
  - Header injection is the callback applied to each header of an arbitrary
    sequence of (key, value) pairs.
- **SegmentFactory**: the two entry points, `CreateSegmentForPublishWrappers`
  and `CreateSegmentForPublishWrappers6Plus`.

The flag of a freshly allocated dictionary is the parameter
`freshIsReadOnlyView`, and every result holds for both of its values. Each
write re-runs the read-only test at RabbitMqHelper.cs:82 and :122.
`Dictionary<string, object>` itself implements
`IReadOnlyDictionary<string, object>`, so on .NET the test also succeeds on
the dictionary an earlier write allocated, and every write copies
(`HeaderWriter.InjectAllocations`).

The getter cache is a single static slot (RabbitMqHelper.cs:22-25).
`Accessors.GetHeaders` fills the slot on first use with a getter for that
carrier's type, and no later call replaces it. A getter
invoked on an instance of a different type is modelled as an `InvalidCast`
fault, because a generated getter casts its argument to the type it was
generated for. On the statically typed path that fault stops the injection.

## Model

| member | source | states |
|---|---|---|
| Destinations.GetBrokerDestinationType | src/Agent/NewRelic/Agent/Extensions/Providers/Wrapper/RabbitMq/RabbitMqHelper.cs:37-43 | Total over strings. TempQueue exactly when the name begins with "amq.", checked character by character. Topic exactly when it does not and some position holds '.'. Queue exactly when it has neither. TempTopic never. |
| Destinations.ResolveDestinationName | src/Agent/NewRelic/Agent/Extensions/Providers/Wrapper/RabbitMq/RabbitMqHelper.cs:45-52 | The result is null exactly for TempQueue and TempTopic. For every other kind it is the given name, unchanged. |
| Destinations.PrefixWinsOverDots | src/Agent/NewRelic/Agent/Extensions/Providers/Wrapper/RabbitMq/RabbitMqHelper.cs:39-40 | "amq." followed by any text, dots included, is a temporary queue. |
| Destinations.EmptyNameIsQueue | src/Agent/NewRelic/Agent/Extensions/Providers/Wrapper/RabbitMq/RabbitMqHelper.cs:42 | The empty routing key is classified Queue. |
| Destinations.ResolvedNameOfRoutingKey | src/Agent/NewRelic/Agent/Extensions/Providers/Wrapper/RabbitMq/RabbitMqHelper.cs:62-63 | Classifying a routing key and then resolving its name hides the name exactly when it carries the temporary prefix. Otherwise the key itself is shown. |
| Headers.AsHeaderMap | src/Agent/NewRelic/Agent/Extensions/Providers/Wrapper/RabbitMq/RabbitMqHelper.cs:26 | The dictionary cast keeps a dictionary reference and turns null or any non-dictionary value into null. |
| Headers.SetHeaders | src/Agent/NewRelic/Agent/Extensions/Providers/Wrapper/RabbitMq/RabbitMqHelper.cs:29-35 | Assigning Headers binds the carrier to the given dictionary and keeps its type. |
| Headers.OverlayLastWriteWins | src/Agent/NewRelic/Agent/Extensions/Providers/Wrapper/RabbitMq/RabbitMqHelper.cs:88 | Repeated indexer writes are last-write-wins: a written key shows its last value, and an unwritten key keeps its old one. |
| Accessors.GetHeaders | src/Agent/NewRelic/Agent/Extensions/Providers/Wrapper/RabbitMq/RabbitMqHelper.cs:22-27 | An empty slot is filled with a getter for the carrier's type, and a full slot is kept. A getter of the carrier's type reads Headers, and a non-dictionary value reads as null. Any other getter faults. |
| Accessors.SlotWrittenOnce | src/Agent/NewRelic/Agent/Extensions/Providers/Wrapper/RabbitMq/RabbitMqHelper.cs:22-25 | Across any series of lookups, a full slot is never replaced. An empty one ends up holding the getter for the first carrier looked up. |
| Accessors.SetThenGet | src/Agent/NewRelic/Agent/Extensions/Providers/Wrapper/RabbitMq/RabbitMqHelper.cs:23-35 | Reading back, through a getter that serves the carrier's type, after the per-instance setter yields the dictionary just assigned. The setter leaves the getter slot alone. |
| HeaderWriter.WriteThrough | src/Agent/NewRelic/Agent/Extensions/Providers/Wrapper/RabbitMq/RabbitMqHelper.cs:77-88 | For null or read-only headers: a new dictionary holds the old entries plus key and value, and the carrier is rebound to it. For a writable dictionary: it is updated in place and the carrier is not rebound. No other dictionary changes. |
| HeaderWriter.SetHeaderDynamic | src/Agent/NewRelic/Agent/Extensions/Providers/Wrapper/RabbitMq/RabbitMqHelper.cs:73-89 | After the late-bound callback, the carrier's dictionary shows its previous entries with the key set to the value. When the callback copies, the carrier is bound to a dictionary that did not exist before; otherwise the carrier is unchanged. No dictionary the carrier did not own changes. |
| HeaderWriter.InjectEntries | src/Agent/NewRelic/Agent/Extensions/Providers/Wrapper/RabbitMq/RabbitMqHelper.cs:73-91 | Injecting no headers changes nothing. Otherwise the carrier ends up bound to a dictionary showing its old entries overlaid with the injected headers, last write winning. |
| HeaderWriter.InjectOwnership | src/Agent/NewRelic/Agent/Extensions/Providers/Wrapper/RabbitMq/RabbitMqHelper.cs:77-88 | Only a writable dictionary the carrier owned may change, and no dictionary's read-only flag changes. When the first write copies, the carrier ends up bound to a dictionary that did not exist before. Otherwise the carrier is not rebound. |
| HeaderWriter.InjectIntoNullHeaders | src/Agent/NewRelic/Agent/Extensions/Providers/Wrapper/RabbitMq/RabbitMqHelper.cs:77-81 | From null headers, when at least one header is injected, the carrier ends up bound to a new dictionary holding exactly the injected keys, each with its last value. |
| HeaderWriter.InjectIntoReadOnly | src/Agent/NewRelic/Agent/Extensions/Providers/Wrapper/RabbitMq/RabbitMqHelper.cs:82-88 | When at least one header is injected, a read-only original stays exactly as it was, and the carrier is rebound to a distinct new dictionary holding the original entries plus the injected ones. |
| HeaderWriter.InjectInPlace | src/Agent/NewRelic/Agent/Extensions/Providers/Wrapper/RabbitMq/RabbitMqHelper.cs:77-88 | A dictionary of a non-read-only type is written in place, and the carrier is never rebound. |
| HeaderWriter.InjectAllocations | src/Agent/NewRelic/Agent/Extensions/Providers/Wrapper/RabbitMq/RabbitMqHelper.cs:82-86 | In-place writes allocate nothing. Otherwise the first write allocates once. Each later write allocates again exactly when the runtime's dictionary counts as read-only. |
| HeaderWriter.SetHeaderCached | src/Agent/NewRelic/Agent/Extensions/Providers/Wrapper/RabbitMq/RabbitMqHelper.cs:113-129 | The cached-getter callback faults exactly when the slot holds another type's getter, and then writes nothing. Otherwise it does what the late-bound callback does. |
| HeaderWriter.CachedMatchesDynamic | src/Agent/NewRelic/Agent/Extensions/Providers/Wrapper/RabbitMq/RabbitMqHelper.cs:115-128 | With an empty or matching slot, injection through the cached getter never faults and equals the late-bound injection. When at least one header is injected, the slot then holds the getter for the carrier's type. With no headers it is left as it was. |
| HeaderWriter.CachedFaultsOnForeignGetter | src/Agent/NewRelic/Agent/Extensions/Providers/Wrapper/RabbitMq/RabbitMqHelper.cs:22-26 | A slot already holding another type's getter makes the first write fault. Nothing is written and the slot is kept. |
| SegmentFactory.CreateSegmentForPublishWrappers | src/Agent/NewRelic/Agent/Extensions/Providers/Wrapper/RabbitMq/RabbitMqHelper.cs:54-94 | Exactly one segment is started and returned: RabbitMQ, Produce, the routing key's kind, the name hidden exactly for "amq." keys. A carrier of another type is left untouched. |
| SegmentFactory.CreateSegmentForPublishWrappers6Plus | src/Agent/NewRelic/Agent/Extensions/Providers/Wrapper/RabbitMq/RabbitMqHelper.cs:96-134 | It starts and returns the same single segment. A carrier of another type is left untouched and the getter slot is not filled. |
| SegmentFactory.EntryPointsAgree | src/Agent/NewRelic/Agent/Extensions/Providers/Wrapper/RabbitMq/RabbitMqHelper.cs:54-134 | On a carrier of another type for any slot, and on the client's type when the slot is empty or serves that type, both entry points yield the same segment, transaction, carrier and dictionaries, with no fault. |
| SegmentFactory.InjectionOnBasicProperties | src/Agent/NewRelic/Agent/Extensions/Providers/Wrapper/RabbitMq/RabbitMqHelper.cs:67-91 | On the client's BasicProperties type, when the transaction injects at least one header, the carrier's dictionary ends up showing its previous entries overlaid with the transaction's headers. No dictionary it did not own changes. |
| SegmentFactory.TempQueueWithNullHeaders | src/Agent/NewRelic/Agent/Extensions/Providers/Wrapper/RabbitMq/RabbitMqHelper.cs:96-133 | Publishing to "amq.gen-abc123" with null headers through the statically typed entry point, with an empty getter slot and at least one requested header, gives a TempQueue segment with a hidden name. The carrier ends up bound to a dictionary that did not exist before and holds exactly the requested keys. |
| SegmentFactory.TopicWithUnknownCarrier | src/Agent/NewRelic/Agent/Extensions/Providers/Wrapper/RabbitMq/RabbitMqHelper.cs:61-71 | Publishing to "orders.created" with a carrier of an unknown type gives a Topic segment under that name through either entry point. The carrier and all dictionaries are left as they were. The statically typed entry point also keeps the getter slot and raises no fault. |

## Left out

- Argument extraction (`ExtractAs`, `ExtractNotNullAs`): its failures are a precondition (`Extractable`), not modelled exceptions. A null properties argument would fail at `GetType()` and is excluded there too.
- `SegmentFactory.StartMessageBrokerSegment` stands in for `ITransaction.StartMessageBrokerSegment`: it appends the segment and returns it. The transaction's segment engine is external, so this is an assumption about it rather than modelled logic.
- `InsertDistributedTraceHeaders` is external. Injection is modelled as calling the callback once per entry of the transaction's `traceHeaders`, in order.
- Whether a fault raised inside the callback escapes the transaction is not visible. The model stops the injection at the first fault and reports it in the result.
- Reflective accessor generation and `dynamic` dispatch are replaced by the `Carrier` value's `Headers` field. The getter slot remembers only the type its getter was generated for.
- Concurrency: the benign race on first filling the static slot is not modelled. Only the sequential fill-once-then-reuse behaviour is.
- `Destinations.GetBrokerDestinationType`: `String.StartsWith(string)` compares culture-sensitively on .NET, so characters the culture ignores could still match "amq.". The model uses an ordinal prefix test.
- A dictionary of a non-read-only type that still rejects writes would throw at the indexer write. The model treats every such dictionary as writable.
- The collector reply envelope and its JSON decoding depend on a JSON library that is not part of this model. The SQL Server integration test is process and database orchestration with no logic to model.
