/** The write callback handed to the transaction for distributed-trace header
    injection, and the injection itself: the transaction calls the callback
    once per header it wants to propagate, in order. */
module HeaderWriter {
  import opened Options
  import opened Headers
  import opened Accessors

  /** What a callback reads and writes: the carrier and all dictionaries. */
  datatype Target = Target(carrier: Carrier, heap: Heap) {
    ghost predicate Ok() {
      WellFormed(heap, carrier)
    }

    /** The next write allocates a new dictionary: the carrier holds no
        dictionary, or holds one of a read-only type. */
    ghost predicate Copies()
      requires Ok()
    {
      !carrier.headers.MapValue? || heap.maps[carrier.headers.ref].readOnlyView
    }

    /** `q` is the one existing dictionary a write may change in place. */
    ghost predicate Owns(q: MapRef)
      requires Ok()
    {
      !Copies() && carrier.headers.ref == q
    }
  }

  /** Every dictionary of `t` except the one it owns is still present in `r`
      with the same entries and read-only flag. */
  ghost predicate Framed(t: Target, r: Target)
    requires t.Ok()
  {
    forall q :: q in t.heap.maps && !t.Owns(q) ==> q in r.heap.maps && r.heap.maps[q] == t.heap.maps[q]
  }

  /** Body of the callback after it has read the carrier's headers as
      `current`: null headers get a new empty dictionary bound to the
      carrier; a read-only dictionary is copied into a new one that is bound
      instead; then the key is written. `freshIsReadOnlyView` is whether the
      runtime's own dictionary type counts as read-only. */
  function WriteThrough(t: Target, current: Option<MapRef>, key: string, value: string,
                        freshIsReadOnlyView: bool): (r: Target)
    requires t.Ok()
    requires current == AsHeaderMap(t.carrier.headers)
    ensures r.Ok()
    ensures r.carrier.typeName == t.carrier.typeName
    ensures r.carrier.headers.MapValue?
    ensures r.heap.maps[r.carrier.headers.ref].entries == Entries(t.heap, t.carrier)[key := Text(value)]
    ensures t.Copies() ==> r.carrier.headers.ref !in t.heap.maps
    ensures t.Copies() ==> r.heap.maps[r.carrier.headers.ref].readOnlyView == freshIsReadOnlyView
    ensures t.Copies() ==> r.heap.next == t.heap.next + 1
    ensures !t.Copies() ==> r.carrier == t.carrier && r.heap.next == t.heap.next
    ensures !t.Copies() ==> r.heap.maps.Keys == t.heap.maps.Keys
    ensures forall q :: q in t.heap.maps ==> q in r.heap.maps && r.heap.maps[q].readOnlyView == t.heap.maps[q].readOnlyView
    ensures Framed(t, r)
  {
    match current
    case None =>
      var (created, h) := t.heap.Allocate(HeaderMap(map[], freshIsReadOnlyView));
      Target(SetHeaders(t.carrier, created), h.Put(created, key, Text(value)))
    case Some(ref) =>
      if t.heap.maps[ref].readOnlyView then
        var (created, h) := t.heap.Allocate(HeaderMap(t.heap.maps[ref].entries, freshIsReadOnlyView));
        Target(SetHeaders(t.carrier, created), h.Put(created, key, Text(value)))
      else
        Target(t.carrier, t.heap.Put(ref, key, Text(value)))
  }

  /** The callback of the late-bound entry point: reads `carrier.Headers`
      directly and casts it to a dictionary. */
  function SetHeaderDynamic(t: Target, key: string, value: string, freshIsReadOnlyView: bool): (r: Target)
    requires t.Ok()
    ensures r.Ok()
    ensures r.carrier.headers.MapValue?
    ensures r.heap.maps[r.carrier.headers.ref].entries == Entries(t.heap, t.carrier)[key := Text(value)]
    ensures t.Copies() ==> r.carrier.headers.ref !in t.heap.maps
    ensures !t.Copies() ==> r.carrier == t.carrier
    ensures Framed(t, r)
  {
    WriteThrough(t, AsHeaderMap(t.carrier.headers), key, value, freshIsReadOnlyView)
  }

  /** Injection through the late-bound callback: one call per header. */
  function InjectDynamic(t: Target, hs: seq<Header>, freshIsReadOnlyView: bool): (r: Target)
    requires t.Ok()
    ensures r.Ok()
    ensures r.carrier.typeName == t.carrier.typeName
    decreases |hs|
  {
    if |hs| == 0 then t
    else
      var last := hs[|hs| - 1];
      SetHeaderDynamic(InjectDynamic(t, hs[..|hs| - 1], freshIsReadOnlyView), last.0, last.1, freshIsReadOnlyView)
  }

  /** What injecting `hs` shows: with no headers nothing changes; otherwise
      the carrier ends up bound to a dictionary holding its old entries
      overlaid with the injected ones. */
  lemma {:induction false} InjectEntries(t: Target, hs: seq<Header>, freshIsReadOnlyView: bool)
    requires t.Ok()
    ensures |hs| == 0 ==> InjectDynamic(t, hs, freshIsReadOnlyView) == t
    ensures var r := InjectDynamic(t, hs, freshIsReadOnlyView);
      |hs| > 0 ==> r.carrier.headers.MapValue?
                   && r.heap.maps[r.carrier.headers.ref].entries == Overlay(Entries(t.heap, t.carrier), hs)
    decreases |hs|
  {
    if |hs| > 0 {
      var p := hs[..|hs| - 1];
      InjectEntries(t, p, freshIsReadOnlyView);
      if |p| == 0 {
        var t0 := InjectDynamic(t, p, freshIsReadOnlyView);
        assert Entries(t0.heap, t0.carrier) == Overlay(Entries(t.heap, t.carrier), p);
      }
    }
  }

  /** Injection never changes a dictionary the carrier did not own (a
      read-only one, or any unrelated one). When the first write copies, the
      carrier ends up bound to a dictionary that did not exist before, of the
      runtime's own type; otherwise it keeps its own dictionary. */
  lemma {:induction false} InjectOwnership(t: Target, hs: seq<Header>, freshIsReadOnlyView: bool)
    requires t.Ok()
    ensures var r := InjectDynamic(t, hs, freshIsReadOnlyView);
      && (|hs| > 0 && t.Copies() ==> r.carrier.headers.MapValue?
                                     && r.carrier.headers.ref !in t.heap.maps
                                     && r.heap.maps[r.carrier.headers.ref].readOnlyView == freshIsReadOnlyView)
      && (!t.Copies() ==> r.carrier == t.carrier)
      && (forall q :: q in t.heap.maps ==> q in r.heap.maps && r.heap.maps[q].readOnlyView == t.heap.maps[q].readOnlyView)
      && Framed(t, r)
    decreases |hs|
  {
    if |hs| > 0 {
      var p := hs[..|hs| - 1];
      InjectOwnership(t, p, freshIsReadOnlyView);
      var t0 := InjectDynamic(t, p, freshIsReadOnlyView);
      assert forall q :: q in t.heap.maps && !t.Owns(q) ==> !t0.Owns(q);
    }
  }

  /** Injecting into a carrier whose Headers is null (or not a dictionary)
      binds it to a dictionary that did not exist before and holds exactly
      the injected keys, each with its last injected value. */
  lemma InjectIntoNullHeaders(t: Target, hs: seq<Header>, freshIsReadOnlyView: bool)
    requires t.Ok() && !t.carrier.headers.MapValue?
    requires |hs| > 0
    ensures var r := InjectDynamic(t, hs, freshIsReadOnlyView);
      && r.carrier.headers.MapValue?
      && r.carrier.headers.ref !in t.heap.maps
      && r.heap.maps[r.carrier.headers.ref].entries.Keys == KeysOf(hs)
      && forall i :: 0 <= i < |hs| && LastWriteOf(hs, i) ==> r.heap.maps[r.carrier.headers.ref].entries[hs[i].0] == Text(hs[i].1)
  {
    InjectEntries(t, hs, freshIsReadOnlyView);
    InjectOwnership(t, hs, freshIsReadOnlyView);
    OverlayLastWriteWins(map[], hs);
  }

  /** Injecting into a carrier bound to a read-only dictionary leaves that
      dictionary exactly as it was and rebinds the carrier to a distinct new
      dictionary holding the original entries overlaid with the injected
      ones. */
  lemma InjectIntoReadOnly(t: Target, hs: seq<Header>, freshIsReadOnlyView: bool)
    requires t.Ok() && t.carrier.headers.MapValue?
    requires t.heap.maps[t.carrier.headers.ref].readOnlyView
    requires |hs| > 0
    ensures var r := InjectDynamic(t, hs, freshIsReadOnlyView);
      var orig := t.carrier.headers.ref;
      && orig in r.heap.maps && r.heap.maps[orig] == t.heap.maps[orig]
      && r.carrier.headers.MapValue?
      && r.carrier.headers.ref != orig
      && r.carrier.headers.ref !in t.heap.maps
      && r.heap.maps[r.carrier.headers.ref].entries == Overlay(t.heap.maps[orig].entries, hs)
  {
    InjectEntries(t, hs, freshIsReadOnlyView);
    InjectOwnership(t, hs, freshIsReadOnlyView);
  }

  /** Injecting into a carrier bound to a dictionary that is not of a
      read-only type writes that dictionary in place and never rebinds. */
  lemma InjectInPlace(t: Target, hs: seq<Header>, freshIsReadOnlyView: bool)
    requires t.Ok() && t.carrier.headers.MapValue?
    requires !t.heap.maps[t.carrier.headers.ref].readOnlyView
    ensures var r := InjectDynamic(t, hs, freshIsReadOnlyView);
      && r.carrier == t.carrier
      && r.heap.maps[t.carrier.headers.ref].entries == Overlay(t.heap.maps[t.carrier.headers.ref].entries, hs)
  {
    InjectEntries(t, hs, freshIsReadOnlyView);
    InjectOwnership(t, hs, freshIsReadOnlyView);
  }

  /** How many dictionaries an injection allocates. A dictionary written in
      place never causes one. Otherwise the first write allocates, and every
      later write allocates again exactly when the runtime's own dictionary
      type counts as read-only, so the check is not a one-time cost. */
  lemma {:induction false} InjectAllocations(t: Target, hs: seq<Header>, freshIsReadOnlyView: bool)
    requires t.Ok()
    ensures var r := InjectDynamic(t, hs, freshIsReadOnlyView);
      && (!t.Copies() ==> r.heap.next == t.heap.next)
      && (t.Copies() && freshIsReadOnlyView ==> r.heap.next == t.heap.next + |hs|)
      && (t.Copies() && !freshIsReadOnlyView && |hs| > 0 ==> r.heap.next == t.heap.next + 1)
    decreases |hs|
  {
    if |hs| > 0 {
      var p := hs[..|hs| - 1];
      InjectAllocations(t, p, freshIsReadOnlyView);
      InjectOwnership(t, p, freshIsReadOnlyView);
    }
  }

  /** The slot, the target and the fault (if any) after the cached-getter
      callback has run. */
  datatype Step = Step(slot: Option<Accessor>, target: Target, fault: Option<Fault>)

  /** The callback of the statically typed entry point: reads the headers
      through the memoised getter, then writes as the late-bound one does.
      A getter that cannot read this carrier raises, and nothing is written. */
  function SetHeaderCached(slot: Option<Accessor>, t: Target, key: string, value: string,
                           freshIsReadOnlyView: bool): (r: Step)
    requires t.Ok()
    ensures r.target.Ok()
    ensures r.slot != None
    ensures slot != None ==> r.slot == slot
    ensures r.fault == None <==> Serves(slot, t.carrier.typeName)
    ensures r.fault != None ==> r.target == t
    ensures r.fault == None ==> r.target == SetHeaderDynamic(t, key, value, freshIsReadOnlyView)
  {
    var look := GetHeaders(slot, t.carrier);
    match look.read
    case Faulted(f) => Step(look.slot, t, Some(f))
    case Got(current) => Step(look.slot, WriteThrough(t, current, key, value, freshIsReadOnlyView), None)
  }

  /** Injection through the cached-getter callback; a fault ends it. */
  function InjectCached(slot: Option<Accessor>, t: Target, hs: seq<Header>, freshIsReadOnlyView: bool): (r: Step)
    requires t.Ok()
    ensures r.target.Ok()
    ensures r.target.carrier.typeName == t.carrier.typeName
    decreases |hs|
  {
    if |hs| == 0 then Step(slot, t, None)
    else
      var s := InjectCached(slot, t, hs[..|hs| - 1], freshIsReadOnlyView);
      if s.fault != None then s
      else
        var last := hs[|hs| - 1];
        SetHeaderCached(s.slot, s.target, last.0, last.1, freshIsReadOnlyView)
  }

  /** When the slot is empty or holds a getter for the carrier's type, the
      cached-getter injection never faults, does exactly what the late-bound
      one does, and leaves the slot holding a getter for that type (the slot
      is untouched when there is nothing to inject). */
  lemma {:induction false} CachedMatchesDynamic(slot: Option<Accessor>, t: Target, hs: seq<Header>,
                                                freshIsReadOnlyView: bool)
    requires t.Ok()
    requires Serves(slot, t.carrier.typeName)
    ensures var r := InjectCached(slot, t, hs, freshIsReadOnlyView);
      && r.fault == None
      && r.target == InjectDynamic(t, hs, freshIsReadOnlyView)
      && (|hs| == 0 ==> r.slot == slot)
      && (|hs| > 0 ==> r.slot == Some(HeadersGetter(t.carrier.typeName)))
    decreases |hs|
  {
    if |hs| > 0 {
      CachedMatchesDynamic(slot, t, hs[..|hs| - 1], freshIsReadOnlyView);
    }
  }

  /** A slot already holding a getter for another type makes the first
      write fault: nothing is written and the slot is kept. */
  lemma {:induction false} CachedFaultsOnForeignGetter(slot: Option<Accessor>, t: Target, hs: seq<Header>,
                                                       freshIsReadOnlyView: bool)
    requires t.Ok()
    requires !Serves(slot, t.carrier.typeName)
    requires |hs| > 0
    ensures var r := InjectCached(slot, t, hs, freshIsReadOnlyView);
      && r.fault == Some(InvalidCast(slot.value.ownerType, t.carrier.typeName))
      && r.target == t
      && r.slot == slot
    decreases |hs|
  {
    if |hs| > 1 {
      CachedFaultsOnForeignGetter(slot, t, hs[..|hs| - 1], freshIsReadOnlyView);
    }
  }
}
