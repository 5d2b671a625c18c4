/** The memoised getter for a carrier's Headers property. The process keeps a
    single static slot: the first lookup generates a getter for the type of
    the carrier it is given, and every later lookup reuses that getter. */
module Accessors {
  import opened Options
  import opened Headers

  /** A generated getter for the Headers property of one concrete type. */
  datatype Accessor = HeadersGetter(ownerType: string)

  /** A getter invoked on an instance of a type it was not generated for. */
  datatype Fault = InvalidCast(accessorType: string, instanceType: string)

  /** Outcome of invoking a getter and casting its result to a dictionary. */
  datatype HeadersRead = Got(headers: Option<MapRef>) | Faulted(fault: Fault)

  /** The slot after a lookup, and what the lookup returned. */
  datatype Lookup = Lookup(slot: Option<Accessor>, read: HeadersRead)

  /** Runs a getter on a carrier: on its own type it reads the Headers
      property; on any other type the cast of the instance fails. */
  function Invoke(a: Accessor, c: Carrier): (r: HeadersRead)
    ensures r.Got? <==> a.ownerType == c.typeName
    ensures r.Got? ==> r.headers == AsHeaderMap(c.headers)
  {
    if a.ownerType == c.typeName then Got(AsHeaderMap(c.headers))
    else Faulted(InvalidCast(a.ownerType, c.typeName))
  }

  /** Fills an empty slot with a getter for this carrier's type, keeps a full
      slot as it is, and reads through the slot's getter. A Headers value
      that is not a dictionary reads as null rather than failing. */
  function GetHeaders(slot: Option<Accessor>, c: Carrier): (r: Lookup)
    ensures slot != None ==> r.slot == slot
    ensures slot == None ==> r.slot == Some(HeadersGetter(c.typeName))
    ensures r.read.Got? <==> r.slot.value.ownerType == c.typeName
    ensures r.read.Got? ==> r.read.headers == AsHeaderMap(c.headers)
    ensures r.read.Got? && !c.headers.MapValue? ==> r.read.headers == None
    ensures r.read.Faulted? ==> r.read.fault == InvalidCast(slot.value.ownerType, c.typeName)
  {
    var a := if slot.Some? then slot.value else HeadersGetter(c.typeName);
    Lookup(Some(a), Invoke(a, c))
  }

  /** The slot is empty, or holds a getter for carriers of this type. */
  predicate Serves(slot: Option<Accessor>, typeName: string) {
    slot == None || slot.value.ownerType == typeName
  }

  /** The slot after looking up the headers of each carrier in turn. */
  function SlotAfter(slot: Option<Accessor>, cs: seq<Carrier>): Option<Accessor>
    decreases |cs|
  {
    if |cs| == 0 then slot else SlotAfter(GetHeaders(slot, cs[0]).slot, cs[1..])
  }

  /** The slot is written at most once: a full slot survives any series of
      lookups, and an empty one ends up holding the getter generated for the
      first carrier looked up. */
  lemma {:induction false} SlotWrittenOnce(slot: Option<Accessor>, cs: seq<Carrier>)
    ensures slot != None ==> SlotAfter(slot, cs) == slot
    ensures slot == None && |cs| > 0 ==> SlotAfter(slot, cs) == Some(HeadersGetter(cs[0].typeName))
    ensures slot == None && |cs| == 0 ==> SlotAfter(slot, cs) == None
    decreases |cs|
  {
    if |cs| > 0 {
      SlotWrittenOnce(GetHeaders(slot, cs[0]).slot, cs[1..]);
    }
  }

  /** Assigning a dictionary through the (uncached, per-instance) setter and
      reading it back through a getter that serves the carrier's type yields
      that dictionary, and the setter leaves the slot alone. */
  lemma SetThenGet(slot: Option<Accessor>, c: Carrier, r: MapRef)
    requires Serves(slot, c.typeName)
    ensures GetHeaders(slot, SetHeaders(c, r)).read == Got(Some(r))
  {
  }
}
