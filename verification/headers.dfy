/** Header dictionaries, the heap that holds them, and the message properties
    object ("carrier") whose Headers property points at one of them. */
module Headers {
  import opened Options

  /** Identity of a dictionary object; two carriers may share one. */
  type MapRef = nat

  /** One propagation header the transaction asks to write: (key, value). */
  type Header = (string, string)

  /** A header value: the strings this code writes, or any other object an
      application already stored (byte arrays, numbers, ...), kept opaque. */
  datatype HeaderValue = Text(text: string) | Opaque(id: nat)

  /** A dictionary object. `readOnlyView` records whether its runtime type
      implements the read-only dictionary interface; which types do is not
      fixed by the model. */
  datatype HeaderMap = HeaderMap(entries: map<string, HeaderValue>, readOnlyView: bool)

  /** All dictionary objects, with the next unused identity. */
  datatype Heap = Heap(maps: map<MapRef, HeaderMap>, next: MapRef) {

    ghost predicate Valid() {
      forall r :: r in maps ==> r < next
    }

    /** A new dictionary object with an identity no existing one has. */
    function Allocate(m: HeaderMap): (res: (MapRef, Heap))
      requires Valid()
      ensures res.0 !in maps
      ensures res.1.Valid()
      ensures res.1.maps == maps[res.0 := m]
      ensures res.1.next == next + 1
    {
      (next, Heap(maps[next := m], next + 1))
    }

    /** The indexer assignment `dictionary[key] = v` on object `r`. */
    function Put(r: MapRef, key: string, v: HeaderValue): (h: Heap)
      requires r in maps
      ensures Valid() ==> h.Valid()
      ensures h.next == next
      ensures h.maps.Keys == maps.Keys
      ensures h.maps[r].entries == maps[r].entries[key := v]
      ensures h.maps[r].readOnlyView == maps[r].readOnlyView
      ensures forall q :: q in maps && q != r ==> h.maps[q] == maps[q]
    {
      Heap(maps[r := HeaderMap(maps[r].entries[key := v], maps[r].readOnlyView)], next)
    }
  }

  /** What the carrier's Headers property holds: null, a dictionary object,
      or some object that is not a string-keyed dictionary. */
  datatype PropertyValue = NullValue | MapValue(ref: MapRef) | OtherValue

  /** A message properties object: its runtime type's full name and its
      Headers property. */
  datatype Carrier = Carrier(typeName: string, headers: PropertyValue)

  /** The cast `value as IDictionary<string, object>`: a dictionary object
      passes through, anything else becomes null. */
  function AsHeaderMap(v: PropertyValue): (r: Option<MapRef>)
    ensures r != None <==> v.MapValue?
    ensures v.MapValue? ==> r == Some(v.ref)
  {
    if v.MapValue? then Some(v.ref) else None
  }

  /** Assigning the Headers property of one carrier instance; the type of the
      carrier never changes. */
  function SetHeaders(c: Carrier, r: MapRef): (c': Carrier)
    ensures c'.typeName == c.typeName
    ensures AsHeaderMap(c'.headers) == Some(r)
  {
    c.(headers := MapValue(r))
  }

  /** The heap is consistent and the carrier's dictionary, if any, exists. */
  ghost predicate WellFormed(h: Heap, c: Carrier) {
    h.Valid() && (c.headers.MapValue? ==> c.headers.ref in h.maps)
  }

  /** The entries the carrier shows: those of its dictionary, or none when
      its Headers property is not a dictionary. */
  function Entries(h: Heap, c: Carrier): map<string, HeaderValue>
    requires WellFormed(h, c)
  {
    if c.headers.MapValue? then h.maps[c.headers.ref].entries else map[]
  }

  /** Keys written by a sequence of headers. */
  ghost function KeysOf(hs: seq<Header>): set<string> {
    set i | 0 <= i < |hs| :: hs[i].0
  }

  /** Position `i` holds the last write of its key. */
  ghost predicate LastWriteOf(hs: seq<Header>, i: int)
    requires 0 <= i < |hs|
  {
    forall j :: i < j < |hs| ==> hs[j].0 != hs[i].0
  }

  /** Entries after writing `hs` into `m` in order: the keys of both. */
  function Overlay(m: map<string, HeaderValue>, hs: seq<Header>): (r: map<string, HeaderValue>)
    ensures r.Keys == m.Keys + KeysOf(hs)
    decreases |hs|
  {
    if |hs| == 0 then m
    else
      var last := hs[|hs| - 1];
      KeysOfSnoc(hs[..|hs| - 1], last);
      assert hs[..|hs| - 1] + [last] == hs;
      Overlay(m, hs[..|hs| - 1])[last.0 := Text(last.1)]
  }

  lemma KeysOfSnoc(hs: seq<Header>, h: Header)
    ensures KeysOf(hs + [h]) == KeysOf(hs) + {h.0}
  {
    assert forall i :: 0 <= i < |hs| ==> (hs + [h])[i] == hs[i];
    assert (hs + [h])[|hs|] == h;
  }

  /** Overlay is last-write-wins: a written key shows the value of its last
      write, and a key never written keeps its old value. */
  lemma {:induction false} OverlayLastWriteWins(m: map<string, HeaderValue>, hs: seq<Header>)
    ensures forall k :: k in m && k !in KeysOf(hs) ==> Overlay(m, hs)[k] == m[k]
    ensures forall i :: 0 <= i < |hs| && LastWriteOf(hs, i) ==> Overlay(m, hs)[hs[i].0] == Text(hs[i].1)
    decreases |hs|
  {
    if |hs| > 0 {
      var p := hs[..|hs| - 1];
      var last := hs[|hs| - 1];
      assert p + [last] == hs;
      KeysOfSnoc(p, last);
      OverlayLastWriteWins(m, p);
      forall i | 0 <= i < |hs| - 1 && LastWriteOf(hs, i)
        ensures Overlay(m, hs)[hs[i].0] == Text(hs[i].1)
      {
        assert hs[i] == p[i];
        assert hs[i].0 != last.0;
        assert LastWriteOf(p, i);
      }
    }
  }
}
