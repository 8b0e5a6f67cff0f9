/** The cache objects: the bounded in-memory LRU over a hash map with a logical clock, and the
    untrusted disk store. */
module Cache {
  import opened Wrappers
  import opened Types
  import opened Lru

  datatype Entry = Entry(lastUsed: nat, data: ResolvedData)

  const DEFAULT_MEMORY_ENTRIES: nat := 256
  const DEFAULT_MEMORY_BYTES: nat := 32 * 1024 * 1024

  function Clock(entries: map<string, Entry>, id: string): nat {
    if id in entries then entries[id].lastUsed else 0
  }

  /** The map holds exactly the listed entries. */
  ghost predicate Keyed(entries: map<string, Entry>, items: seq<Item>) {
    && (forall x :: x in items ==> x.id in entries && entries[x.id].data == x.data)
    && (forall id :: id in entries ==> Item(id, entries[id].data) in items)
  }

  /** Clocks strictly increase along the list. */
  ghost predicate Ordered(entries: map<string, Entry>, items: seq<Item>) {
    items != [] ==>
      && (forall y :: y in items[1..] ==> Clock(entries, items[0].id) < Clock(entries, y.id))
      && Ordered(entries, items[1..])
  }

  /** The map, the clock and the byte counter stand for the recency list `items`: the same
      entries, clocks pairwise distinct, in list order and never ahead of `tick`, and `bytes`
      the exact sum of the stored sizes. */
  ghost predicate Represents(tick: nat, bytes: nat, entries: map<string, Entry>, items: seq<Item>) {
    && Distinct(items)
    && Keyed(entries, items)
    && Ordered(entries, items)
    && (forall id :: id in entries ==> Clock(entries, id) <= tick)
    && bytes == Total(items)
  }

  lemma {:induction false} OrderedFrame(entries: map<string, Entry>, entries': map<string, Entry>, items: seq<Item>)
    requires Ordered(entries, items)
    requires forall x :: x in items ==> Clock(entries, x.id) == Clock(entries', x.id)
    ensures Ordered(entries', items)
  {
    if items == [] {
    } else {
      OrderedFrame(entries, entries', items[1..]);
    }
  }

  lemma {:induction false} OrderedWithout(entries: map<string, Entry>, items: seq<Item>, id: string)
    requires Ordered(entries, items)
    ensures Ordered(entries, Without(items, id))
  {
    if items == [] {
    } else {
      OrderedWithout(entries, items[1..], id);
      WithoutMembers(items[1..], id);
    }
  }

  lemma {:induction false} OrderedAppend(entries: map<string, Entry>, items: seq<Item>, x: Item)
    requires Ordered(entries, items)
    requires forall y :: y in items ==> Clock(entries, y.id) < Clock(entries, x.id)
    ensures Ordered(entries, items + [x])
  {
    if items == [] {
    } else {
      OrderedAppend(entries, items[1..], x);
      assert (items + [x])[1..] == items[1..] + [x];
    }
  }

  lemma {:induction false} CountEntries(entries: map<string, Entry>, items: seq<Item>)
    requires Distinct(items) && Keyed(entries, items)
    ensures |entries| == |items|
  {
    if items == [] {
      assert entries == map[];
    } else {
      KeyedTail(entries, items);
      CountEntries(entries - {items[0].id}, items[1..]);
      assert entries.Keys == (entries - {items[0].id}).Keys + {items[0].id};
    }
  }

  lemma KeyedTail(entries: map<string, Entry>, items: seq<Item>)
    requires items != [] && Distinct(items) && Keyed(entries, items)
    ensures Keyed(entries - {items[0].id}, items[1..])
  {}

  /** The map determines its recency list: the abstract value is a function of the real fields. */
  lemma RepresentedOnce(tick: nat, bytes: nat, entries: map<string, Entry>, items: seq<Item>, items': seq<Item>)
    requires Represents(tick, bytes, entries, items) && Represents(tick, bytes, entries, items')
    ensures items == items'
  {
    OrderedOnce(entries, items, items');
  }

  lemma OrderedTail(entries: map<string, Entry>, items: seq<Item>)
    requires items != [] && Distinct(items) && Keyed(entries, items) && Ordered(entries, items)
    ensures var rest := entries - {items[0].id};
            Distinct(items[1..]) && Keyed(rest, items[1..]) && Ordered(rest, items[1..])
  {
    KeyedTail(entries, items);
    OrderedFrame(entries, entries - {items[0].id}, items[1..]);
  }

  lemma OldestOnce(entries: map<string, Entry>, items: seq<Item>, items': seq<Item>)
    requires items != [] && items' != []
    requires Keyed(entries, items) && Ordered(entries, items)
    requires Keyed(entries, items') && Ordered(entries, items')
    ensures items[0] == items'[0]
  {}

  lemma {:induction false} OrderedOnce(entries: map<string, Entry>, items: seq<Item>, items': seq<Item>)
    requires Distinct(items) && Keyed(entries, items) && Ordered(entries, items)
    requires Distinct(items') && Keyed(entries, items') && Ordered(entries, items')
    ensures items == items'
  {
    hide Distinct, Keyed, Ordered;
    CountEntries(entries, items);
    CountEntries(entries, items');
    if items == [] {
    } else {
      OldestOnce(entries, items, items');
      OrderedTail(entries, items);
      OrderedTail(entries, items');
      OrderedOnce(entries - {items[0].id}, items[1..], items'[1..]);
    }
  }

  /** Giving the entry for `id` the next clock value moves it to the newest end, and the byte
      counter stays exact without underflow. */
  lemma StampRepresents(tick: nat, bytes: nat, entries: map<string, Entry>, items: seq<Item>,
                        id: string, data: ResolvedData)
    requires Represents(tick, bytes, entries, items)
    ensures var freed := if id in entries then Size(entries[id].data) else 0;
            && freed <= bytes
            && Represents(tick + 1, bytes - freed + Size(data), entries[id := Entry(tick + 1, data)],
                 Insert(items, id, data))
  {
    InsertSpec(items, id, data);
    TotalConcat(Without(items, id), [Item(id, data)]);
    StampTotal(bytes, entries, items, id);
    StampKeyed(entries, items, id, Entry(tick + 1, data));
    StampOrdered(tick, entries, items, id, data);
  }

  lemma StampKeyed(entries: map<string, Entry>, items: seq<Item>, id: string, e: Entry)
    requires Distinct(items) && Keyed(entries, items)
    ensures Keyed(entries[id := e], Insert(items, id, e.data))
  {
    hide Insert, Distinct, Lookup, Total;
    InsertSpec(items, id, e.data);
  }

  lemma StampOrdered(tick: nat, entries: map<string, Entry>, items: seq<Item>, id: string, data: ResolvedData)
    requires Keyed(entries, items) && Ordered(entries, items)
    requires forall k :: k in entries ==> Clock(entries, k) <= tick
    ensures Ordered(entries[id := Entry(tick + 1, data)], Insert(items, id, data))
  {
    hide Ordered, Without;
    var rest := Without(items, id);
    OrderedWithout(entries, items, id);
    WithoutMembers(items, id);
    OrderedFrame(entries, entries[id := Entry(tick + 1, data)], rest);
    OrderedAppend(entries[id := Entry(tick + 1, data)], rest, Item(id, data));
  }

  lemma StampTotal(bytes: nat, entries: map<string, Entry>, items: seq<Item>, id: string)
    requires Distinct(items) && Keyed(entries, items) && bytes == Total(items)
    ensures Total(Without(items, id)) == bytes - if id in entries then Size(entries[id].data) else 0
  {
    if id in entries {
      var x := Item(id, entries[id].data);
      assert x in items;
      var i :| 0 <= i < |items| && items[i] == x;
      WithoutAt(items, i);
    } else {
      forall i | 0 <= i < |items| ensures items[i].id != id {
        assert items[i] in items;
      }
      WithoutAbsent(items, id);
    }
  }

  lemma TouchRepresents(tick: nat, bytes: nat, entries: map<string, Entry>, items: seq<Item>, id: string)
    requires Represents(tick, bytes, entries, items) && id in entries
    ensures Represents(tick + 1, bytes, entries[id := Entry(tick + 1, entries[id].data)], Touch(items, id))
    ensures |Touch(items, id)| == |items|
  {
    StampRepresents(tick, bytes, entries, items, id, entries[id].data);
    KeyedLookup(entries, items, id);
    TouchSpec(items, id);
  }

  /** Removing the entry with the smallest clock drops the head of the list. */
  lemma DropRepresents(tick: nat, bytes: nat, entries: map<string, Entry>, items: seq<Item>)
    requires Represents(tick, bytes, entries, items) && items != []
    ensures var id := items[0].id;
            && id in entries && Size(entries[id].data) <= bytes
            && Represents(tick, bytes - Size(entries[id].data), entries - {id}, items[1..])
  {
    assert items[0] in items;
    OrderedTail(entries, items);
  }

  /** One insertion, before any eviction: the counter stays exact and within twice the budget. */
  lemma PutStep(maxEntries: nat, maxBytes: nat, tick: nat, bytes: nat, entries: map<string, Entry>, items: seq<Item>,
                id: string, data: ResolvedData)
    requires Represents(tick, bytes, entries, items) && Fits(maxEntries, maxBytes, items)
    requires Admissible(maxEntries, maxBytes, data)
    ensures var freed := if id in entries then Size(entries[id].data) else 0;
            && freed <= bytes && bytes - freed + Size(data) <= 2 * maxBytes
            && Represents(tick + 1, bytes - freed + Size(data), entries[id := Entry(tick + 1, data)],
                 Insert(items, id, data))
  {
    hide Keyed, Ordered, Insert, Total;
    StampRepresents(tick, bytes, entries, items, id, data);
    TransientTotal(maxEntries, maxBytes, items, id, data);
  }

  /** One look: a hit stamps its entry, and either way the clock moves. */
  lemma GetStep(maxEntries: nat, maxBytes: nat, tick: nat, bytes: nat, entries: map<string, Entry>, items: seq<Item>,
                id: string)
    requires Represents(tick, bytes, entries, items) && Fits(maxEntries, maxBytes, items)
    ensures Lookup(items, id) == if id in entries then Some(entries[id].data) else None
    ensures var entries' := if id in entries then entries[id := Entry(tick + 1, entries[id].data)] else entries;
            Represents(tick + 1, bytes, entries', Touch(items, id)) && Fits(maxEntries, maxBytes, Touch(items, id))
  {
    hide Keyed, Ordered, Distinct, Total, Touch, Lookup;
    KeyedLookup(entries, items, id);
    TouchSpec(items, id);
    if id in entries {
      TouchRepresents(tick, bytes, entries, items, id);
    } else {
      TouchMiss(items, id);
    }
  }

  lemma TouchMiss(items: seq<Item>, id: string)
    requires Lookup(items, id).None?
    ensures Touch(items, id) == items
  {}

  /** One turn of the eviction loop. */
  lemma EvictStep(maxEntries: nat, maxBytes: nat, tick: nat, bytes: nat, entries: map<string, Entry>, items: seq<Item>)
    requires Represents(tick, bytes, entries, items)
    ensures Fits(maxEntries, maxBytes, items) <==> |entries| <= maxEntries && bytes <= maxBytes
    ensures !Fits(maxEntries, maxBytes, items) ==>
              && items != [] && items[0].id in entries && Size(entries[items[0].id].data) <= bytes
              && Represents(tick, bytes - Size(entries[items[0].id].data), entries - {items[0].id}, items[1..])
              && Evict(maxEntries, maxBytes, items) == Evict(maxEntries, maxBytes, items[1..])
  {
    CountEntries(entries, items);
    if items != [] {
      DropRepresents(tick, bytes, entries, items);
    }
  }

  lemma EvictDone(maxEntries: nat, maxBytes: nat, items: seq<Item>)
    requires Fits(maxEntries, maxBytes, items)
    ensures Evict(maxEntries, maxBytes, items) == items
  {}

  lemma KeyedLookup(entries: map<string, Entry>, items: seq<Item>, id: string)
    requires Distinct(items) && Keyed(entries, items)
    ensures Lookup(items, id) == if id in entries then Some(entries[id].data) else None
  {
    LookupFound(items, id);
    if id in entries {
      var x := Item(id, entries[id].data);
      var i :| 0 <= i < |items| && items[i] == x;
      LookupAt(items, i);
    } else if Lookup(items, id).Some? {
      assert false;
    }
  }

  class MemoryCache {
    const maxEntries: nat
    const maxBytes: nat
    var tick: nat
    var bytes: nat
    var entries: map<string, Entry>
    ghost var items: seq<Item>

    ghost predicate Valid()
      reads this
    {
      Represents(tick, bytes, entries, items) && Fits(maxEntries, maxBytes, items)
    }

    constructor (maxEntries: nat, maxBytes: nat)
      ensures Valid() && items == [] && tick == 0
      ensures this.maxEntries == maxEntries && this.maxBytes == maxBytes
    {
      this.maxEntries, this.maxBytes := maxEntries, maxBytes;
      tick, bytes, entries := 0, 0, map[];
      items := [];
    }

    /** A hit becomes the newest entry. The clock moves on a miss as well. */
    method Get(id: string) returns (data: Option<ResolvedData>)
      requires Valid()
      modifies this
      ensures Valid() && tick == old(tick) + 1
      ensures data == Lookup(old(items), id)
      ensures items == Touch(old(items), id)
    {
      hide Represents, Fits, Touch, Lookup;
      GetStep(maxEntries, maxBytes, tick, bytes, entries, items, id);
      tick := tick + 1;
      items := Touch(items, id);
      if id !in entries {
        return None;
      }
      data := Some(entries[id].data);
      entries := entries[id := Entry(tick, entries[id].data)];
    }

    method Put(id: string, data: ResolvedData)
      requires Valid()
      modifies this
      ensures Valid()
      ensures items == Lru.Put(maxEntries, maxBytes, old(items), id, data)
    {
      hide Represents, Fits, Evict, Insert;
      var size := |data.bytes|;
      if maxEntries == 0 || size > maxBytes {
        return;
      }
      PutStep(maxEntries, maxBytes, tick, bytes, entries, items, id, data);
      tick := tick + 1;
      var prev := if id in entries then Some(entries[id]) else None;
      entries := entries[id := Entry(tick, data)];
      if prev.Some? {
        bytes := bytes - |prev.value.data.bytes|;
      }
      bytes := bytes + size;
      items := Insert(items, id, data);
      assert bytes <= 2 * maxBytes;
      EvictUntilBounded();
    }

    method EvictUntilBounded()
      requires Represents(tick, bytes, entries, items)
      modifies this
      ensures Valid() && tick == old(tick)
      ensures items == Evict(maxEntries, maxBytes, old(items))
    {
      hide Represents, Evict, Fits;
      ghost var start := items;
      while |entries| > maxEntries || bytes > maxBytes
        invariant Represents(tick, bytes, entries, items)
        invariant tick == old(tick)
        invariant Evict(maxEntries, maxBytes, items) == Evict(maxEntries, maxBytes, start)
        decreases |items|
      {
        EvictStep(maxEntries, maxBytes, tick, bytes, entries, items);
        var victim := Oldest();
        if victim.None? {
          assert false;
          break;
        }
        bytes := bytes - |entries[victim.value].data.bytes|;
        entries := entries - {victim.value};
        items := items[1..];
      }
      EvictStep(maxEntries, maxBytes, tick, bytes, entries, items);
      EvictDone(maxEntries, maxBytes, items);
    }

    /** `iter().min_by_key(last_used)`: visits every key, in no particular order. */
    method Oldest() returns (victim: Option<string>)
      requires Represents(tick, bytes, entries, items)
      ensures victim == if items == [] then None else Some(items[0].id)
    {
      var rest := entries.Keys;
      victim := None;
      while rest != {}
        invariant rest <= entries.Keys
        invariant victim.None? ==> rest == entries.Keys
        invariant victim.Some? ==> victim.value in entries
        invariant forall k :: k in entries && k !in rest && victim.Some? ==>
            Clock(entries, victim.value) <= Clock(entries, k)
      {
        var k :| k in rest;
        rest := rest - {k};
        if victim.None? || entries[k].lastUsed < entries[victim.value].lastUsed {
          victim := Some(k);
        }
      }
      if victim.Some? {
        assert Item(victim.value, entries[victim.value].data) in items;
      }
      if items != [] {
        assert items[0] in items;
        assert forall x :: x in items <==> x == items[0] || x in items[1..];
      }
    }
  }

  /** Untrusted storage keyed by identity. Between two calls anything may happen to `files`. */
  class DiskCache {
    var files: map<string, Artifacts>

    constructor ()
      ensures files == map[]
    {
      files := map[];
    }

    method Get(id: string) returns (art: Option<Artifacts>)
      ensures art == if id in files then Some(files[id]) else None
    {
      art := if id in files then Some(files[id]) else None;
    }

    method Put(id: string, art: Artifacts)
      modifies this
      ensures files == old(files)[id := art]
    {
      files := files[id := art];
    }

    method Remove(id: string)
      modifies this
      ensures files == old(files) - {id}
    {
      files := files - {id};
    }
  }
}
