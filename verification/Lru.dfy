/** The in-memory cache as a list of entries, least recently used first. This is what the
    map-and-clock representation in `Cache` is proved to implement. */
module Lru {
  import opened Wrappers
  import opened Types

  datatype Item = Item(id: string, data: ResolvedData)

  function Size(data: ResolvedData): nat {
    |data.bytes|
  }

  function Total(items: seq<Item>): nat {
    if items == [] then 0 else Size(items[0].data) + Total(items[1..])
  }

  predicate Distinct(items: seq<Item>) {
    forall i, j :: 0 <= i < j < |items| ==> items[i].id != items[j].id
  }

  function Lookup(items: seq<Item>, id: string): Option<ResolvedData> {
    if items == [] then None
    else if items[0].id == id then Some(items[0].data)
    else Lookup(items[1..], id)
  }

  function Without(items: seq<Item>, id: string): seq<Item> {
    if items == [] then []
    else if items[0].id == id then Without(items[1..], id)
    else [items[0]] + Without(items[1..], id)
  }

  /** The entry for `id` becomes the newest. */
  function Insert(items: seq<Item>, id: string, data: ResolvedData): seq<Item> {
    Without(items, id) + [Item(id, data)]
  }

  function Touch(items: seq<Item>, id: string): seq<Item> {
    match Lookup(items, id)
    case None => items
    case Some(data) => Insert(items, id, data)
  }

  predicate Fits(maxEntries: nat, maxBytes: nat, items: seq<Item>) {
    |items| <= maxEntries && Total(items) <= maxBytes
  }

  function Evict(maxEntries: nat, maxBytes: nat, items: seq<Item>): seq<Item> {
    if Fits(maxEntries, maxBytes, items) then items else Evict(maxEntries, maxBytes, items[1..])
  }

  predicate Admissible(maxEntries: nat, maxBytes: nat, data: ResolvedData) {
    maxEntries > 0 && Size(data) <= maxBytes
  }

  function Put(maxEntries: nat, maxBytes: nat, items: seq<Item>, id: string, data: ResolvedData): seq<Item> {
    if Admissible(maxEntries, maxBytes, data) then Evict(maxEntries, maxBytes, Insert(items, id, data)) else items
  }

  // ------------------------------------------------------------------ the list operations

  lemma {:induction false} TotalConcat(a: seq<Item>, b: seq<Item>)
    ensures Total(a + b) == Total(a) + Total(b)
  {
    if a == [] {
      assert a + b == b;
    } else {
      assert (a + b)[1..] == a[1..] + b;
      TotalConcat(a[1..], b);
    }
  }

  lemma {:induction false} LookupFound(items: seq<Item>, id: string)
    ensures Lookup(items, id).Some? <==> exists i :: 0 <= i < |items| && items[i].id == id
    ensures Lookup(items, id).Some? ==> Item(id, Lookup(items, id).value) in items
    ensures Lookup(items, id).Some? ==> Size(Lookup(items, id).value) <= Total(items)
  {
    if items == [] {
    } else if items[0].id != id {
      LookupFound(items[1..], id);
      assert forall i :: 0 < i < |items| ==> items[i] == items[1..][i - 1];
    } else {
      assert items[0] == Item(id, items[0].data);
    }
  }

  lemma {:induction false} LookupAt(items: seq<Item>, i: nat)
    requires Distinct(items) && i < |items|
    ensures Lookup(items, items[i].id) == Some(items[i].data)
  {
    if i == 0 {
    } else {
      LookupAt(items[1..], i - 1);
    }
  }

  lemma {:induction false} WithoutAbsent(items: seq<Item>, id: string)
    requires forall i :: 0 <= i < |items| ==> items[i].id != id
    ensures Without(items, id) == items
  {
    if items == [] {
    } else {
      WithoutAbsent(items[1..], id);
    }
  }

  lemma {:induction false} WithoutConcat(a: seq<Item>, b: seq<Item>, id: string)
    ensures Without(a + b, id) == Without(a, id) + Without(b, id)
  {
    if a == [] {
      assert a + b == b;
    } else {
      assert (a + b)[1..] == a[1..] + b;
      WithoutConcat(a[1..], b, id);
    }
  }

  lemma WithoutHead(x: Item, back: seq<Item>)
    ensures Without([x] + back, x.id) == Without(back, x.id)
    ensures Total([x] + back) == Size(x.data) + Total(back)
  {
    assert ([x] + back)[1..] == back;
  }

  lemma WithoutMiddle(front: seq<Item>, x: Item, back: seq<Item>)
    requires forall i :: 0 <= i < |front| ==> front[i].id != x.id
    requires forall i :: 0 <= i < |back| ==> back[i].id != x.id
    ensures Without(front + ([x] + back), x.id) == front + back
    ensures Total(front + ([x] + back)) == Total(front + back) + Size(x.data)
  {
    hide Without, Total;
    WithoutConcat(front, [x] + back, x.id);
    WithoutHead(x, back);
    WithoutAbsent(front, x.id);
    WithoutAbsent(back, x.id);
    TotalConcat(front, [x] + back);
    TotalConcat(front, back);
  }

  lemma SplitAt(items: seq<Item>, i: nat)
    requires Distinct(items) && i < |items|
    ensures items == items[..i] + ([items[i]] + items[i + 1..])
    ensures var front, back := items[..i], items[i + 1..];
            && (forall k :: 0 <= k < |front| ==> front[k].id != items[i].id)
            && (forall k :: 0 <= k < |back| ==> back[k].id != items[i].id)
  {}

  lemma WithoutAt(items: seq<Item>, i: nat)
    requires Distinct(items) && i < |items|
    ensures Without(items, items[i].id) == items[..i] + items[i + 1..]
    ensures Total(items) == Total(Without(items, items[i].id)) + Size(items[i].data)
  {
    hide Without, Total, Distinct;
    SplitAt(items, i);
    WithoutMiddle(items[..i], items[i], items[i + 1..]);
  }

  lemma {:induction false} WithoutMembers(items: seq<Item>, id: string)
    ensures forall x :: x in Without(items, id) <==> x in items && x.id != id
    ensures Distinct(items) ==> Distinct(Without(items, id))
    ensures |Without(items, id)| <= |items| && Total(Without(items, id)) <= Total(items)
  {
    if items == [] {
    } else {
      WithoutMembers(items[1..], id);
      assert forall x :: x in items <==> x == items[0] || x in items[1..];
      if Distinct(items) && items[0].id != id {
        forall j | 0 <= j < |Without(items[1..], id)|
          ensures Without(items[1..], id)[j].id != items[0].id
        {
          assert Without(items[1..], id)[j] in items[1..];
        }
      }
    }
  }

  lemma {:induction false} LookupWithout(items: seq<Item>, id: string, other: string)
    ensures Lookup(Without(items, id), other) == if other == id then None else Lookup(items, other)
  {
    if items == [] {
    } else {
      LookupWithout(items[1..], id, other);
    }
  }

  lemma {:induction false} LookupConcat(a: seq<Item>, b: seq<Item>, id: string)
    ensures Lookup(a + b, id) == if Lookup(a, id).Some? then Lookup(a, id) else Lookup(b, id)
  {
    if a == [] {
      assert a + b == b;
    } else {
      assert (a + b)[1..] == a[1..] + b;
      LookupConcat(a[1..], b, id);
    }
  }

  lemma InsertSpec(items: seq<Item>, id: string, data: ResolvedData)
    requires Distinct(items)
    ensures Distinct(Insert(items, id, data))
    ensures Total(Insert(items, id, data)) <= Total(items) + Size(data)
    ensures forall x :: x in Insert(items, id, data) <==> x == Item(id, data) || (x in items && x.id != id)
    ensures forall k :: Lookup(Insert(items, id, data), k) == if k == id then Some(data) else Lookup(items, k)
  {
    WithoutMembers(items, id);
    var rest := Without(items, id);
    TotalConcat(rest, [Item(id, data)]);
    forall i | 0 <= i < |rest| ensures rest[i].id != id {
      assert rest[i] in rest;
    }
    forall k ensures Lookup(rest + [Item(id, data)], k) == if k == id then Some(data) else Lookup(items, k) {
      LookupConcat(rest, [Item(id, data)], k);
      LookupWithout(items, id, k);
    }
  }

  // ------------------------------------------------------------------ eviction

  /** Eviction drops a prefix, oldest first, and the shortest one that restores both bounds:
      keeping even one more of the dropped entries breaks a bound. */
  lemma {:induction false} EvictShortestPrefix(maxEntries: nat, maxBytes: nat, items: seq<Item>)
    ensures var kept := Evict(maxEntries, maxBytes, items);
            && |kept| <= |items|
            && kept == items[|items| - |kept|..]
            && Fits(maxEntries, maxBytes, kept)
            && forall k :: 0 <= k < |items| - |kept| ==> !Fits(maxEntries, maxBytes, items[k..])
    ensures Distinct(items) ==> Distinct(Evict(maxEntries, maxBytes, items))
  {
    if !Fits(maxEntries, maxBytes, items) {
      var tail := items[1..];
      EvictShortestPrefix(maxEntries, maxBytes, tail);
      var kept := Evict(maxEntries, maxBytes, tail);
      forall k | 0 <= k < |items| - |kept| ensures !Fits(maxEntries, maxBytes, items[k..]) {
        if k > 0 {
          assert items[k..] == tail[k - 1..];
        } else {
          assert items[0..] == items;
        }
      }
    } else {
      assert items == items[0..];
    }
  }

  /** An admissible entry fits on its own, so the newest entry is never the victim. */
  lemma {:induction false} NewestSurvives(maxEntries: nat, maxBytes: nat, items: seq<Item>)
    requires items != [] && Admissible(maxEntries, maxBytes, items[|items| - 1].data)
    ensures var kept := Evict(maxEntries, maxBytes, items);
            kept != [] && kept[|kept| - 1] == items[|items| - 1]
  {
    if |items| <= 1 {
    } else {
      NewestSurvives(maxEntries, maxBytes, items[1..]);
    }
  }

  lemma DistinctSuffix(items: seq<Item>, n: nat)
    requires Distinct(items) && n <= |items|
    ensures Distinct(items[n..])
  {}

  lemma LookupInSuffix(items: seq<Item>, n: nat, id: string)
    requires Distinct(items) && n <= |items| && Lookup(items[n..], id).Some?
    ensures Lookup(items[n..], id) == Lookup(items, id)
  {
    hide Lookup, Distinct;
    var rest := items[n..];
    DistinctSuffix(items, n);
    LookupFound(rest, id);
    var i :| 0 <= i < |rest| && rest[i].id == id;
    LookupAt(rest, i);
    LookupAt(items, n + i);
  }

  /** What a `put` leaves: both bounds, distinct identities, the new entry newest, and every
      other survivor unchanged. */
  lemma PutSpec(maxEntries: nat, maxBytes: nat, items: seq<Item>, id: string, data: ResolvedData)
    requires Distinct(items) && Fits(maxEntries, maxBytes, items)
    ensures var items' := Put(maxEntries, maxBytes, items, id, data);
            && Distinct(items') && Fits(maxEntries, maxBytes, items')
            && (forall x :: x in items' ==> x == Item(id, data) || x in items)
            && (Admissible(maxEntries, maxBytes, data) ==>
                  && items' != [] && items'[|items'| - 1] == Item(id, data)
                  && Lookup(items', id) == Some(data))
            && (!Admissible(maxEntries, maxBytes, data) ==> items' == items)
            && forall k :: k != id && Lookup(items', k).Some? ==> Lookup(items', k) == Lookup(items, k)
  {
    hide Lookup, Evict, Total, Without;
    if Admissible(maxEntries, maxBytes, data) {
      var all := Insert(items, id, data);
      var kept := Evict(maxEntries, maxBytes, all);
      InsertSpec(items, id, data);
      EvictShortestPrefix(maxEntries, maxBytes, all);
      NewestSurvives(maxEntries, maxBytes, all);
      LookupAt(kept, |kept| - 1);
      forall k | Lookup(kept, k).Some? ensures Lookup(kept, k) == Lookup(all, k) {
        LookupInSuffix(all, |all| - |kept|, k);
      }
    }
  }

  lemma OnlyOne(items: seq<Item>, i: nat)
    requires Distinct(items) && i < |items|
    ensures forall x :: x in items && x.id == items[i].id ==> x == items[i]
  {}

  lemma TotalOne(x: Item)
    ensures Total([x]) == Size(x.data)
  {}

  lemma TouchSpec(items: seq<Item>, id: string)
    requires Distinct(items)
    ensures var items' := Touch(items, id);
            && Distinct(items') && |items'| == |items| && Total(items') == Total(items)
            && (forall x :: x in items' <==> x in items)
            && (forall k :: Lookup(items', k) == Lookup(items, k))
            && (Lookup(items, id).Some? ==> items' != [] && items'[|items'| - 1].id == id)
  {
    hide Without, Total, Distinct;
    if Lookup(items, id).Some? {
      hide Lookup;
      var data := Lookup(items, id).value;
      LookupFound(items, id);
      var i :| 0 <= i < |items| && items[i].id == id;
      LookupAt(items, i);
      WithoutAt(items, i);
      InsertSpec(items, id, data);
      TotalConcat(Without(items, id), [Item(id, data)]);
      TotalOne(Item(id, data));
      OnlyOne(items, i);
    }
  }

  /** Before eviction runs, the byte total never passes twice the budget. */
  lemma TransientTotal(maxEntries: nat, maxBytes: nat, items: seq<Item>, id: string, data: ResolvedData)
    requires Distinct(items) && Fits(maxEntries, maxBytes, items) && Admissible(maxEntries, maxBytes, data)
    ensures Total(Insert(items, id, data)) <= 2 * maxBytes
  {
    InsertSpec(items, id, data);
  }

  // ------------------------------------------------------------------ runs

  datatype Op = GetOp(id: string) | PutOp(id: string, data: ResolvedData)

  function Apply(maxEntries: nat, maxBytes: nat, items: seq<Item>, op: Op): seq<Item> {
    match op
    case GetOp(id) => Touch(items, id)
    case PutOp(id, data) => Put(maxEntries, maxBytes, items, id, data)
  }

  function Replay(maxEntries: nat, maxBytes: nat, ops: seq<Op>): seq<Item> {
    if ops == [] then []
    else Apply(maxEntries, maxBytes, Replay(maxEntries, maxBytes, ops[..|ops| - 1]), ops[|ops| - 1])
  }

  lemma {:induction false} EveryRunBounded(maxEntries: nat, maxBytes: nat, ops: seq<Op>)
    ensures var items := Replay(maxEntries, maxBytes, ops);
            Distinct(items) && Fits(maxEntries, maxBytes, items)
  {
    if ops == [] {
    } else {
      var before, op := Replay(maxEntries, maxBytes, ops[..|ops| - 1]), ops[|ops| - 1];
      EveryRunBounded(maxEntries, maxBytes, ops[..|ops| - 1]);
      match op
      case GetOp(id) => TouchSpec(before, id);
      case PutOp(id, data) => PutSpec(maxEntries, maxBytes, before, id, data);
    }
  }

  /** Whatever happens, a hit returns the data of some earlier `put` of that identity. */
  lemma {:induction false} HitsWerePut(maxEntries: nat, maxBytes: nat, ops: seq<Op>, x: Item)
    requires x in Replay(maxEntries, maxBytes, ops)
    ensures PutOp(x.id, x.data) in ops
  {
    if ops == [] {
    } else {
      var front, op := ops[..|ops| - 1], ops[|ops| - 1];
      assert ops == front + [op];
      var before := Replay(maxEntries, maxBytes, front);
      EveryRunBounded(maxEntries, maxBytes, front);
      match op {
        case GetOp(id) => TouchSpec(before, id);
        case PutOp(id, data) => PutSpec(maxEntries, maxBytes, before, id, data);
      }
      if x in before {
        HitsWerePut(maxEntries, maxBytes, front, x);
      }
    }
  }

  // ------------------------------------------------------------------ stack inclusion

  /** `a` is `b` with some entries left out. */
  predicate Within(a: seq<Item>, b: seq<Item>) {
    if a == [] then true
    else if b == [] then false
    else (a[0] == b[0] && Within(a[1..], b[1..])) || Within(a, b[1..])
  }

  lemma {:induction false} WithinRefl(a: seq<Item>)
    ensures Within(a, a)
  {
    if a == [] {
    } else {
      WithinRefl(a[1..]);
    }
  }

  lemma {:induction false} WithinTail(a: seq<Item>, b: seq<Item>)
    requires Within(a, b) && a != []
    ensures Within(a[1..], b)
  {
    if a[0] == b[0] && Within(a[1..], b[1..]) {
    } else {
      WithinTail(a, b[1..]);
    }
  }

  lemma WithinBothTails(a: seq<Item>, b: seq<Item>)
    requires Within(a, b) && a != []
    ensures Within(a[1..], b[1..])
  {}

  lemma {:induction false} WithinAppend(a: seq<Item>, b: seq<Item>, x: Item)
    requires Within(a, b)
    ensures Within(a + [x], b + [x]) && Within(a, b + [x])
  {
    if b == [] {
      assert a + [x] == [x] && b + [x] == [x];
      WithinRefl([x]);
    } else {
      assert (b + [x])[1..] == b[1..] + [x];
      if a == [] {
        WithinAppend(a, b[1..], x);
      } else {
        assert (a + [x])[1..] == a[1..] + [x];
        if a[0] == b[0] && Within(a[1..], b[1..]) {
          WithinAppend(a[1..], b[1..], x);
        } else {
          WithinAppend(a, b[1..], x);
        }
      }
    }
  }

  lemma {:induction false} WithinWithout(a: seq<Item>, b: seq<Item>, id: string)
    requires Within(a, b)
    ensures Within(Without(a, id), Without(b, id))
  {
    if a == [] {
    } else {
      if a[0] == b[0] && Within(a[1..], b[1..]) {
        WithinWithout(a[1..], b[1..], id);
        assert Without(a, id) == Without(a[1..], id) || Without(a, id)[1..] == Without(a[1..], id);
        assert Without(b, id) == Without(b[1..], id) || Without(b, id)[1..] == Without(b[1..], id);
      } else {
        WithinWithout(a, b[1..], id);
        assert Without(b, id) == Without(b[1..], id) || Without(b, id)[1..] == Without(b[1..], id);
      }
    }
  }

  lemma {:induction false} WithinSizes(a: seq<Item>, b: seq<Item>)
    requires Within(a, b)
    ensures |a| <= |b| && Total(a) <= Total(b)
    ensures forall x :: x in a ==> x in b
  {
    if a == [] {
    } else {
      assert forall x :: x in a <==> x == a[0] || x in a[1..];
      assert forall x :: x in b <==> x == b[0] || x in b[1..];
      if a[0] == b[0] && Within(a[1..], b[1..]) {
        WithinSizes(a[1..], b[1..]);
      } else {
        WithinSizes(a, b[1..]);
      }
    }
  }

  lemma WithinLookup(a: seq<Item>, b: seq<Item>, id: string)
    requires Within(a, b) && Distinct(b) && Lookup(a, id).Some?
    ensures Lookup(b, id) == Lookup(a, id)
  {
    WithinSizes(a, b);
    LookupFound(a, id);
    var i :| 0 <= i < |b| && b[i] == Item(id, Lookup(a, id).value);
    LookupAt(b, i);
  }

  /** The byte budget evicts nothing along the run: every insertion's total stays within it. */
  predicate BudgetNeverBinds(maxEntries: nat, maxBytes: nat, ops: seq<Op>) {
    ops == []
    || (&& BudgetNeverBinds(maxEntries, maxBytes, ops[..|ops| - 1])
        && var op := ops[|ops| - 1];
           op.PutOp? && Size(op.data) <= maxBytes ==>
             Total(Insert(Replay(maxEntries, maxBytes, ops[..|ops| - 1]), op.id, op.data)) <= maxBytes)
  }

  /** The relation the induction keeps: the smaller cache is the larger one with entries left
      out, and it leaves some out only once it is full. */
  predicate Nested(small: nat, a: seq<Item>, b: seq<Item>) {
    Within(a, b) && (|a| == small || a == b)
  }

  lemma EvictByCount(maxEntries: nat, maxBytes: nat, items: seq<Item>)
    requires maxEntries > 0 && Total(items) <= maxBytes && |items| <= maxEntries + 1
    ensures Evict(maxEntries, maxBytes, items) == if |items| <= maxEntries then items else items[1..]
  {}

  lemma InsertNested(small: nat, large: nat, maxBytes: nat, a: seq<Item>, b: seq<Item>, id: string, data: ResolvedData)
    requires 0 < small <= large && Nested(small, a, b) && Size(data) <= maxBytes
    requires Distinct(a) && Distinct(b) && |a| <= small && |b| <= large
    requires Total(Insert(b, id, data)) <= maxBytes
    ensures Nested(small, Put(small, maxBytes, a, id, data), Put(large, maxBytes, b, id, data))
  {
    var a1, b1 := Insert(a, id, data), Insert(b, id, data);
    WithinWithout(a, b, id);
    WithinAppend(Without(a, id), Without(b, id), Item(id, data));
    WithinSizes(a1, b1);
    InsertLength(a, id, data);
    InsertLength(b, id, data);
    EvictByCount(small, maxBytes, a1);
    EvictByCount(large, maxBytes, b1);
    if Lookup(a, id).Some? {
      WithinLookup(a, b, id);
    }
    if |a1| > small {
      WithinTail(a1, b1);
      WithinBothTails(a1, b1);
    }
  }

  lemma InsertLength(items: seq<Item>, id: string, data: ResolvedData)
    requires Distinct(items)
    ensures |Insert(items, id, data)| == if Lookup(items, id).Some? then |items| else |items| + 1
  {
    LookupFound(items, id);
    if Lookup(items, id).Some? {
      var i :| 0 <= i < |items| && items[i].id == id;
      WithoutAt(items, i);
    } else {
      WithoutAbsent(items, id);
    }
  }

  lemma TouchNested(small: nat, a: seq<Item>, b: seq<Item>, id: string)
    requires Nested(small, a, b) && Distinct(a) && Distinct(b)
    ensures Nested(small, Touch(a, id), Touch(b, id))
  {
    TouchSpec(a, id);
    TouchSpec(b, id);
    if Lookup(b, id).Some? {
      var data := Lookup(b, id).value;
      WithinWithout(a, b, id);
      WithinAppend(Without(a, id), Without(b, id), Item(id, data));
      if Lookup(a, id).Some? {
        WithinLookup(a, b, id);
      } else {
        LookupFound(a, id);
        WithoutAbsent(a, id);
      }
    } else if Lookup(a, id).Some? {
      WithinLookup(a, b, id);
      assert false;
    }
  }

  lemma {:induction false} RunsNested(small: nat, large: nat, maxBytes: nat, ops: seq<Op>)
    requires 0 < small <= large && BudgetNeverBinds(large, maxBytes, ops)
    ensures Nested(small, Replay(small, maxBytes, ops), Replay(large, maxBytes, ops))
  {
    if ops == [] {
    } else {
      var front, op := ops[..|ops| - 1], ops[|ops| - 1];
      RunsNested(small, large, maxBytes, front);
      EveryRunBounded(small, maxBytes, front);
      EveryRunBounded(large, maxBytes, front);
      var a, b := Replay(small, maxBytes, front), Replay(large, maxBytes, front);
      match op
      case GetOp(id) => TouchNested(small, a, b, id);
      case PutOp(id, data) =>
        if Size(data) <= maxBytes {
          InsertNested(small, large, maxBytes, a, b, id, data);
        }
    }
  }

  /** Stack inclusion: at the end of every run (hence at every point of one), a hit in the
      smaller cache is a hit with the same data in the larger. */
  lemma StackInclusion(small: nat, large: nat, maxBytes: nat, ops: seq<Op>, id: string)
    requires small <= large && BudgetNeverBinds(large, maxBytes, ops)
    requires Lookup(Replay(small, maxBytes, ops), id).Some?
    ensures Lookup(Replay(large, maxBytes, ops), id) == Lookup(Replay(small, maxBytes, ops), id)
  {
    EveryRunBounded(small, maxBytes, ops);
    EveryRunBounded(large, maxBytes, ops);
    if small == 0 {
      assert false;
    }
    RunsNested(small, large, maxBytes, ops);
    WithinLookup(Replay(small, maxBytes, ops), Replay(large, maxBytes, ops), id);
  }

  lemma ReplaySnoc(maxEntries: nat, maxBytes: nat, ops: seq<Op>, op: Op)
    ensures Replay(maxEntries, maxBytes, ops + [op])
        == Apply(maxEntries, maxBytes, Replay(maxEntries, maxBytes, ops), op)
  {}

  lemma PutNew(maxEntries: nat, maxBytes: nat, items: seq<Item>, x: Item)
    requires forall i :: 0 <= i < |items| ==> items[i].id != x.id
    requires Admissible(maxEntries, maxBytes, x.data)
    ensures Put(maxEntries, maxBytes, items, x.id, x.data) == Evict(maxEntries, maxBytes, items + [x])
  {
    WithoutAbsent(items, x.id);
  }
}
