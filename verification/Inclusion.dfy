/** Whether a larger memory cache is at least as good as a smaller one: exactly which bounds make every
    hit of the smaller a hit of the larger, over every run of operations. */
module Inclusion {
  import opened Wrappers
  import opened Types
  import opened Lru

  /** Whatever is put and looked at, the larger cache holds all that the smaller one does. */
  ghost predicate Included(small: nat, large: nat, maxBytes: nat) {
    forall ops: seq<Op>, id: string :: IncludedAt(small, large, maxBytes, ops, id)
  }

  predicate IncludedAt(small: nat, large: nat, maxBytes: nat, ops: seq<Op>, id: string) {
    var held := Lookup(Replay(small, maxBytes, ops), id);
    held.Some? ==> Lookup(Replay(large, maxBytes, ops), id) == held
  }

  // ------------------------------------------------------------------ bounds that give inclusion

  /** A cache of one entry holds what was put last, and so does every larger one. */
  lemma {:induction false} OneEntryIncluded(large: nat, maxBytes: nat, ops: seq<Op>)
    requires large > 0
    ensures forall x :: x in Replay(1, maxBytes, ops) ==> x in Replay(large, maxBytes, ops)
  {
    hide Put, Touch;
    if ops == [] {
    } else {
      var front, op := ops[..|ops| - 1], ops[|ops| - 1];
      var a, b := Replay(1, maxBytes, front), Replay(large, maxBytes, front);
      OneEntryIncluded(large, maxBytes, front);
      EveryRunBounded(1, maxBytes, front);
      EveryRunBounded(large, maxBytes, front);
      match op
      case GetOp(id) =>
        TouchSpec(a, id);
        TouchSpec(b, id);
      case PutOp(id, data) =>
        PutSpec(1, maxBytes, a, id, data);
        PutSpec(large, maxBytes, b, id, data);
    }
  }

  lemma OneEntryHits(large: nat, maxBytes: nat, ops: seq<Op>, id: string)
    requires large > 0
    ensures IncludedAt(1, large, maxBytes, ops, id)
  {
    var a, b := Replay(1, maxBytes, ops), Replay(large, maxBytes, ops);
    if Lookup(a, id).Some? {
      LookupFound(a, id);
      OneEntryIncluded(large, maxBytes, ops);
      EveryRunBounded(large, maxBytes, ops);
      var i :| 0 <= i < |b| && b[i] == Item(id, Lookup(a, id).value);
      LookupAt(b, i);
    }
  }

  /** With no bytes to spend every entry is empty, and the budget evicts nothing. */
  lemma {:induction false} EmptyBudgetNeverBinds(maxEntries: nat, ops: seq<Op>)
    ensures BudgetNeverBinds(maxEntries, 0, ops)
  {
    if ops == [] {
    } else {
      var front, op := ops[..|ops| - 1], ops[|ops| - 1];
      EmptyBudgetNeverBinds(maxEntries, front);
      EveryRunBounded(maxEntries, 0, front);
      if op.PutOp? {
        InsertSpec(Replay(maxEntries, 0, front), op.id, op.data);
      }
    }
  }

  // ------------------------------------------------------------------ runs that break it

  function Blob(n: nat): Bytes {
    seq(n, i => 0)
  }

  /** The `k`-th entry of a run: `n` bytes under an identity of its own. */
  function Entry(k: nat, n: nat): Item {
    Item(seq(k, i => 'x'), ResolvedData(Blob(n), ""))
  }

  /** Entries `1` to `n`, all empty. */
  function Fillers(n: nat): (items: seq<Item>)
    ensures |items| == n && Total(items) == 0
    ensures forall i :: 0 <= i < n ==> items[i] == Entry(i + 1, 0)
  {
    if n == 0 then []
    else
      TotalConcat(Fillers(n - 1), [Entry(n, 0)]);
      Fillers(n - 1) + [Entry(n, 0)]
  }

  function Puts(items: seq<Item>): (ops: seq<Op>)
    ensures |ops| == |items|
  {
    seq(|items|, i requires 0 <= i < |items| => PutOp(items[i].id, items[i].data))
  }

  function Newest(items: seq<Item>, n: nat): seq<Item> {
    if |items| <= n then items else items[|items| - n..]
  }

  /** An identity's length is its number, so different entries have different identities. */
  lemma Numbered(k: nat, n: nat)
    ensures |Entry(k, n).id| == k && Size(Entry(k, n).data) == n
  {}

  lemma NewestTotal(items: seq<Item>, n: nat)
    ensures Total(Newest(items, n)) <= Total(items)
  {
    if |items| > n {
      var front := items[..|items| - n];
      assert items == front + Newest(items, n);
      TotalConcat(front, Newest(items, n));
    }
  }

  /** Puts that fit the byte budget together leave the newest entries. */
  lemma {:induction false} PutsKeepNewest(maxEntries: nat, maxBytes: nat, items: seq<Item>)
    requires maxEntries > 0 && Distinct(items) && Total(items) <= maxBytes
    ensures Replay(maxEntries, maxBytes, Puts(items)) == Newest(items, maxEntries)
    decreases |items|
  {
    if items == [] {
    } else {
      var front, x := items[..|items| - 1], items[|items| - 1];
      assert items == front + [x];
      assert Puts(items) == Puts(front) + [PutOp(x.id, x.data)];
      TotalConcat(front, [x]);
      PutsKeepNewest(maxEntries, maxBytes, front);
      ReplaySnoc(maxEntries, maxBytes, Puts(front), PutOp(x.id, x.data));
      OnePutMore(maxEntries, maxBytes, front, x);
    }
  }

  lemma OnePutMore(maxEntries: nat, maxBytes: nat, front: seq<Item>, x: Item)
    requires maxEntries > 0 && Distinct(front + [x]) && Total(front + [x]) <= maxBytes
    ensures Put(maxEntries, maxBytes, Newest(front, maxEntries), x.id, x.data) == Newest(front + [x], maxEntries)
  {
    hide Put, Evict, Total, Newest, Distinct;
    var kept := Newest(front, maxEntries);
    NewestTotal(front, maxEntries);
    TotalConcat(front, [x]);
    TotalConcat(kept, [x]);
    TotalOne(x);
    NewestLacks(front, maxEntries, x);
    NewestSnoc(front, maxEntries, x);
    PutNew(maxEntries, maxBytes, kept, x);
    EvictByCount(maxEntries, maxBytes, kept + [x]);
  }

  lemma NewestLacks(front: seq<Item>, n: nat, x: Item)
    requires Distinct(front + [x])
    ensures forall i :: 0 <= i < |Newest(front, n)| ==> Newest(front, n)[i].id != x.id
  {
    var all := front + [x];
    assert forall i :: 0 <= i < |front| ==> all[i] == front[i] && all[i].id != all[|front|].id;
  }

  lemma NewestSnoc(front: seq<Item>, n: nat, x: Item)
    requires n > 0
    ensures var more := Newest(front, n) + [x];
            |more| <= n + 1 && Newest(front + [x], n) == if |more| <= n then more else more[1..]
  {}

  /** The older of two entries that do not fit together goes, and all before it. */
  lemma {:induction false} EvictToLast(maxEntries: nat, maxBytes: nat, before: seq<Item>, x: Item, y: Item)
    requires maxEntries > 0 && Size(y.data) <= maxBytes < Size(x.data) + Size(y.data)
    ensures Evict(maxEntries, maxBytes, before + [x, y]) == [y]
  {
    assert [x, y][1..] == [y];
    TotalOne(y);
    TotalConcat(before, [x, y]);
    if before == [] {
      assert before + [x, y] == [x, y];
    } else {
      EvictToLast(maxEntries, maxBytes, before[1..], x, y);
      assert (before + [x, y])[1..] == before[1..] + [x, y];
    }
  }

  /** One entry as large as the budget, then empty ones until the larger cache is full; a look at the
      large entry; then another as large. */
  function BreakingRun(large: nat, maxBytes: nat): seq<Op>
    requires large > 0
  {
    var first, last := Entry(0, maxBytes), Entry(large, maxBytes);
    Puts([first] + Fillers(large - 1)) + [GetOp(first.id)] + [PutOp(last.id, last.data)]
  }

  lemma RunIsDistinct(large: nat, maxBytes: nat)
    requires large > 0
    ensures var items := [Entry(0, maxBytes)] + Fillers(large - 1);
            Distinct(items) && Total(items) == maxBytes
  {
    hide Fillers, Entry, Total;
    var first, fill := Entry(0, maxBytes), Fillers(large - 1);
    Numbered(0, maxBytes);
    TotalConcat([first], fill);
    TotalOne(first);
    forall i | 0 <= i < |[first] + fill| ensures |([first] + fill)[i].id| == i {
      Numbered(i, 0);
    }
  }

  /** The larger cache is left with the last entry alone: the look had made the first the newest but
      one, and the two do not fit together. */
  lemma LargerKeepsOne(large: nat, maxBytes: nat)
    requires large > 0 && maxBytes > 0
    ensures Replay(large, maxBytes, BreakingRun(large, maxBytes)) == [Entry(large, maxBytes)]
  {
    hide Replay, Evict, Put, Total, Fillers, Entry;
    var first, last, fill := Entry(0, maxBytes), Entry(large, maxBytes), Fillers(large - 1);
    var items := [first] + fill;
    RunIsDistinct(large, maxBytes);
    PutsKeepNewest(large, maxBytes, items);
    ReplaySnoc(large, maxBytes, Puts(items), GetOp(first.id));
    ReplaySnoc(large, maxBytes, Puts(items) + [GetOp(first.id)], PutOp(last.id, last.data));
    TouchHead(first, fill);
    Numbered(0, maxBytes);
    Numbered(large, maxBytes);
    forall i | 0 <= i < |fill + [first]| ensures (fill + [first])[i].id != last.id {
      Numbered(if i < |fill| then i + 1 else 0, if i < |fill| then 0 else maxBytes);
    }
    PutNew(large, maxBytes, fill + [first], last);
    assert fill + [first] + [last] == fill + [first, last];
    EvictToLast(large, maxBytes, fill, first, last);
  }

  lemma TouchHead(x: Item, rest: seq<Item>)
    requires Distinct([x] + rest)
    ensures Touch([x] + rest, x.id) == rest + [x]
  {
    var items := [x] + rest;
    WithoutAt(items, 0);
    assert items[..0] + items[1..] == rest;
  }

  /** The smaller cache had let the first entry go, so it still has room for the last empty one. */
  lemma SmallerKeepsFiller(small: nat, large: nat, maxBytes: nat)
    requires 2 <= small < large
    ensures Lookup(Replay(small, maxBytes, BreakingRun(large, maxBytes)), Entry(large - 1, 0).id).Some?
  {
    hide Replay, Evict, Put, Total, Fillers, Entry, Newest;
    var first, last, fill := Entry(0, maxBytes), Entry(large, maxBytes), Fillers(large - 1);
    var items := [first] + fill;
    RunIsDistinct(large, maxBytes);
    PutsKeepNewest(small, maxBytes, items);
    ReplaySnoc(small, maxBytes, Puts(items), GetOp(first.id));
    ReplaySnoc(small, maxBytes, Puts(items) + [GetOp(first.id)], PutOp(last.id, last.data));
    var kept := Newest(fill, small);
    Numbered(0, maxBytes);
    Numbered(large, maxBytes);
    NewestFillers(first, last, small, large);
    assert Newest(items, small) == kept;
    LookupFound(kept, first.id);
    PutNew(small, maxBytes, kept, last);
    NewestTotal(fill, small);
    TotalConcat(kept, [last]);
    TotalOne(last);
    EvictByCount(small, maxBytes, kept + [last]);
    LastButOne(kept, last);
    LookupFound((kept + [last])[1..], Entry(large - 1, 0).id);
  }

  lemma LastButOne(kept: seq<Item>, x: Item)
    requires |kept| >= 2
    ensures (kept + [x])[1..][|kept| - 2] == kept[|kept| - 1]
  {}

  /** An entry at the old end does not matter once the cache is full without it. */
  lemma NewestBehind(x: Item, rest: seq<Item>, n: nat)
    requires n <= |rest|
    ensures Newest([x] + rest, n) == Newest(rest, n) && |Newest(rest, n)| == n
  {
    assert ([x] + rest)[|rest| + 1 - n..] == rest[|rest| - n..];
  }

  lemma NewestAt(items: seq<Item>, n: nat, i: nat)
    requires i < n <= |items|
    ensures Newest(items, n)[i] == items[|items| - n + i]
  {}

  lemma NewestFillers(first: Item, last: Item, small: nat, large: nat)
    requires 2 <= small < large && |first.id| == 0 && |last.id| == large
    ensures var kept := Newest(Fillers(large - 1), small);
            && Newest([first] + Fillers(large - 1), small) == kept
            && |kept| == small && kept[small - 1] == Entry(large - 1, 0)
            && forall i :: 0 <= i < |kept| ==> kept[i].id != first.id && kept[i].id != last.id
  {
    hide Fillers, Entry, Newest;
    var fill := Fillers(large - 1);
    var kept := Newest(fill, small);
    NewestBehind(first, fill, small);
    NewestAt(fill, small, small - 1);
    forall i | 0 <= i < |kept| ensures kept[i].id != first.id && kept[i].id != last.id {
      NewestAt(fill, small, i);
      Numbered(large - small + i, 0);
    }
  }

  /** Two caches of more than one entry that differ in size, and any byte budget at all: the smaller
      ends a run holding an entry that the larger has had to evict. */
  lemma BindingBudgetBreaksInclusion(small: nat, large: nat, maxBytes: nat)
    requires 2 <= small < large && maxBytes > 0
    ensures var ops, id := BreakingRun(large, maxBytes), Entry(large - 1, 0).id;
            Lookup(Replay(small, maxBytes, ops), id).Some? && Lookup(Replay(large, maxBytes, ops), id).None?
  {
    hide Replay, BreakingRun, Entry;
    SmallerKeepsFiller(small, large, maxBytes);
    LargerKeepsOne(large, maxBytes);
    Numbered(large - 1, 0);
    Numbered(large, maxBytes);
    LookupFound([Entry(large, maxBytes)], Entry(large - 1, 0).id);
  }

  /** A cache that is smaller outright loses the oldest of one entry more than it holds. */
  lemma FewerEntriesLose(small: nat, large: nat, maxBytes: nat)
    requires small > large
    ensures var ops, id := Puts(Fillers(large + 1)), Entry(1, 0).id;
            Lookup(Replay(small, maxBytes, ops), id).Some? && Lookup(Replay(large, maxBytes, ops), id).None?
  {
    hide Replay, Fillers, Entry;
    var fill := Fillers(large + 1);
    forall i | 0 <= i < |fill| ensures |fill[i].id| == i + 1 {
      Numbered(i + 1, 0);
    }
    assert Distinct(fill);
    PutsKeepNewest(small, maxBytes, fill);
    LookupAt(fill, 0);
    if large == 0 {
      EveryRunBounded(0, maxBytes, Puts(fill));
    } else {
      PutsKeepNewest(large, maxBytes, fill);
      LookupFound(Newest(fill, large), Entry(1, 0).id);
    }
  }

  // ------------------------------------------------------------------ exactly when

  /** The exact condition, on the bounds alone: a cache is included in another of the same size; in a
      larger one if it holds one entry at most, or if there are no bytes to spend; and otherwise not. */
  lemma InclusionExactly(small: nat, large: nat, maxBytes: nat)
    ensures Included(small, large, maxBytes) <==> small == large || (small < large && (small <= 1 || maxBytes == 0))
  {
    hide Replay, BreakingRun, Puts, Fillers;
    if small == large {
    } else if small > large {
      FewerEntriesLose(small, large, maxBytes);
      assert !IncludedAt(small, large, maxBytes, Puts(Fillers(large + 1)), Entry(1, 0).id);
    } else if small > 1 && maxBytes > 0 {
      BindingBudgetBreaksInclusion(small, large, maxBytes);
      assert !IncludedAt(small, large, maxBytes, BreakingRun(large, maxBytes), Entry(large - 1, 0).id);
    } else {
      forall ops: seq<Op>, id: string ensures IncludedAt(small, large, maxBytes, ops, id) {
        if small == 0 {
          EveryRunBounded(0, maxBytes, ops);
        } else if small == 1 {
          OneEntryHits(large, maxBytes, ops, id);
        } else {
          EmptyBudgetNeverBinds(large, ops);
          if Lookup(Replay(small, maxBytes, ops), id).Some? {
            StackInclusion(small, large, maxBytes, ops, id);
          }
        }
      }
    }
  }
}
