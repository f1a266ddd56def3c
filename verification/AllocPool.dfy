/** The pooled allocator: free lists of items as stacks in fixed-size chunks, one for each thread and
    a global one, with batches moved between them. */
module AllocPool {
  import opened Basics
  import opened Buffers
  import opened Options

  type Item = nat

  const CHUNK_SIZE := 16

  // ---------------------------------------------------------------- chunked stacks

  /** The items of a stack, bottom first. */
  function ItemsOf(chunks: seq<seq<Item>>, size: nat): (s: seq<Item>)
    requires forall c :: 0 <= c < |chunks| ==> |chunks[c]| == CHUNK_SIZE
    requires size <= |chunks| * CHUNK_SIZE
    ensures |s| == size
  {
    seq(size, k requires 0 <= k < size => chunks[k / CHUNK_SIZE][k % CHUNK_SIZE])
  }

  ghost predicate ChunksOk(chunks: seq<seq<Item>>, topChunk: nat, top: nat, size: nat) {
    && topChunk < |chunks|
    && (forall c :: 0 <= c < |chunks| ==> |chunks[c]| == CHUNK_SIZE)
    && top <= CHUNK_SIZE
    && size == topChunk * CHUNK_SIZE + top
  }

  lemma InChunk(c: nat, j: nat)
    requires j < CHUNK_SIZE
    ensures (c * CHUNK_SIZE + j) / CHUNK_SIZE == c && (c * CHUNK_SIZE + j) % CHUNK_SIZE == j
  {
  }

  /** A slice of the top chunk is a slice of the items. */
  lemma SliceOfChunk(chunks: seq<seq<Item>>, topChunk: nat, top: nat, size: nat, n: nat)
    requires ChunksOk(chunks, topChunk, top, size) && n <= top
    ensures ItemsOf(chunks, size)[size - n..] == chunks[topChunk][top - n..top]
    ensures ItemsOf(chunks, size)[..size - n] == ItemsOf(chunks, size - n)
  {
    var s := ItemsOf(chunks, size);
    forall k | size - n <= k < size ensures s[k] == chunks[topChunk][k - (size - top)] {
      InChunk(topChunk, k - (size - top));
    }
  }

  lemma WrittenOnTop(chunks: seq<seq<Item>>, topChunk: nat, top: nat, size: nat, data: seq<Item>)
    requires ChunksOk(chunks, topChunk, top, size) && top + |data| <= CHUNK_SIZE
    ensures var changed := chunks[topChunk := Patch(chunks[topChunk], top, data)];
      && ChunksOk(changed, topChunk, top + |data|, size + |data|)
      && ItemsOf(changed, size + |data|) == ItemsOf(chunks, size) + data
  {
    var changed := chunks[topChunk := Patch(chunks[topChunk], top, data)];
    var s, t := ItemsOf(chunks, size), ItemsOf(changed, size + |data|);
    forall k | 0 <= k < size + |data| ensures t[k] == (s + data)[k] {
      if k < size {
        assert k / CHUNK_SIZE < topChunk || (k / CHUNK_SIZE == topChunk && k % CHUNK_SIZE < top);
      } else {
        InChunk(topChunk, top + (k - size));
        assert t[k] == changed[topChunk][top + (k - size)];
      }
    }
  }

  /** The chunks up to the top hold these items. */
  ghost predicate StackOk(chunks: seq<seq<Item>>, topChunk: nat, top: nat, size: nat, items: seq<Item>) {
    ChunksOk(chunks, topChunk, top, size) && items == ItemsOf(chunks, size)
  }

  lemma Shape(chunks: seq<seq<Item>>, topChunk: nat, top: nat, size: nat, items: seq<Item>)
    requires StackOk(chunks, topChunk, top, size, items)
    ensures topChunk < |chunks| && |chunks[topChunk]| == CHUNK_SIZE && top <= CHUNK_SIZE && top <= size == |items|
  {
  }

  lemma PreviousOk(chunks: seq<seq<Item>>, topChunk: nat, size: nat, items: seq<Item>)
    requires StackOk(chunks, topChunk, 0, size, items) && size > 0
    ensures topChunk > 0 && StackOk(chunks, topChunk - 1, CHUNK_SIZE, size, items)
  {
  }

  lemma NextOk(chunks: seq<seq<Item>>, topChunk: nat, size: nat, items: seq<Item>, blank: seq<Item>)
    requires StackOk(chunks, topChunk, CHUNK_SIZE, size, items) && |blank| == CHUNK_SIZE
    ensures topChunk + 1 < |chunks| ==> StackOk(chunks, topChunk + 1, 0, size, items)
    ensures topChunk + 1 == |chunks| ==> StackOk(chunks + [blank], topChunk + 1, 0, size, items)
  {
    if topChunk + 1 == |chunks| {
      assert ItemsOf(chunks + [blank], size) == ItemsOf(chunks, size);
    }
  }

  /** Taking items off the top chunk. */
  lemma TakenOk(chunks: seq<seq<Item>>, topChunk: nat, top: nat, size: nat, items: seq<Item>, n: nat)
    requires StackOk(chunks, topChunk, top, size, items) && n <= top
    ensures n <= size && StackOk(chunks, topChunk, top - n, size - n, items[..size - n])
    ensures topChunk < |chunks| && |chunks[topChunk]| == CHUNK_SIZE && items[size - n..] == chunks[topChunk][top - n..top]
  {
    SliceOfChunk(chunks, topChunk, top, size, n);
  }

  /** Putting items on top. */
  lemma PutOk(chunks: seq<seq<Item>>, topChunk: nat, top: nat, size: nat, items: seq<Item>, data: seq<Item>)
    requires StackOk(chunks, topChunk, top, size, items) && top + |data| <= CHUNK_SIZE
    ensures topChunk < |chunks| && |chunks[topChunk]| == CHUNK_SIZE
    ensures StackOk(chunks[topChunk := Patch(chunks[topChunk], top, data)], topChunk, top + |data|, size + |data|, items + data)
  {
    WrittenOnTop(chunks, topChunk, top, size, data);
  }

  class Stack {
    var chunks: seq<seq<Item>>
    var topChunk: nat
    var top: nat
    var size: nat
    ghost var items: seq<Item>

    ghost predicate Valid()
      reads this
    {
      StackOk(chunks, topChunk, top, size, items)
    }

    constructor ()
      ensures Valid() && items == []
    {
      chunks := [seq(CHUNK_SIZE, _ => 0)];
      topChunk, top, size := 0, 0, 0;
      items := [];
    }

    /** Steps back to the full chunk below. */
    method PreviousChunk()
      requires Valid() && top == 0 && size > 0
      modifies this`topChunk, this`top
      ensures Valid() && top == CHUNK_SIZE
    {
      hide StackOk;
      PreviousOk(chunks, topChunk, size, items);
      topChunk := topChunk - 1;
      top := CHUNK_SIZE;
    }

    /** Steps on to the next chunk, which is made if there is none. */
    method NextChunk()
      requires Valid() && top == CHUNK_SIZE
      modifies this`chunks, this`topChunk, this`top
      ensures Valid() && top == 0
    {
      hide StackOk;
      var blank := seq(CHUNK_SIZE, _ => 0);
      NextOk(chunks, topChunk, size, items, blank);
      Shape(chunks, topChunk, top, size, items);
      if topChunk + 1 == |chunks| {
        chunks := chunks + [blank];
      }
      topChunk := topChunk + 1;
      top := 0;
    }

    /** Takes items off the top chunk, as they lie there. */
    method TakeTop(n: nat) returns (data: seq<Item>)
      requires Valid() && n <= top
      modifies this`top, this`size, this`items
      ensures Valid() && n <= |old(items)| && |data| == n
      ensures items == old(items)[..|old(items)| - n] && data == old(items)[|old(items)| - n..]
    {
      hide StackOk;
      Shape(chunks, topChunk, top, size, items);
      TakenOk(chunks, topChunk, top, size, items, n);
      data := chunks[topChunk][top - n..top];
      top := top - n;
      size := size - n;
      items := items[..size];
    }

    /** Puts items on the top chunk, where they fit. */
    method PutTop(data: seq<Item>)
      requires Valid() && top + |data| <= CHUNK_SIZE
      modifies this`chunks, this`top, this`size, this`items
      ensures Valid() && items == old(items) + data
    {
      hide StackOk, Patch;
      PutOk(chunks, topChunk, top, size, items, data);
      chunks := chunks[topChunk := Patch(chunks[topChunk], top, data)];
      top := top + |data|;
      size := size + |data|;
      items := items + data;
    }

    method Push(item: Item)
      requires Valid()
      modifies this
      ensures Valid() && items == old(items) + [item]
    {
      hide StackOk, Patch;
      Shape(chunks, topChunk, top, size, items);
      if top == CHUNK_SIZE {
        NextChunk();
      }
      PutTop([item]);
    }

    method Pop() returns (item: Option<Item>)
      requires Valid()
      modifies this
      ensures Valid()
      ensures item == None <==> old(items) == []
      ensures item == None ==> items == []
      ensures item != None ==> old(items) == items + [item.value]
    {
      hide StackOk;
      Shape(chunks, topChunk, top, size, items);
      if top == 0 {
        if size == 0 {
          return None;
        }
        PreviousChunk();
      }
      var data := TakeTop(1);
      LastOf(old(items));
      item := Some(data[0]);
    }
  }

  lemma LastOf(items: seq<Item>)
    requires items != []
    ensures items == items[..|items| - 1] + [items[|items| - 1..][0]]
  {
  }

  /** Moves at least one item and at most `limit`: what lies in the one top chunk and fits in the other. */
  method MoveSome(from: Stack, to: Stack, limit: nat) returns (n: nat)
    requires from != to && from.Valid() && to.Valid() && 0 < limit <= |from.items|
    modifies from, to
    ensures from.Valid() && to.Valid()
    ensures 0 < n <= limit && n <= |old(from.items)|
    ensures from.items == old(from.items)[..|old(from.items)| - n]
    ensures to.items == old(to.items) + old(from.items)[|old(from.items)| - n..]
  {
    hide StackOk, Patch;
    Shape(from.chunks, from.topChunk, from.top, from.size, from.items);
    if from.top == 0 {
      from.PreviousChunk();
    }
    Shape(to.chunks, to.topChunk, to.top, to.size, to.items);
    if to.top == CHUNK_SIZE {
      to.NextChunk();
    }
    n := if from.top < limit then from.top else limit;
    n := if CHUNK_SIZE - to.top < n then CHUNK_SIZE - to.top else n;
    var data := from.TakeTop(n);
    to.PutTop(data);
  }

  lemma MovedOn(f: seq<Item>, left: nat, n: nat)
    requires n <= left <= |f|
    ensures f[..left][..left - n] == f[..left - n]
    ensures multiset(f[..left][left - n..]) + multiset(f[left..]) == multiset(f[left - n..])
  {
    assert f[..left][left - n..] == f[left - n..left];
    assert f[left - n..] == f[left - n..left] + f[left..];
  }

  /** Part of `f` has gone from its end to the end of `t`, in some order. */
  ghost predicate Shifted(f: seq<Item>, t: seq<Item>, done: nat, from: seq<Item>, to: seq<Item>) {
    && done <= |f|
    && from == f[..|f| - done]
    && t <= to
    && multiset(to) == multiset(t) + multiset(f[|f| - done..])
  }

  lemma ShiftedNone(f: seq<Item>, t: seq<Item>)
    ensures Shifted(f, t, 0, f, t)
  {
    assert f[..|f|] == f && f[|f|..] == [];
  }

  lemma ShiftedMore(f: seq<Item>, t: seq<Item>, done: nat, from: seq<Item>, to: seq<Item>, n: nat)
    requires Shifted(f, t, done, from, to) && n <= |from|
    ensures Shifted(f, t, done + n, from[..|from| - n], to + from[|from| - n..])
  {
    MovedOn(f, |from|, n);
  }

  lemma ShiftedAll(f: seq<Item>, t: seq<Item>, done: nat, from: seq<Item>, to: seq<Item>)
    requires Shifted(f, t, done, from, to)
    ensures done <= |f| && from == f[..|f| - done] && t <= to
    ensures multiset(to) == multiset(t) + multiset(f[|f| - done..])
  {
  }

  /** Moves items from the top of one stack to another, as many at a time as the two top chunks allow. */
  method Move(from: Stack, to: Stack, length: nat) returns (moved: nat)
    requires from != to && from.Valid() && to.Valid()
    modifies from, to
    ensures from.Valid() && to.Valid()
    ensures moved == if |old(from.items)| < length then |old(from.items)| else length
    ensures from.items == old(from.items)[..|old(from.items)| - moved]
    ensures old(to.items) <= to.items
    ensures multiset(to.items) == multiset(old(to.items)) + multiset(old(from.items)[|old(from.items)| - moved..])
  {
    hide StackOk, Shifted;
    ghost var f, t := from.items, to.items;
    Shape(from.chunks, from.topChunk, from.top, from.size, from.items);
    moved := if from.size < length then from.size else length;
    var remaining: nat := moved;
    ShiftedNone(f, t);
    while remaining > 0
      invariant from.Valid() && to.Valid() && remaining <= moved <= |f|
      invariant |from.items| == |f| - (moved - remaining)
      invariant Shifted(f, t, moved - remaining, from.items, to.items)
    {
      ghost var g, u := from.items, to.items;
      var n := MoveSome(from, to, remaining);
      ShiftedMore(f, t, moved - remaining, g, u, n);
      remaining := remaining - n;
    }
    ShiftedAll(f, t, moved, from.items, to.items);
  }

  // ---------------------------------------------------------------- threads and the global list

  datatype Config = Config(batch: nat, localMax: nat, globalMax: Option<nat>)

  /** Where a thread is: between calls, refilled and about to take, or over its limit. */
  datatype At = Ready | Taking | Rebalancing

  /** The free lists, the items in the callers' hands, and the counters. Items are named in the order in which
      the heap gave them out, so `drawn` is also the next name. */
  datatype State = State(local: seq<multiset<Item>>, at: seq<At>, global: multiset<Item>, hands: multiset<Item>,
                         drawn: nat, freed: nat, held: int)

  /** Any item may be on top and any batch may move: the order of a free list is not relied on. */
  datatype Action =
    | Take(th: nat, item: Item)
    | TakeNone(th: nat)
    | RefillGlobal(th: nat, moved: multiset<Item>)
    | RefillHeap(th: nat)
    | Give(th: nat, item: Item)
    | Rebalance(th: nat, moved: multiset<Item>, dropped: multiset<Item>)

  function EmptyLists(threads: nat): seq<multiset<Item>> {
    seq(threads, _ => multiset{})
  }

  predicate Initial(s: State, threads: nat) {
    s == State(EmptyLists(threads), seq(threads, _ => Ready), multiset{}, multiset{}, 0, 0, 0)
  }

  /** How many items are over the limit of the global list. */
  function Excess(c: Config, size: nat): nat {
    if c.globalMax.Some? && size > c.globalMax.value then size - c.globalMax.value else 0
  }

  predicate Enabled(c: Config, s: State, a: Action) {
    && a.th < |s.local| && a.th < |s.at|
    && var list := s.local[a.th];
    match a
    case Take(th, item) => s.at[th] != Rebalancing && item in list
    case TakeNone(th) => s.at[th] == Taking && |list| == 0
    case RefillGlobal(th, moved) =>
      s.at[th] == Ready && |list| == 0 && |s.global| >= c.batch && moved <= s.global && |moved| == c.batch
    case RefillHeap(th) => s.at[th] == Ready && |list| == 0 && |s.global| < c.batch
    case Give(th, item) => s.at[th] == Ready && item in s.hands
    case Rebalance(th, moved, dropped) =>
      && s.at[th] == Rebalancing && moved <= list && |moved| == Min(|list|, c.batch)
      && dropped <= s.global + moved && |dropped| == Excess(c, |s.global + moved|)
  }

  /** Items new from the heap. */
  function NewItems(from: nat, n: nat): multiset<Item> {
    if n == 0 then multiset{} else NewItems(from, n - 1) + multiset{from + n - 1}
  }

  function Step(c: Config, s: State, a: Action): State
    requires Enabled(c, s, a)
  {
    var list := s.local[a.th];
    match a
    case Take(th, item) =>
      s.(local := s.local[th := list - multiset{item}], at := s.at[th := Ready], hands := s.hands + multiset{item})
    case TakeNone(th) => s.(at := s.at[th := Ready])
    case RefillGlobal(th, moved) =>
      s.(local := s.local[th := list + moved], at := s.at[th := Taking], global := s.global - moved,
         held := s.held + |moved|)
    case RefillHeap(th) =>
      s.(local := s.local[th := list + NewItems(s.drawn, c.batch)], at := s.at[th := Taking],
         drawn := s.drawn + c.batch, held := s.held + c.batch)
    case Give(th, item) =>
      s.(local := s.local[th := list + multiset{item}], hands := s.hands - multiset{item},
         at := s.at[th := if |list| + 1 < c.localMax then Ready else Rebalancing])
    case Rebalance(th, moved, dropped) =>
      s.(local := s.local[th := list - moved], at := s.at[th := Ready], global := s.global + moved - dropped,
         held := s.held - |moved|, freed := s.freed + |dropped|)
  }

  ghost predicate Run(c: Config, threads: nat, states: seq<State>, actions: seq<Action>) {
    && |states| == |actions| + 1
    && Initial(states[0], threads)
    && forall i :: 0 <= i < |actions| ==> Enabled(c, states[i], actions[i]) && states[i + 1] == Step(c, states[i], actions[i])
  }

  // ---------------------------------------------------------------- conservation

  function Total(local: seq<multiset<Item>>): multiset<Item> {
    if local == [] then multiset{} else Total(local[..|local| - 1]) + local[|local| - 1]
  }

  /** Changing one list changes the total by the difference, item by item and in number. */
  lemma {:induction false} TotalChange(local: seq<multiset<Item>>, i: nat, m: multiset<Item>)
    requires i < |local|
    ensures forall x :: Total(local[i := m])[x] + local[i][x] == Total(local)[x] + m[x]
    ensures |Total(local[i := m])| == |Total(local)| - |local[i]| + |m|
    ensures |local[i]| <= |Total(local)|
    decreases |local|
  {
    var n := |local| - 1;
    if i < n {
      TotalChange(local[..n], i, m);
      assert local[i := m][..n] == local[..n][i := m];
    } else {
      assert local[i := m][..n] == local[..n];
    }
  }

  /** Every item that the heap has given out and not got back. */
  function Everything(s: State): multiset<Item> {
    Total(s.local) + s.global + s.hands
  }

  ghost predicate Conserved(s: State) {
    && |s.at| == |s.local|
    && (forall x :: Everything(s)[x] <= 1)
    && (forall x :: x in Everything(s) ==> x < s.drawn)
    && |Everything(s)| == s.drawn - s.freed
    && s.held == |Total(s.local)| + |s.hands|
  }

  lemma {:induction false} NewItemsAre(from: nat, n: nat)
    ensures |NewItems(from, n)| == n
    ensures forall x :: NewItems(from, n)[x] == if from <= x < from + n then 1 else 0
    decreases n
  {
    if n > 0 {
      NewItemsAre(from, n - 1);
    }
  }

  /** The step changes the items in being by what the heap gave and got back. */
  lemma Accounts(c: Config, s: State, a: Action)
    requires Enabled(c, s, a)
    ensures var t := Step(c, s, a);
      && (forall x :: Total(t.local)[x] + s.local[a.th][x] == Total(s.local)[x] + t.local[a.th][x])
      && |Total(t.local)| == |Total(s.local)| - |s.local[a.th]| + |t.local[a.th]|
  {
    var t := Step(c, s, a);
    TotalChange(s.local, a.th, t.local[a.th]);
    assert s.local[a.th := t.local[a.th]] == t.local;
  }

  lemma SameItems(s: State, t: State)
    requires Conserved(s) && |t.at| == |t.local| && t.drawn == s.drawn && t.freed == s.freed
    requires forall x :: Everything(t)[x] == Everything(s)[x]
    requires t.held == |Total(t.local)| + |t.hands|
    ensures Conserved(t)
  {
    assert Everything(t) == Everything(s);
  }

  lemma TakeKeeps(c: Config, s: State, th: nat, item: Item)
    requires Conserved(s) && Enabled(c, s, Take(th, item))
    ensures Conserved(Step(c, s, Take(th, item)))
  {
    var t := Step(c, s, Take(th, item));
    Accounts(c, s, Take(th, item));
    hide Total;
    assert |s.local[th] - multiset{item}| == |s.local[th]| - 1;
    SameItems(s, t);
  }

  lemma GiveKeeps(c: Config, s: State, th: nat, item: Item)
    requires Conserved(s) && Enabled(c, s, Give(th, item))
    ensures Conserved(Step(c, s, Give(th, item)))
  {
    var t := Step(c, s, Give(th, item));
    Accounts(c, s, Give(th, item));
    hide Total;
    assert |s.hands - multiset{item}| == |s.hands| - 1;
    SameItems(s, t);
  }

  lemma RefillGlobalKeeps(c: Config, s: State, th: nat, moved: multiset<Item>)
    requires Conserved(s) && Enabled(c, s, RefillGlobal(th, moved))
    ensures Conserved(Step(c, s, RefillGlobal(th, moved)))
  {
    var t := Step(c, s, RefillGlobal(th, moved));
    Accounts(c, s, RefillGlobal(th, moved));
    hide Total;
    SameItems(s, t);
  }

  /** The heap gives items that are nowhere yet. */
  lemma GrownItems(s: State, t: State, n: multiset<Item>)
    requires Conserved(s) && |t.at| == |t.local| && t.freed == s.freed && t.drawn == s.drawn + |n|
    requires forall x :: n[x] == if s.drawn <= x < t.drawn then 1 else 0
    requires forall x :: Everything(t)[x] == Everything(s)[x] + n[x]
    requires t.held == |Total(t.local)| + |t.hands|
    ensures Conserved(t)
  {
    hide Total;
    assert Everything(t) == Everything(s) + n;
    assert forall x :: Everything(s)[x] > 0 ==> x in Everything(s);
  }

  lemma RefillKeeps(c: Config, s: State, th: nat)
    requires Conserved(s) && Enabled(c, s, RefillHeap(th))
    ensures Conserved(Step(c, s, RefillHeap(th)))
  {
    var t := Step(c, s, RefillHeap(th));
    Accounts(c, s, RefillHeap(th));
    NewItemsAre(s.drawn, c.batch);
    hide Total, NewItems;
    GrownItems(s, t, NewItems(s.drawn, c.batch));
  }

  /** The heap gets items back. */
  lemma ShrunkItems(s: State, t: State, dropped: multiset<Item>)
    requires Conserved(s) && |t.at| == |t.local| && t.freed == s.freed + |dropped| && t.drawn == s.drawn
    requires forall x :: Everything(t)[x] + dropped[x] == Everything(s)[x]
    requires t.held == |Total(t.local)| + |t.hands|
    ensures Conserved(t)
  {
    hide Total;
    assert Everything(s) == Everything(t) + dropped;
    assert forall x :: x in Everything(t) ==> x in Everything(s);
  }

  lemma RebalanceKeeps(c: Config, s: State, th: nat, moved: multiset<Item>, dropped: multiset<Item>)
    requires Conserved(s) && Enabled(c, s, Rebalance(th, moved, dropped))
    ensures Conserved(Step(c, s, Rebalance(th, moved, dropped)))
  {
    var t := Step(c, s, Rebalance(th, moved, dropped));
    Accounts(c, s, Rebalance(th, moved, dropped));
    hide Total;
    assert |s.local[th] - moved| == |s.local[th]| - |moved|;
    ShrunkItems(s, t, dropped);
  }

  lemma TakeNoneKeeps(c: Config, s: State, th: nat)
    requires Conserved(s) && Enabled(c, s, TakeNone(th))
    ensures Conserved(Step(c, s, TakeNone(th)))
  {
  }

  lemma StepKeepsConserved(c: Config, s: State, a: Action)
    requires Conserved(s) && Enabled(c, s, a)
    ensures Conserved(Step(c, s, a))
  {
    hide Conserved, Step, Enabled;
    match a
    case RefillHeap(th) => RefillKeeps(c, s, th);
    case Rebalance(th, moved, dropped) => RebalanceKeeps(c, s, th, moved, dropped);
    case Take(th, item) => TakeKeeps(c, s, th, item);
    case TakeNone(th) => TakeNoneKeeps(c, s, th);
    case RefillGlobal(th, moved) => RefillGlobalKeeps(c, s, th, moved);
    case Give(th, item) => GiveKeeps(c, s, th, item);
  }

  // ---------------------------------------------------------------- limits

  /** Between calls every thread's list is below the limit. */
  ghost predicate Below(c: Config, s: State) {
    forall th :: 0 <= th < |s.local| && th < |s.at| && s.at[th] == Ready ==> |s.local[th]| < c.localMax
  }

  predicate ListOk(c: Config, at: At, size: nat) {
    match at
    case Ready => size < c.localMax
    case Taking => size <= c.batch
    case Rebalancing => size == c.localMax
  }

  ghost predicate ListsOk(c: Config, s: State) {
    && (forall th :: 0 <= th < |s.local| && th < |s.at| ==> ListOk(c, s.at[th], |s.local[th]|))
    && (c.batch == 0 ==> s.drawn == 0)
  }

  lemma StepKeepsLists(c: Config, s: State, a: Action)
    requires Conserved(s) && ListsOk(c, s) && Enabled(c, s, a) && 0 < c.localMax && c.batch <= c.localMax
    ensures ListsOk(c, Step(c, s, a))
    ensures a.Rebalance? ==> |a.moved| == c.batch
  {
    StepKeepsList(c, s, a);
    hide Conserved, Total, ListOk, Enabled;
    var t := Step(c, s, a);
    forall th | 0 <= th < |t.local| && th < |t.at| ensures ListOk(c, t.at[th], |t.local[th]|) {
      assert th != a.th ==> t.at[th] == s.at[th] && t.local[th] == s.local[th];
    }
  }

  lemma StepKeepsList(c: Config, s: State, a: Action)
    requires Conserved(s) && ListsOk(c, s) && Enabled(c, s, a) && 0 < c.localMax && c.batch <= c.localMax
    ensures var t := Step(c, s, a); ListOk(c, t.at[a.th], |t.local[a.th]|) && (c.batch == 0 ==> t.drawn == 0)
    ensures a.Rebalance? ==> |a.moved| == c.batch
  {
    hide Total;
    if a.Give? {
      assert a.item in Everything(s);
    } else if a.Take? {
      assert |s.local[a.th] - multiset{a.item}| == |s.local[a.th]| - 1;
      assert |s.local[a.th]| > 0;
    } else if a.RefillHeap? {
      NewItemsAre(s.drawn, c.batch);
    } else if a.Rebalance? {
      assert |s.local[a.th] - a.moved| == |s.local[a.th]| - |a.moved|;
      TotalChange(s.local, a.th, multiset{});
      assert |s.local[a.th]| <= |Everything(s)|;
    }
  }

  // ---------------------------------------------------------------- whole runs

  lemma {:induction false} RunKeepsConserved(c: Config, threads: nat, states: seq<State>, actions: seq<Action>, k: nat)
    requires Run(c, threads, states, actions) && k < |states|
    ensures Conserved(states[k]) && |states[k].local| == threads
    decreases k
  {
    if k == 0 {
      NothingYet(threads);
    } else {
      RunKeepsConserved(c, threads, states, actions, k - 1);
      StepKeepsConserved(c, states[k - 1], actions[k - 1]);
    }
  }

  lemma {:induction false} NothingYet(threads: nat)
    ensures Total(EmptyLists(threads)) == multiset{}
    decreases threads
  {
    if threads > 0 {
      NothingYet(threads - 1);
      assert EmptyLists(threads)[..threads - 1] == EmptyLists(threads - 1);
    }
  }

  /** In every interleaving no item is in two places or lost: each one the heap has given out and not got back is
      once in a thread's list, in the global list or in a caller's hands, and
      the counters say so. */
  lemma ItemsAreConserved(c: Config, threads: nat, states: seq<State>, actions: seq<Action>, k: nat)
    requires Run(c, threads, states, actions) && k < |states|
    ensures var s := states[k];
      && (forall x :: Total(s.local)[x] + s.global[x] + s.hands[x] <= 1)
      && s.held + |s.global| == s.drawn - s.freed == |Everything(s)|
  {
    RunKeepsConserved(c, threads, states, actions, k);
    var s := states[k];
    assert forall x :: Everything(s)[x] == Total(s.local)[x] + s.global[x] + s.hands[x];
  }

  lemma {:induction false} RunKeepsLists(c: Config, threads: nat, states: seq<State>, actions: seq<Action>, k: nat)
    requires Run(c, threads, states, actions) && k < |states| && 0 < c.localMax && c.batch <= c.localMax
    ensures ListsOk(c, states[k])
    decreases k
  {
    if k > 0 {
      hide ListsOk, Conserved;
      RunKeepsLists(c, threads, states, actions, k - 1);
      RunKeepsConserved(c, threads, states, actions, k - 1);
      StepKeepsLists(c, states[k - 1], actions[k - 1]);
    }
  }

  /** Every call leaves its thread's list below the limit, in every run, exactly when the limit is
      positive and a batch is no larger than it. */
  lemma BelowExactly(c: Config)
    ensures (0 < c.localMax && c.batch <= c.localMax) <==>
            (forall threads, states, actions, k :: Run(c, threads, states, actions) && 0 <= k < |states| ==> Below(c, states[k]))
  {
    if 0 < c.localMax && c.batch <= c.localMax {
      forall threads, states, actions, k | Run(c, threads, states, actions) && 0 <= k < |states|
        ensures Below(c, states[k])
      {
        RunKeepsLists(c, threads, states, actions, k);
      }
    } else {
      var states, actions := OverRun(c);
    }
  }

  /** A run of one thread that goes over the limit. */
  lemma OverRun(c: Config) returns (states: seq<State>, actions: seq<Action>)
    requires c.localMax == 0 || c.batch > c.localMax
    ensures Run(c, 1, states, actions) && exists k :: 0 <= k < |states| && !Below(c, states[k])
  {
    var s := State([multiset{}], [Ready], multiset{}, multiset{}, 0, 0, 0);
    assert EmptyLists(1) == s.local && seq(1, _ => Ready) == s.at;
    states, actions := [s], [];
    if c.localMax == 0 {
      assert s.at[0] == Ready && !Below(c, states[0]);
    } else {
      var n := NewItems(0, c.batch);
      NewItemsAre(0, c.batch);
      var t := Step(c, s, RefillHeap(0));
      assert n[0] == 1;
      var u := Step(c, t, Take(0, 0));
      states, actions := [s, t, u], [RefillHeap(0), Take(0, 0)];
      assert |t.local[0] - multiset{0}| == |t.local[0]| - 1;
      assert u.at[0] == Ready && |u.local[0]| == c.batch - 1;
      assert !Below(c, states[2]);
    }
  }

  // ---------------------------------------------------------------- memory

  /** Items come new from the heap only for an empty list, and only while the global list has no whole batch. */
  lemma DrawsOnlyWhenShort(c: Config, s: State, a: Action)
    requires Enabled(c, s, a)
    ensures var t := Step(c, s, a);
      && (t.drawn == s.drawn || (t.drawn == s.drawn + c.batch && |s.local[a.th]| == 0 && |s.global| < c.batch))
      && s.freed <= t.freed
  {
  }

  /** In every run the global list keeps to its limit, if it has one. */
  lemma {:induction false} GlobalIsBounded(c: Config, threads: nat, states: seq<State>, actions: seq<Action>, k: nat)
    requires Run(c, threads, states, actions) && k < |states| && c.globalMax.Some?
    ensures |states[k].global| <= c.globalMax.value
    decreases k
  {
    if k > 0 {
      GlobalIsBounded(c, threads, states, actions, k - 1);
      GlobalStep(c, states[k - 1], actions[k - 1]);
    }
  }

  lemma GlobalStep(c: Config, s: State, a: Action)
    requires Enabled(c, s, a) && c.globalMax.Some? && |s.global| <= c.globalMax.value
    ensures |Step(c, s, a).global| <= c.globalMax.value
  {
    if a.RefillGlobal? {
      assert |s.global - a.moved| == |s.global| - |a.moved|;
    } else if a.Rebalance? {
      assert |s.global + a.moved - a.dropped| == |s.global + a.moved| - |a.dropped|;
    }
  }

  lemma {:induction false} TotalBound(local: seq<multiset<Item>>, most: nat)
    requires forall th :: 0 <= th < |local| ==> |local[th]| <= most
    ensures |Total(local)| <= |local| * most
    decreases |local|
  {
    if local != [] {
      TotalBound(local[..|local| - 1], most);
      assert |local| * most == (|local| - 1) * most + most;
    }
  }

  lemma ListsBound(c: Config, s: State)
    requires ListsOk(c, s) && Conserved(s) && c.batch <= c.localMax
    ensures |Total(s.local)| <= |s.local| * c.localMax
  {
    hide Total, Everything;
    forall th | 0 <= th < |s.local| ensures |s.local[th]| <= c.localMax {
      assert ListOk(c, s.at[th], |s.local[th]|);
    }
    TotalBound(s.local, c.localMax);
  }

  /** In every run, as long as the callers never hold more than `peak` items, no more than these, a full list for each
      thread and one batch have been taken from the heap and not given back. */
  lemma {:induction false} MemoryIsBounded(c: Config, threads: nat, states: seq<State>, actions: seq<Action>, k: nat, peak: nat)
    requires Run(c, threads, states, actions) && k < |states| && 0 < c.localMax && c.batch <= c.localMax
    requires forall i :: 0 <= i <= k ==> |states[i].hands| <= peak
    ensures states[k].drawn - states[k].freed <= peak + threads * c.localMax + c.batch
    decreases k
  {
    if k > 0 {
      hide ListsOk, Conserved, Enabled, Step;
      MemoryIsBounded(c, threads, states, actions, k - 1, peak);
      var s, a := states[k - 1], actions[k - 1];
      DrawsOnlyWhenShort(c, s, a);
      RunKeepsLists(c, threads, states, actions, k);
      RunKeepsConserved(c, threads, states, actions, k);
      if states[k].drawn != s.drawn {
        DrawBound(c, s, a, peak);
      }
    }
  }

  lemma DrawBound(c: Config, s: State, a: Action, peak: nat)
    requires Enabled(c, s, a) && Step(c, s, a).drawn != s.drawn && c.batch <= c.localMax
    requires var t := Step(c, s, a); ListsOk(c, t) && Conserved(t) && |t.hands| <= peak
    ensures var t := Step(c, s, a); t.drawn - t.freed <= peak + |t.local| * c.localMax + c.batch
  {
    var t := Step(c, s, a);
    assert t.global == s.global && |s.global| < c.batch;
    hide Step, Enabled, ListsOk;
    ListsBound(c, t);
    hide Total;
    assert |Everything(t)| == |Total(t.local)| + |t.global| + |t.hands|;
  }
}
