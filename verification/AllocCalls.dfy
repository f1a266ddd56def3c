/** The two calls of the pooled allocator on its stacks of chunks, proved to be steps of the threads' state machine. */
module AllocCalls {
  import opened Basics
  import opened AllocPool
  import opened Options

  /** What all threads share of one type of item: its configuration, its global list and its counters. */
  class Desc {
    const c: Config
    const global: Stack
    var drawn: nat
    var freed: nat
    var held: int

    constructor (c: Config)
      ensures this.c == c && fresh(global) && global.Valid() && global.items == []
      ensures drawn == 0 && freed == 0 && held == 0
    {
      this.c := c;
      global := new Stack();
      drawn, freed, held := 0, 0, 0;
    }
  }

  /** The stacks and counters are those of the state, as thread `th` sees it. */
  ghost predicate Stands(d: Desc, pool: Stack, th: nat, s: State)
    reads d, d.global, pool
  {
    && pool != d.global && pool.Valid() && d.global.Valid()
    && th < |s.local| && th < |s.at|
    && s.local[th] == multiset(pool.items) && s.global == multiset(d.global.items)
    && s.drawn == d.drawn && s.freed == d.freed && s.held == d.held
  }

  ghost predicate Leads(c: Config, s: State, states: seq<State>, actions: seq<Action>, t: State) {
    && |states| == |actions| + 1 && states[0] == s && states[|actions|] == t
    && forall k :: 0 <= k < |actions| ==> Enabled(c, states[k], actions[k]) && states[k + 1] == Step(c, states[k], actions[k])
  }

  lemma LeadsOn(c: Config, s: State, states: seq<State>, actions: seq<Action>, t: State, a: Action)
    requires Leads(c, s, states, actions, t) && Enabled(c, t, a)
    ensures Leads(c, s, states + [Step(c, t, a)], actions + [a], Step(c, t, a))
  {
    hide Step, Enabled;
  }

  /** Takes the top item off the thread's list, if there is one. */
  method TakeTopItem(d: Desc, pool: Stack, th: nat, ghost s: State) returns (item: Option<Item>, ghost t: State)
    requires Stands(d, pool, th, s) && s.at[th] != Rebalancing
    modifies pool
    ensures item.Some? ==> Enabled(d.c, s, Take(th, item.value)) && t == Step(d.c, s, Take(th, item.value)) && Stands(d, pool, th, t)
    ensures item.None? ==> t == s && Stands(d, pool, th, s) && |s.local[th]| == 0
    ensures item.None? <==> old(pool.items) == []
    ensures item.None? ==> pool.items == []
    ensures item.Some? ==> old(pool.items) == pool.items + [item.value]
  {
    hide StackOk;
    item := pool.Pop();
    t := s;
    if item.Some? {
      TopGone(s.local[th], old(pool.items), pool.items, item.value);
      t := Step(d.c, s, Take(th, item.value));
    }
  }

  lemma TopGone(m: multiset<Item>, before: seq<Item>, after: seq<Item>, item: Item)
    requires m == multiset(before) && before == after + [item]
    ensures item in m && m - multiset{item} == multiset(after)
  {
    assert multiset(after + [item]) == multiset(after) + multiset{item};
  }

  /** A batch new from the heap. */
  method Draw(d: Desc, pool: Stack)
    requires pool != d.global && pool.Valid()
    modifies pool
    ensures pool.Valid() && multiset(pool.items) == multiset(old(pool.items)) + NewItems(d.drawn, d.c.batch)
  {
    hide StackOk;
    for k := 0 to d.c.batch
      invariant pool.Valid() && multiset(pool.items) == multiset(old(pool.items)) + NewItems(d.drawn, k)
    {
      pool.Push(d.drawn + k);
    }
  }

  /** A batch comes off the top of the global list if it has one, and else from the heap. */
  predicate FromGlobal(before: seq<Item>, after: seq<Item>, drawn: nat, drawnAfter: nat, batch: nat) {
    if |before| >= batch then after == before[..|before| - batch] && drawnAfter == drawn
    else after == before && drawnAfter == drawn + batch
  }

  /** The thread's list is empty: it gets a batch from the global list, or from the heap. */
  method Refill(d: Desc, pool: Stack, th: nat, ghost s: State) returns (ghost a: Action)
    requires Stands(d, pool, th, s) && s.at[th] == Ready && |s.local[th]| == 0
    modifies d, d.global, pool
    ensures (a.RefillGlobal? || a.RefillHeap?) && a.th == th && Enabled(d.c, s, a)
    ensures Stands(d, pool, th, Step(d.c, s, a))
    ensures d.freed == old(d.freed)
    ensures FromGlobal(old(d.global.items), d.global.items, old(d.drawn), d.drawn, d.c.batch)
  {
    hide StackOk;
    ghost var g := d.global.items;
    Shape(d.global.chunks, d.global.topChunk, d.global.top, d.global.size, d.global.items);
    if d.global.size >= d.c.batch {
      var moved := Move(d.global, pool, d.c.batch);
      ghost var m := multiset(g[|g| - moved..]);
      SplitOff(g, moved);
      a := RefillGlobal(th, m);
      d.held := d.held + moved;
    } else {
      a := RefillHeap(th);
      Draw(d, pool);
      d.drawn, d.held := d.drawn + d.c.batch, d.held + d.c.batch;
    }
  }

  lemma SplitOff(g: seq<Item>, n: nat)
    requires n <= |g|
    ensures multiset(g[|g| - n..]) <= multiset(g) && |multiset(g[|g| - n..])| == n
    ensures multiset(g[..|g| - n]) == multiset(g) - multiset(g[|g| - n..])
  {
    assert g == g[..|g| - n] + g[|g| - n..];
  }

  /** Allocates an item: the top one of the thread's list, after a refill if that is empty. Nothing comes out only
      when batches are empty. */
  method Alloc(d: Desc, pool: Stack, th: nat, ghost s: State)
    returns (item: Option<Item>, ghost t: State, ghost states: seq<State>, ghost actions: seq<Action>)
    requires Stands(d, pool, th, s) && s.at[th] == Ready
    modifies d, d.global, pool
    ensures Stands(d, pool, th, t) && t.at[th] == Ready && Leads(d.c, s, states, actions, t)
    ensures item.Some? ==> t.hands == s.hands + multiset{item.value}
    ensures item.None? ==> t.hands == s.hands && d.c.batch == 0
    ensures old(pool.items) != [] ==>
      && item.Some? && old(pool.items) == pool.items + [item.value]
      && d.global.items == old(d.global.items) && d.drawn == old(d.drawn)
    ensures old(pool.items) == [] && |old(d.global.items)| >= d.c.batch ==>
      d.global.items == old(d.global.items)[..|old(d.global.items)| - d.c.batch] && d.drawn == old(d.drawn)
    ensures old(pool.items) == [] && |old(d.global.items)| < d.c.batch ==>
      d.global.items == old(d.global.items) && d.drawn == old(d.drawn) + d.c.batch
    ensures old(pool.items) == [] && d.c.batch > 0 ==> item.Some? && |pool.items| == d.c.batch - 1
    ensures d.freed == old(d.freed)
  {
    hide StackOk, Leads;
    LeadsStart(d.c, s);
    states, actions := [s], [];
    item, t := TakeTopItem(d, pool, th, s);
    if item.Some? {
      LeadsOn(d.c, s, states, actions, s, Take(th, item.value));
      states, actions := states + [t], actions + [Take(th, item.value)];
      return;
    }
    ghost var a := Refill(d, pool, th, s);
    LeadsOn(d.c, s, states, actions, s, a);
    ghost var u := Step(d.c, s, a);
    states, actions := states + [u], actions + [a];
    RefillGives(d.c, s, a);
    SizeOf(pool.items);
    item, t := TakeTopItem(d, pool, th, u);
    if item.Some? {
      LeadsOn(d.c, s, states, actions, u, Take(th, item.value));
      states, actions := states + [t], actions + [Take(th, item.value)];
    } else {
      LeadsOn(d.c, s, states, actions, u, TakeNone(th));
      t := Step(d.c, u, TakeNone(th));
      states, actions := states + [t], actions + [TakeNone(th)];
    }
  }

  lemma LeadsStart(c: Config, s: State)
    ensures Leads(c, s, [s], [], s)
  {
  }

  lemma RefillGives(c: Config, s: State, a: Action)
    requires Enabled(c, s, a) && (a.RefillGlobal? || a.RefillHeap?)
    ensures var t := Step(c, s, a); t.at[a.th] == Taking && t.hands == s.hands && |t.local[a.th]| == c.batch
  {
    NewItemsAre(s.drawn, c.batch);
  }

  /** What has been dropped of the list `g` so far. */
  ghost predicate Dropped(g: seq<Item>, left: seq<Item>, dropped: multiset<Item>) {
    multiset(g) == multiset(left) + dropped && |g| == |left| + |dropped|
  }

  lemma DropsOn(g: seq<Item>, left: seq<Item>, dropped: multiset<Item>, rest: seq<Item>, item: Item)
    requires Dropped(g, left, dropped) && left == rest + [item]
    ensures Dropped(g, rest, dropped + multiset{item})
  {
    TopGone(multiset(left), left, rest, item);
  }

  /** Frees what is over the limit of the global list. */
  method Trim(d: Desc) returns (ghost dropped: multiset<Item>)
    requires d.global.Valid()
    modifies d`freed, d.global
    ensures d.global.Valid() && dropped <= multiset(old(d.global.items))
    ensures multiset(d.global.items) == multiset(old(d.global.items)) - dropped
    ensures |dropped| == Excess(d.c, |old(d.global.items)|) && d.freed == old(d.freed) + |dropped|
  {
    hide StackOk;
    dropped := multiset{};
    if d.c.globalMax.None? { return; }
    ghost var g := d.global.items;
    Shape(d.global.chunks, d.global.topChunk, d.global.top, d.global.size, d.global.items);
    hide Dropped;
    assert Dropped(g, g, dropped) by { DropsStart(g); }
    while d.global.size > d.c.globalMax.value
      invariant d.global.Valid() && d.global.size == |d.global.items|
      invariant Dropped(g, d.global.items, dropped) && d.freed == old(d.freed) + |dropped|
      invariant |d.global.items| <= d.c.globalMax.value ==>
                  |d.global.items| == d.c.globalMax.value || d.global.items == g
      decreases |d.global.items|
    {
      ghost var before := d.global.items;
      var item := d.global.Pop();
      DropsOn(g, before, dropped, d.global.items, item.value);
      dropped := dropped + multiset{item.value};
      d.freed := d.freed + 1;
      Shape(d.global.chunks, d.global.topChunk, d.global.top, d.global.size, d.global.items);
    }
    DropsEnd(g, d.global.items, dropped);
  }

  lemma DropsStart(g: seq<Item>)
    ensures Dropped(g, g, multiset{})
  {
  }

  lemma DropsEnd(g: seq<Item>, left: seq<Item>, dropped: multiset<Item>)
    requires Dropped(g, left, dropped)
    ensures dropped <= multiset(g) && multiset(left) == multiset(g) - dropped && |dropped| == |g| - |left|
  {
  }

  lemma BatchGiven(c: Config, s: State, th: nat, p: seq<Item>, moved: nat, dropped: multiset<Item>) returns (a: Action)
    requires th < |s.local| && th < |s.at| && s.at[th] == Rebalancing && s.local[th] == multiset(p)
    requires moved == Min(|p|, c.batch)
    requires var all := s.global + multiset(p[|p| - moved..]); dropped <= all && |dropped| == Excess(c, |all|)
    ensures a == Rebalance(th, multiset(p[|p| - moved..]), dropped) && Enabled(c, s, a)
    ensures var t := Step(c, s, a);
      && t.local == s.local[th := multiset(p[..|p| - moved])] && t.at == s.at[th := Ready] && t.hands == s.hands
      && t.global == s.global + multiset(p[|p| - moved..]) - dropped
      && t.drawn == s.drawn && t.freed == s.freed + |dropped| && t.held == s.held - moved
  {
    SplitOff(p, moved);
    a := Rebalance(th, multiset(p[|p| - moved..]), dropped);
  }

  /** A batch, or all there is, has come off the top of the thread's list; the global list has it, less what is over its
      limit, which was freed. */
  predicate BatchOff(c: Config, before: seq<Item>, after: seq<Item>, global: nat, globalAfter: nat, freed: int) {
    var moved := if |before| < c.batch then |before| else c.batch;
    && after == before[..|before| - moved]
    && globalAfter == (if c.globalMax.Some? && global + moved > c.globalMax.value then c.globalMax.value else global + moved)
    && globalAfter + freed == global + moved
  }

  /** A list over its limit gives a batch to the global one. */
  method GiveBatch(d: Desc, pool: Stack, th: nat, ghost s: State) returns (ghost a: Action)
    requires Stands(d, pool, th, s) && s.at[th] == Rebalancing
    modifies d, d.global, pool
    ensures a.Rebalance? && a.th == th && Enabled(d.c, s, a)
    ensures Stands(d, pool, th, Step(d.c, s, a))
    ensures Step(d.c, s, a).at[th] == Ready && Step(d.c, s, a).hands == s.hands
    ensures d.drawn == old(d.drawn)
    ensures BatchOff(d.c, old(pool.items), pool.items, |old(d.global.items)|, |d.global.items|, d.freed - old(d.freed))
  {
    hide *;
    ghost var p, g, h := pool.items, d.global.items, d.held;
    SeesState(d, pool, th, s);
    var moved := Move(pool, d.global, d.c.batch);
    d.held := d.held - moved;
    ghost var all := d.global.items;
    SizeOf(all);
    ghost var dropped := Trim(d);
    MinIs(|p|, d.c.batch);
    assert multiset(all) == s.global + multiset(p[|p| - moved..]);
    a := BatchGiven(d.c, s, th, p, moved, dropped);
    BatchStands(d, pool, th, s, a);
    BatchIsOff(d.c, p, moved, g, all, d.global.items, dropped);
  }

  lemma BatchIsOff(c: Config, p: seq<Item>, moved: nat, g: seq<Item>, all: seq<Item>, left: seq<Item>, dropped: multiset<Item>)
    requires moved == (if |p| < c.batch then |p| else c.batch) && multiset(all) == multiset(g) + multiset(p[|p| - moved..])
    requires dropped <= multiset(all) && multiset(left) == multiset(all) - dropped && |dropped| == Excess(c, |all|)
    ensures BatchOff(c, p, p[..|p| - moved], |g|, |left|, |dropped|)
  {
    SizeOf(all);
    SizeOf(left);
    SizeOf(g);
    SizeOf(p[|p| - moved..]);
    assert |multiset(all) - dropped| == |multiset(all)| - |dropped|;
  }

  lemma SizeOf(list: seq<Item>)
    ensures |multiset(list)| == |list|
  {
  }

  lemma MinIs(a: nat, b: nat)
    ensures Min(a, b) == if a < b then a else b
  {
  }

  lemma SeesState(d: Desc, pool: Stack, th: nat, s: State)
    requires Stands(d, pool, th, s)
    ensures pool != d.global && pool.Valid() && d.global.Valid() && th < |s.local| && th < |s.at|
    ensures s.local[th] == multiset(pool.items) && s.global == multiset(d.global.items)
    ensures s.drawn == d.drawn && s.freed == d.freed && s.held == d.held
  {
  }

  lemma BatchStands(d: Desc, pool: Stack, th: nat, s: State, a: Action)
    requires Enabled(d.c, s, a) && a.Rebalance? && a.th == th
    requires pool != d.global && pool.Valid() && d.global.Valid()
    requires var t := Step(d.c, s, a);
      && th < |t.local| && th < |t.at| && t.local[th] == multiset(pool.items) && t.global == multiset(d.global.items)
      && t.drawn == d.drawn && t.freed == d.freed && t.held == d.held
    ensures Stands(d, pool, th, Step(d.c, s, a))
  {
    hide Step, Enabled;
  }

  /** Gives an item back: it goes on the thread's list, and a batch of a list over its limit to the global one. */
  method Dealloc(d: Desc, pool: Stack, th: nat, item: Item, ghost s: State)
    returns (ghost t: State, ghost states: seq<State>, ghost actions: seq<Action>)
    requires Stands(d, pool, th, s) && s.at[th] == Ready && item in s.hands
    modifies d, d.global, pool
    ensures Stands(d, pool, th, t) && t.at[th] == Ready && Leads(d.c, s, states, actions, t)
    ensures t.hands == s.hands - multiset{item} && d.drawn == old(d.drawn)
    ensures |old(pool.items)| + 1 < d.c.localMax ==>
      pool.items == old(pool.items) + [item] && d.global.items == old(d.global.items) && d.freed == old(d.freed)
    ensures |old(pool.items)| + 1 >= d.c.localMax ==>
      BatchOff(d.c, old(pool.items) + [item], pool.items, |old(d.global.items)|, |d.global.items|, d.freed - old(d.freed))
  {
    hide StackOk, Leads, BatchOff;
    LeadsStart(d.c, s);
    t := Step(d.c, s, Give(th, item));
    LeadsOn(d.c, s, [s], [], s, Give(th, item));
    states, actions := [s] + [t], [] + [Give(th, item)];
    pool.Push(item);
    Shape(pool.chunks, pool.topChunk, pool.top, pool.size, pool.items);
    assert |s.local[th]| + 1 == pool.size;
    if pool.size >= d.c.localMax {
      ghost var b := GiveBatch(d, pool, th, t);
      LeadsOn(d.c, s, states, actions, t, b);
      t := Step(d.c, t, b);
      states, actions := states + [t], actions + [b];
    }
  }
}
