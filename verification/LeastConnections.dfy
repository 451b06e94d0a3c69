/** LeastConnectionsRouter of router.py: a min-heap with lazy deletion beside canonical counts. */
module LeastConnections {
  import opened Wrappers
  import opened HeapQ
  import opened Pools

  type Item = Entry<Backend>

  // ---------- What the heap means ----------

  /** The entry carries the current count of a healthy backend. */
  predicate Live(p: Pool, e: Item) {
    e.item in p.healthy && e.key == Load(p, e.item)
  }

  ghost predicate Listed(m: multiset<Item>, p: Pool, b: Backend) {
    exists t :: Entry(Load(p, b), t, b) in m
  }

  /** Tie numbers are unique and issued, and every healthy backend has an entry with its current
      count. Nothing more is true of the heap: entries may be stale, may belong to unhealthy
      backends, and may have become current again. */
  ghost predicate Consistent(m: multiset<Item>, p: Pool, tiebreak: int) {
    && (forall e :: e in m ==> m[e] == 1 && e.tie <= tiebreak)
    && (forall e, f :: e in m && f in m && e.tie == f.tie ==> e == f)
    && (forall b :: b in p.healthy ==> Listed(m, p, b))
    && (forall b :: Load(p, b) >= 0)
  }

  /** next_backend's choice: a live entry, not excluded, with no lesser one like it. */
  ghost predicate Chosen(m: multiset<Item>, p: Pool, skip: set<Backend>, c: Item) {
    && c in m && Live(p, c) && c.item !in skip
    && forall e :: e in m && Live(p, e) && e.item !in skip ==> !Less(e, c)
  }

  /** An entry that next_backend pops and puts back. */
  predicate Deferred(p: Pool, skip: set<Backend>, e: Item) {
    Live(p, e) && e.item in skip
  }

  /** An entry that is in the heap after next_backend. */
  predicate Survives(p: Pool, skip: set<Backend>, c: Option<Item>, e: Item) {
    Deferred(p, skip, e) || (c.Some? && Less(c.value, e))
  }

  lemma LoadNotNegative(m: multiset<Item>, p: Pool, tiebreak: int, b: Backend)
    requires Consistent(m, p, tiebreak)
    ensures Load(p, b) >= 0
  {
  }

  /** `n` is what next_backend leaves of `m` when it chooses `c`. */
  ghost predicate Kept(m: multiset<Item>, n: multiset<Item>, p: Pool, skip: set<Backend>, c: Option<Item>) {
    n <= m && forall e :: e in n <==> e in m && Survives(p, skip, c, e)
  }

  /** `c` is the choice: an entry as above, or nothing where every live entry is excluded. */
  ghost predicate Choice(m: multiset<Item>, p: Pool, skip: set<Backend>, c: Option<Item>) {
    if c.Some? then Chosen(m, p, skip, c.value)
    else forall e :: e in m && Live(p, e) ==> e.item in skip
  }

  /** The heap with one more entry, for a changed or newly healthy backend. */
  lemma PushKeeps(m: multiset<Item>, p: Pool, q: Pool, tiebreak: int, b: Backend)
    requires Consistent(m, p, tiebreak) && Load(q, b) >= 0
    requires q.healthy <= p.healthy + {b}
    requires forall c :: c != b ==> Load(q, c) == Load(p, c)
    ensures Consistent(m + multiset{Entry(Load(q, b), tiebreak + 1, b)}, q, tiebreak + 1)
  {
    var e := Entry(Load(q, b), tiebreak + 1, b);
    var n := m + multiset{e};
    assert e !in m;
    assert e in n;
    forall c | c in q.healthy ensures Listed(n, q, c) {
      if c != b {
        var t :| Entry(Load(p, c), t, c) in m;
        assert Entry(Load(q, c), t, c) in n;
      }
    }
  }

  /** The chosen entry's backend is least loaded. */
  lemma ChosenIsLeast(m: multiset<Item>, p: Pool, skip: set<Backend>, tiebreak: int, c: Item)
    requires Consistent(m, p, tiebreak) && Chosen(m, p, skip, c)
    ensures LeastLoaded(p, skip, c.item) && Eligible(p, skip, c.item) && c.key == Load(p, c.item) >= 0
  {
    forall b | Eligible(p, skip, b) ensures Load(p, c.item) <= Load(p, b) {
      assert Listed(m, p, b);
      var t :| Entry(Load(p, b), t, b) in m;
      assert Live(p, Entry(Load(p, b), t, b));
    }
  }

  /** Without a choice nothing is eligible. */
  lemma NoChoice(m: multiset<Item>, p: Pool, skip: set<Backend>, tiebreak: int, b: Backend)
    requires Consistent(m, p, tiebreak) && Choice(m, p, skip, None)
    ensures !Eligible(p, skip, b)
  {
    if b in p.healthy {
      assert Listed(m, p, b);
      var t :| Entry(Load(p, b), t, b) in m;
      assert Live(p, Entry(Load(p, b), t, b));
    }
  }

  /** What next_backend leaves in the heap still lists every backend but the chosen one. */
  lemma SurvivorsConsistent(m: multiset<Item>, n: multiset<Item>, p: Pool, skip: set<Backend>,
                            c: Option<Item>, tiebreak: int)
    requires Consistent(m, p, tiebreak) && Choice(m, p, skip, c) && Kept(m, n, p, skip, c)
    ensures Consistent(n, if c.Some? then p.(healthy := p.healthy - {c.value.item}) else p, tiebreak)
  {
    var q := if c.Some? then p.(healthy := p.healthy - {c.value.item}) else p;
    forall b | b in q.healthy ensures Listed(n, q, b) {
      assert Listed(m, p, b);
      var t :| Entry(Load(p, b), t, b) in m;
      var e := Entry(Load(p, b), t, b);
      assert Live(p, e);
      if c.Some? && b !in skip {
        assert c.value in m && e != c.value;
        assert !Less(e, c.value);
      }
      assert Survives(p, skip, c, e);
      assert Entry(Load(q, b), t, b) in n;
    }
    forall e | e in n ensures e in m && n[e] == 1 {
      assert 0 < n[e] <= m[e];
    }
    assert forall b :: Load(q, b) == Load(p, b);
  }

  /** Fewer healthy backends make fewer demands on the heap. */
  lemma ShrinkKeeps(m: multiset<Item>, p: Pool, q: Pool, tiebreak: int)
    requires Consistent(m, p, tiebreak) && q.healthy <= p.healthy
    requires forall b :: Load(q, b) == Load(p, b)
    ensures Consistent(m, q, tiebreak)
  {
    forall b | b in q.healthy ensures Listed(m, q, b) {
      assert Listed(m, p, b);
    }
  }

  /** The heap right after construction from the first `i` backends. */
  ghost predicate InitialHeap(m: multiset<Item>, backends: seq<Backend>, i: nat)
    requires i <= |backends|
  {
    && (forall e :: e in m ==> m[e] == 1 && 1 <= e.tie <= i && e == Entry(0, e.tie, backends[e.tie - 1]))
    && (forall k :: 0 <= k < i ==> Entry(0, k + 1, backends[k]) in m)
  }

  lemma InitialGrows(m: multiset<Item>, backends: seq<Backend>, i: nat)
    requires i < |backends| && InitialHeap(m, backends, i)
    ensures InitialHeap(m + multiset{Entry(0, i + 1, backends[i])}, backends, i + 1)
  {
    var e := Entry(0, i + 1, backends[i]);
    assert e !in m;
    assert e in m + multiset{e};
  }

  lemma InitialConsistent(m: multiset<Item>, backends: seq<Backend>, p: Pool)
    requires InitialHeap(m, backends, |backends|)
    requires p == Pool(map b | b in backends :: 0, set b | b in backends)
    ensures Consistent(m, p, |backends|)
  {
    forall b | b in p.healthy ensures Listed(m, p, b) {
      var k :| 0 <= k < |backends| && backends[k] == b;
      assert Entry(0, k + 1, backends[k]) in m && Load(p, b) == 0;
    }
  }

  lemma EmptyHeap(backends: seq<Backend>)
    ensures IsHeap<Backend>([]) && InitialHeap(multiset([]), backends, 0)
  {
  }

  datatype Mark = Up(backend: Backend) | Down(backend: Backend)

  lemma MarkedLoads(p: Pool, b: Backend)
    ensures forall c :: Load(MarkedHealthy(p, b), c) == Load(p, c)
  {
  }

  /** Who is healthy after some marks, in order. */
  function Standing(h: set<Backend>, marks: seq<Mark>): set<Backend>
    decreases |marks|
  {
    if marks == [] then h
    else
      var before := Standing(h, marks[..|marks| - 1]);
      match marks[|marks| - 1]
      case Up(b) => before + {b}
      case Down(b) => before - {b}
  }

  /** The heap after next_backend: the survivors, and the chosen backend's new entry. */
  ghost predicate Remains(m: multiset<Item>, n: multiset<Item>, p: Pool, skip: set<Backend>,
                          c: Option<Item>, tiebreak: int) {
    forall e :: e in n <==> ((e in m && Survives(p, skip, c, e))
                             || (c.Some? && e == Entry(c.value.key + 1, tiebreak, c.value.item)))
  }

  lemma RemainsAll(m: multiset<Item>, kept: multiset<Item>, p: Pool, skip: set<Backend>, tiebreak: int)
    requires Kept(m, kept, p, skip, None)
    ensures Remains(m, kept, p, skip, None, tiebreak)
  {
  }

  lemma RemainsAfter(m: multiset<Item>, kept: multiset<Item>, p: Pool, skip: set<Backend>,
                     c: Item, tiebreak: int)
    requires Kept(m, kept, p, skip, Some(c))
    ensures Remains(m, kept + multiset{Entry(c.key + 1, tiebreak, c.item)}, p, skip, Some(c), tiebreak)
  {
    hide Survives;
  }

  /** Every entry in front of the chosen one is merely deferred. */
  ghost predicate NothingStale(m: multiset<Item>, p: Pool, skip: set<Backend>, c: Option<Item>) {
    c.Some? && forall e :: e in m && Less(e, c.value) ==> Deferred(p, skip, e)
  }

  /** heappush, with the length. */
  method PushSized(h: seq<Item>, e: Item) returns (r: seq<Item>)
    requires IsHeap(h)
    ensures IsHeap(r) && multiset(r) == multiset(h) + multiset{e} && |r| == |h| + 1
  {
    r := Push(h, e);
    assert |multiset(r)| == |r| && |multiset(h)| == |h|;
  }

  /** heappop, with the length. */
  method PopSized(h: seq<Item>) returns (e: Item, r: seq<Item>)
    requires IsHeap(h) && h != []
    ensures IsHeap(r) && multiset(h) == multiset(r) + multiset{e} && |r| == |h| - 1
    ensures forall f :: f in multiset(r) ==> !Less(f, e)
  {
    e, r := Pop(h);
    assert |multiset(r) + multiset{e}| == |multiset(r)| + 1;
    assert |multiset(r)| == |r| && |multiset(h)| == |h|;
    forall f | f in multiset(r) ensures !Less(f, e) {
      assert f in multiset(r) + multiset{e};
      assert f in h;
    }
  }

  /** Pushes the deferred entries back. */
  method PushAll(h: seq<Item>, deferred: seq<Item>) returns (r: seq<Item>)
    requires IsHeap(h)
    ensures IsHeap(r) && multiset(r) == multiset(h) + multiset(deferred) && |r| == |h| + |deferred|
  {
    r := h;
    for i := 0 to |deferred|
      invariant IsHeap(r) && multiset(r) == multiset(h) + multiset(deferred[..i]) && |r| == |h| + i
    {
      assert deferred[..i + 1] == deferred[..i] + [deferred[i]];
      r := PushSized(r, deferred[i]);
    }
    assert deferred[..|deferred|] == deferred;
  }

  /** The entries popped so far, in heap order, against those still in the heap. */
  ghost predicate PopState(m: multiset<Item>, left: multiset<Item>, deferred: multiset<Item>,
                           dropped: multiset<Item>, p: Pool, skip: set<Backend>) {
    && m == left + deferred + dropped
    && (forall e :: e in deferred ==> Deferred(p, skip, e))
    && (forall e :: e in dropped ==> !Live(p, e))
    && (forall e, f :: e in deferred + dropped && f in left ==> !Less(f, e))
  }

  lemma PopStateStep(m: multiset<Item>, left: multiset<Item>, rest: multiset<Item>, e: Item,
                     deferred: multiset<Item>, dropped: multiset<Item>, p: Pool, skip: set<Backend>)
    requires PopState(m, left, deferred, dropped, p, skip)
    requires left == rest + multiset{e} && forall f :: f in rest ==> !Less(f, e)
    ensures !Live(p, e) ==> PopState(m, rest, deferred, dropped + multiset{e}, p, skip)
    ensures Deferred(p, skip, e) ==> PopState(m, rest, deferred + multiset{e}, dropped, p, skip)
  {
    assert forall f :: f in rest ==> f in left;
  }

  /** The pop loop of next_backend: drops what is not live, defers what is excluded, and stops at
      the first entry that is neither. */
  method PopChoice(h: seq<Item>, p: Pool, skip: set<Backend>, ghost tiebreak: int)
    returns (rest: seq<Item>, pick: Option<Item>, deferred: seq<Item>, ghost dropped: multiset<Item>)
    requires IsHeap(h) && Consistent(multiset(h), p, tiebreak)
    ensures IsHeap(rest)
    ensures |h| == |rest| + |deferred| + |dropped| + (if pick == None then 0 else 1)
    ensures Choice(multiset(h), p, skip, pick)
    ensures Kept(multiset(h), multiset(rest) + multiset(deferred), p, skip, pick)
    ensures NothingStale(multiset(h), p, skip, pick) ==> |dropped| == 0
  {
    rest, pick, deferred, dropped := h, None, [], multiset{};
    while rest != []
      invariant IsHeap(rest) && |h| == |rest| + |deferred| + |dropped|
      invariant PopState(multiset(h), multiset(rest), multiset(deferred), dropped, p, skip)
      decreases |rest|
    {
      ghost var left := multiset(rest);
      var entry;
      entry, rest := PopSized(rest);
      PopStateStep(multiset(h), left, multiset(rest), entry, multiset(deferred), dropped, p, skip);
      if entry.item !in p.healthy {
        dropped := dropped + multiset{entry};
        continue;
      }
      if entry.key != Load(p, entry.item) {
        dropped := dropped + multiset{entry};
        continue;
      }
      if entry.item in skip {
        deferred := deferred + [entry];
        continue;
      }
      PickParts(multiset(h), multiset(rest), multiset(deferred), dropped, p, skip, entry, tiebreak);
      pick := Some(entry);
      return;
    }
    assert multiset(rest) == multiset{};
    forall e | e in multiset(h) ensures Live(p, e) ==> e.item in skip {
      assert e in multiset(deferred) || e in dropped;
    }
  }

  /** next_backend on the heap: pops up to the choice, pushes back what was deferred, and pushes
      the chosen backend with its new count. */
  method Select(h: seq<Item>, p: Pool, skip: set<Backend>, tiebreak: int)
    returns (r: seq<Item>, c: Option<Item>, ghost used: nat)
    requires IsHeap(h) && Consistent(multiset(h), p, tiebreak)
    ensures IsHeap(r) && Choice(multiset(h), p, skip, c)
    ensures |r| + used == |h| + (if c == None then 0 else 1) && (c != None ==> used >= 1)
    ensures c == None ==> Consistent(multiset(r), p, tiebreak)
    ensures c == None ==> Remains(multiset(h), multiset(r), p, skip, c, tiebreak)
    ensures c == None ==> forall b :: !Eligible(p, skip, b)
    ensures c != None ==> Consistent(multiset(r), Acquired(p, c.value.item), tiebreak + 1)
    ensures c != None ==> Remains(multiset(h), multiset(r), p, skip, c, tiebreak + 1)
    ensures c != None ==> Eligible(p, skip, c.value.item)
    ensures c != None ==> LeastLoaded(p, skip, c.value.item) && c.value.key == Load(p, c.value.item)
    ensures c != None && NothingStale(multiset(h), p, skip, c) ==> used == 1
  {
    hide IsHeap, Consistent, Chosen, Kept, LeastLoaded, NothingStale, Remains, Eligible;
    var deferred;
    ghost var dropped;
    r, c, deferred, dropped := PopChoice(h, p, skip, tiebreak);
    used := |dropped| + if c == None then 0 else 1;
    r := PushAll(r, deferred);
    ghost var m, kept := multiset(h), multiset(r);
    SurvivorsConsistent(m, kept, p, skip, c, tiebreak);
    if c == None {
      RemainsAll(m, kept, p, skip, tiebreak);
      forall b ensures !Eligible(p, skip, b) {
        NoChoice(m, p, skip, tiebreak, b);
      }
    } else {
      var b, newCount := c.value.item, c.value.key + 1;
      ChosenIsLeast(m, p, skip, tiebreak, c.value);
      PushKeeps(kept, p.(healthy := p.healthy - {b}), Acquired(p, b), tiebreak, b);
      RemainsAfter(m, kept, p, skip, c.value, tiebreak + 1);
      r := PushSized(r, Entry(newCount, tiebreak + 1, b));
    }
  }

  /** Where the loop stops, what was kept is exactly what survives. */
  lemma PickParts(m: multiset<Item>, rest: multiset<Item>, deferred: multiset<Item>, dropped: multiset<Item>,
                  p: Pool, skip: set<Backend>, c: Item, tiebreak: int)
    requires Consistent(m, p, tiebreak)
    requires PopState(m, rest + multiset{c}, deferred, dropped, p, skip)
    requires Live(p, c) && c.item !in skip
    requires forall f :: f in rest ==> !Less(f, c)
    ensures Chosen(m, p, skip, c) && Kept(m, rest + deferred, p, skip, Some(c))
    ensures NothingStale(m, p, skip, Some(c)) ==> |dropped| == 0
  {
    assert c in rest + multiset{c};
    forall e | e in m ensures e in rest + deferred <==> Survives(p, skip, Some(c), e) {
      assert m[e] == 1 && m[c] == 1;
      assert e == c || e.tie != c.tie;
    }
    forall e | e in dropped ensures e in m && Less(e, c) && !Deferred(p, skip, e) {
      assert e in deferred + dropped && e in m && e != c;
      assert !Less(c, e) && e.tie != c.tie;
    }
    if NothingStale(m, p, skip, Some(c)) {
      assert forall e :: e !in dropped;
      assert dropped == multiset{};
    }
  }

  class LeastConnectionsRouter {
    const allBackends: seq<Backend>
    var counts: map<Backend, int>
    var tiebreak: int
    var heap: seq<Item>
    var healthy: set<Backend>

    // history
    ghost const initial: nat
    ghost var disconnects: nat
    ghost var rehealed: nat   // mark_healthy calls that had an effect
    ghost var picks: nat
    ghost var consumed: nat   // entries dropped or chosen by next_backend

    function View(): Pool
      reads this
    {
      Pool(counts, healthy)
    }

    /** Every heap entry was pushed and not yet consumed, and every pick consumed one. */
    ghost predicate Valid()
      reads this
    {
      && IsHeap(heap)
      && Consistent(multiset(heap), View(), tiebreak)
      && |heap| + consumed == initial + disconnects + rehealed + picks
      && picks <= consumed
    }

    constructor (backends: seq<Backend>)
      ensures Valid()
      ensures allBackends == backends && healthy == (set b | b in backends)
      ensures counts == map b | b in backends :: 0
      ensures initial == |backends| && tiebreak == |backends|
      ensures disconnects == rehealed == picks == consumed == 0
      ensures InitialHeap(multiset(heap), backends, |backends|)
    {
      hide IsHeap, InitialHeap, Consistent;
      allBackends := backends;
      counts := map b | b in backends :: 0;
      tiebreak := 0;
      heap := [];
      healthy := set b | b in backends;
      initial := |backends|;
      disconnects, rehealed, picks, consumed := 0, 0, 0, 0;
      new;
      ghost var p := View();
      EmptyHeap(backends);
      for i := 0 to |backends|
        invariant IsHeap(heap) && tiebreak == i == |heap| && View() == p
        invariant disconnects == rehealed == picks == consumed == 0
        invariant InitialHeap(multiset(heap), backends, i)
      {
        InitialGrows(multiset(heap), backends, i);
        tiebreak := tiebreak + 1;
        heap := PushSized(heap, Entry(0, tiebreak, backends[i]));
      }
      InitialConsistent(multiset(heap), backends, View());
    }

    method NextBackend(skip: set<Backend>) returns (r: Option<Backend>, chosen: Option<Item>)
      requires Valid()
      modifies this
      ensures Valid()
      // the answer is the argmin, and only its count rises
      ensures r == None <==> forall b :: !Eligible(old(View()), skip, b)
      ensures r != None ==> LeastLoaded(old(View()), skip, r.value)
      ensures View() == if r == None then old(View()) else Acquired(old(View()), r.value)
      ensures healthy == old(healthy)
      ensures forall b :: Load(View(), b) == Load(old(View()), b) + (if r == Some(b) then 1 else 0)
      // the entry chosen, and the heap that remains
      ensures r == None <==> chosen == None
      ensures chosen != None ==> chosen.value.item == r.value
      ensures Choice(old(multiset(heap)), old(View()), skip, chosen)
      ensures tiebreak == old(tiebreak) + (if r == None then 0 else 1)
      ensures Remains(old(multiset(heap)), multiset(heap), old(View()), skip, chosen, tiebreak)
      // history
      ensures disconnects == old(disconnects) && rehealed == old(rehealed)
      ensures picks == old(picks) + (if r == None then 0 else 1)
      ensures consumed >= old(consumed) + (if r == None then 0 else 1)
      ensures chosen != None && NothingStale(old(multiset(heap)), old(View()), skip, chosen)
          ==> consumed == old(consumed) + 1
    {
      hide IsHeap, Consistent, Choice, LeastLoaded, NothingStale, Eligible, Remains;
      ghost var used;
      ghost var p := View();
      heap, chosen, used := Select(heap, View(), skip, tiebreak);
      consumed := consumed + used;
      if chosen == None {
        return None, None;
      }
      r := Some(chosen.value.item);
      counts := counts[r.value := chosen.value.key + 1];
      tiebreak := tiebreak + 1;
      picks := picks + 1;
    }

    method OnDisconnect(backend: Backend)
      requires Valid()
      modifies this
      ensures Valid()
      ensures View() == Released(old(View()), backend) && healthy == old(healthy)
      ensures forall b :: Load(View(), b)
                       == if b != backend then Load(old(View()), b)
                          else if Load(old(View()), b) > 0 then Load(old(View()), b) - 1 else 0
      ensures tiebreak == old(tiebreak) + 1
      ensures multiset(heap) == old(multiset(heap)) + multiset{Entry(Load(View(), backend), tiebreak, backend)}
      ensures disconnects == old(disconnects) + 1
      ensures rehealed == old(rehealed) && picks == old(picks) && consumed == old(consumed)
    {
      hide IsHeap, Consistent;
      PushKeeps(multiset(heap), View(), Released(View(), backend), tiebreak, backend);
      var current := if backend in counts then counts[backend] else 0;
      var newCount := if current - 1 > 0 then current - 1 else 0;
      counts := counts[backend := newCount];
      tiebreak := tiebreak + 1;
      heap := PushSized(heap, Entry(newCount, tiebreak, backend));
      disconnects := disconnects + 1;
    }

    method MarkUnhealthy(backend: Backend)
      requires Valid()
      modifies this
      ensures Valid()
      ensures View() == MarkedUnhealthy(old(View()), backend)
      // it is not pickable, and no other backend's standing changed
      ensures forall b :: b in healthy <==> b in old(healthy) && b != backend
      ensures forall b :: Load(View(), b) == Load(old(View()), b)
      ensures heap == old(heap) && tiebreak == old(tiebreak)
      ensures unchanged(`disconnects, `rehealed, `picks, `consumed)
    {
      ShrinkKeeps(multiset(heap), View(), MarkedUnhealthy(View(), backend), tiebreak);
      healthy := healthy - {backend};
    }

    method MarkHealthy(backend: Backend)
      requires Valid()
      modifies this
      ensures Valid()
      ensures View() == MarkedHealthy(old(View()), backend)
      // it is pickable, and no other backend's standing changed
      ensures forall b :: b in healthy <==> b in old(healthy) || b == backend
      ensures forall b :: Load(View(), b) == Load(old(View()), b)
      ensures backend in old(healthy) ==> heap == old(heap) && tiebreak == old(tiebreak)
      ensures backend !in old(healthy) ==>
                && tiebreak == old(tiebreak) + 1
                && multiset(heap) == old(multiset(heap)) + multiset{Entry(Load(View(), backend), tiebreak, backend)}
      ensures rehealed == old(rehealed) + (if backend in old(healthy) then 0 else 1)
      ensures disconnects == old(disconnects) && picks == old(picks) && consumed == old(consumed)
    {
      hide IsHeap, Consistent;
      if backend !in healthy {
        LoadNotNegative(multiset(heap), View(), tiebreak, backend);
        PushKeeps(multiset(heap), View(), MarkedHealthy(View(), backend), tiebreak, backend);
        healthy := healthy + {backend};
        if backend !in counts {
          counts := counts[backend := 0];
        }
        tiebreak := tiebreak + 1;
        heap := PushSized(heap, Entry(counts[backend], tiebreak, backend));
        rehealed := rehealed + 1;
        assert View() == MarkedHealthy(old(View()), backend);
        MarkedLoads(old(View()), backend);
      } else {
        assert healthy + {backend} == healthy;
      }
    }

    /** Any marks the health checker makes between two steps of the reactor thread. */
    method HealthSweep(marks: seq<Mark>)
      requires Valid()
      modifies this
      ensures Valid()
      ensures healthy == Standing(old(healthy), marks)
      ensures forall b :: Load(View(), b) == Load(old(View()), b)
      ensures disconnects == old(disconnects) && picks == old(picks) && consumed == old(consumed)
      ensures old(rehealed) <= rehealed <= old(rehealed) + |marks|
    {
      hide IsHeap, Consistent, MarkedHealthy, MarkedUnhealthy, Load;
      assert marks[..0] == [];
      for i := 0 to |marks|
        invariant Valid() && healthy == Standing(old(healthy), marks[..i])
        invariant forall b :: Load(View(), b) == Load(old(View()), b)
        invariant disconnects == old(disconnects) && picks == old(picks) && consumed == old(consumed)
        invariant old(rehealed) <= rehealed <= old(rehealed) + i
      {
        assert marks[..i + 1][..i] == marks[..i];
        match marks[i]
        case Up(b) =>
          MarkHealthy(b);
          assert healthy == Standing(old(healthy), marks[..i]) + {b};
        case Down(b) =>
          MarkUnhealthy(b);
          assert healthy == Standing(old(healthy), marks[..i]) - {b};
      }
      assert marks[..|marks|] == marks;
    }
  }
}
