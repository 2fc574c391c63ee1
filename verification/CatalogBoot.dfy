/** How a catalog comes up: which installed generations it tries, in which order, and where that ends. */
module CatalogBoot {
  import opened Wrappers
  import opened CatalogState
  import opened CatalogLaws

  // ----- the order -----

  function Reversed(gs: seq<Generation>): seq<Generation> {
    if gs == [] then [] else [gs[|gs| - 1]] + Reversed(gs[..|gs| - 1])
  }

  /** The order candidates are tried in. */
  function BootOrder(s: State, w: World): seq<Generation> { Reversed(BootQueue(s, w)) }

  ghost predicate Sorted(gs: seq<Generation>, w: World) {
    forall i, j :: 0 <= i < j < |gs| ==> w.modified(gs[i]) <= w.modified(gs[j])
  }

  lemma {:induction false} InsertSplits(sorted: seq<Generation>, g: Generation, w: World)
    requires Sorted(sorted, w)
    ensures var i := InsertAt(sorted, g, w);
            && (forall k :: 0 <= k < i ==> w.modified(sorted[k]) <= w.modified(g))
            && (forall k :: i <= k < |sorted| ==> w.modified(g) < w.modified(sorted[k]))
    decreases |sorted|
  {
    if sorted != [] && !(w.modified(sorted[|sorted| - 1]) <= w.modified(g)) {
      InsertSplits(sorted[..|sorted| - 1], g, w);
    }
  }

  /** Those of one modification time, in order. */
  function Among(gs: seq<Generation>, time: int, w: World): seq<Generation> {
    if gs == [] then []
    else Among(gs[..|gs| - 1], time, w) + if w.modified(gs[|gs| - 1]) == time then [gs[|gs| - 1]] else []
  }

  lemma {:induction false} AmongAppend(a: seq<Generation>, b: seq<Generation>, time: int, w: World)
    ensures Among(a + b, time, w) == Among(a, time, w) + Among(b, time, w)
    decreases |b|
  {
    if b == [] {
      assert a + b == a;
    } else {
      assert (a + b)[..|a + b| - 1] == a + b[..|b| - 1];
      AmongAppend(a, b[..|b| - 1], time, w);
    }
  }

  lemma {:induction false} AmongNone(gs: seq<Generation>, time: int, w: World)
    requires forall g <- gs :: w.modified(g) != time
    ensures Among(gs, time, w) == []
    decreases |gs|
  {
    if gs != [] {
      AmongNone(gs[..|gs| - 1], time, w);
    }
  }

  /** The sort keeps every generation, puts older before newer, and leaves equally old ones in order. */
  lemma {:induction false} ByAgeSorts(gs: seq<Generation>, w: World, time: int)
    ensures var sorted := ByAge(gs, w);
            && Sorted(sorted, w)
            && multiset(sorted) == multiset(gs)
            && Among(sorted, time, w) == Among(gs, time, w)
    decreases |gs|
  {
    if gs != [] {
      var rest, g := gs[..|gs| - 1], gs[|gs| - 1];
      ByAgeSorts(rest, w, time);
      assert gs == rest + [g];
      Inserted(ByAge(rest, w), g, w, time);
    }
  }

  lemma Inserted(sorted: seq<Generation>, g: Generation, w: World, time: int)
    requires Sorted(sorted, w)
    ensures var i := InsertAt(sorted, g, w);
            var all := sorted[..i] + [g] + sorted[i..];
            && Sorted(all, w)
            && multiset(all) == multiset(sorted) + multiset{g}
            && Among(all, time, w) == Among(sorted, time, w) + if w.modified(g) == time then [g] else []
  {
    hide Among, InsertAt;
    var i := InsertAt(sorted, g, w);
    InsertSplits(sorted, g, w);
    assert sorted == sorted[..i] + sorted[i..];
    AmongInserted(sorted, g, w, time);
  }

  lemma AmongInserted(sorted: seq<Generation>, g: Generation, w: World, time: int)
    requires Sorted(sorted, w)
    ensures var i := InsertAt(sorted, g, w);
            Among(sorted[..i] + [g] + sorted[i..], time, w)
            == Among(sorted, time, w) + if w.modified(g) == time then [g] else []
  {
    hide InsertAt, Sorted, Among;
    var i := InsertAt(sorted, g, w);
    InsertSplits(sorted, g, w);
    var before, newer := sorted[..i], sorted[i..];
    assert sorted == before + newer;
    AmongAppend(before, newer, time, w);
    AmongAppend(before + [g], newer, time, w);
    AmongAppend(before, [g], time, w);
    AmongOne(g, time, w);
    if w.modified(g) == time { AmongNone(newer, time, w); }
  }

  lemma AmongOne(g: Generation, time: int, w: World)
    ensures Among([g], time, w) == if w.modified(g) == time then [g] else []
  {
    assert [g][..0] == [];
  }

  lemma {:induction false} ReversedAt(gs: seq<Generation>)
    ensures |Reversed(gs)| == |gs|
    ensures forall i :: 0 <= i < |gs| ==> Reversed(gs)[i] == gs[|gs| - 1 - i]
    ensures multiset(Reversed(gs)) == multiset(gs)
    decreases |gs|
  {
    if gs != [] {
      ReversedAt(gs[..|gs| - 1]);
      assert gs == gs[..|gs| - 1] + [gs[|gs| - 1]];
    }
  }

  /** A boot tries every listed generation as often as it is listed: the recorded one first, then the rest newest first. */
  lemma BootOrderExactly(s: State, w: World)
    ensures var order := BootOrder(s, w);
            var listed := if w.readable then s.installed else [];
            && multiset(order) == multiset(listed)
            && (s.log.active.Some? && s.log.active.value in listed ==> order != [] && order[0] == s.log.active.value)
            && (forall i, j :: (if s.log.active.Some? && s.log.active.value in listed then 1 else 0) <= i < j < |order| ==>
                  w.modified(order[j]) <= w.modified(order[i]))
  {
    hide BootQueue, ByAge, Reversed, Sorted;
    var listed := if w.readable then s.installed else [];
    var sorted := ByAge(listed, w);
    var queue := BootQueue(s, w);
    ByAgeSorts(listed, w, 0);
    ReversedAt(queue);
    RecordedMovesLast(s, w);
    SameMembers(sorted, listed);
    if s.log.active.Some? && s.log.active.value in listed {
      NewestFirst(queue, 1, w);
    } else {
      assert queue[..|queue|] == queue;
      NewestFirst(queue, 0, w);
    }
  }

  lemma SameMembers(a: seq<Generation>, b: seq<Generation>)
    requires multiset(a) == multiset(b)
    ensures forall g :: g in a <==> g in b
  {
    assert forall g :: g in a <==> g in multiset(a);
    assert forall g :: g in b <==> g in multiset(b);
  }

  lemma NewestFirst(queue: seq<Generation>, from: nat, w: World)
    requires from <= |queue| && Sorted(queue[..|queue| - from], w)
    ensures var order := Reversed(queue);
            forall i, j :: from <= i < j < |order| ==> w.modified(order[j]) <= w.modified(order[i])
  {
    hide Reversed;
    ReversedAt(queue);
    var order, front := Reversed(queue), queue[..|queue| - from];
    forall i, j | from <= i < j < |order| ensures w.modified(order[j]) <= w.modified(order[i]) {
      assert order[i] == front[|queue| - 1 - i] && order[j] == front[|queue| - 1 - j];
    }
  }

  lemma RecordedMovesLast(s: State, w: World)
    ensures var sorted := ByAge(if w.readable then s.installed else [], w);
            var queue := BootQueue(s, w);
            && multiset(queue) == multiset(sorted)
            && (s.log.active.Some? && s.log.active.value in sorted ==>
                  && queue != [] && queue[|queue| - 1] == s.log.active.value
                  && (Sorted(sorted, w) ==> Sorted(queue[..|queue| - 1], w)))
            && (!(s.log.active.Some? && s.log.active.value in sorted) ==> queue == sorted)
  {
    hide Sorted, ByAge, Position;
    var sorted := ByAge(if w.readable then s.installed else [], w);
    if s.log.active.Some? && s.log.active.value in sorted {
      MovedLast(sorted, Position(sorted, s.log.active.value), w);
    }
  }

  lemma MovedLast(sorted: seq<Generation>, i: nat, w: World)
    requires i < |sorted|
    ensures var moved := sorted[..i] + sorted[i + 1..] + [sorted[i]];
            && multiset(moved) == multiset(sorted)
            && moved[|moved| - 1] == sorted[i]
            && (Sorted(sorted, w) ==> Sorted(moved[..|moved| - 1], w))
  {
    hide Sorted;
    var front, back := sorted[..i], sorted[i + 1..];
    assert sorted == front + [sorted[i]] + back;
    assert (front + back + [sorted[i]])[..|sorted| - 1] == front + back;
    if Sorted(sorted, w) { WithoutOneIsSorted(sorted, i, w); }
  }

  lemma WithoutOneIsSorted(sorted: seq<Generation>, i: nat, w: World)
    requires i < |sorted| && Sorted(sorted, w)
    ensures Sorted(sorted[..i] + sorted[i + 1..], w)
  {
    var rest := sorted[..i] + sorted[i + 1..];
    forall j, k | 0 <= j < k < |rest| ensures w.modified(rest[j]) <= w.modified(rest[k]) {
      assert rest[j] == sorted[if j < i then j else j + 1] && rest[k] == sorted[if k < i then k else k + 1];
    }
  }

  // ----- the attempts -----

  /** Whether a tick that tries `g` on what `s` finds on disk loads it. */
  ghost predicate Clean(s: State, g: Generation, w: World) { Activates(s, g, w) }

  ghost predicate NoTwice(gs: seq<Generation>) { forall i, j :: 0 <= i < j < |gs| ==> gs[i] != gs[j] }

  /** Ticks with nothing completed. */
  function Ticks(s: State, worlds: seq<World>): State {
    if worlds == [] then s else Tick(Ticks(s, worlds[..|worlds| - 1]), worlds[|worlds| - 1], None)
  }

  /** The state a boot is in once its first `tried` candidates have been refused. */
  ghost predicate Booting(s: State, queue: seq<Generation>, tried: nat, t: State) {
    && t.booted && !t.live && t.loaded.None? && t.resident == []
    && t.installed == s.installed && t.log.active == s.log.active
    && t.pending == (if tried < |queue| then Some(queue[|queue| - 1 - tried]) else None)
    && t.bootQueue == (if tried < |queue| then queue[..|queue| - 1 - tried] else [])
    && (forall j :: 0 <= j < |queue| - tried ==> SameTree(s, t, queue[j]))
  }

  ghost predicate SameTree(s: State, t: State, g: Generation) {
    (g in s.trees <==> g in t.trees) && (g in s.trees ==> s.trees[g] == t.trees[g])
  }

  /** One attempt of a boot: the next candidate loads, or is dropped for the one after it. */
  lemma BootAttempt(s: State, queue: seq<Generation>, tried: nat, t: State, w: World)
    requires Booting(s, queue, tried, t) && NoTwice(queue) && tried < |queue|
    ensures var g := queue[|queue| - 1 - tried];
            var u := Activate(t, w);
            && (Clean(s, g, w) ==> u.loaded == Some(g) && u.resident == Libraries(g) && u.pending.None? && u.booted && !u.live)
            && (!Clean(s, g, w) ==> Booting(s, queue, tried + 1, u))
  {
    hide Accepted, CleanUp, BootQueue;
    var g := queue[|queue| - 1 - tried];
    assert SameTree(s, t, queue[|queue| - tried - 1]);
    assert Ensured(t.trees, t.installed, g, w) <==> Ensured(s.trees, s.installed, g, w);
    if Clean(s, g, w) {
      AcceptedLoads(g, w);
      CleanUpFrame(Swap(t.(pending := None, trees := TreesAfter(t.trees, t.installed, g, w)), Libraries(g), w)
                   .(loaded := Some(g), log := LogActivated(t.log, g), bootQueue := []), g, w);
    } else {
      BootRefusal(s, queue, tried, t, w);
    }
  }

  lemma CleanUpFrame(s: State, g: Generation, w: World)
    ensures var t := CleanUp(s, g, w);
            t == s.(installed := t.installed, trees := t.trees)
  {
  }

  lemma BootRefusal(s: State, queue: seq<Generation>, tried: nat, t: State, w: World)
    requires Booting(s, queue, tried, t) && NoTwice(queue) && tried < |queue|
    requires !Activates(t, queue[|queue| - 1 - tried], w)
    ensures Booting(s, queue, tried + 1, Activate(t, w))
  {
    hide Accepted, Ensured, TreesAfter, BootQueue;
    var g := queue[|queue| - 1 - tried];
    var u := Activate(t, w);
    RefusedWhileBooting(t, g, w);
    TreesAfterFrame(t.trees, t.installed, g, w);
    forall j | 0 <= j < |queue| - (tried + 1) ensures SameTree(s, u, queue[j]) {
      assert SameTree(s, t, queue[j]) && queue[j] != g;
    }
  }

  lemma RefusedWhileBooting(t: State, g: Generation, w: World)
    requires t.loaded.None? && t.pending == Some(g) && !Activates(t, g, w) && !t.live
    ensures var u := Activate(t, w);
            u == Popped(t).(trees := TreesAfter(t.trees, t.installed, g, w), log := u.log, resident := [])
            && u.log.active == t.log.active
  {
    hide Accepted, Ensured, TreesAfter, Recover;
    var s := t.(pending := None, trees := TreesAfter(t.trees, t.installed, g, w));
    if !Ensured(t.trees, t.installed, g, w) {
      RecoverWhileBooting(s.(log := Push(s.log, Event(ExtractFailed, g))), g, w);
    } else {
      var s2 := Swap(s, Libraries(g), w);
      RecoverWhileBooting(s2.(log := Push(s2.log, Event(ProbeFailed, g))), g, w);
    }
  }

  lemma RecoverWhileBooting(s: State, refused: Generation, w: World)
    requires s.loaded.None?
    ensures Recover(s, refused, w) == Popped(s).(live := false, resident := [])
  {
  }

  lemma TreesAfterFrame(trees: map<Generation, set<string>>, installed: seq<Generation>, g: Generation, w: World)
    ensures forall x :: x != g ==> (x in TreesAfter(trees, installed, g, w) <==> x in trees)
                                   && (x in trees ==> TreesAfter(trees, installed, g, w)[x] == trees[x])
  {
  }

  /** A first tick boots, and tries the first candidate. */
  lemma FirstTick(s: State, w: World)
    requires Fresh(s) && NoTwice(BootQueue(s, w))
    ensures Booting(s, BootQueue(s, w), 0, BootOnce(s, w))
    ensures Tick(s, w, None) == Activate(BootOnce(s, w), w)
  {
  }

  /** The tick that tries a candidate which is not clean. */
  lemma BootStep(s: State, queue: seq<Generation>, done: seq<World>, w: World)
    requires Fresh(s) && NoTwice(queue) && queue == BootQueue(s, if done == [] then w else done[0])
    requires done != [] ==> Booting(s, queue, if |done| < |queue| then |done| else |queue|, Ticks(s, done))
    requires |done| < |queue| ==> !Clean(s, queue[|queue| - 1 - |done|], w)
    ensures Booting(s, queue, if |done| + 1 < |queue| then |done| + 1 else |queue|, Tick(Ticks(s, done), w, None))
  {
    hide Activate, BootQueue, Clean, Booting, Tick;
    if done == [] {
      FirstTick(s, w);
      BootMoves(s, queue, 0, BootOnce(s, w), w);
    } else {
      var tried := if |done| < |queue| then |done| else |queue|;
      TickWhileBooting(s, queue, tried, Ticks(s, done), w);
      BootMoves(s, queue, tried, Ticks(s, done), w);
    }
  }

  lemma {:induction false} QueueTriedInOrder(s: State, queue: seq<Generation>, worlds: seq<World>)
    requires Fresh(s) && NoTwice(queue) && worlds != [] && queue == BootQueue(s, worlds[0])
    requires forall i :: 0 <= i < |worlds| ==> i >= |queue| || !Clean(s, queue[|queue| - 1 - i], worlds[i])
    ensures Booting(s, queue, if |worlds| < |queue| then |worlds| else |queue|, Ticks(s, worlds))
    decreases |worlds|
  {
    hide BootQueue, Clean, Booting, Fresh, NoTwice, Tick;
    var n := |worlds| - 1;
    if n > 0 {
      QueueTriedInOrder(s, queue, worlds[..n]);
    }
    BootStep(s, queue, worlds[..n], worlds[n]);
  }

  /** With nothing completed, each tick of a boot tries the next candidate until one is clean, and none after it. */
  lemma BootTriesInOrder(s: State, worlds: seq<World>)
    requires Fresh(s) && worlds != [] && NoTwice(BootQueue(s, worlds[0]))
    requires var order := BootOrder(s, worlds[0]);
             forall i :: 0 <= i < |worlds| && i < |order| ==> !Clean(s, order[i], worlds[i])
    ensures var n := |BootOrder(s, worlds[0])|;
            Booting(s, BootQueue(s, worlds[0]), if |worlds| < n then |worlds| else n, Ticks(s, worlds))
  {
    hide Ticks, BootQueue, Clean, Booting, Reversed, Fresh;
    var queue := BootQueue(s, worlds[0]);
    ReversedAt(queue);
    QueueTriedInOrder(s, queue, worlds);
  }

  lemma TickWhileBooting(s: State, queue: seq<Generation>, tried: nat, t: State, w: World)
    requires Booting(s, queue, tried, t)
    ensures Tick(t, w, None) == Activate(t, w)
  {
  }

  lemma BootMoves(s: State, queue: seq<Generation>, tried: nat, t: State, w: World)
    requires Booting(s, queue, tried, t) && NoTwice(queue) && tried <= |queue|
    requires tried < |queue| ==> !Clean(s, queue[|queue| - 1 - tried], w)
    ensures Booting(s, queue, if tried < |queue| then tried + 1 else tried, Activate(t, w))
  {
    hide Clean, BootQueue;
    if tried < |queue| {
      BootAttempt(s, queue, tried, t, w);
    }
  }

  /** The first clean candidate is loaded by its tick. */
  lemma BootLoadsTheFirstClean(s: State, worlds: seq<World>, k: nat)
    requires Fresh(s) && |worlds| == k + 1 && NoTwice(BootQueue(s, worlds[0])) && k < |BootOrder(s, worlds[0])|
    requires forall i :: 0 <= i < k ==> !Clean(s, BootOrder(s, worlds[0])[i], worlds[i])
    requires Clean(s, BootOrder(s, worlds[0])[k], worlds[k])
    ensures var g := BootOrder(s, worlds[0])[k];
            var t := Ticks(s, worlds);
            t.loaded == Some(g) && t.resident == Libraries(g) && t.pending.None? && t.booted && !t.live
  {
    hide Activate, BootQueue, Clean, Reversed, Tick;
    var queue := BootQueue(s, worlds[0]);
    var before := worlds[..k];
    ReversedAt(queue);
    if k == 0 {
      FirstTick(s, worlds[0]);
      BootAttempt(s, queue, 0, BootOnce(s, worlds[0]), worlds[0]);
    } else {
      QueueTriedInOrder(s, queue, before);
      TickWhileBooting(s, queue, k, Ticks(s, before), worlds[k]);
      BootAttempt(s, queue, k, Ticks(s, before), worlds[k]);
    }
  }

  lemma {:induction false} IdleTicksChangeNothing(s: State, worlds: seq<World>)
    requires s.booted && s.pending.None?
    ensures Ticks(s, worlds) == s
    decreases |worlds|
  {
    if worlds != [] {
      IdleTicksChangeNothing(s, worlds[..|worlds| - 1]);
    }
  }

  lemma {:induction false} TicksSplit(s: State, worlds: seq<World>, k: nat)
    requires k <= |worlds|
    ensures Ticks(s, worlds) == Ticks(Ticks(s, worlds[..k]), worlds[k..])
    decreases |worlds|
  {
    hide Tick;
    if k == |worlds| {
      assert worlds[..k] == worlds && worlds[k..] == [];
    } else {
      var n := |worlds| - 1;
      TicksSplit(s, worlds[..n], k);
      assert worlds[..n][..k] == worlds[..k] && worlds[..n][k..] == worlds[k..][..n - k];
    }
  }

  /**
   Within as many ticks as there are candidates a boot is over, whatever each tick finds: the first
   candidate that is clean when its turn comes is loaded, or none is and nothing is resident.
   */
  lemma BootConverges(s: State, worlds: seq<World>)
    requires Fresh(s) && worlds != [] && NoTwice(s.installed)
    requires |worlds| >= |BootOrder(s, worlds[0])|
    ensures var order := BootOrder(s, worlds[0]);
            var t := Ticks(s, worlds);
            && t.pending.None?
            && ((exists k :: 0 <= k < |order| && Clean(s, order[k], worlds[k])) ==>
                  exists k :: 0 <= k < |order| && Clean(s, order[k], worlds[k]) && t.loaded == Some(order[k])
                              && t.resident == Libraries(order[k])
                              && forall i :: 0 <= i < k ==> !Clean(s, order[i], worlds[i]))
            && ((forall k :: 0 <= k < |order| ==> !Clean(s, order[k], worlds[k])) ==> t.loaded.None? && t.resident == [])
  {
    hide Tick, Ticks, BootQueue, Clean, Activates, Reversed, Fresh, NoTwice;
    var order := BootOrder(s, worlds[0]);
    QueueHasNoneTwice(s, worlds[0]);
    ReversedAt(BootQueue(s, worlds[0]));
    if k0 :| 0 <= k0 < |order| && Clean(s, order[k0], worlds[k0]) {
      var k := FirstClean(s, order, worlds, k0);
      assert worlds[..k + 1][0] == worlds[0];
      BootLoadsTheFirstClean(s, worlds[..k + 1], k);
      TicksSplit(s, worlds, k + 1);
      IdleTicksChangeNothing(Ticks(s, worlds[..k + 1]), worlds[k + 1..]);
    } else {
      BootTriesInOrder(s, worlds);
    }
  }

  lemma {:induction false} FirstClean(s: State, order: seq<Generation>, worlds: seq<World>, k: nat) returns (first: nat)
    requires k < |order| <= |worlds| && Clean(s, order[k], worlds[k])
    ensures first <= k && Clean(s, order[first], worlds[first])
    ensures forall i :: 0 <= i < first ==> !Clean(s, order[i], worlds[i])
    decreases k
  {
    first := k;
    if j :| 0 <= j < k && Clean(s, order[j], worlds[j]) {
      first := FirstClean(s, order, worlds, j);
    }
  }

  lemma QueueHasNoneTwice(s: State, w: World)
    requires NoTwice(s.installed)
    ensures NoTwice(BootQueue(s, w))
  {
    BootOrderExactly(s, w);
    ReversedAt(BootQueue(s, w));
    NoTwiceByCount(s.installed, BootQueue(s, w));
  }

  lemma NoTwiceByCount(a: seq<Generation>, b: seq<Generation>)
    requires NoTwice(a) && multiset(b) <= multiset(a)
    ensures NoTwice(b)
  {
    forall i, j | 0 <= i < j < |b| ensures b[i] != b[j] {
      assert b == b[..i] + [b[i]] + b[i + 1..j] + [b[j]] + b[j + 1..];
      AtMostOnce(a, b[i]);
      assert multiset(b)[b[i]] <= multiset(a)[b[i]] <= 1;
    }
  }

  lemma {:induction false} AtMostOnce(a: seq<Generation>, g: Generation)
    requires NoTwice(a)
    ensures multiset(a)[g] <= 1
    decreases |a|
  {
    if a != [] {
      var n := |a| - 1;
      AtMostOnce(a[..n], g);
      assert a == a[..n] + [a[n]];
      assert a[n] !in a[..n];
    }
  }
}
