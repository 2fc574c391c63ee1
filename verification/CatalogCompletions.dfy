/** A boot during which applies complete: what a completion costs the candidates still waiting. */
module CatalogCompletions {
  import opened Arithmetic
  import opened Wrappers
  import opened CatalogState
  import opened CatalogLaws
  import opened CatalogBoot

  /** One tick of a boot, what it hears has completed, and what is installed before the next. */
  datatype Beat = Beat(world: World, completed: Option<Generation>, installs: seq<Generation>)

  function InstallAll(s: State, gs: seq<Generation>): State {
    if gs == [] then s else Next(InstallAll(s, gs[..|gs| - 1]), Installed(gs[|gs| - 1]))
  }

  function Beats(s: State, beats: seq<Beat>): State {
    if beats == [] then s
    else
      var last := beats[|beats| - 1];
      InstallAll(Tick(Beats(s, beats[..|beats| - 1]), last.world, last.completed), last.installs)
  }

  /** The state beat `i` finds: the first one boots. */
  function Before(s: State, beats: seq<Beat>, i: nat): State
    requires beats != [] && i <= |beats|
  {
    if i == 0 then BootOnce(s, beats[0].world) else Beats(s, beats[..i])
  }

  /** What a tick tries: what has completed, if anything has, and else what was pending. */
  function Tried(t: State, completed: Option<Generation>): Option<Generation> {
    if completed.Some? then completed else t.pending
  }

  ghost predicate Refuses(s: State, beats: seq<Beat>, i: nat)
    requires i < |beats|
  {
    var t := Before(s, beats, i);
    var x := Tried(t, beats[i].completed);
    x.Some? ==> !Activates(t, x.value, beats[i].world)
  }

  lemma {:induction false} InstallsOnlyAdd(s: State, gs: seq<Generation>)
    ensures var t := InstallAll(s, gs);
            t == s.(installed := t.installed) && forall g <- s.installed :: g in t.installed
    decreases |gs|
  {
    if gs != [] {
      InstallsOnlyAdd(s, gs[..|gs| - 1]);
    }
  }

  // ----- one tick -----

  lemma TickTries(t: State, w: World, completed: Option<Generation>)
    requires t.booted && !t.live
    ensures Tick(t, w, completed) == Activate(t.(pending := Tried(t, completed)), w)
  {
  }

  lemma AcceptedEndsTheBoot(t: State, g: Generation, w: World)
    requires t.loaded != Some(g) && t.pending == Some(g) && Activates(t, g, w)
    ensures var u := Activate(t, w); u.loaded == Some(g) && u.bootQueue == [] && u.pending.None?
  {
    hide Accepted, Ensured, TreesAfter, Recover, CleanUp;
    CleanUpFrame(Swap(t.(pending := None, trees := TreesAfter(t.trees, t.installed, g, w)), Libraries(g), w)
                 .(loaded := Some(g), log := LogActivated(t.log, g), bootQueue := []), g, w);
  }

  /**
   A candidate whose turn it is, and who would load, does so exactly if nothing else completes in that turn:
   a completion takes the one pending place, whether it loads or not.
   */
  lemma CandidateLoadsExactly(t: State, candidate: Generation, w: World, completed: Option<Generation>)
    requires t.booted && !t.live && t.loaded.None? && t.pending == Some(candidate) && Activates(t, candidate, w)
    ensures Tick(t, w, completed).loaded == Some(candidate) <==> completed.None? || completed == Some(candidate)
  {
    hide Activate, Activates, BootOnce;
    TickTries(t, w, completed);
    var x := Tried(t, completed).value;
    var t1 := t.(pending := Some(x));
    assert Activates(t1, x, w) <==> Activates(t, x, w) by { SameAttempt(t, x, w); }
    if Activates(t1, x, w) { AcceptedEndsTheBoot(t1, x, w); } else { RefusedWhileBooting(t1, x, w); }
  }

  lemma SameAttempt(t: State, x: Generation, w: World)
    ensures Activates(t.(pending := Some(x)), x, w) <==> Activates(t, x, w)
  {
  }

  // ----- the candidates' turns -----

  /** The state in which candidate `turn` of a boot is up. */
  ghost predicate Up(queue: seq<Generation>, turn: nat, t: State) {
    && t.booted && !t.live && t.loaded.None? && t.resident == []
    && t.pending == (if turn < |queue| then Some(queue[|queue| - 1 - turn]) else None)
    && t.bootQueue == (if turn < |queue| then queue[..|queue| - 1 - turn] else [])
  }

  /** The trees and installs of the candidates still to come are as they were. */
  ghost predicate Untouched(s: State, queue: seq<Generation>, turn: nat, t: State) {
    forall j :: 0 <= j < |queue| - turn ==> SameTree(s, t, queue[j]) && (queue[j] in s.installed <==> queue[j] in t.installed)
  }

  /** A turn that loads nothing, its own candidate's or one a completion took, brings up the next candidate. */
  lemma RefusedTurn(queue: seq<Generation>, turn: nat, t: State, w: World, completed: Option<Generation>)
    requires Up(queue, turn, t) && turn <= |queue|
    requires Tried(t, completed).Some? ==> !Activates(t, Tried(t, completed).value, w)
    ensures Up(queue, Min(turn + 1, |queue|), Tick(t, w, completed))
  {
    hide Activate, Activates, BootOnce;
    TickTries(t, w, completed);
    if Tried(t, completed).Some? {
      var x := Tried(t, completed).value;
      SameAttempt(t, x, w);
      RefusedWhileBooting(t.(pending := Some(x)), x, w);
    } else {
      NothingTried(t, w);
    }
  }

  lemma NothingTried(t: State, w: World)
    ensures t.pending.None? ==> Activate(t, w) == t
  {
  }

  lemma RefusedTurnTouches(s: State, queue: seq<Generation>, turn: nat, t: State, w: World, completed: Option<Generation>)
    requires Up(queue, turn, t) && turn < |queue| && NoTwice(queue) && Untouched(s, queue, turn, t)
    requires !Activates(t, Tried(t, completed).value, w)
    requires completed.Some? ==> completed.value !in queue[..|queue| - 1 - turn]
    ensures Untouched(s, queue, turn + 1, Tick(t, w, completed))
  {
    hide Activate, Activates, BootOnce, TreesAfter, SameTree;
    TickTries(t, w, completed);
    var x := Tried(t, completed).value;
    SameAttempt(t, x, w);
    RefusedWhileBooting(t.(pending := Some(x)), x, w);
    var u := Tick(t, w, completed);
    forall j | 0 <= j < |queue| - (turn + 1)
      ensures SameTree(s, u, queue[j]) && (queue[j] in s.installed <==> queue[j] in u.installed)
    {
      assert queue[j] in queue[..|queue| - 1 - turn] && queue[j] != x;
      SameTreeStill(s, t, u, queue[j], x, w);
    }
  }

  lemma SameTreeStill(s: State, t: State, u: State, g: Generation, x: Generation, w: World)
    requires SameTree(s, t, g) && g != x && u.trees == TreesAfter(t.trees, t.installed, x, w)
    ensures SameTree(s, u, g)
  {
    TreesAfterFrame(t.trees, t.installed, x, w);
  }

  lemma UpAfterInstalls(queue: seq<Generation>, turn: nat, t: State, gs: seq<Generation>)
    requires Up(queue, turn, t)
    ensures Up(queue, turn, InstallAll(t, gs))
  {
    InstallsOnlyAdd(t, gs);
  }

  /** While each turn loads nothing the candidates come up one a turn, whatever completes and is installed meanwhile. */
  lemma {:induction false} CandidatesComeUpInOrder(s: State, beats: seq<Beat>, n: nat)
    requires Fresh(s) && beats != [] && n <= |beats|
    requires forall i :: 0 <= i < n ==> Refuses(s, beats, i)
    ensures var queue := BootQueue(s, beats[0].world);
            Up(queue, Min(n, |queue|), Before(s, beats, n))
    decreases n
  {
    hide BootQueue, Tick, Activates;
    var queue := BootQueue(s, beats[0].world);
    if n > 0 {
      CandidatesComeUpInOrder(s, beats, n - 1);
      assert Refuses(s, beats, n - 1);
      var t, b := Before(s, beats, n - 1), beats[n - 1];
      RefusedTurn(queue, Min(n - 1, |queue|), t, b.world, b.completed);
      BeatAfter(s, beats, n - 1);
      UpAfterInstalls(queue, Min(n, |queue|), Tick(t, b.world, b.completed), b.installs);
    }
  }

  /** A beat is a tick of the state it finds, the first one booting on the way. */
  lemma BeatAfter(s: State, beats: seq<Beat>, i: nat)
    requires i < |beats|
    ensures Beats(s, beats[..i + 1])
            == InstallAll(Tick(Before(s, beats, i), beats[i].world, beats[i].completed), beats[i].installs)
  {
    assert beats[..i + 1][..i] == beats[..i];
    hide Activate, BootQueue;
  }

  lemma {:induction false} CandidatesStayUntouched(s: State, beats: seq<Beat>, n: nat)
    requires Fresh(s) && beats != [] && n <= |beats|
    requires var queue := BootQueue(s, beats[0].world);
             n <= |queue| && NoTwice(queue) && (forall g <- queue :: g in s.installed)
    requires forall i :: 0 <= i < n ==> Refuses(s, beats, i) && NoneAhead(s, beats, i)
    ensures Untouched(s, BootQueue(s, beats[0].world), n, Before(s, beats, n))
    decreases n
  {
    hide BootQueue, Tick, Activates, Untouched, Up, Before, Refuses, NoneAhead, NoTwice, Fresh;
    var queue := BootQueue(s, beats[0].world);
    if n == 0 {
      BootIsBefore(s, beats);
      BootTouchesNothing(s, queue, beats[0].world);
    } else {
      CandidatesStayUntouched(s, beats, n - 1);
      CandidatesComeUpInOrder(s, beats, n - 1);
      BeatTouchesNoneAhead(s, queue, beats, n - 1);
    }
  }

  lemma BootIsBefore(s: State, beats: seq<Beat>)
    requires beats != []
    ensures Before(s, beats, 0) == BootOnce(s, beats[0].world)
  {
  }

  lemma BeatTouchesNoneAhead(s: State, queue: seq<Generation>, beats: seq<Beat>, i: nat)
    requires i < |beats| && i < |queue| && queue == BootQueue(s, beats[0].world) && NoTwice(queue)
    requires Up(queue, i, Before(s, beats, i)) && Untouched(s, queue, i, Before(s, beats, i))
    requires Refuses(s, beats, i) && NoneAhead(s, beats, i) && forall g <- queue :: g in s.installed
    ensures Untouched(s, queue, i + 1, Before(s, beats, i + 1))
  {
    hide BootQueue, Tick, Activates, Untouched, NoTwice;
    var t, b := Before(s, beats, i), beats[i];
    RefusedTurnTouches(s, queue, i, t, b.world, b.completed);
    BeatAfter(s, beats, i);
    UntouchedAfterInstalls(s, queue, i + 1, Tick(t, b.world, b.completed), b.installs);
  }

  lemma BootTouchesNothing(s: State, queue: seq<Generation>, w: World)
    ensures Untouched(s, queue, 0, BootOnce(s, w))
  {
    hide BootQueue;
  }

  lemma UntouchedAfterInstalls(s: State, queue: seq<Generation>, turn: nat, t: State, gs: seq<Generation>)
    requires Untouched(s, queue, turn, t) && forall g <- queue :: g in s.installed
    ensures Untouched(s, queue, turn, InstallAll(t, gs))
  {
    InstallsOnlyAdd(t, gs);
    forall j | 0 <= j < |queue| - turn ensures SameTree(s, InstallAll(t, gs), queue[j]) && queue[j] in InstallAll(t, gs).installed {
      assert SameTree(s, t, queue[j]);
    }
  }

  /** Beat `i` does not report a candidate whose turn is still to come. */
  ghost predicate NoneAhead(s: State, beats: seq<Beat>, i: nat)
    requires i < |beats|
  {
    var queue := BootQueue(s, beats[0].world);
    beats[i].completed.Some? && i < |queue| ==> beats[i].completed.value !in queue[..|queue| - 1 - i]
  }

  /**
   A boot with completions in it. If nothing loads before its turn, candidate `k` is loaded by its turn
   exactly when it is clean and no other completion arrives in that turn. One that arrived earlier and was
   refused has cost only the candidate whose turn it took.
   */
  lemma FirstCleanLoadsExactly(s: State, beats: seq<Beat>, k: nat)
    requires Fresh(s) && NoTwice(s.installed) && |beats| == k + 1 && k < |BootOrder(s, beats[0].world)|
    requires forall i :: 0 <= i < k ==> Refuses(s, beats, i) && NoneAhead(s, beats, i)
    ensures var candidate := BootOrder(s, beats[0].world)[k];
            Beats(s, beats).loaded == Some(candidate)
            <==> Clean(s, candidate, beats[k].world)
                 && (beats[k].completed.None? || beats[k].completed == Some(candidate))
  {
    hide BootQueue, Tick, Reversed, Activates, Up, Refuses, NoneAhead;
    var queue := BootQueue(s, beats[0].world);
    var t, b := Before(s, beats, k), beats[k];
    ReversedAt(queue);
    QueueHasNoneTwice(s, beats[0].world);
    QueueIsInstalled(s, beats[0].world);
    CandidatesComeUpInOrder(s, beats, k);
    CandidatesStayUntouched(s, beats, k);
    TurnIsExact(s, queue, k, t, b.world, b.completed);
    BeatAfter(s, beats, k);
    assert beats[..k + 1] == beats;
    InstallsOnlyAdd(Tick(t, b.world, b.completed), b.installs);
  }

  lemma TurnIsExact(s: State, queue: seq<Generation>, k: nat, t: State, w: World, completed: Option<Generation>)
    requires k < |queue| && Up(queue, k, t) && Untouched(s, queue, k, t)
    ensures var candidate := queue[|queue| - 1 - k];
            Tick(t, w, completed).loaded == Some(candidate)
            <==> Clean(s, candidate, w) && (completed.None? || completed == Some(candidate))
  {
    hide Activate, BootOnce, Accepted, Activates;
    var candidate := queue[|queue| - 1 - k];
    assert SameTree(s, t, queue[|queue| - k - 1]);
    SameOdds(s, t, candidate, w);
    if Activates(t, candidate, w) {
      CandidateLoadsExactly(t, candidate, w, completed);
    } else {
      TickTries(t, w, completed);
      var x := Tried(t, completed).value;
      SameAttempt(t, x, w);
      if Activates(t, x, w) {
        AcceptedEndsTheBoot(t.(pending := Some(x)), x, w);
      } else {
        RefusedWhileBooting(t.(pending := Some(x)), x, w);
      }
    }
  }

  lemma SameOdds(s: State, t: State, g: Generation, w: World)
    requires SameTree(s, t, g) && (g in s.installed <==> g in t.installed)
    ensures Activates(s, g, w) <==> Activates(t, g, w)
  {
    hide Accepted;
  }

  lemma QueueIsInstalled(s: State, w: World)
    ensures forall g <- BootQueue(s, w) :: g in s.installed
  {
    hide BootQueue, Reversed;
    BootOrderExactly(s, w);
    ReversedAt(BootQueue(s, w));
    SameMembers(BootOrder(s, w), BootQueue(s, w));
    SameMembers(BootOrder(s, w), if w.readable then s.installed else []);
  }

  // ----- a candidate that lost its turn -----

  /** Neither loaded nor waiting anywhere. */
  ghost predicate Gone(t: State, g: Generation) {
    t.booted && t.loaded != Some(g) && t.pending != Some(g) && g !in t.bootQueue
  }

  lemma GoneStaysGone(t: State, g: Generation, w: World, completed: Option<Generation>)
    requires Gone(t, g) && completed != Some(g)
    ensures Gone(Tick(t, w, completed), g)
  {
    hide Activate, BootQueue;
    var t1 := t.(pending := Tried(t, completed));
    if t1.pending.Some? && !t.live { ActivationLeavesGone(t1, g, w); }
  }

  lemma ActivationLeavesGone(t: State, g: Generation, w: World)
    requires Gone(t, g) && t.pending.Some?
    ensures Gone(Activate(t, w), g)
  {
    hide Accepted, Ensured, TreesAfter, Recover, CleanUp;
    var x := t.pending.value;
    var s := t.(pending := None, trees := TreesAfter(t.trees, t.installed, x, w));
    if t.loaded != Some(x) {
      if !Ensured(t.trees, t.installed, x, w) {
        RecoveryLeavesGone(s.(log := Push(s.log, Event(ExtractFailed, x))), x, g, w);
      } else {
        var s2 := Swap(s, Libraries(x), w);
        RecoveryLeavesGone(s2.(log := Push(s2.log, Event(ProbeFailed, x))), x, g, w);
        CleanUpFrame(s2.(loaded := Some(x), log := LogActivated(s2.log, x), bootQueue := []), x, w);
      }
    }
  }

  lemma RecoveryLeavesGone(s: State, refused: Generation, g: Generation, w: World)
    requires Gone(s, g)
    ensures Gone(Recover(s, refused, w), g)
  {
    hide Accepted, Ensured, TreesAfter;
  }

  /** A candidate whose turn another completion took is gone for good, unless it is itself reported. */
  lemma LostTurn(queue: seq<Generation>, turn: nat, t: State, w: World, completed: Generation)
    requires turn < |queue| && Up(queue, turn, t) && NoTwice(queue) && completed != queue[|queue| - 1 - turn]
    ensures Gone(Tick(t, w, Some(completed)), queue[|queue| - 1 - turn])
  {
    hide Activate, BootOnce, Activates;
    TickTries(t, w, Some(completed));
    SameAttempt(t, completed, w);
    if Activates(t, completed, w) {
      AcceptedEndsTheBoot(t.(pending := Some(completed)), completed, w);
      TickBoots(t, w, Some(completed));
    } else {
      RefusedWhileBooting(t.(pending := Some(completed)), completed, w);
    }
  }

  lemma TickBoots(t: State, w: World, completed: Option<Generation>)
    ensures Tick(t, w, completed).booted
  {
    hide Accepted, Ensured, TreesAfter, BootQueue;
  }

  lemma {:induction false} GoneForGood(t: State, g: Generation, beats: seq<Beat>)
    requires Gone(t, g) && forall b <- beats :: b.completed != Some(g)
    ensures Gone(Beats(t, beats), g)
    decreases |beats|
  {
    hide Tick;
    if beats != [] {
      var n := |beats| - 1;
      GoneForGood(t, g, beats[..n]);
      GoneStaysGone(Beats(t, beats[..n]), g, beats[n].world, beats[n].completed);
      InstallsOnlyAdd(Tick(Beats(t, beats[..n]), beats[n].world, beats[n].completed), beats[n].installs);
    }
  }

  // ----- it happens -----

  /**
   The recorded generation is installed, extracted and loads; another is installed and completes before the
   first tick, but will not extract. The recorded one is never loaded, whatever the ticks after it find.
   */
  lemma CompletionCanLoseTheRecordedGeneration() returns (s: State, w: World, completed: Generation, recorded: Generation)
    ensures Fresh(s) && Tidy(s)
    ensures s.log.active == Some(recorded) && recorded in s.installed && recorded.artifacts != []
    ensures completed in s.installed && completed.artifacts != [] && w.extract(completed).None?
    ensures Clean(s, recorded, w) && Ticks(s, [w]).loaded == Some(recorded)
    ensures forall beats: seq<Beat> :: (forall b <- beats :: b.completed != Some(recorded)) ==>
              Beats(Tick(s, w, Some(completed)), beats).loaded != Some(recorded)
  {
    hide Tick, Ticks, Beats, BootQueue, Activate;
    recorded, completed := Generation("recorded", ["a"]), Generation("completed", ["b"]);
    w := World(true, g => 0, g => None, l => Loaded(1), {}, {});
    s := State(None, [], None, false, Log(Some(recorded), None, []), [completed, recorded], map[recorded := {"a"}], [], false);
    RecordedIsUp(s, w, completed, recorded);
    OneArtifactLoads(recorded, "a", w);
    assert Ensured(s.trees, s.installed, recorded, w);
    BootLoadsTheFirstClean(s, [w], 0);
    var t := BootOnce(s, w);
    LostTurn([completed, recorded], 0, t, w, completed);
    BootedTick(s, w, Some(completed));
    forall beats: seq<Beat> | forall b <- beats :: b.completed != Some(recorded)
      ensures Beats(Tick(s, w, Some(completed)), beats).loaded != Some(recorded)
    {
      GoneForGood(Tick(s, w, Some(completed)), recorded, beats);
    }
  }

  lemma BootedTick(s: State, w: World, completed: Option<Generation>)
    ensures Tick(s, w, completed) == Tick(BootOnce(s, w), w, completed)
  {
    hide Activate, BootQueue;
  }

  lemma OneArtifactLoads(g: Generation, name: string, w: World)
    requires g.artifacts == [name] && w.load(Library(g, name)) == Loaded(1)
    ensures Accepted(g, w)
  {
    assert Libraries(g) == [Library(g, name)];
    assert Libraries(g)[..0] == [];
  }

  lemma TwoOfOneAge(a: Generation, b: Generation, w: World)
    requires w.modified(a) == w.modified(b)
    ensures ByAge([a, b], w) == [a, b]
  {
    assert [a, b][..1] == [a] && [a][..0] == [];
    assert ByAge([a], w) == [a] by { assert ByAge([], w) == []; }
  }

  lemma SecondOfTwo(a: Generation, b: Generation)
    requires a != b
    ensures Position([a, b], b) == 1
  {
    assert [a, b][1..] == [b];
  }

  lemma RecordedIsUp(s: State, w: World, completed: Generation, recorded: Generation)
    requires Fresh(s) && s.installed == [completed, recorded] && s.log.active == Some(recorded) && completed != recorded
    requires w.readable && w.modified(completed) == w.modified(recorded)
    ensures BootQueue(s, w) == [completed, recorded] && BootOrder(s, w)[0] == recorded && NoTwice(BootQueue(s, w))
    ensures Up([completed, recorded], 0, BootOnce(s, w))
  {
    hide ByAge, Position, Reversed;
    TwoOfOneAge(completed, recorded, w);
    SecondOfTwo(completed, recorded);
    assert BootQueue(s, w) == [completed, recorded];
    ReversedAt(BootQueue(s, w));
    hide BootQueue;
    assert [completed, recorded][..1] == [completed];
  }

  lemma UnreadIsCollected(t: State, w: World, active: Generation, read: Generation, unread: Generation)
    requires Good(t) && t.booted && !t.live && t.loaded == Some(active)
    requires active != read && unread != active && unread != read && w.spared == {} && w.leftTrees == {}
    requires Activates(t, read, w)
    ensures var u := Tick(t, w, Some(read));
            u.loaded == Some(read) && unread !in u.installed && Tick(u, w, Some(unread)).loaded != Some(unread)
  {
    hide Activate, Activates, BootOnce;
    TickTries(t, w, Some(read));
    SameAttempt(t, read, w);
    var t1 := t.(pending := Some(read));
    RetentionExactly(t1, w, unread);
    CollectedCompletionIsLost(t1, w, unread, w);
    AcceptedEndsTheBoot(t1, read, w);
  }

  /**
   Three generations that all extract and load: the first runs, the others are installed, and the second is
   read first. The third's files are gone before it is read, and it never loads.
   */
  lemma CompletionCanBeCollected()
    returns (s: State, w: World, first: Generation, second: Generation, third: Generation)
    ensures Fresh(s) && Tidy(s) && s.installed == [first]
    ensures forall g <- [first, second, third] :: w.extract(g).Some? && Accepted(g, w) && g.artifacts != []
    ensures var t := InstallAll(Tick(s, w, None), [second, third]);
            var u := Tick(t, w, Some(second));
            && Activates(t, third, w) && u.loaded == Some(second)
            && third !in u.installed && Tick(u, w, Some(third)).loaded != Some(third)
  {
    hide Tick, BootQueue, Activate, InstallAll, Accepted, Good;
    first, second, third := Generation("first", ["a"]), Generation("second", ["a"]), Generation("third", ["a"]);
    w := World(true, g => 0, g => Some({"a"}), l => Loaded(1), {}, {});
    s := State(None, [], None, false, Log(None, None, []), [first], map[], [], false);
    OneArtifactLoads(first, "a", w);
    OneArtifactLoads(second, "a", w);
    OneArtifactLoads(third, "a", w);
    OnlyOneIsUp(s, first, w);
    BootLoadsTheFirstClean(s, [w], 0);
    OneTick(s, w);
    var t1 := Tick(s, w, None);
    FirstTickKeepsGood(s, w);
    TickInstallsNothing(s, w);
    var t := InstallAll(t1, [second, third]);
    TwoInstalled(t1, second, third);
    FreshlyExtracts(t, second, w);
    FreshlyExtracts(t, third, w);
    UnreadIsCollected(t, w, first, second, third);
  }

  lemma OneTick(s: State, w: World)
    ensures Ticks(s, [w]) == Tick(s, w, None)
  {
    hide Tick;
    assert [w][..0] == [];
  }

  lemma OnlyOneIsUp(s: State, g: Generation, w: World)
    requires Fresh(s) && s.installed == [g] && s.log.active.None? && w.readable
    ensures BootQueue(s, w) == [g] && NoTwice(BootQueue(s, w)) && BootOrder(s, w) == [g]
  {
    assert [g][..0] == [];
    assert ByAge([g], w) == [g] by { assert ByAge([], w) == []; }
    ReversedAt(BootQueue(s, w));
  }

  lemma FirstTickKeepsGood(s: State, w: World)
    requires Fresh(s) && Tidy(s) && w.leftTrees <= w.spared
    ensures Good(Tick(s, w, None)) && Tidy(Tick(s, w, None))
  {
    hide Tick;
    StepKeepsGood(s, Ticked(w, None));
    StepKeepsTidy(s, Ticked(w, None));
  }

  lemma TickInstallsNothing(s: State, w: World)
    ensures forall g <- Tick(s, w, None).installed :: g in s.installed
  {
    hide Activate, BootQueue;
    ActivationInstallsNothing(BootOnce(s, w), w);
  }

  lemma ActivationInstallsNothing(s: State, w: World)
    ensures forall g <- Activate(s, w).installed :: g in s.installed
  {
    hide Accepted, Ensured, TreesAfter, Recover, CleanUp;
    if s.pending.Some? && s.loaded != s.pending {
      var x := s.pending.value;
      var s1 := s.(pending := None, trees := TreesAfter(s.trees, s.installed, x, w));
      var s2 := Swap(s1, Libraries(x), w);
      RecoveryKeepsInstalls(s1.(log := Push(s1.log, Event(ExtractFailed, x))), x, w);
      RecoveryKeepsInstalls(s2.(log := Push(s2.log, Event(ProbeFailed, x))), x, w);
      CleanUpOnlyRemoves(s2.(loaded := Some(x), log := LogActivated(s2.log, x), bootQueue := []), x, w);
    }
  }

  lemma RecoveryKeepsInstalls(s: State, refused: Generation, w: World)
    ensures Recover(s, refused, w).installed == s.installed
  {
  }

  lemma CleanUpOnlyRemoves(s: State, g: Generation, w: World)
    ensures forall x <- CleanUp(s, g, w).installed :: x in s.installed
  {
    KeptExactly(s.installed, {g} + (if s.log.previous.Some? then {s.log.previous.value} else {}) + w.spared);
  }

  lemma TwoInstalled(t: State, a: Generation, b: Generation)
    requires Good(t)
    ensures var u := InstallAll(t, [a, b]); Good(u) && u == t.(installed := u.installed) && a in u.installed && b in u.installed
  {
    assert [a, b][..1] == [a] && [a][..0] == [];
    InstallsOnlyAdd(t, [a, b]);
  }

  lemma FreshlyExtracts(t: State, g: Generation, w: World)
    requires g in t.installed && g !in t.trees && Accepted(g, w)
    requires g.artifacts == ["a"] && w.extract(g) == Some({"a"})
    ensures Activates(t, g, w)
  {
    hide Accepted;
  }
}
