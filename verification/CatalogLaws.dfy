/** What holds of a plugin catalog after any run of ticks, mounts, completions and refusals. */
module CatalogLaws {
  import opened Wrappers
  import opened CatalogState

  /** Nothing is loaded and nothing resident; or one generation's full set is, from a complete tree, and the record names it. */
  ghost predicate AllOrNothing(s: State) {
    match s.loaded
    case None => s.resident == []
    case Some(g) =>
      && s.resident == Libraries(g)
      && s.log.active == Some(g)
      && s.bootQueue == [] && s.booted
      && g in s.trees && forall name <- g.artifacts :: PlainName(name) && name in s.trees[g]
  }

  ghost predicate Good(s: State) {
    && AllOrNothing(s)
    && (s.live ==> s.loaded.Some?)
    && (!s.booted ==> s.pending.None?)
  }

  /** No tree outlives the generation it was extracted from. An earlier run's crash or a failed removal can leave one. */
  ghost predicate Tidy(s: State) { forall g <- s.trees :: g in s.installed }

  // ----- swaps -----

  lemma {:induction false} FullSetLoads(libraries: seq<Library>, w: World)
    requires forall l <- libraries :: w.load(l).Loaded?
    ensures LoadedFrom(libraries, w) == libraries
    decreases |libraries|
  {
    if libraries != [] {
      FullSetLoads(libraries[..|libraries| - 1], w);
    }
  }

  lemma {:induction false} KeptExactly(installed: seq<Generation>, live: set<Generation>)
    ensures forall g :: g in Kept(installed, live) <==> g in installed && g in live
    decreases |installed|
  {
    if installed != [] {
      var n := |installed| - 1;
      KeptExactly(installed[..n], live);
      assert forall g :: g in installed <==> g in installed[..n] || g == installed[n];
    }
  }

  lemma RecoverKeepsGood(s: State, refused: Generation, w: World)
    requires s.booted && !s.live
    requires s.loaded.Some? ==>
               && s.log.active == s.loaded && s.bootQueue == [] && s.pending.None?
               && s.loaded.value in s.trees
               && forall name <- s.loaded.value.artifacts :: PlainName(name) && name in s.trees[s.loaded.value]
    ensures Good(Recover(s, refused, w)) && Recover(s, refused, w).booted && !Recover(s, refused, w).live
    ensures s.loaded.Some? ==>
              Recover(s, refused, w).loaded
              == if w.readable && s.loaded.value in s.installed && Accepted(s.loaded.value, w) then s.loaded else None
    ensures s.loaded.None? ==> Recover(s, refused, w) == Popped(Swap(s, [], w))
  {
    if s.loaded.Some? && Accepted(s.loaded.value, w) {
      FullSetLoads(Libraries(s.loaded.value), w);
    }
  }

  /** What `Activate` does with a generation that is not the one loaded. */
  ghost predicate Activates(s: State, g: Generation, w: World) {
    Ensured(s.trees, s.installed, g, w) && Accepted(g, w)
  }

  lemma CleanUpKeepsGood(s: State, g: Generation, w: World)
    requires AllOrNothing(s) && s.loaded == Some(g) && !s.live && s.booted
    ensures Good(CleanUp(s, g, w))
    ensures CleanUp(s, g, w).loaded == Some(g) && CleanUp(s, g, w).log == s.log && !CleanUp(s, g, w).live
    ensures CleanUp(s, g, w).pending == s.pending && CleanUp(s, g, w).bootQueue == s.bootQueue
  {
    KeptExactly(s.installed, {g} + (if s.log.previous.Some? then {s.log.previous.value} else {}) + w.spared);
  }

  lemma ActivateKeepsGood(s: State, w: World)
    requires Good(s) && !s.live && s.booted
    ensures Good(Activate(s, w)) && Activate(s, w).booted && !Activate(s, w).live
  {
    hide Recover, CleanUp, Accepted;
    if s.pending.Some? && s.loaded != s.pending {
      var g := s.pending.value;
      var s1 := s.(pending := None, trees := TreesAfter(s.trees, s.installed, g, w));
      if !Ensured(s.trees, s.installed, g, w) {
        RecoverKeepsGood(s1.(log := Push(s1.log, Event(ExtractFailed, g))), g, w);
      } else {
        var s2 := Swap(s1, Libraries(g), w);
        if Accepted(g, w) {
          AcceptedLoads(g, w);
          CleanUpKeepsGood(s2.(loaded := Some(g), log := LogActivated(s2.log, g), bootQueue := []), g, w);
        } else {
          RecoverKeepsGood(s2.(log := Push(s2.log, Event(ProbeFailed, g))), g, w);
        }
      }
    }
  }

  lemma AcceptedLoads(g: Generation, w: World)
    requires Accepted(g, w)
    ensures LoadedFrom(Libraries(g), w) == Libraries(g)
  {
    FullSetLoads(Libraries(g), w);
  }

  lemma StepKeepsGood(s: State, step: Step)
    requires Good(s)
    ensures Good(Next(s, step))
  {
    hide Activate, BootQueue;
    match step {
      case Ticked(w, completed) =>
        var s1 := BootOnce(s, w);
        var s2 := if completed.Some? then s1.(pending := completed) else s1;
        if s2.pending.Some? && !s2.live { ActivateKeepsGood(s2, w); }
      case Mounted(w, opens) =>
        var s1 := BootOnce(s, w);
        if s1.pending.Some? { ActivateKeepsGood(s1.(live := false), w); }
      case _ =>
    }
  }

  /** After any run from a fresh start: all or nothing, and a song plays only on an accepted set. */
  lemma {:induction false} RunKeepsGood(s: State, steps: seq<Step>)
    requires Fresh(s)
    ensures Good(Run(s, steps))
    decreases |steps|
  {
    if steps != [] {
      RunKeepsGood(s, steps[..|steps| - 1]);
      StepKeepsGood(Run(s, steps[..|steps| - 1]), steps[|steps| - 1]);
    }
  }

  lemma StepKeepsTidy(s: State, step: Step)
    requires Tidy(s) && (step.Ticked? || step.Mounted? ==> step.world.leftTrees <= step.world.spared)
    ensures Tidy(Next(s, step))
  {
    hide Activate, BootQueue;
    match step {
      case Ticked(w, completed) =>
        var s1 := BootOnce(s, w);
        ActivateKeepsTidy(if completed.Some? then s1.(pending := completed) else s1, w);
      case Mounted(w, opens) => ActivateKeepsTidy(BootOnce(s, w).(live := false), w);
      case _ =>
    }
  }

  lemma ActivateKeepsTidy(s: State, w: World)
    requires Tidy(s) && w.leftTrees <= w.spared
    ensures Tidy(Activate(s, w))
  {
    hide Accepted, Recover, CleanUp;
    if s.pending.Some? && s.loaded != s.pending {
      var g := s.pending.value;
      var s1 := s.(pending := None, trees := TreesAfter(s.trees, s.installed, g, w));
      var s2 := Swap(s1, Libraries(g), w);
      RecoverKeepsTidy(s1.(log := Push(s1.log, Event(ExtractFailed, g))), g, w);
      RecoverKeepsTidy(s2.(log := Push(s2.log, Event(ProbeFailed, g))), g, w);
      CleanUpKeepsTidy(s2.(loaded := Some(g), log := LogActivated(s2.log, g), bootQueue := []), g, w);
    }
  }

  lemma RecoverKeepsTidy(s: State, refused: Generation, w: World)
    requires Tidy(s)
    ensures Tidy(Recover(s, refused, w))
  {
    hide Accepted;
  }

  lemma CleanUpKeepsTidy(s: State, g: Generation, w: World)
    requires Tidy(s) && w.leftTrees <= w.spared
    ensures Tidy(CleanUp(s, g, w))
  {
    KeptExactly(s.installed, {g} + (if s.log.previous.Some? then {s.log.previous.value} else {}) + w.spared);
  }

  /** Every retention of the run that leaves a tree leaves its generation. */
  ghost predicate CleansUp(steps: seq<Step>) {
    forall step <- steps :: step.Ticked? || step.Mounted? ==> step.world.leftTrees <= step.world.spared
  }

  /** From a tidy disk the loaded generation stays installed, so a refused one falls back exactly when the old set loads. */
  lemma {:induction false} RunKeepsTheFallback(s: State, steps: seq<Step>)
    requires Fresh(s) && Tidy(s) && CleansUp(steps)
    ensures var t := Run(s, steps); Tidy(t) && (t.loaded.Some? ==> t.loaded.value in t.trees && t.loaded.value in t.installed)
    decreases |steps|
  {
    hide Next;
    RunKeepsGood(s, steps);
    if steps != [] {
      RunKeepsTheFallback(s, steps[..|steps| - 1]);
      StepKeepsTidy(Run(s, steps[..|steps| - 1]), steps[|steps| - 1]);
    }
  }

  /** A tick under a live session swaps nothing: at most it notes what should activate later. */
  lemma TickLeavesASessionAlone(s: State, w: World, completed: Option<Generation>)
    requires s.live
    ensures var t := Tick(s, w, completed);
            t == s.(pending := t.pending, bootQueue := t.bootQueue, booted := true)
            && (completed.Some? ==> t.pending == completed)
            && (completed.None? && s.booted ==> t.pending == s.pending && t.bootQueue == s.bootQueue)
  {
  }

  // ----- what an activation comes to -----

  /** With nothing mounted, what waits becomes the loaded set exactly when it extracts and every plugin of it loads. */
  lemma ActivationExactly(s: State, w: World)
    requires Good(s) && !s.live && s.booted && s.pending.Some? && s.loaded != s.pending
    ensures Activate(s, w).loaded == s.pending <==> Activates(s, s.pending.value, w)
    ensures !Activates(s, s.pending.value, w) && s.loaded.Some? ==>
              Activate(s, w).loaded
              == if w.readable && s.loaded.value in s.installed && Accepted(s.loaded.value, w) then s.loaded else None
    ensures !Activates(s, s.pending.value, w) && s.loaded.None? ==>
              && Activate(s, w).loaded == None
              && Activate(s, w).pending == (if s.bootQueue == [] then None else Some(s.bootQueue[|s.bootQueue| - 1]))
  {
    hide Recover, CleanUp, Accepted, Ensured;
    var g := s.pending.value;
    var s1 := s.(pending := None, trees := TreesAfter(s.trees, s.installed, g, w));
    if !Ensured(s.trees, s.installed, g, w) {
      RecoverKeepsGood(s1.(log := Push(s1.log, Event(ExtractFailed, g))), g, w);
    } else {
      var s2 := Swap(s1, Libraries(g), w);
      if !Accepted(g, w) {
        RecoverKeepsGood(s2.(log := Push(s2.log, Event(ProbeFailed, g))), g, w);
      } else {
        CleanUpLoaded(s2.(loaded := Some(g), log := LogActivated(s2.log, g), bootQueue := []), g, w);
      }
    }
  }

  /**
   A mount activates what waits, closing the song first: the waiting set is loaded exactly when it extracts and loads
   in full, else the old one is back exactly when it loads, and the song opens, or not, on what is loaded.
   */
  lemma MountExactly(s: State, w: World, opens: bool)
    requires Good(s) && s.booted && s.pending.Some? && s.loaded != s.pending
    ensures var t := Mount(s, w, opens);
            && t.booted
            && (t.loaded == s.pending <==> Activates(s, s.pending.value, w))
            && (t.loaded == s.pending ==> t.pending.None?)
            && (!Activates(s, s.pending.value, w) && s.loaded.Some? ==>
                  && t.pending.None?
                  && t.loaded == if w.readable && s.loaded.value in s.installed && Accepted(s.loaded.value, w) then s.loaded else None)
            && (!Activates(s, s.pending.value, w) && s.loaded.None? ==>
                  && t.loaded == None
                  && t.pending == (if s.bootQueue == [] then None else Some(s.bootQueue[|s.bootQueue| - 1])))
            && (t.loaded.Some? ==> t.resident == Libraries(t.loaded.value))
            && (t.live <==> opens && t.loaded.Some? && t.loaded.value.artifacts != [])
  {
    var s1 := s.(live := false);
    ActivatesClosed(s, w);
    ActivationExactly(s1, w);
    ActivateKeepsGood(s1, w);
    ActivationEmpties(s1, w);
    hide Activate, Activates, Accepted;
    assert Mount(s, w, opens) == Activate(s1, w).(live := opens && Activate(s1, w).resident != []);
  }

  /** What it takes: plain names, each in the tree that is there or else in what extracts, and every library accepted. */
  lemma ActivatesExactly(s: State, g: Generation, w: World)
    ensures Activates(s, g, w) <==>
              && (forall name <- g.artifacts :: PlainName(name))
              && (if g in s.trees then forall name <- g.artifacts :: name in s.trees[g]
                  else g in s.installed && w.extract(g).Some? && forall name <- g.artifacts :: name in w.extract(g).value)
              && (forall name <- g.artifacts :: w.load(Library(g, name)).Loaded?)
              && PlaybackCount(Libraries(g), w) == |g.artifacts|
  {
    hide PlaybackCount;
    assert forall i :: 0 <= i < |g.artifacts| ==> Libraries(g)[i] == Library(g, g.artifacts[i]);
  }

  /** Of libraries that bring one plugin each at most, a set is accepted exactly when every one loads and brings its plugin. */
  lemma ShortSetIsRefused(g: Generation, w: World)
    requires forall name <- g.artifacts :: w.load(Library(g, name)).Loaded? ==> w.load(Library(g, name)).playback <= 1
    ensures Accepted(g, w) <==> forall name <- g.artifacts :: w.load(Library(g, name)) == Loaded(1)
  {
    assert forall i :: 0 <= i < |g.artifacts| ==> Libraries(g)[i] == Library(g, g.artifacts[i]);
    CountedExactly(Libraries(g), w);
  }

  lemma {:induction false} CountedExactly(libraries: seq<Library>, w: World)
    requires forall l <- libraries :: w.load(l).Loaded? ==> w.load(l).playback <= 1
    ensures PlaybackCount(libraries, w) <= |libraries|
    ensures PlaybackCount(libraries, w) == |libraries| <==> forall l <- libraries :: w.load(l) == Loaded(1)
    decreases |libraries|
  {
    if libraries != [] {
      var n := |libraries| - 1;
      CountedExactly(libraries[..n], w);
      assert libraries == libraries[..n] + [libraries[n]];
    }
  }

  /** The last thing an activation logs: the set that is on, the refusal that fell back, or the refusal that left nothing. */
  lemma ActivationIsLogged(s: State, w: World)
    requires Good(s) && s.booted && s.pending.Some? && s.loaded != s.pending
    ensures var t, g := Activate(s, w), s.pending.value;
            LastLogged(t.log, if Activates(s, g, w) then Event(Activated, g)
                              else if s.loaded.Some? then
                                if t.loaded == s.loaded then Event(FellBack, g) else Event(ProbeFailed, s.loaded.value)
                              else if Ensured(s.trees, s.installed, g, w) then Event(ProbeFailed, g)
                              else Event(ExtractFailed, g))
  {
    hide Accepted, Ensured, TreesAfter, Recover, CleanUp, LogActivated, Push, LastLogged;
    var g := s.pending.value;
    var s1 := s.(pending := None, trees := TreesAfter(s.trees, s.installed, g, w));
    if !Ensured(s.trees, s.installed, g, w) {
      RecoveryIsLogged(s1, Event(ExtractFailed, g), w);
    } else {
      var s2 := Swap(s1, Libraries(g), w);
      RecoveryIsLogged(s2, Event(ProbeFailed, g), w);
      LogsActivated(s2.(loaded := Some(g), log := LogActivated(s2.log, g), bootQueue := []), s2.log, g, w);
    }
  }

  ghost predicate LastLogged(log: Log, e: Event) { log.history != [] && log.history[|log.history| - 1] == e }

  lemma PushedIsLast(log: Log, e: Event)
    ensures LastLogged(Push(log, e), e)
  {
  }

  lemma LogsActivated(s: State, log: Log, g: Generation, w: World)
    requires s.log == LogActivated(log, g)
    ensures LastLogged(CleanUp(s, g, w).log, Event(Activated, g))
  {
    hide Push, Kept;
    PushedIsLast(if log.active == Some(g) then log else log.(active := Some(g), previous := log.active), Event(Activated, g));
  }

  lemma RecoveryIsLogged(s: State, e: Event, w: World)
    ensures var t := Recover(s.(log := Push(s.log, e)), e.generation, w);
            LastLogged(t.log, if s.loaded.None? then e
                              else if t.loaded == s.loaded then Event(FellBack, e.generation)
                              else Event(ProbeFailed, s.loaded.value))
  {
    hide Accepted, Ensured, TreesAfter, Push, LastLogged, LoadedFrom;
    var log := Push(s.log, e);
    PushedIsLast(s.log, e);
    PushedIsLast(log, Event(FellBack, e.generation));
    if s.loaded.Some? { PushedIsLast(log, Event(ProbeFailed, s.loaded.value)); }
  }

  /** A plain name is one step of a path: letters, digits, dashes and underscores alone, so no separator and no dots. */
  lemma PlainNamesAreOneStep(name: string)
    ensures PlainName(name) <==>
              && |name| > 0
              && forall k :: 0 <= k < |name| ==>
                   || 'a' <= name[k] <= 'z' || 'A' <= name[k] <= 'Z' || '0' <= name[k] <= '9'
                   || name[k] == '-' || name[k] == '_'
    ensures PlainName(name) ==> '/' !in name && '\\' !in name && '.' !in name && ':' !in name
  {
    assert forall k :: 0 <= k < |name| ==> name[k] in name;
  }

  /** The set that is loaded, completed again, is not loaded again: nothing swaps and nothing is logged. */
  lemma ReactivationSwapsNothing(s: State, w: World)
    requires Good(s) && s.booted && s.pending.Some? && s.loaded == s.pending
    ensures Activate(s, w) == s.(pending := None)
  {
  }

  lemma ActivatesClosed(s: State, w: World)
    requires s.pending.Some?
    ensures Activates(s.(live := false), s.pending.value, w) <==> Activates(s, s.pending.value, w)
  {
    hide Accepted;
  }

  lemma ActivationEmpties(s: State, w: World)
    requires Good(s) && s.booted && s.pending.Some? && s.loaded != s.pending
    ensures Activates(s, s.pending.value, w) || s.loaded.Some? ==> Activate(s, w).pending.None?
  {
    hide Accepted, Ensured, TreesAfter;
  }

  /** With nothing waiting a mount swaps nothing, whatever it finds. */
  lemma MountOfNothing(s: State, w: World, opens: bool)
    requires Good(s) && s.booted && s.pending.None?
    ensures Mount(s, w, opens) == s.(live := opens && s.loaded.Some? && s.loaded.value.artifacts != [])
  {
  }

  /** The first mount boots: it loads the first boot candidate exactly when that one is clean, and else opens nothing. */
  lemma FirstMountBoots(s: State, w: World, opens: bool)
    requires Fresh(s)
    ensures var t, queue := Mount(s, w, opens), BootQueue(s, w);
            && t.booted
            && (queue == [] ==> t.loaded.None? && !t.live)
            && (queue != [] ==>
                  var first := queue[|queue| - 1];
                  && (t.loaded == Some(first) <==> Activates(s, first, w))
                  && (t.loaded != Some(first) ==> t.loaded.None? && !t.live)
                  && (t.live <==> opens && t.loaded == Some(first) && first.artifacts != []))
  {
    hide Activate, BootQueue, Accepted, Ensured;
    var s1, queue := BootOnce(s, w), BootQueue(s, w);
    assert Mount(s, w, opens) == Mount(s1, w, opens);
    if queue == [] {
      MountOfNothing(s1, w, opens);
    } else {
      MountExactly(s1, w, opens);
    }
    hide Mount;
  }

  lemma CleanUpLoaded(s: State, g: Generation, w: World)
    ensures CleanUp(s, g, w).loaded == s.loaded
  {
  }

  /** An activation keeps on disk exactly itself, the one it replaced, and what could not be removed. */
  lemma RetentionExactly(s: State, w: World, x: Generation)
    requires Good(s) && !s.live && s.booted && s.pending.Some? && s.loaded != s.pending
    requires Activates(s, s.pending.value, w)
    ensures var t := Activate(s, w);
            && t.log.active == s.pending
            && t.log.previous == (if s.log.active == s.pending then s.log.previous else s.log.active)
            && (x in t.installed <==> x in s.installed && (Some(x) == s.pending || Some(x) == t.log.previous || x in w.spared))
            && (x in t.trees <==> (x in s.trees && (Some(x) == t.log.previous || x in w.leftTrees)) || Some(x) == s.pending)
            && (s.loaded.Some? ==> s.loaded.value in t.trees && (s.loaded.value in t.installed <==> s.loaded.value in s.installed))
  {
    hide Accepted, Recover;
    var g := s.pending.value;
    var log := LogActivated(s.log, g);
    KeptExactly(s.installed, {g} + (if log.previous.Some? then {log.previous.value} else {}) + w.spared);
  }

  /** So a generation completed but not yet read is collected by another's activation, and reading it later cannot load it. */
  lemma CollectedCompletionIsLost(s: State, w: World, unread: Generation, later: World)
    requires Good(s) && !s.live && s.booted && s.pending.Some? && s.loaded != s.pending
    requires Activates(s, s.pending.value, w) && unread !in w.spared && unread !in w.leftTrees
    requires Some(unread) != s.pending && Some(unread) != Activate(s, w).log.previous
    ensures var t := Activate(s, w);
            unread !in t.installed && !t.live && Tick(t, later, Some(unread)).loaded != Some(unread)
  {
    hide Recover, Accepted, CleanUp;
    RetentionExactly(s, w, unread);
    ActivateKeepsGood(s, w);
    var t := Activate(s, w);
    var t1 := t.(pending := Some(unread));
    ActivationExactly(s, w);
    ActivationExactly(t1, later);
    assert !Ensured(t1.trees, t1.installed, unread, later);
    assert Tick(t, later, Some(unread)) == Activate(t1, later);
  }

  // ----- the activation record -----

  function Pushed(log: Log, events: seq<Event>): Log {
    if events == [] then log else Push(Pushed(log, events[..|events| - 1]), events[|events| - 1])
  }

  function Last(events: seq<Event>, n: nat): seq<Event> {
    if |events| <= n then events else events[|events| - n..]
  }

  /** The history is the last events there ever were, as many as it has room for. */
  lemma {:induction false} HistoryIsTheLastEvents(log: Log, events: seq<Event>)
    requires |log.history| <= HISTORY_CAP
    ensures Pushed(log, events).history == Last(log.history + events, HISTORY_CAP)
    decreases |events|
  {
    if events == [] {
      assert log.history + events == log.history;
    } else {
      var n := |events| - 1;
      HistoryIsTheLastEvents(log, events[..n]);
      assert log.history + events == log.history + events[..n] + [events[n]];
    }
  }
}
