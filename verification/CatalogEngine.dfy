/** The catalog as it runs: a record, a payload store, a backend, and the pump that drives them. */
module CatalogEngine {
  import opened Wrappers
  import opened CatalogState

  class ActivationLog {
    var active: Option<Generation>
    var previous: Option<Generation>
    var history: seq<Event>

    constructor (log: Log)
      ensures Record() == log
    {
      active, previous, history := log.active, log.previous, log.history;
    }

    function Record(): Log
      reads this
    {
      Log(active, previous, history)
    }

    /** Appends an event and drains what is over the cap, oldest first. */
    method Note(what: EventKind, g: Generation)
      modifies `history
      ensures Record() == Push(old(Record()), Event(what, g))
    {
      history := history + [Event(what, g)];
      if |history| > HISTORY_CAP {
        history := history[|history| - HISTORY_CAP..];
      }
    }

    method Activated(g: Generation)
      modifies this
      ensures Record() == LogActivated(old(Record()), g)
    {
      if active != Some(g) {
        previous := active;
      }
      active := Some(g);
      Note(EventKind.Activated, g);
    }
  }

  class PayloadStore {
    var trees: map<Generation, set<string>>

    constructor (trees: map<Generation, set<string>>)
      ensures this.trees == trees
    {
      this.trees := trees;
    }

    /** The generation's libraries, extracting its tree if it is absent. */
    method Ensure(installed: seq<Generation>, g: Generation, w: World) returns (r: Option<seq<Library>>)
      modifies this
      ensures trees == TreesAfter(old(trees), installed, g, w)
      ensures r == if Ensured(old(trees), installed, g, w) then Some(Libraries(g)) else None
    {
      for i := 0 to |g.artifacts|
        invariant forall k :: 0 <= k < i ==> PlainName(g.artifacts[k])
      {
        if !PlainName(g.artifacts[i]) {
          return None;
        }
      }
      if g !in trees {
        if g !in installed {
          return None;
        }
        var extracted := w.extract(g);
        if extracted.None? {
          return None;
        }
        trees := trees[g := extracted.value];
      }
      for i := 0 to |g.artifacts|
        invariant forall k :: 0 <= k < i ==> g.artifacts[k] in trees[g]
      {
        if g.artifacts[i] !in trees[g] {
          return None;
        }
      }
      r := Some(Libraries(g));
    }

    /** Removes every tree but the live ones, going on past those it cannot remove. */
    method Retain(live: set<Generation>, stuck: set<Generation>)
      modifies this
      ensures trees == map t | t in old(trees) && t in live + stuck :: old(trees)[t]
    {
      var todo := trees.Keys;
      while todo != {}
        invariant todo <= old(trees.Keys)
        invariant trees == map t | t in old(trees) && (t in todo || t in live + stuck) :: old(trees)[t]
        decreases |todo|
      {
        var t :| t in todo;
        todo := todo - {t};
        if t in live || t in stuck { continue; }
        trees := trees - {t};
      }
    }
  }

  class Backend {
    var resident: seq<Library>
    var live: bool

    constructor ()
      ensures resident == [] && !live
    {
      resident, live := [], false;
    }

    /** Drops the session and the old set, then loads what it can of `libraries`. */
    method SwapPlugins(libraries: seq<Library>, w: World) returns (loaded: nat, errors: nat)
      modifies this
      ensures resident == LoadedFrom(libraries, w) && !live
      ensures loaded == PlaybackCount(libraries, w)
      ensures errors == 0 <==> AllLoad(libraries, w)
    {
      hide LoadedFrom, PlaybackCount, AllLoad;
      live := false;
      resident, loaded, errors := [], 0, 0;
      NothingLoaded(w);
      assert libraries[..0] == [];
      for i := 0 to |libraries|
        invariant !live && resident == LoadedFrom(libraries[..i], w) && loaded == PlaybackCount(libraries[..i], w)
        invariant errors == 0 <==> AllLoad(libraries[..i], w)
      {
        OneMoreLoaded(libraries, i, w);
        match w.load(libraries[i]) {
          case Loaded(playback) =>
            resident := resident + [libraries[i]];
            loaded := loaded + playback;
          case Rejected =>
            errors := errors + 1;
        }
      }
      assert libraries[..|libraries|] == libraries;
    }
  }

  lemma NothingLoaded(w: World)
    ensures LoadedFrom([], w) == [] && PlaybackCount([], w) == 0 && AllLoad([], w)
  {
  }

  lemma OneMoreLoaded(libraries: seq<Library>, i: nat, w: World)
    requires i < |libraries|
    ensures var answer := w.load(libraries[i]);
            && LoadedFrom(libraries[..i + 1], w)
               == LoadedFrom(libraries[..i], w) + (if answer.Loaded? then [libraries[i]] else [])
            && PlaybackCount(libraries[..i + 1], w)
               == PlaybackCount(libraries[..i], w) + (if answer.Loaded? then answer.playback else 0)
            && (AllLoad(libraries[..i + 1], w) <==> AllLoad(libraries[..i], w) && answer.Loaded?)
  {
    assert libraries[..i + 1][..i] == libraries[..i];
    assert libraries[..i + 1] == libraries[..i] + [libraries[i]];
  }

  class PluginCatalog {
    const payloads: PayloadStore
    const log: ActivationLog
    const backend: Backend
    /** The updater's generations, as its root lists them. */
    var installed: seq<Generation>
    var pending: Option<Generation>
    var bootQueue: seq<Generation>
    var loaded: Option<Generation>
    var booted: bool

    function Snapshot(): State
      reads this, payloads, log, backend
    {
      State(pending, bootQueue, loaded, booted, log.Record(), installed, payloads.trees, backend.resident, backend.live)
    }

    /** A catalog over what an earlier run left, and an empty backend. */
    constructor (installed: seq<Generation>, trees: map<Generation, set<string>>, record: Log)
      ensures CatalogState.Fresh(Snapshot())
      ensures this.installed == installed && payloads.trees == trees && log.Record() == record
      ensures fresh(payloads) && fresh(log) && fresh(backend)
    {
      payloads := new PayloadStore(trees);
      log := new ActivationLog(record);
      backend := new Backend();
      this.installed := installed;
      pending, bootQueue, loaded, booted := None, [], None, false;
    }

    method PopCandidate()
      modifies this
      ensures Snapshot() == Popped(old(Snapshot()))
    {
      if bootQueue == [] {
        pending := None;
      } else {
        pending := Some(bootQueue[|bootQueue| - 1]);
        bootQueue := bootQueue[..|bootQueue| - 1];
      }
    }

    /** Seeds the first activation from disk, once. */
    method BootOnce(w: World)
      modifies this
      ensures Snapshot() == CatalogState.BootOnce(old(Snapshot()), w)
    {
      if booted {
        return;
      }
      booted := true;
      var generations := SortByAge(if w.readable then installed else [], w);
      if log.active.Some? && log.active.value in generations {
        var position := Position(generations, log.active.value);
        var recorded := generations[position];
        generations := generations[..position] + generations[position + 1..];
        generations := generations + [recorded];
      }
      bootQueue := generations;
      PopCandidate();
    }

    /** Puts a working set back after `refused` did not activate. */
    method Recover(refused: Generation, w: World)
      modifies this, payloads, log, backend
      ensures Snapshot() == CatalogState.Recover(old(Snapshot()), refused, w)
    {
      hide Ensured, TreesAfter, LoadedFrom, PlaybackCount, AllLoad, Libraries, Push;
      if loaded.None? {
        var _, _ := backend.SwapPlugins([], w);
        PopCandidate();
        return;
      }
      var previous := loaded.value;
      var reloaded := false;
      if w.readable && previous in installed {
        var libraries := payloads.Ensure(installed, previous, w);
        if libraries.Some? {
          var count, errors := backend.SwapPlugins(libraries.value, w);
          reloaded := errors == 0 && count == |previous.artifacts|;
        }
      }
      if reloaded {
        log.Note(FellBack, refused);
      } else {
        log.Note(ProbeFailed, previous);
        var _, _ := backend.SwapPlugins([], w);
        loaded := None;
      }
    }

    /** Collects what the activation of `activated` retired. */
    method CleanUp(activated: Generation, w: World)
      modifies this, payloads
      ensures Snapshot() == CatalogState.CleanUp(old(Snapshot()), activated, w)
    {
      var live := {activated};
      if log.previous.Some? {
        live := live + {log.previous.value};
      }
      assert live == {activated} + if log.previous.Some? then {log.previous.value} else {};
      installed := Kept(installed, live + w.spared);
      payloads.Retain(live, w.leftTrees);
    }

    /** Loads the pending generation into the backend, all or nothing. */
    method Activate(w: World)
      modifies this, payloads, log, backend
      ensures Snapshot() == CatalogState.Activate(old(Snapshot()), w)
    {
      hide Ensured, TreesAfter, LoadedFrom, PlaybackCount, AllLoad, Libraries, Push, CatalogState.Recover, CatalogState.CleanUp;
      if pending.None? {
        return;
      }
      var generation := pending.value;
      pending := None;
      if loaded == Some(generation) {
        bootQueue := [];
        return;
      }
      var libraries := payloads.Ensure(installed, generation, w);
      if libraries.None? {
        log.Note(ExtractFailed, generation);
        Recover(generation, w);
        return;
      }
      var count, errors := backend.SwapPlugins(libraries.value, w);
      if errors == 0 && count == |generation.artifacts| {
        loaded := Some(generation);
        log.Activated(generation);
        bootQueue := [];
        CleanUp(generation, w);
      } else {
        log.Note(ProbeFailed, generation);
        Recover(generation, w);
      }
    }

    /** One pump of the audio worker's loop. */
    method Tick(w: World, completed: Option<Generation>)
      modifies this, payloads, log, backend
      ensures Snapshot() == CatalogState.Tick(old(Snapshot()), w, completed)
    {
      hide CatalogState.Activate, CatalogState.BootOnce;
      BootOnce(w);
      if completed.Some? {
        pending := completed;
      }
      if pending.Some? && !backend.live {
        Activate(w);
      }
    }

    /** Replaces the session with another song, activating what waits at this boundary first. */
    method Mount(w: World, opens: bool)
      modifies this, payloads, log, backend
      ensures Snapshot() == CatalogState.Mount(old(Snapshot()), w, opens)
    {
      hide CatalogState.Activate, CatalogState.BootOnce;
      BootOnce(w);
      if pending.Some? {
        backend.live := false;
        Activate(w);
      }
      backend.live := opens && backend.resident != [];
    }
  }

  /** A stable insertion sort by modification time. */
  method SortByAge(gs: seq<Generation>, w: World) returns (sorted: seq<Generation>)
    ensures sorted == ByAge(gs, w)
  {
    sorted := [];
    for k := 0 to |gs|
      invariant sorted == ByAge(gs[..k], w)
    {
      assert gs[..k + 1][..k] == gs[..k];
      var i := InsertAt(sorted, gs[k], w);
      sorted := sorted[..i] + [gs[k]] + sorted[i..];
    }
    assert gs[..|gs|] == gs;
  }
}
