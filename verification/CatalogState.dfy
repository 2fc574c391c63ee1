/**
 A plugin catalog as a value: which generation's plugins are resident, which one waits for a
 mount/stop boundary, and what the activation record and the disk hold.

 A generation's id is the digest of its manifest, so the id stands for the generation itself.
 What extraction and loading answer, and what the host's disk says, comes in with every call.
 */
module CatalogState {
  import opened Wrappers

  datatype Generation = Generation(source: string, artifacts: seq<string>)

  /** One plugin library: an artifact's, inside a generation's extracted tree. */
  datatype Library = Library(generation: Generation, artifact: string)

  datatype Load = Loaded(playback: nat) | Rejected

  /** What one call finds: every answer the catalog asks the outside for. */
  datatype World = World(
    readable: bool,                                      // the install root can be listed
    modified: Generation -> int,                         // when a generation's directory last changed
    extract: Generation -> Option<set<string>>,          // the libraries its archives hold, if they extract
    load: Library -> Load,                               // what loading one library comes to
    spared: set<Generation>,                             // generations retention could not remove
    leftTrees: set<Generation>)                          // trees it could not remove

  datatype EventKind = Activated | FellBack | ProbeFailed | ExtractFailed

  datatype Event = Event(what: EventKind, generation: Generation)

  const HISTORY_CAP: nat := 64

  datatype Log = Log(active: Option<Generation>, previous: Option<Generation>, history: seq<Event>)

  datatype State = State(
    pending: Option<Generation>,
    bootQueue: seq<Generation>,
    loaded: Option<Generation>,
    booted: bool,
    log: Log,
    installed: seq<Generation>,
    trees: map<Generation, set<string>>,
    resident: seq<Library>,
    live: bool)

  // ----- the activation record -----

  function Push(log: Log, e: Event): Log {
    var history := log.history + [e];
    log.(history := if |history| > HISTORY_CAP then history[|history| - HISTORY_CAP..] else history)
  }

  function LogActivated(log: Log, g: Generation): Log {
    Push(if log.active == Some(g) then log else log.(active := Some(g), previous := log.active), Event(Activated, g))
  }

  // ----- payload trees -----

  predicate PlainChar(c: char) {
    'a' <= c <= 'z' || 'A' <= c <= 'Z' || '0' <= c <= '9' || c == '-' || c == '_'
  }

  predicate PlainName(name: string) { name != "" && forall c <- name :: PlainChar(c) }

  function Libraries(g: Generation): seq<Library> {
    seq(|g.artifacts|, i requires 0 <= i < |g.artifacts| => Library(g, g.artifacts[i]))
  }

  /** A tree that is there is trusted; one that is not is extracted whole, from archives still installed. */
  function TreesAfter(trees: map<Generation, set<string>>, installed: seq<Generation>, g: Generation, w: World)
    : map<Generation, set<string>>
  {
    if (exists name <- g.artifacts :: !PlainName(name)) || g in trees || g !in installed || w.extract(g).None? then trees
    else trees[g := w.extract(g).value]
  }

  /** Whether the generation's libraries can all be pointed at. */
  predicate Ensured(trees: map<Generation, set<string>>, installed: seq<Generation>, g: Generation, w: World) {
    var after := TreesAfter(trees, installed, g, w);
    (forall name <- g.artifacts :: PlainName(name)) && g in after && forall name <- g.artifacts :: name in after[g]
  }

  // ----- loading -----

  function LoadedFrom(libraries: seq<Library>, w: World): seq<Library> {
    if libraries == [] then []
    else LoadedFrom(libraries[..|libraries| - 1], w)
         + if w.load(libraries[|libraries| - 1]).Loaded? then [libraries[|libraries| - 1]] else []
  }

  function PlaybackCount(libraries: seq<Library>, w: World): nat {
    if libraries == [] then 0
    else PlaybackCount(libraries[..|libraries| - 1], w)
         + match w.load(libraries[|libraries| - 1]) case Loaded(n) => n case Rejected => 0
  }

  predicate AllLoad(libraries: seq<Library>, w: World) { forall l <- libraries :: w.load(l).Loaded? }

  /** No library rejected, and as many plugins as the generation has artifacts. */
  predicate Accepted(g: Generation, w: World) {
    AllLoad(Libraries(g), w) && PlaybackCount(Libraries(g), w) == |g.artifacts|
  }

  // ----- booting -----

  /** Where the first of them with a later time stands, or the end: equal times keep their order. */
  function InsertAt(sorted: seq<Generation>, g: Generation, w: World): (i: nat)
    ensures i <= |sorted|
  {
    if sorted == [] || w.modified(sorted[|sorted| - 1]) <= w.modified(g) then |sorted|
    else InsertAt(sorted[..|sorted| - 1], g, w)
  }

  /** Oldest first, stably. */
  function ByAge(gs: seq<Generation>, w: World): seq<Generation> {
    if gs == [] then []
    else
      var sorted := ByAge(gs[..|gs| - 1], w);
      var i := InsertAt(sorted, gs[|gs| - 1], w);
      sorted[..i] + [gs[|gs| - 1]] + sorted[i..]
  }

  function Position(gs: seq<Generation>, g: Generation): (i: nat)
    requires g in gs
    ensures i < |gs| && gs[i] == g && g !in gs[..i]
  {
    if gs[0] == g then 0 else 1 + Position(gs[1..], g)
  }

  /** Boot candidates, the one to try first last. */
  function BootQueue(s: State, w: World): seq<Generation> {
    var sorted := ByAge(if w.readable then s.installed else [], w);
    if s.log.active.Some? && s.log.active.value in sorted then
      var i := Position(sorted, s.log.active.value);
      sorted[..i] + sorted[i + 1..] + [sorted[i]]
    else sorted
  }

  /** The next candidate becomes pending, whatever was. */
  function Popped(s: State): State {
    if s.bootQueue == [] then s.(pending := None)
    else s.(pending := Some(s.bootQueue[|s.bootQueue| - 1]), bootQueue := s.bootQueue[..|s.bootQueue| - 1])
  }

  function BootOnce(s: State, w: World): State {
    if s.booted then s else Popped(s.(booted := true, bootQueue := BootQueue(s, w)))
  }

  // ----- activating -----

  function Swap(s: State, libraries: seq<Library>, w: World): State {
    s.(live := false, resident := LoadedFrom(libraries, w))
  }

  /** The generations a retention keeps: the named ones, and those it could not remove. */
  function Kept(installed: seq<Generation>, live: set<Generation>): seq<Generation> {
    if installed == [] then []
    else Kept(installed[..|installed| - 1], live)
         + if installed[|installed| - 1] in live then [installed[|installed| - 1]] else []
  }

  function CleanUp(s: State, g: Generation, w: World): State {
    var live := {g} + if s.log.previous.Some? then {s.log.previous.value} else {};
    s.(installed := Kept(s.installed, live + w.spared),
       trees := map t | t in s.trees && t in live + w.leftTrees :: s.trees[t])
  }

  /** Puts a working set back after `refused` did not activate. */
  function Recover(s: State, refused: Generation, w: World): State {
    if s.loaded.None? then Popped(Swap(s, [], w))
    else
      var previous := s.loaded.value;
      var found := w.readable && previous in s.installed;
      var s1 := if found then s.(trees := TreesAfter(s.trees, s.installed, previous, w)) else s;
      var ensured := found && Ensured(s.trees, s.installed, previous, w);
      var s2 := if ensured then Swap(s1, Libraries(previous), w) else s1;
      if ensured && Accepted(previous, w) then s2.(log := Push(s2.log, Event(FellBack, refused)))
      else Swap(s2.(log := Push(s2.log, Event(ProbeFailed, previous)), loaded := None), [], w)
  }

  function Activate(s0: State, w: World): State {
    if s0.pending.None? then s0
    else
      var g := s0.pending.value;
      var s := s0.(pending := None);
      if s.loaded == Some(g) then s.(bootQueue := [])
      else
        var s1 := s.(trees := TreesAfter(s.trees, s.installed, g, w));
        if !Ensured(s.trees, s.installed, g, w) then
          Recover(s1.(log := Push(s1.log, Event(ExtractFailed, g))), g, w)
        else
          var s2 := Swap(s1, Libraries(g), w);
          if Accepted(g, w) then
            CleanUp(s2.(loaded := Some(g), log := LogActivated(s2.log, g), bootQueue := []), g, w)
          else Recover(s2.(log := Push(s2.log, Event(ProbeFailed, g))), g, w)
  }

  /** One pump: a completion waits in the one pending place, and activates only with nothing mounted. */
  function Tick(s: State, w: World, completed: Option<Generation>): State {
    var s1 := BootOnce(s, w);
    var s2 := if completed.Some? then s1.(pending := completed) else s1;
    if s2.pending.Some? && !s2.live then Activate(s2, w) else s2
  }

  /** A mount is a boundary: what waits activates first, and the song opens, or not, on whatever set is there; never on none. */
  function Mount(s: State, w: World, opens: bool): State {
    var s1 := BootOnce(s, w);
    var s2 := if s1.pending.Some? then Activate(s1.(live := false), w) else s1;
    s2.(live := opens && s2.resident != [])
  }

  /** What else moves the state: the player closes its song, an apply installs a generation. */
  datatype Step =
    | Ticked(world: World, completed: Option<Generation>)
    | Mounted(world: World, opens: bool)
    | Closed
    | Installed(generation: Generation)

  function Next(s: State, step: Step): State {
    match step
    case Ticked(w, completed) => Tick(s, w, completed)
    case Mounted(w, opens) => Mount(s, w, opens)
    case Closed => s.(live := false)
    case Installed(g) => if g in s.installed then s else s.(installed := s.installed + [g])
  }

  function Run(s: State, steps: seq<Step>): State {
    if steps == [] then s else Next(Run(s, steps[..|steps| - 1]), steps[|steps| - 1])
  }

  /** A catalog just constructed: an empty backend, over whatever an earlier run left on disk. */
  predicate Fresh(s: State) {
    s.pending.None? && s.bootQueue == [] && s.loaded.None? && !s.booted && s.resident == [] && !s.live
  }
}
