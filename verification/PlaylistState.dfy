/**
 The playlist engine's state as a value, and what each operation makes of it.

 `State` is the abstract view of the engine class: one function per mutator, plus
 the position queries the cursor is driven by. Ids and revisions are 64 bit: minting
 an id is checked, bumping a revision saturates.
 */
module PlaylistState {
  import opened Wrappers

  const MAX_U64: nat := 0xFFFF_FFFF_FFFF_FFFF

  /** The caller-owned fields of an item. */
  datatype ItemSpec = ItemSpec(identity: string, subsong: nat, title: string, artist: string,
                               durationMs: nat, payload: string)

  datatype Item = Item(id: nat, spec: ItemSpec)

  datatype Playlist = Playlist(id: nat, name: Option<string>, items: seq<Item>,
                               contentRevision: nat, structureRevision: nat, lastSavedRevision: nat)
  {
    predicate IsDirty() { contentRevision != lastSavedRevision }

    function TouchContent(): Playlist {
      this.(contentRevision := Bump(contentRevision))
    }

    function TouchStructure(): Playlist {
      TouchContent().(structureRevision := Bump(structureRevision))
    }

    /** A structure change that a clean playlist absorbs without becoming dirty. */
    function TouchStructurePreservingDirty(): Playlist {
      var touched := TouchStructure();
      if IsDirty() then touched else touched.(lastSavedRevision := touched.contentRevision)
    }

    function Acknowledge(revision: nat): Playlist {
      this.(lastSavedRevision := if lastSavedRevision < revision then revision else lastSavedRevision)
    }
  }

  datatype Mode = Sequential | Loop

  datatype Advance = Start | Forward | Backward

  datatype Cursor = Cursor(playlist: nat, current: Option<nat>, position: nat,
                           pending: Option<Advance>, failures: nat, currentRemoved: bool)

  /** What a poll came to. `Panicked` is the slice index going out of range. */
  datatype Polled = Nothing | Playing(item: Item) | Panicked

  /** A saved playlist: no engine ids and no revisions. */
  datatype Document = Document(name: Option<string>, items: seq<ItemSpec>)

  function Bump(revision: nat): nat {
    if revision < MAX_U64 then revision + 1 else MAX_U64
  }

  function PlaylistIndex(playlists: seq<Playlist>, id: nat): (r: Option<nat>)
    ensures r.Some? ==> r.value < |playlists| && playlists[r.value].id == id
    ensures r.Some? ==> forall j :: 0 <= j < r.value ==> playlists[j].id != id
    ensures r.None? ==> forall j :: 0 <= j < |playlists| ==> playlists[j].id != id
  {
    if playlists == [] then None
    else if playlists[0].id == id then Some(0)
    else match PlaylistIndex(playlists[1..], id)
         case None => assert forall j :: 1 <= j < |playlists| ==> playlists[j] == playlists[1..][j - 1]; None
         case Some(i) => assert forall j :: 1 <= j <= i ==> playlists[j] == playlists[1..][j - 1]; Some(i + 1)
  }

  function ItemIndex(items: seq<Item>, id: nat): (r: Option<nat>)
    ensures r.Some? ==> r.value < |items| && items[r.value].id == id
    ensures r.Some? ==> forall j :: 0 <= j < r.value ==> items[j].id != id
    ensures r.None? ==> forall j :: 0 <= j < |items| ==> items[j].id != id
  {
    if items == [] then None
    else if items[0].id == id then Some(0)
    else match ItemIndex(items[1..], id)
         case None => assert forall j :: 1 <= j < |items| ==> items[j] == items[1..][j - 1]; None
         case Some(i) => assert forall j :: 1 <= j <= i ==> items[j] == items[1..][j - 1]; Some(i + 1)
  }

  function Without<T>(s: seq<T>, i: nat): seq<T>
    requires i < |s|
  {
    s[..i] + s[i + 1..]
  }

  function Inserted<T>(s: seq<T>, i: nat, x: T): seq<T>
    requires i <= |s|
  {
    s[..i] + [x] + s[i..]
  }

  /** The items a document loads as, numbered after `lastId`. */
  function Numbered(specs: seq<ItemSpec>, lastId: nat): (items: seq<Item>)
    ensures |items| == |specs|
    ensures forall k :: 0 <= k < |items| ==> items[k] == Item(lastId + 1 + k, specs[k])
  {
    seq(|specs|, k requires 0 <= k < |specs| => Item(lastId + 1 + k, specs[k]))
  }

  function DocumentOf(p: Playlist): (d: Document)
    ensures d.name == p.name && |d.items| == |p.items|
    ensures forall k :: 0 <= k < |p.items| ==> d.items[k] == p.items[k].spec
  {
    Document(p.name, seq(|p.items|, k requires 0 <= k < |p.items| => p.items[k].spec))
  }

  /** Where a move takes the item at `from`, or `None` when it stays. */
  function Destination(items: seq<Item>, item: nat, after: Option<nat>): Option<nat> {
    if after == Some(item) || ItemIndex(items, item).None? then None
    else if after.Some? && ItemIndex(items, after.value).None? then None
    else
      var from := ItemIndex(items, item).value;
      var slot := if after.None? then 0 else ItemIndex(items, after.value).value + 1;
      var to := if from < slot then slot - 1 else slot;
      if to == from then None else Some(to)
  }

  datatype State = State(playlists: seq<Playlist>, nextPlaylistId: nat, nextItemId: nat,
                         revision: nat, cursor: Option<Cursor>, mode: Mode)
  {
    // ----- queries -----

    function Find(id: nat): Option<Playlist> {
      match PlaylistIndex(playlists, id)
      case None => None
      case Some(i) => Some(playlists[i])
    }

    /** Where the current item stands in its playlist, if it is still there. */
    function CurrentIndex(): Option<nat> {
      if cursor.None? || cursor.value.current.None? || Find(cursor.value.playlist).None? then None
      else ItemIndex(Find(cursor.value.playlist).value.items, cursor.value.current.value)
    }

    function ForwardPosition(): Option<nat> {
      if cursor.None? || Find(cursor.value.playlist).None? then None
      else
        var items := Find(cursor.value.playlist).value.items;
        var next := if CurrentIndex().Some? then CurrentIndex().value + 1 else cursor.value.position;
        if items == [] then None
        else if next < |items| then Some(next)
        else if mode == Loop then Some(0)
        else None
    }

    function PreviousPosition(): Option<nat> {
      if cursor.None? || Find(cursor.value.playlist).None? then None
      else
        var at := if CurrentIndex().Some? then CurrentIndex().value else cursor.value.position;
        if at == 0 then None else Some(at - 1)
    }

    function TargetPosition(advance: Advance): Option<nat> {
      if cursor.None? || Find(cursor.value.playlist).None? then None
      else match advance
           case Start =>
             if cursor.value.position < |Find(cursor.value.playlist).value.items|
             then Some(cursor.value.position) else None
           case Forward => ForwardPosition()
           case Backward => PreviousPosition()
    }

    function PeekNext(): Option<Item> {
      if ForwardPosition().None? then None
      else
        var items := Find(cursor.value.playlist).value.items;
        if ForwardPosition().value < |items| then Some(items[ForwardPosition().value]) else None
    }

    // ----- storage -----

    /** The state with playlist `i` replaced and the engine's own revision bumped. */
    function Updated(i: nat, p: Playlist): State
      requires i < |playlists|
    {
      this.(playlists := playlists[i := p], revision := Bump(revision))
    }

    function Create(name: Option<string>): State {
      if nextPlaylistId >= MAX_U64 then this
      else this.(playlists := playlists + [Playlist(nextPlaylistId + 1, name, [], 0, 0, 0)],
                 nextPlaylistId := nextPlaylistId + 1, revision := Bump(revision))
    }

    function Load(d: Document): State {
      if nextPlaylistId >= MAX_U64 || nextItemId + |d.items| > MAX_U64 then this
      else this.(playlists := playlists
                              + [Playlist(nextPlaylistId + 1, d.name, Numbered(d.items, nextItemId), 0, 0, 0)],
                 nextPlaylistId := nextPlaylistId + 1, nextItemId := nextItemId + |d.items|,
                 revision := Bump(revision))
    }

    function Dropped(id: nat): State {
      match PlaylistIndex(playlists, id)
      case None => this
      case Some(i) => this.(playlists := Without(playlists, i), revision := Bump(revision))
    }

    function Delete(id: nat): State {
      if Find(id).None? then this
      else if cursor.Some? && cursor.value.playlist == id then Dropped(id).(cursor := None)
      else Dropped(id)
    }

    function Rename(id: nat, name: Option<string>): State {
      match PlaylistIndex(playlists, id)
      case None => this
      case Some(i) =>
        if playlists[i].name == name then this
        else Updated(i, playlists[i].(name := name).TouchStructure())
    }

    function TouchPreservingDirty(id: nat): State {
      match PlaylistIndex(playlists, id)
      case None => this
      case Some(i) => Updated(i, playlists[i].TouchStructurePreservingDirty())
    }

    function Append(id: nat, spec: ItemSpec): State {
      match PlaylistIndex(playlists, id)
      case None => this
      case Some(i) =>
        if nextItemId >= MAX_U64 then this
        else
          var p := playlists[i];
          Updated(i, p.(items := p.items + [Item(nextItemId + 1, spec)]).TouchContent())
          .(nextItemId := nextItemId + 1)
    }

    function EditItem(id: nat, item: nat, spec: ItemSpec): State {
      match PlaylistIndex(playlists, id)
      case None => this
      case Some(i) =>
        var p := playlists[i];
        match ItemIndex(p.items, item)
        case None => this
        case Some(k) => Updated(i, p.(items := p.items[k := Item(item, spec)]).TouchStructure())
    }

    function RemoveItem(id: nat, item: nat): State {
      match PlaylistIndex(playlists, id)
      case None => this
      case Some(i) =>
        var p := playlists[i];
        match ItemIndex(p.items, item)
        case None => this
        case Some(k) =>
          var cursor' :=
            if cursor.Some? && cursor.value.playlist == id && cursor.value.current == Some(item)
            then Some(cursor.value.(position := k, failures := 0, currentRemoved := true))
            else cursor;
          Updated(i, p.(items := Without(p.items, k)).TouchStructure()).(cursor := cursor')
    }

    function MoveItem(id: nat, item: nat, after: Option<nat>): State {
      match PlaylistIndex(playlists, id)
      case None => this
      case Some(i) =>
        var p := playlists[i];
        match Destination(p.items, item, after)
        case None => this
        case Some(to) =>
          var from := ItemIndex(p.items, item).value;
          Updated(i, p.(items := Inserted(Without(p.items, from), to, p.items[from])).TouchStructure())
    }

    function MarkRevisionSaved(id: nat, saved: nat): State {
      match PlaylistIndex(playlists, id)
      case None => this
      case Some(i) =>
        if saved > playlists[i].contentRevision then this
        else this.(playlists := playlists[i := playlists[i].Acknowledge(saved)])
    }

    // ----- playback -----

    function Stop(): State {
      if cursor.None? then this
      else
        var id := cursor.value.playlist;
        var stopped := this.(cursor := None);
        if Find(id).Some? && Find(id).value.name.None? then stopped.Dropped(id) else stopped
    }

    function StartAt(id: nat, from: Option<nat>): State {
      var s := Stop();
      if s.Find(id).None? || s.Find(id).value.items == [] then s
      else
        var items := s.Find(id).value.items;
        if from.Some? && ItemIndex(items, from.value).None? then s
        else
          var position := if from.Some? then ItemIndex(items, from.value).value else 0;
          s.(mode := Sequential, cursor := Some(Cursor(id, None, position, Some(Start), 0, false)))
    }

    function Poll(): (State, Polled) {
      if cursor.None? || cursor.value.pending.None? then (this, Nothing)
      else match TargetPosition(cursor.value.pending.value)
           case None => (Stop(), Nothing)
           case Some(at) =>
             var items := Find(cursor.value.playlist).value.items;
             if at >= |items| then (this, Panicked)
             else (this.(cursor := Some(cursor.value.(pending := None, current := Some(items[at].id),
                                                      position := at, currentRemoved := false))),
                   Playing(items[at]))
    }

    predicate Awaiting() {
      cursor.Some? && cursor.value.current.Some? && cursor.value.pending.None?
    }

    /** The cursor told to go forward with its failure count cleared. */
    function Advanced(): State
      requires cursor.Some?
    {
      this.(cursor := Some(cursor.value.(failures := 0, pending := Some(Forward))))
    }

    function Finished(): State {
      if Awaiting() then Advanced() else this
    }

    function Failed(): State {
      if !Awaiting() then this
      else if cursor.value.currentRemoved then Advanced()
      else
        var failures := Bump(cursor.value.failures);
        var counted := this.(cursor := Some(cursor.value.(failures := failures)));
        var size := if Find(cursor.value.playlist).Some? then |Find(cursor.value.playlist).value.items| else 0;
        if mode == Loop && failures >= size then counted.Stop()
        else counted.(cursor := Some(counted.cursor.value.(pending := Some(Forward))))
    }

    function Previous(): State {
      if PreviousPosition().None? || cursor.value.pending.Some? then this
      else this.(cursor := Some(cursor.value.(failures := 0, pending := Some(Backward))))
    }
  }

  const EMPTY := State([], 0, 0, 0, None, Sequential)

  /** Everything a caller can do to an engine. */
  datatype Op =
    | OpCreate(name: Option<string>)
    | OpLoad(document: Document)
    | OpDelete(id: nat)
    | OpRename(id: nat, name: Option<string>)
    | OpTouchPreservingDirty(id: nat)
    | OpAppend(id: nat, spec: ItemSpec)
    | OpEdit(id: nat, item: nat, spec: ItemSpec)
    | OpRemove(id: nat, item: nat)
    | OpMove(id: nat, item: nat, after: Option<nat>)
    | OpMarkRevisionSaved(id: nat, saved: nat)
    | OpStart(id: nat, from: Option<nat>)
    | OpStop
    | OpSetMode(mode: Mode)
    | OpPoll
    | OpFinished
    | OpFailed
    | OpNext
    | OpPrevious

  function Step(s: State, op: Op): State {
    match op
    case OpCreate(name) => s.Create(name)
    case OpLoad(d) => s.Load(d)
    case OpDelete(id) => s.Delete(id)
    case OpRename(id, name) => s.Rename(id, name)
    case OpTouchPreservingDirty(id) => s.TouchPreservingDirty(id)
    case OpAppend(id, spec) => s.Append(id, spec)
    case OpEdit(id, item, spec) => s.EditItem(id, item, spec)
    case OpRemove(id, item) => s.RemoveItem(id, item)
    case OpMove(id, item, after) => s.MoveItem(id, item, after)
    case OpMarkRevisionSaved(id, saved) => s.MarkRevisionSaved(id, saved)
    case OpStart(id, from) => s.StartAt(id, from)
    case OpStop => s.Stop()
    case OpSetMode(mode) => s.(mode := mode)
    case OpPoll => s.Poll().0
    case OpFinished => s.Finished()
    case OpFailed => s.Failed()
    case OpNext => s.Finished()
    case OpPrevious => s.Previous()
  }

  function Run(s: State, ops: seq<Op>): State
    decreases |ops|
  {
    if ops == [] then s else Run(Step(s, ops[0]), ops[1..])
  }
}
