/** What every operation of the playlist engine keeps, over all runs. */
module PlaylistInvariant {
  import opened Wrappers
  import opened PlaylistState

  predicate HasItem(items: seq<Item>, id: nat) { exists k :: 0 <= k < |items| && items[k].id == id }

  ghost predicate ItemsDistinct(items: seq<Item>) {
    forall j, k :: 0 <= j < k < |items| ==> items[j].id != items[k].id
  }

  ghost predicate ItemsWithin(items: seq<Item>, last: nat) {
    forall k :: 0 <= k < |items| ==> 1 <= items[k].id <= last
  }

  ghost predicate Apart(a: seq<Item>, b: seq<Item>) {
    forall j, k :: 0 <= j < |a| && 0 <= k < |b| ==> a[j].id != b[k].id
  }

  ghost predicate PlaylistValid(p: Playlist, lastPlaylist: nat, lastItem: nat) {
    && 1 <= p.id <= lastPlaylist
    && p.lastSavedRevision <= p.contentRevision <= MAX_U64
    && ItemsDistinct(p.items) && ItemsWithin(p.items, lastItem)
  }

  /** Ids are unique across the engine and none is above the counter that minted it. */
  ghost predicate StorageValid(s: State) {
    && s.nextPlaylistId <= MAX_U64 && s.nextItemId <= MAX_U64
    && (forall i :: 0 <= i < |s.playlists| ==> PlaylistValid(s.playlists[i], s.nextPlaylistId, s.nextItemId))
    && (forall i, j :: 0 <= i < j < |s.playlists| ==>
          s.playlists[i].id != s.playlists[j].id && Apart(s.playlists[i].items, s.playlists[j].items))
  }

  /** The cursor points into a stored playlist and knows whether its item is still there. */
  ghost predicate CursorValid(s: State) {
    s.cursor.Some? ==>
      var c := s.cursor.value;
      && s.Find(c.playlist).Some?
      && (c.current.None? ==> c.pending == Some(Start) && !c.currentRemoved)
      && (c.current.Some? ==> c.current.value <= s.nextItemId)
      && (c.current.Some? ==> (c.currentRemoved <==> s.CurrentIndex().None?))
  }

  ghost predicate Valid(s: State) { StorageValid(s) && CursorValid(s) }

  // ----- storage edits -----

  lemma FindUnique(s: State, i: nat)
    requires StorageValid(s) && i < |s.playlists|
    ensures PlaylistIndex(s.playlists, s.playlists[i].id) == Some(i)
  {
  }

  lemma ReplacedStorage(s: State, i: nat, p: Playlist, s': State)
    requires StorageValid(s) && i < |s.playlists|
    requires s'.playlists == s.playlists[i := p] && s'.nextPlaylistId == s.nextPlaylistId
    requires s.nextItemId <= s'.nextItemId <= MAX_U64
    requires p.id == s.playlists[i].id && PlaylistValid(p, s.nextPlaylistId, s'.nextItemId)
    requires forall k :: 0 <= k < |p.items| ==>
               HasItem(s.playlists[i].items, p.items[k].id) || p.items[k].id > s.nextItemId
    ensures StorageValid(s')
    ensures forall id :: s'.Find(id) == if id == p.id then Some(p) else s.Find(id)
  {
    ReplacedStorageValid(s, i, p, s');
    forall id ensures s'.Find(id) == if id == p.id then Some(p) else s.Find(id) {
      FindUnique(s, i);
      var r := PlaylistIndex(s.playlists, id);
      if id == p.id {
        FindUnique(s', i);
      } else if r.Some? {
        assert s'.playlists[r.value].id == id;
        FindUnique(s', r.value);
      }
    }
  }

  lemma ReplacedStorageValid(s: State, i: nat, p: Playlist, s': State)
    requires StorageValid(s) && i < |s.playlists|
    requires s'.playlists == s.playlists[i := p] && s'.nextPlaylistId == s.nextPlaylistId
    requires s.nextItemId <= s'.nextItemId <= MAX_U64
    requires p.id == s.playlists[i].id && PlaylistValid(p, s.nextPlaylistId, s'.nextItemId)
    requires forall k :: 0 <= k < |p.items| ==>
               HasItem(s.playlists[i].items, p.items[k].id) || p.items[k].id > s.nextItemId
    ensures StorageValid(s')
  {
  }

  lemma DroppedFind(s: State, i: nat, id: nat, j: nat)
    requires StorageValid(s) && PlaylistIndex(s.playlists, id) == Some(i) && StorageValid(s.Dropped(id))
    ensures s.Dropped(id).Find(j) == if j == id then None else s.Find(j)
  {
    hide StorageValid;
    var s' := s.Dropped(id);
    if j != id && s.Find(j).Some? {
      var r := PlaylistIndex(s.playlists, j).value;
      assert s'.playlists[if r < i then r else r - 1] == s.playlists[r];
      FindUnique(s', if r < i then r else r - 1);
    }
    if s'.Find(j).Some? {
      var r := PlaylistIndex(s'.playlists, j).value;
      assert s'.playlists[r] == s.playlists[if r < i then r else r + 1];
      FindUnique(s, if r < i then r else r + 1);
      FindUnique(s, i);
    }
  }

  lemma DroppedStorage(s: State, id: nat)
    requires StorageValid(s)
    ensures StorageValid(s.Dropped(id))
    ensures forall j :: s.Dropped(id).Find(j) == if j == id then None else s.Find(j)
  {
    match PlaylistIndex(s.playlists, id)
    case None =>
    case Some(i) =>
      forall j ensures s.Dropped(id).Find(j) == if j == id then None else s.Find(j) {
        DroppedFind(s, i, id, j);
      }
  }

  lemma GrownStorage(s: State, p: Playlist, s': State)
    requires StorageValid(s)
    requires s'.playlists == s.playlists + [p]
    requires p.id == s'.nextPlaylistId == s.nextPlaylistId + 1 <= MAX_U64
    requires s.nextItemId <= s'.nextItemId <= MAX_U64
    requires PlaylistValid(p, s'.nextPlaylistId, s'.nextItemId)
    requires forall k :: 0 <= k < |p.items| ==> p.items[k].id > s.nextItemId
    ensures StorageValid(s')
    ensures forall id :: s'.Find(id) == if id == p.id then Some(p) else s.Find(id)
  {
    forall i | 0 <= i < |s.playlists| ensures Apart(s.playlists[i].items, p.items) {
      assert ItemsWithin(s.playlists[i].items, s.nextItemId);
    }
    forall id ensures s'.Find(id) == if id == p.id then Some(p) else s.Find(id) {
      var r, r' := PlaylistIndex(s.playlists, id), PlaylistIndex(s'.playlists, id);
      assert s'.playlists[|s.playlists|] == p;
      if id == p.id {
        FindUnique(s', |s.playlists|);
      } else if r.Some? {
        assert s'.playlists[r.value] == s.playlists[r.value];
        FindUnique(s', r.value);
      }
    }
  }

  // ----- items -----

  lemma IndexUnique(items: seq<Item>, k: nat)
    requires ItemsDistinct(items) && k < |items|
    ensures ItemIndex(items, items[k].id) == Some(k)
  {
  }

  lemma HasItemIndex(items: seq<Item>, id: nat)
    ensures HasItem(items, id) <==> ItemIndex(items, id).Some?
  {
    if ItemIndex(items, id).Some? { assert items[ItemIndex(items, id).value].id == id; }
  }

  /** Taking one item out leaves every other one, in order. */
  lemma WithoutItem(items: seq<Item>, k: nat)
    requires ItemsDistinct(items) && k < |items|
    ensures ItemsDistinct(Without(items, k))
    ensures forall id :: HasItem(Without(items, k), id) <==> HasItem(items, id) && id != items[k].id
  {
    var rest := Without(items, k);
    forall id | HasItem(rest, id) ensures HasItem(items, id) && id != items[k].id {
      var j :| 0 <= j < |rest| && rest[j].id == id;
      assert rest[j] == items[if j < k then j else j + 1];
    }
    forall id | HasItem(items, id) && id != items[k].id ensures HasItem(rest, id) {
      var j :| 0 <= j < |items| && items[j].id == id;
      assert rest[if j < k then j else j - 1] == items[j];
    }
  }

  lemma InsertedItem(items: seq<Item>, k: nat, x: Item)
    requires ItemsDistinct(items) && k <= |items| && !HasItem(items, x.id)
    ensures ItemsDistinct(Inserted(items, k, x))
    ensures forall id :: HasItem(Inserted(items, k, x), id) <==> HasItem(items, id) || id == x.id
  {
    var all := Inserted(items, k, x);
    forall id | HasItem(all, id) ensures HasItem(items, id) || id == x.id {
      var j :| 0 <= j < |all| && all[j].id == id;
      assert j != k ==> all[j] == items[if j < k then j else j - 1];
    }
    forall id | HasItem(items, id) || id == x.id ensures HasItem(all, id) {
      if id == x.id {
        assert all[k] == x;
      } else {
        var j :| 0 <= j < |items| && items[j].id == id;
        assert all[if j < k then j else j + 1] == items[j];
      }
    }
  }

  /**
   A move keeps every other item in its place relative to the rest, and puts the moved one
   first or right behind `after`.
   */
  lemma MovePlacement(items: seq<Item>, item: nat, after: Option<nat>)
    requires Destination(items, item, after).Some?
    ensures var from := ItemIndex(items, item).value;
            var to := Destination(items, item, after).value;
            to < |items| &&
            var moved := Inserted(Without(items, from), to, items[from]);
            && |moved| == |items| && moved[to] == items[from] && items[from].id == item
            && Without(moved, to) == Without(items, from)
            && (after.None? ==> to == 0)
            && (after.Some? ==> to > 0 && moved[to - 1].id == after.value)
  {
    hide Without, Inserted;
    var from := ItemIndex(items, item).value;
    var to := Destination(items, item, after).value;
    PutBack(items, from, to);
    if after.Some? {
      var at := ItemIndex(items, after.value).value;
      assert at != from && to == (if from < at then at else at + 1);
      PutAfter(items, from, to, at);
    }
  }

  lemma PutAfter<T>(s: seq<T>, from: nat, to: nat, at: nat)
    requires from < |s| && at < |s| && at != from && to == (if from < at then at else at + 1)
    ensures Inserted(Without(s, from), to, s[from])[to - 1] == s[at]
  {
  }

  /** Taking one element out and putting it back at `to` moves no other past another. */
  lemma PutBack<T>(s: seq<T>, from: nat, to: nat)
    requires from < |s| && to < |s|
    ensures |Without(s, from)| == |s| - 1
    ensures forall k :: 0 <= k < |s| - 1 ==> Without(s, from)[k] == if k < from then s[k] else s[k + 1]
    ensures var moved := Inserted(Without(s, from), to, s[from]);
            |moved| == |s| && moved[to] == s[from] && Without(moved, to) == Without(s, from)
  {
  }

  /** A move is refused exactly when the item or `after` is unknown, they are the same, or the item is there. */
  lemma MoveRefused(items: seq<Item>, item: nat, after: Option<nat>)
    requires ItemsDistinct(items)
    ensures Destination(items, item, after).None? <==>
              || after == Some(item) || !HasItem(items, item)
              || (after.Some? && !HasItem(items, after.value))
              || (after.None? && items[0].id == item)
              || (after.Some? && exists k :: 0 < k < |items| && items[k].id == item && items[k - 1].id == after.value)
  {
  }

  /** Distinct ids up to `last` leave room for no more than `last` items. */
  lemma {:induction false} ItemsBounded(items: seq<Item>, last: nat)
    requires ItemsDistinct(items) && ItemsWithin(items, last)
    ensures |items| <= last
    decreases last
  {
    if items == [] {
      return;
    }
    assert 1 <= items[0].id <= last;
    if HasItem(items, last) {
      var k :| 0 <= k < |items| && items[k].id == last;
      var rest := Without(items, k);
      WithoutItem(items, k);
      forall j | 0 <= j < |rest| ensures 1 <= rest[j].id <= last - 1 {
        assert HasItem(rest, rest[j].id);
      }
      ItemsBounded(rest, last - 1);
    } else {
      forall j | 0 <= j < |items| ensures 1 <= items[j].id <= last - 1 {
        assert HasItem(items, items[j].id);
      }
      ItemsBounded(items, last - 1);
    }
  }

  lemma FoundItems(s: State, id: nat)
    requires StorageValid(s) && s.Find(id).Some?
    ensures PlaylistValid(s.Find(id).value, s.nextPlaylistId, s.nextItemId)
    ensures |s.Find(id).value.items| <= MAX_U64
  {
    var i := PlaylistIndex(s.playlists, id).value;
    assert PlaylistValid(s.playlists[i], s.nextPlaylistId, s.nextItemId);
    ItemsBounded(s.playlists[i].items, s.nextItemId);
  }

  // ----- preservation -----

  /** An edit of one playlist that neither drops nor renumbers the current item keeps the cursor right. */
  lemma EditKeepsValid(s: State, i: nat, p: Playlist, s': State)
    requires Valid(s) && i < |s.playlists|
    requires s'.playlists == s.playlists[i := p] && s'.nextPlaylistId == s.nextPlaylistId
    requires s.nextItemId <= s'.nextItemId <= MAX_U64 && s'.cursor == s.cursor
    requires p.id == s.playlists[i].id && PlaylistValid(p, s.nextPlaylistId, s'.nextItemId)
    requires forall k :: 0 <= k < |p.items| ==>
               HasItem(s.playlists[i].items, p.items[k].id) || p.items[k].id > s.nextItemId
    requires s.cursor.Some? && s.cursor.value.current.Some? && s.cursor.value.playlist == p.id
             && HasItem(s.playlists[i].items, s.cursor.value.current.value)
             ==> HasItem(p.items, s.cursor.value.current.value)
    ensures Valid(s')
  {
    ReplacedStorage(s, i, p, s');
    FindUnique(s, i);
    if s.cursor.Some? && s.cursor.value.current.Some? && s.cursor.value.playlist == p.id {
      var id := s.cursor.value.current.value;
      HasItemIndex(s.playlists[i].items, id);
      HasItemIndex(p.items, id);
      assert s'.Find(p.id) == Some(p);
    }
  }

  lemma RemoveKeepsValid(s: State, id: nat, item: nat)
    requires Valid(s)
    ensures Valid(s.RemoveItem(id, item))
    ensures s.Find(id).Some? && ItemIndex(s.Find(id).value.items, item).Some? ==>
              var p := s.Find(id).value;
              var rest := Without(p.items, ItemIndex(p.items, item).value);
              && s.RemoveItem(id, item).Find(id) == Some(p.(items := rest).TouchStructure())
              && !HasItem(rest, item)
    ensures forall other :: other != id ==> s.RemoveItem(id, item).Find(other) == s.Find(other)
  {
    var at := PlaylistIndex(s.playlists, id);
    if at.Some? && ItemIndex(s.playlists[at.value].items, item).Some? {
      var i, p := at.value, s.playlists[at.value];
      var k := ItemIndex(p.items, item).value;
      var p' := p.(items := Without(p.items, k)).TouchStructure();
      var s' := s.RemoveItem(id, item);
      WithoutItem(p.items, k);
      forall j | 0 <= j < |p'.items| ensures HasItem(p.items, p'.items[j].id) && 1 <= p'.items[j].id <= s.nextItemId {
        assert HasItem(p'.items, p'.items[j].id);
      }
      ReplacedStorage(s, i, p', s');
      if s.cursor.Some? && s.cursor.value.current.Some? && s.cursor.value.playlist == id {
        HasItemIndex(p.items, s.cursor.value.current.value);
        HasItemIndex(p'.items, s.cursor.value.current.value);
      }
    }
  }

  lemma MoveKeepsValid(s: State, id: nat, item: nat, after: Option<nat>)
    requires Valid(s)
    ensures Valid(s.MoveItem(id, item, after))
  {
    var at := PlaylistIndex(s.playlists, id);
    if at.Some? && Destination(s.playlists[at.value].items, item, after).Some? {
      var p := s.playlists[at.value];
      var from := ItemIndex(p.items, item).value;
      var to := Destination(p.items, item, after).value;
      var items := Inserted(Without(p.items, from), to, p.items[from]);
      WithoutItem(p.items, from);
      InsertedItem(Without(p.items, from), to, p.items[from]);
      forall j | 0 <= j < |items| ensures HasItem(p.items, items[j].id) && 1 <= items[j].id <= s.nextItemId {
        assert HasItem(items, items[j].id);
      }
      EditKeepsValid(s, at.value, p.(items := items).TouchStructure(), s.MoveItem(id, item, after));
    }
  }

  lemma EditItemKeepsValid(s: State, id: nat, item: nat, spec: ItemSpec)
    requires Valid(s)
    ensures Valid(s.EditItem(id, item, spec))
  {
    var at := PlaylistIndex(s.playlists, id);
    if at.Some? && ItemIndex(s.playlists[at.value].items, item).Some? {
      var p := s.playlists[at.value];
      var k := ItemIndex(p.items, item).value;
      var items := p.items[k := Item(item, spec)];
      assert forall j :: 0 <= j < |items| ==> items[j].id == p.items[j].id;
      forall j | HasItem(p.items, j) ensures HasItem(items, j) {
        var l :| 0 <= l < |p.items| && p.items[l].id == j;
        assert items[l].id == j;
      }
      EditKeepsValid(s, at.value, p.(items := items).TouchStructure(), s.EditItem(id, item, spec));
    }
  }

  lemma AppendKeepsValid(s: State, id: nat, spec: ItemSpec)
    requires Valid(s)
    ensures Valid(s.Append(id, spec))
  {
    var at := PlaylistIndex(s.playlists, id);
    if at.Some? && s.nextItemId < MAX_U64 {
      var p := s.playlists[at.value];
      var items := p.items + [Item(s.nextItemId + 1, spec)];
      assert forall j :: 0 <= j < |p.items| ==> items[j] == p.items[j];
      assert ItemsWithin(p.items, s.nextItemId);
      forall j | HasItem(p.items, j) ensures HasItem(items, j) {
        var l :| 0 <= l < |p.items| && p.items[l].id == j;
        assert items[l].id == j;
      }
      EditKeepsValid(s, at.value, p.(items := items).TouchContent(), s.Append(id, spec));
    }
  }

  lemma GrowKeepsValid(s: State, p: Playlist, s': State)
    requires Valid(s) && s'.cursor == s.cursor
    requires s'.playlists == s.playlists + [p]
    requires p.id == s'.nextPlaylistId == s.nextPlaylistId + 1 <= MAX_U64
    requires s.nextItemId <= s'.nextItemId <= MAX_U64
    requires PlaylistValid(p, s'.nextPlaylistId, s'.nextItemId)
    requires forall k :: 0 <= k < |p.items| ==> p.items[k].id > s.nextItemId
    ensures Valid(s')
  {
    GrownStorage(s, p, s');
    if s.cursor.Some? {
      var i := PlaylistIndex(s.playlists, s.cursor.value.playlist).value;
      assert s.playlists[i].id <= s.nextPlaylistId;
    }
  }

  lemma DropKeepsValid(s: State, id: nat)
    requires Valid(s)
    ensures Valid(s.Delete(id)) && Valid(s.Stop())
  {
    DroppedStorage(s, id);
    if s.cursor.Some? { DroppedStorage(s.(cursor := None), s.cursor.value.playlist); }
  }

  lemma TouchKeepsValid(s: State, i: nat, p: Playlist, s': State)
    requires Valid(s) && i < |s.playlists|
    requires s'.playlists == s.playlists[i := p] && s'.cursor == s.cursor
    requires s'.nextPlaylistId == s.nextPlaylistId && s'.nextItemId == s.nextItemId
    requires p.id == s.playlists[i].id && p.items == s.playlists[i].items
    requires p.lastSavedRevision <= p.contentRevision <= MAX_U64
    ensures Valid(s')
  {
    forall k | 0 <= k < |p.items| ensures HasItem(s.playlists[i].items, p.items[k].id) {
      assert s.playlists[i].items[k].id == p.items[k].id;
    }
    EditKeepsValid(s, i, p, s');
  }

  lemma StartKeepsValid(s: State, id: nat, from: Option<nat>)
    requires Valid(s)
    ensures Valid(s.StartAt(id, from))
  {
    DropKeepsValid(s, id);
  }

  lemma PollKeepsValid(s: State)
    requires Valid(s)
    ensures Valid(s.Poll().0)
  {
    DropKeepsValid(s, 0);
    if s.Poll().1.Playing? {
      var i := PlaylistIndex(s.playlists, s.cursor.value.playlist).value;
      var at := s.TargetPosition(s.cursor.value.pending.value).value;
      IndexUnique(s.playlists[i].items, at);
      assert ItemsWithin(s.playlists[i].items, s.nextItemId);
    }
  }

  lemma OutcomeKeepsValid(s: State)
    requires Valid(s)
    ensures Valid(s.Finished()) && Valid(s.Failed()) && Valid(s.Previous())
  {
    if s.Awaiting() {
      FailureKeepsValid(s);
    }
  }

  lemma FailureKeepsValid(s: State)
    requires Valid(s) && s.Awaiting()
    ensures Valid(s.Failed())
  {
    var counted := s.(cursor := Some(s.cursor.value.(failures := Bump(s.cursor.value.failures))));
    assert Valid(counted);
    DropKeepsValid(counted, 0);
  }

  lemma GrowOpKeepsValid(s: State, op: Op)
    requires Valid(s) && (op.OpCreate? || op.OpLoad?)
    ensures Valid(Step(s, op))
  {
    match op
    case OpCreate(name) =>
      if s.nextPlaylistId < MAX_U64 {
        GrowKeepsValid(s, Playlist(s.nextPlaylistId + 1, name, [], 0, 0, 0), Step(s, op));
      }
    case OpLoad(d) =>
      if Step(s, op) != s {
        GrowKeepsValid(s, Playlist(s.nextPlaylistId + 1, d.name, Numbered(d.items, s.nextItemId), 0, 0, 0), Step(s, op));
      }
  }

  lemma TouchOpKeepsValid(s: State, op: Op)
    requires Valid(s) && (op.OpRename? || op.OpTouchPreservingDirty? || op.OpMarkRevisionSaved?)
    ensures Valid(Step(s, op))
  {
    match op
    case OpRename(id, name) =>
      var at := PlaylistIndex(s.playlists, id);
      if at.Some? && s.playlists[at.value].name != name {
        TouchKeepsValid(s, at.value, s.playlists[at.value].(name := name).TouchStructure(), Step(s, op));
      }
    case OpTouchPreservingDirty(id) =>
      var at := PlaylistIndex(s.playlists, id);
      if at.Some? {
        TouchKeepsValid(s, at.value, s.playlists[at.value].TouchStructurePreservingDirty(), Step(s, op));
      }
    case OpMarkRevisionSaved(id, saved) =>
      var at := PlaylistIndex(s.playlists, id);
      if at.Some? && saved <= s.playlists[at.value].contentRevision {
        TouchKeepsValid(s, at.value, s.playlists[at.value].Acknowledge(saved), Step(s, op));
      }
  }

  /** Every operation keeps ids unique and bounded, and the cursor consistent with what it points at. */
  lemma StepKeepsValid(s: State, op: Op)
    requires Valid(s)
    ensures Valid(Step(s, op))
  {
    match op
    case OpCreate(_) => GrowOpKeepsValid(s, op);
    case OpLoad(_) => GrowOpKeepsValid(s, op);
    case OpDelete(id) => DropKeepsValid(s, id);
    case OpRename(_, _) => TouchOpKeepsValid(s, op);
    case OpTouchPreservingDirty(_) => TouchOpKeepsValid(s, op);
    case OpMarkRevisionSaved(_, _) => TouchOpKeepsValid(s, op);
    case OpAppend(id, spec) => AppendKeepsValid(s, id, spec);
    case OpEdit(id, item, spec) => EditItemKeepsValid(s, id, item, spec);
    case OpRemove(id, item) => RemoveKeepsValid(s, id, item);
    case OpMove(id, item, after) => MoveKeepsValid(s, id, item, after);
    case OpStart(id, from) => StartKeepsValid(s, id, from);
    case OpStop => DropKeepsValid(s, 0);
    case OpSetMode(mode) =>
    case OpPoll => PollKeepsValid(s);
    case OpFinished => OutcomeKeepsValid(s);
    case OpFailed => OutcomeKeepsValid(s);
    case OpNext => OutcomeKeepsValid(s);
    case OpPrevious => OutcomeKeepsValid(s);
  }

  lemma {:induction false} RunKeepsValid(s: State, ops: seq<Op>)
    requires Valid(s)
    ensures Valid(Run(s, ops))
    decreases |ops|
  {
    if ops != [] {
      StepKeepsValid(s, ops[0]);
      RunKeepsValid(Step(s, ops[0]), ops[1..]);
    }
  }

  lemma EmptyIsValid()
    ensures Valid(EMPTY)
  {
  }
}
