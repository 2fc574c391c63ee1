/** What an edit does to the playlist a caller looks up by id, and that it does nothing to any other. */
module PlaylistEdits {
  import opened Wrappers
  import opened PlaylistState
  import opened PlaylistInvariant

  /** Playlist `id` is now `p`, every other is as it was, and both of its revisions and the engine's have moved on. */
  ghost predicate Changed(s: State, s': State, id: nat, name: Option<string>, items: seq<Item>, structure: bool) {
    && s.Find(id).Some?
    && (var p := s.Find(id).value;
        s'.Find(id) == Some(Playlist(id, name, items, Bump(p.contentRevision),
                                     if structure then Bump(p.structureRevision) else p.structureRevision,
                                     p.lastSavedRevision)))
    && (forall other :: other != id ==> s'.Find(other) == s.Find(other))
    && s'.revision == Bump(s.revision) && s'.nextPlaylistId == s.nextPlaylistId && s'.mode == s.mode
  }

  lemma UpdatedFinds(s: State, i: nat, p: Playlist)
    requires Valid(s) && i < |s.playlists| && p.id == s.playlists[i].id
    ensures forall id :: s.Updated(i, p).Find(id) == if id == p.id then Some(p) else s.Find(id)
    ensures s.Find(p.id) == Some(s.playlists[i])
  {
    var s' := s.Updated(i, p);
    FindUnique(s, i);
    forall id ensures s'.Find(id) == if id == p.id then Some(p) else s.Find(id) {
      var r, r' := PlaylistIndex(s.playlists, id), PlaylistIndex(s'.playlists, id);
      assert forall k :: 0 <= k < |s.playlists| ==> s'.playlists[k].id == s.playlists[k].id;
      assert r == r';
    }
  }

  /** A new name moves the structure on; the old one again changes nothing, and neither does an unknown playlist. */
  lemma RenameRenames(s: State, id: nat, name: Option<string>)
    requires Valid(s)
    ensures s.Find(id).Some? && s.Find(id).value.name != name ==>
              Changed(s, s.Rename(id, name), id, name, s.Find(id).value.items, true) && s.Rename(id, name).cursor == s.cursor
    ensures s.Find(id).None? || s.Find(id).value.name == name ==> s.Rename(id, name) == s
  {
    if s.Find(id).Some? {
      var i := PlaylistIndex(s.playlists, id).value;
      UpdatedFinds(s, i, s.playlists[i].(name := name).TouchStructure());
    }
  }

  /** A touch moves both revisions on and leaves a clean playlist clean, a dirty one dirty, until the counter saturates. */
  lemma TouchTouches(s: State, id: nat)
    requires Valid(s) && s.Find(id).Some?
    ensures var p, s' := s.Find(id).value, s.TouchPreservingDirty(id);
            && s'.Find(id).Some? && s'.revision == Bump(s.revision) && s'.cursor == s.cursor
            && (forall other :: other != id ==> s'.Find(other) == s.Find(other))
            && (var p' := s'.Find(id).value;
                && p'.name == p.name && p'.items == p.items
                && p'.contentRevision == Bump(p.contentRevision) && p'.structureRevision == Bump(p.structureRevision)
                && (!p.IsDirty() ==> !p'.IsDirty())
                && (p.IsDirty() ==> p'.lastSavedRevision == p.lastSavedRevision && p'.IsDirty()))
  {
    var i := PlaylistIndex(s.playlists, id).value;
    assert PlaylistValid(s.playlists[i], s.nextPlaylistId, s.nextItemId);
    UpdatedFinds(s, i, s.playlists[i].TouchStructurePreservingDirty());
  }

  /** A save that is acknowledged moves that playlist's saved revision up to it, never down, and nothing else. */
  lemma SaveSaves(s: State, id: nat, saved: nat)
    requires Valid(s)
    ensures s.Find(id).None? || saved > s.Find(id).value.contentRevision ==> s.MarkRevisionSaved(id, saved) == s
    ensures s.Find(id).Some? && saved <= s.Find(id).value.contentRevision ==>
              var p, s' := s.Find(id).value, s.MarkRevisionSaved(id, saved);
              && s'.Find(id) == Some(p.(lastSavedRevision := if p.lastSavedRevision < saved then saved else p.lastSavedRevision))
              && (forall other :: other != id ==> s'.Find(other) == s.Find(other))
              && s' == s.(playlists := s'.playlists)
  {
    if s.Find(id).Some? {
      var i := PlaylistIndex(s.playlists, id).value;
      var p' := s.playlists[i].Acknowledge(saved);
      UpdatedFinds(s, i, p');
      if saved <= s.playlists[i].contentRevision { SameFind(s.MarkRevisionSaved(id, saved), s.Updated(i, p')); }
    }
  }

  /** The item goes to the end under the next id, and the structure revision stays, until ids run out. */
  lemma AppendAppends(s: State, id: nat, spec: ItemSpec)
    requires Valid(s)
    ensures s.Find(id).Some? && s.nextItemId < MAX_U64 ==>
              && Changed(s, s.Append(id, spec), id, s.Find(id).value.name,
                         s.Find(id).value.items + [Item(s.nextItemId + 1, spec)], false)
              && s.Append(id, spec).nextItemId == s.nextItemId + 1 && s.Append(id, spec).cursor == s.cursor
    ensures s.Find(id).None? || s.nextItemId == MAX_U64 ==> s.Append(id, spec) == s
  {
    if s.Find(id).Some? && s.nextItemId < MAX_U64 {
      var i := PlaylistIndex(s.playlists, id).value;
      var p := s.playlists[i];
      UpdatedFinds(s, i, p.(items := p.items + [Item(s.nextItemId + 1, spec)]).TouchContent());
      assert s.Append(id, spec).playlists == s.Updated(i, p.(items := p.items + [Item(s.nextItemId + 1, spec)]).TouchContent()).playlists;
      SameFind(s.Append(id, spec), s.Updated(i, p.(items := p.items + [Item(s.nextItemId + 1, spec)]).TouchContent()));
    }
  }

  lemma SameFind(s: State, t: State)
    requires s.playlists == t.playlists
    ensures forall id :: s.Find(id) == t.Find(id)
  {
  }

  /** The edited item has its new fields in its old place, under its old id; every other is as it was. */
  lemma EditEdits(s: State, id: nat, item: nat, spec: ItemSpec, k: nat)
    requires Valid(s) && s.Find(id).Some? && k < |s.Find(id).value.items| && s.Find(id).value.items[k].id == item
    ensures var items, s' := s.Find(id).value.items, s.EditItem(id, item, spec);
            Changed(s, s', id, s.Find(id).value.name, items[k := Item(item, spec)], true) && s'.cursor == s.cursor
  {
    var i := PlaylistIndex(s.playlists, id).value;
    var p := s.playlists[i];
    IndexUnique(p.items, k);
    UpdatedFinds(s, i, p.(items := p.items[k := Item(item, spec)]).TouchStructure());
  }

  /**
   A removal takes out that item and no other, the rest keeping their order. If it was playing, the cursor keeps
   the place it had, forgets its failures, and is told it is gone.
   */
  lemma RemoveRemoves(s: State, id: nat, item: nat, k: nat)
    requires Valid(s) && s.Find(id).Some? && k < |s.Find(id).value.items| && s.Find(id).value.items[k].id == item
    ensures var items, s' := s.Find(id).value.items, s.RemoveItem(id, item);
            && Changed(s, s', id, s.Find(id).value.name, items[..k] + items[k + 1..], true)
            && !HasItem(items[..k] + items[k + 1..], item)
            && (if s.cursor.Some? && s.cursor.value.playlist == id && s.cursor.value.current == Some(item)
                then s'.cursor == Some(s.cursor.value.(position := k, failures := 0, currentRemoved := true))
                else s'.cursor == s.cursor)
  {
    var i := PlaylistIndex(s.playlists, id).value;
    var p := s.playlists[i];
    IndexUnique(p.items, k);
    WithoutItem(p.items, k);
    var p' := p.(items := Without(p.items, k)).TouchStructure();
    UpdatedFinds(s, i, p');
    SameFind(s.RemoveItem(id, item), s.Updated(i, p'));
  }

  /** A move is refused, and nothing changes, exactly when either is unknown, they are one, or the item stands there. */
  lemma MoveRefusedExactly(s: State, id: nat, item: nat, after: Option<nat>)
    requires Valid(s)
    ensures s.MoveItem(id, item, after) == s <==>
              || s.Find(id).None?
              || var items := s.Find(id).value.items;
                 || after == Some(item) || !HasItem(items, item) || (after.Some? && !HasItem(items, after.value))
                 || Stands(items, item, after)
  {
    if s.Find(id).Some? {
      var p := s.Find(id).value;
      RefusedWhereItStands(p.items, item, after);
      if Destination(p.items, item, after).Some? {
        var from, to := MoveMoves(s, id, item, after);
        assert s.MoveItem(id, item, after).Find(id).value.items[to].id == item;
      }
    }
  }

  /** Any other move puts the item first, or right behind `after`, and takes none of the rest past another. */
  lemma MoveMoves(s: State, id: nat, item: nat, after: Option<nat>) returns (from: nat, to: nat)
    requires Valid(s) && s.Find(id).Some?
    requires var items := s.Find(id).value.items;
             && HasItem(items, item) && after != Some(item) && (after.Some? ==> HasItem(items, after.value))
             && !Stands(items, item, after)
    ensures var items, s' := s.Find(id).value.items, s.MoveItem(id, item, after);
            && from < |items| && to < |items| && from != to && items[from].id == item && s'.Find(id).Some?
            && (var items' := s'.Find(id).value.items;
                && Changed(s, s', id, s.Find(id).value.name, items', true) && s'.cursor == s.cursor
                && |items'| == |items| && items'[to] == items[from]
                && (if after.None? then to == 0 else to > 0 && items'[to - 1].id == after.value)
                && items'[..to] + items'[to + 1..] == items[..from] + items[from + 1..])
  {
    var i := PlaylistIndex(s.playlists, id).value;
    var p := s.playlists[i];
    RefusedWhereItStands(p.items, item, after);
    MovePlacement(p.items, item, after);
    from, to := ItemIndex(p.items, item).value, Destination(p.items, item, after).value;
    var p' := p.(items := Inserted(Without(p.items, from), to, p.items[from])).TouchStructure();
    UpdatedFinds(s, i, p');
    TakenOut(p.items, from);
    TakenOut(p'.items, to);
    hide Inserted, Stands, Without;
  }

  lemma TakenOut(items: seq<Item>, k: nat)
    requires k < |items|
    ensures Without(items, k) == items[..k] + items[k + 1..]
  {
  }

  /** The item is first, or right behind `after`. */
  ghost predicate Stands(items: seq<Item>, item: nat, after: Option<nat>) {
    exists k: nat :: StandsAt(items, item, after, k)
  }

  predicate StandsAt(items: seq<Item>, item: nat, after: Option<nat>, k: nat) {
    k < |items| && items[k].id == item && (if after.None? then k == 0 else k > 0 && items[k - 1].id == after.value)
  }

  lemma RefusedWhereItStands(items: seq<Item>, item: nat, after: Option<nat>)
    requires ItemsDistinct(items)
    ensures Destination(items, item, after).None? <==>
              || after == Some(item) || !HasItem(items, item) || (after.Some? && !HasItem(items, after.value))
              || Stands(items, item, after)
  {
    HasItemIndex(items, item);
    if after.Some? { HasItemIndex(items, after.value); }
    if HasItem(items, item) && after != Some(item) && (after.Some? ==> HasItem(items, after.value)) {
      var from := ItemIndex(items, item).value;
      assert StandsAt(items, item, after, from) <==> Stands(items, item, after) by {
        if k: nat :| StandsAt(items, item, after, k) { IndexUnique(items, k); }
      }
      if after.Some? {
        var at := ItemIndex(items, after.value).value;
        assert items[at].id == after.value && at != from;
        if from > 0 { IndexUnique(items, from - 1); }
      }
    }
  }

  /** A deleted playlist is gone, any other is as it was, and playback ends exactly if it was playing. */
  lemma DeleteDeletes(s: State, id: nat)
    requires Valid(s) && s.Find(id).Some?
    ensures var s' := s.Delete(id);
            && (forall other :: s'.Find(other) == if other == id then None else s.Find(other))
            && s'.cursor == (if s.cursor.Some? && s.cursor.value.playlist == id then None else s.cursor)
            && s'.revision == Bump(s.revision)
  {
    DroppedStorage(s, id);
    SameFind(s.Delete(id), s.Dropped(id));
  }

  /** A new playlist is empty and clean under the next id, until ids run out. */
  lemma CreateCreates(s: State, name: Option<string>)
    requires Valid(s)
    ensures var s' := s.Create(name);
            if s.nextPlaylistId == MAX_U64 then s' == s
            else && s'.nextPlaylistId == s.nextPlaylistId + 1 && s'.revision == Bump(s.revision) && s'.cursor == s.cursor
                 && forall id :: s'.Find(id) == if id == s'.nextPlaylistId then Some(Playlist(id, name, [], 0, 0, 0)) else s.Find(id)
  {
    if s.nextPlaylistId < MAX_U64 {
      GrownStorage(s, Playlist(s.nextPlaylistId + 1, name, [], 0, 0, 0), s.Create(name));
    }
  }

  /** A start that finds no such playlist, an empty one, or no such item leaves playback stopped. */
  lemma RefusedStartStops(s: State, id: nat, from: Option<nat>)
    requires Valid(s)
    requires s.Stop().Find(id).None? || s.Stop().Find(id).value.items == []
             || (from.Some? && !HasItem(s.Stop().Find(id).value.items, from.value))
    ensures s.StartAt(id, from) == s.Stop() && s.StartAt(id, from).cursor.None?
  {
    if s.Stop().Find(id).Some? && from.Some? { HasItemIndex(s.Stop().Find(id).value.items, from.value); }
  }

  /** Stopping ends playback, drops the playlist that was playing if it has no name, and keeps every other. */
  lemma StopStops(s: State)
    requires Valid(s) && s.cursor.Some?
    ensures var s', id := s.Stop(), s.cursor.value.playlist;
            && s'.cursor.None? && s.Find(id).Some?
            && forall other :: s'.Find(other) == if other == id && s.Find(id).value.name.None? then None else s.Find(other)
  {
    var id := s.cursor.value.playlist;
    DroppedStorage(s, id);
    SameFind(s, s.(cursor := None));
    SameFind(s.Stop(), if s.Find(id).value.name.None? then s.Dropped(id) else s);
  }
}
