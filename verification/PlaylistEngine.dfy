/**
 Ordered playlist storage and a passive playback cursor, updated in place.

 Every method is tied to the state function of the same name; what those functions
 promise over all states and runs is proved beside them.
 */
module PlaylistEngine {
  import opened Wrappers
  import opened PlaylistState

  datatype LoadError = UnsupportedVersion(version: nat) | IdExhausted

  const FORMAT_VERSION: nat := 2

  class Engine {
    var playlists: seq<Playlist>
    var nextPlaylistId: nat
    var nextItemId: nat
    var revision: nat
    var cursor: Option<Cursor>
    var mode: Mode

    constructor ()
      ensures Snapshot() == EMPTY
    {
      playlists, nextPlaylistId, nextItemId := [], 0, 0;
      revision, cursor, mode := 0, None, Sequential;
    }

    function Snapshot(): State
      reads this
    {
      State(playlists, nextPlaylistId, nextItemId, revision, cursor, mode)
    }

    method Touch()
      modifies `revision
      ensures revision == Bump(old(revision))
    {
      revision := Bump(revision);
    }

    method MintPlaylistId() returns (id: Option<nat>)
      modifies `nextPlaylistId
      ensures id.None? <==> old(nextPlaylistId) >= MAX_U64
      ensures id.None? ==> nextPlaylistId == old(nextPlaylistId)
      ensures id.Some? ==> id.value == nextPlaylistId == old(nextPlaylistId) + 1
    {
      if nextPlaylistId >= MAX_U64 { return None; }
      nextPlaylistId := nextPlaylistId + 1;
      return Some(nextPlaylistId);
    }

    method MintItemId() returns (id: Option<nat>)
      modifies `nextItemId
      ensures id.None? <==> old(nextItemId) >= MAX_U64
      ensures id.None? ==> nextItemId == old(nextItemId)
      ensures id.Some? ==> id.value == nextItemId == old(nextItemId) + 1
    {
      if nextItemId >= MAX_U64 { return None; }
      nextItemId := nextItemId + 1;
      return Some(nextItemId);
    }

    method Create(name: Option<string>) returns (id: Option<nat>)
      modifies this
      ensures Snapshot() == old(Snapshot()).Create(name)
      ensures id == if old(nextPlaylistId) < MAX_U64 then Some(nextPlaylistId) else None
    {
      id := MintPlaylistId();
      if id.None? { return; }
      playlists := playlists + [Playlist(id.value, name, [], 0, 0, 0)];
      Touch();
    }

    method Delete(id: nat) returns (deleted: bool)
      modifies this
      ensures Snapshot() == old(Snapshot()).Delete(id)
      ensures deleted == old(Snapshot()).Find(id).Some?
    {
      var index := PlaylistIndex(playlists, id);
      if index.None? { return false; }
      if cursor.Some? && cursor.value.playlist == id {
        cursor := None;
      }
      playlists := Without(playlists, index.value);
      Touch();
      deleted := true;
    }

    method Rename(id: nat, name: Option<string>) returns (renamed: bool)
      modifies this
      ensures Snapshot() == old(Snapshot()).Rename(id, name)
      ensures renamed <==> old(Snapshot()).Find(id).Some? && old(Snapshot()).Find(id).value.name != name
    {
      var index := PlaylistIndex(playlists, id);
      if index.None? { return false; }
      if playlists[index.value].name == name { return false; }
      playlists := playlists[index.value := playlists[index.value].(name := name)];
      playlists := playlists[index.value := playlists[index.value].TouchStructure()];
      Touch();
      renamed := true;
    }

    method TouchStructurePreservingDirty(id: nat) returns (touched: bool)
      modifies this
      ensures Snapshot() == old(Snapshot()).TouchPreservingDirty(id)
      ensures touched == old(Snapshot()).Find(id).Some?
    {
      var index := PlaylistIndex(playlists, id);
      if index.None? { return false; }
      var wasDirty := playlists[index.value].IsDirty();
      playlists := playlists[index.value := playlists[index.value].TouchStructure()];
      if !wasDirty {
        var p := playlists[index.value];
        playlists := playlists[index.value := p.(lastSavedRevision := p.contentRevision)];
      }
      Touch();
      touched := true;
    }

    method Append(playlist: nat, spec: ItemSpec) returns (id: Option<nat>)
      modifies this
      ensures Snapshot() == old(Snapshot()).Append(playlist, spec)
      ensures id == if old(Snapshot()).Find(playlist).Some? && old(nextItemId) < MAX_U64
                    then Some(nextItemId) else None
    {
      var index := PlaylistIndex(playlists, playlist);
      if index.None? { return None; }
      id := MintItemId();
      if id.None? { return; }
      var p := playlists[index.value];
      playlists := playlists[index.value := p.(items := p.items + [Item(id.value, spec)])];
      playlists := playlists[index.value := playlists[index.value].TouchContent()];
      Touch();
    }

    method EditItem(playlist: nat, item: nat, edit: ItemSpec -> ItemSpec) returns (edited: bool)
      modifies this
      ensures var p := old(Snapshot()).Find(playlist);
              edited <==> p.Some? && ItemIndex(p.value.items, item).Some?
      ensures !edited ==> Snapshot() == old(Snapshot())
      ensures edited ==> var items := old(Snapshot()).Find(playlist).value.items;
                         Snapshot() == old(Snapshot()).EditItem(playlist, item,
                                                                edit(items[ItemIndex(items, item).value].spec))
    {
      var index := PlaylistIndex(playlists, playlist);
      if index.None? { return false; }
      var p := playlists[index.value];
      var at := ItemIndex(p.items, item);
      if at.None? { return false; }
      var edit' := edit(p.items[at.value].spec);
      playlists := playlists[index.value := p.(items := p.items[at.value := p.items[at.value].(spec := edit')])];
      playlists := playlists[index.value := playlists[index.value].TouchStructure()];
      Touch();
      edited := true;
    }

    method RemoveItem(playlist: nat, item: nat) returns (removed: bool)
      modifies this
      ensures Snapshot() == old(Snapshot()).RemoveItem(playlist, item)
      ensures var p := old(Snapshot()).Find(playlist);
              removed <==> p.Some? && ItemIndex(p.value.items, item).Some?
    {
      var index := PlaylistIndex(playlists, playlist);
      if index.None? { return false; }
      var p := playlists[index.value];
      var at := ItemIndex(p.items, item);
      if at.None? { return false; }
      if cursor.Some? && cursor.value.playlist == playlist && cursor.value.current == Some(item) {
        cursor := Some(cursor.value.(position := at.value));
        cursor := Some(cursor.value.(failures := 0));
        cursor := Some(cursor.value.(currentRemoved := true));
      }
      playlists := playlists[index.value := p.(items := Without(p.items, at.value))];
      playlists := playlists[index.value := playlists[index.value].TouchStructure()];
      Touch();
      removed := true;
    }

    /** Moves `item` to the front, or immediately after `after`. */
    method MoveItem(playlist: nat, item: nat, after: Option<nat>) returns (moved: bool)
      modifies this
      ensures Snapshot() == old(Snapshot()).MoveItem(playlist, item, after)
      ensures var p := old(Snapshot()).Find(playlist);
              moved <==> p.Some? && Destination(p.value.items, item, after).Some?
    {
      if after == Some(item) { return false; }
      var index := PlaylistIndex(playlists, playlist);
      if index.None? { return false; }
      var p := playlists[index.value];
      var from := ItemIndex(p.items, item);
      if from.None? { return false; }
      var destination := 0;
      if after.Some? {
        var anchor := ItemIndex(p.items, after.value);
        if anchor.None? { return false; }
        destination := anchor.value + 1;
      }
      var adjusted := if from.value < destination then destination - 1 else destination;
      if adjusted == from.value { return false; }
      var item' := p.items[from.value];
      var rest := Without(p.items, from.value);
      playlists := playlists[index.value := p.(items := Inserted(rest, adjusted, item'))];
      playlists := playlists[index.value := playlists[index.value].TouchStructure()];
      Touch();
      moved := true;
    }

    method MarkSaved(id: nat) returns (marked: bool)
      modifies this
      ensures marked == old(Snapshot()).Find(id).Some?
      ensures marked ==> Snapshot() == old(Snapshot()).MarkRevisionSaved(
                                         id, old(Snapshot()).Find(id).value.contentRevision)
      ensures !marked ==> Snapshot() == old(Snapshot())
    {
      var index := PlaylistIndex(playlists, id);
      if index.None? { return false; }
      marked := MarkRevisionSaved(id, playlists[index.value].contentRevision);
    }

    method MarkRevisionSaved(id: nat, saved: nat) returns (marked: bool)
      modifies this
      ensures Snapshot() == old(Snapshot()).MarkRevisionSaved(id, saved)
      ensures var p := old(Snapshot()).Find(id);
              marked <==> p.Some? && saved <= p.value.contentRevision
    {
      var index := PlaylistIndex(playlists, id);
      if index.None? { return false; }
      var p := playlists[index.value];
      if saved > p.contentRevision { return false; }
      if p.lastSavedRevision < saved {
        playlists := playlists[index.value := p.(lastSavedRevision := saved)];
      }
      marked := true;
    }

    method Start(playlist: nat, from: Option<nat>) returns (started: bool)
      modifies this
      ensures Snapshot() == old(Snapshot()).StartAt(playlist, from)
      ensures started == cursor.Some?
    {
      Stop();
      var stored := Snapshot().Find(playlist);
      if stored.None? { return false; }
      if stored.value.items == [] { return false; }
      var position := 0;
      if from.Some? {
        var at := ItemIndex(stored.value.items, from.value);
        if at.None? { return false; }
        position := at.value;
      }
      mode := Sequential;
      cursor := Some(Cursor(playlist, None, position, Some(Advance.Start), 0, false));
      started := true;
    }

    method Stop()
      modifies this
      ensures Snapshot() == old(Snapshot()).Stop()
      ensures cursor.None?
    {
      if cursor.None? { return; }
      var id := cursor.value.playlist;
      cursor := None;
      var stored := Snapshot().Find(id);
      if stored.Some? && stored.value.name.None? {
        var index := PlaylistIndex(playlists, id);
        playlists := Without(playlists, index.value);
        Touch();
      }
    }

    method SetMode(m: Mode)
      modifies `mode
      ensures Snapshot() == old(Snapshot()).(mode := m)
    {
      mode := m;
    }

    /** Pulls the item queued by `Start`, transport, or a playback outcome. */
    method Poll() returns (polled: Polled)
      modifies this
      ensures (Snapshot(), polled) == old(Snapshot()).Poll()
    {
      if cursor.None? || cursor.value.pending.None? { return Nothing; }
      var position := Snapshot().TargetPosition(cursor.value.pending.value);
      if position.None? {
        Stop();
        return Nothing;
      }
      var items := Snapshot().Find(cursor.value.playlist).value.items;
      if position.value >= |items| {
        return Panicked;
      }
      var item := items[position.value].id;
      cursor := Some(cursor.value.(pending := None));
      cursor := Some(cursor.value.(current := Some(item)));
      cursor := Some(cursor.value.(position := position.value));
      cursor := Some(cursor.value.(currentRemoved := false));
      polled := Playing(items[position.value]);
    }

    method OnFinished()
      modifies `cursor
      ensures Snapshot() == old(Snapshot()).Finished()
    {
      if cursor.None? { return; }
      if cursor.value.current.Some? && cursor.value.pending.None? {
        cursor := Some(cursor.value.(failures := 0));
        cursor := Some(cursor.value.(pending := Some(Forward)));
      }
    }

    method OnFailed()
      modifies this
      ensures Snapshot() == old(Snapshot()).Failed()
    {
      if cursor.None? { return; }
      if cursor.value.current.None? || cursor.value.pending.Some? { return; }
      if cursor.value.currentRemoved {
        cursor := Some(cursor.value.(failures := 0));
        cursor := Some(cursor.value.(pending := Some(Forward)));
        return;
      }
      cursor := Some(cursor.value.(failures := Bump(cursor.value.failures)));
      var stored := Snapshot().Find(cursor.value.playlist);
      var itemCount := if stored.Some? then |stored.value.items| else 0;
      if mode == Loop && cursor.value.failures >= itemCount {
        Stop();
      } else {
        cursor := Some(cursor.value.(pending := Some(Forward)));
      }
    }

    method Next()
      modifies `cursor
      ensures Snapshot() == old(Snapshot()).Finished()
    {
      OnFinished();
    }

    method Previous()
      modifies `cursor
      ensures Snapshot() == old(Snapshot()).Previous()
    {
      if Snapshot().PreviousPosition().None? { return; }
      if cursor.Some? && cursor.value.pending.None? {
        cursor := Some(cursor.value.(failures := 0));
        cursor := Some(cursor.value.(pending := Some(Backward)));
      }
    }

    method ToDocument(id: nat) returns (document: Option<Document>)
      ensures document == match Snapshot().Find(id)
                          case None => None
                          case Some(p) => Some(DocumentOf(p))
    {
      var index := PlaylistIndex(playlists, id);
      if index.None? { return None; }
      return Some(DocumentOf(playlists[index.value]));
    }

    /** Loads a document, numbering its items one by one. */
    method FromDocument(version: nat, document: Document) returns (r: Result<nat, LoadError>)
      modifies this
      ensures version != FORMAT_VERSION ==> r == Err(UnsupportedVersion(version)) && Snapshot() == old(Snapshot())
      ensures version == FORMAT_VERSION ==> Snapshot() == old(Snapshot()).Load(document)
      ensures version == FORMAT_VERSION ==>
                r == if old(nextPlaylistId) >= MAX_U64 || old(nextItemId) + |document.items| > MAX_U64
                     then Err(IdExhausted) else Ok(nextPlaylistId)
    {
      if version != FORMAT_VERSION { return Err(UnsupportedVersion(version)); }
      if nextPlaylistId >= MAX_U64 { return Err(IdExhausted); }
      var nextId := nextPlaylistId + 1;
      if nextItemId + |document.items| > MAX_U64 { return Err(IdExhausted); }
      var itemId := nextItemId;
      var items: seq<Item> := [];
      for k := 0 to |document.items|
        invariant itemId == nextItemId + k
        invariant items == Numbered(document.items, nextItemId)[..k]
      {
        itemId := itemId + 1;
        items := items + [Item(itemId, document.items[k])];
      }
      assert items == Numbered(document.items, nextItemId);
      nextPlaylistId := nextId;
      nextItemId := nextItemId + |document.items|;
      playlists := playlists + [Playlist(nextId, document.name, items, 0, 0, 0)];
      Touch();
      r := Ok(nextId);
    }
  }
}
