/** What a run does to stored playlists: ids never come back, revisions tell the truth. */
module PlaylistHistory {
  import opened Wrappers
  import opened PlaylistState
  import opened PlaylistInvariant

  // ----- one step, seen from one playlist -----

  ghost predicate Appended(p: Playlist, p': Playlist) {
    |p'.items| == |p.items| + 1 && p' == p.(items := p.items + [p'.items[|p.items|]]).TouchContent()
  }

  ghost predicate Restructured(p: Playlist, p': Playlist) {
    p' == p.(name := p'.name, items := p'.items).TouchStructure()
  }

  ghost predicate Acknowledged(p: Playlist, p': Playlist) {
    p.lastSavedRevision <= p'.lastSavedRevision <= p.contentRevision
    && p' == p.(lastSavedRevision := p'.lastSavedRevision)
  }

  /** How one operation, an acknowledgement or not, may change a playlist it leaves stored. */
  ghost predicate Evolves(p: Playlist, p': Playlist, acks: bool) {
    p' == p || (acks && Acknowledged(p, p')) || Appended(p, p') || Restructured(p, p') || p' == p.TouchStructurePreservingDirty()
  }

  ghost predicate FreshOrHeld(items': seq<Item>, items: seq<Item>, last: nat) {
    forall k :: 0 <= k < |items'| ==> HasItem(items, items'[k].id) || items'[k].id > last
  }

  /** The effect of a step on the playlist `id` names, whichever one the step was about. */
  ghost predicate StepEffect(s: State, s': State, id: nat, acks: bool) {
    && s.nextPlaylistId <= s'.nextPlaylistId && s.nextItemId <= s'.nextItemId
    && (s.Find(id).None? && s'.Find(id).Some? ==>
          id > s.nextPlaylistId && FreshOrHeld(s'.Find(id).value.items, [], s.nextItemId))
    && (s.Find(id).Some? && s'.Find(id).Some? ==>
          Evolves(s.Find(id).value, s'.Find(id).value, acks)
          && FreshOrHeld(s'.Find(id).value.items, s.Find(id).value.items, s.nextItemId))
  }

  lemma HeldByItself(items: seq<Item>, last: nat)
    ensures FreshOrHeld(items, items, last)
  {
    forall k | 0 <= k < |items| ensures HasItem(items, items[k].id) { }
  }

  /** The step acknowledges a save of playlist `id`. */
  predicate Acks(op: Op, id: nat) { op.OpMarkRevisionSaved? && op.id == id }

  lemma Untouched(s: State, s': State, id: nat, acks: bool)
    requires Valid(s) && s'.Find(id) == s.Find(id)
    requires s.nextPlaylistId <= s'.nextPlaylistId && s.nextItemId <= s'.nextItemId
    ensures StepEffect(s, s', id, acks)
  {
    if s.Find(id).Some? { HeldByItself(s.Find(id).value.items, s.nextItemId); }
  }

  lemma ReplacedEffect(s: State, i: nat, p: Playlist, s': State, id: nat, acks: bool)
    requires Valid(s) && Valid(s') && i < |s.playlists|
    requires s'.playlists == s.playlists[i := p] && s'.nextPlaylistId == s.nextPlaylistId
    requires s.nextItemId <= s'.nextItemId
    requires p.id == s.playlists[i].id && (id == p.id ==> Evolves(s.playlists[i], p, acks))
    requires FreshOrHeld(p.items, s.playlists[i].items, s.nextItemId)
    ensures StepEffect(s, s', id, acks)
  {
  }

  lemma DroppedEffect(s: State, dropped: nat, s': State, id: nat, acks: bool)
    requires Valid(s)
    requires s'.playlists == s.playlists || s'.playlists == s.Dropped(dropped).playlists
    requires s'.nextPlaylistId == s.nextPlaylistId && s'.nextItemId == s.nextItemId
    ensures StepEffect(s, s', id, acks)
  {
    DroppedStorage(s, dropped);
    Untouched(s, s, id, acks);
  }

  lemma GrownEffect(s: State, p: Playlist, s': State, id: nat, acks: bool)
    requires Valid(s) && s'.playlists == s.playlists + [p]
    requires p.id == s'.nextPlaylistId == s.nextPlaylistId + 1 <= MAX_U64
    requires s.nextItemId <= s'.nextItemId <= MAX_U64
    requires PlaylistValid(p, s'.nextPlaylistId, s'.nextItemId)
    requires forall k :: 0 <= k < |p.items| ==> p.items[k].id > s.nextItemId
    ensures StepEffect(s, s', id, acks)
  {
  }

  lemma StopPlaylists(s: State)
    ensures s.Stop().playlists == s.playlists
            || (s.cursor.Some? && s.Stop().playlists == s.Dropped(s.cursor.value.playlist).playlists)
    ensures s.Stop().nextPlaylistId == s.nextPlaylistId && s.Stop().nextItemId == s.nextItemId
  {
  }

  lemma RearrangedHeld(items: seq<Item>, items': seq<Item>, last: nat)
    requires forall id :: HasItem(items', id) ==> HasItem(items, id)
    ensures FreshOrHeld(items', items, last)
  {
  }

  lemma AppendEffect(s: State, to: nat, spec: ItemSpec, id: nat)
    requires Valid(s)
    ensures StepEffect(s, s.Append(to, spec), id, false)
  {
    var s' := s.Append(to, spec);
    AppendKeepsValid(s, to, spec);
    var at := PlaylistIndex(s.playlists, to);
    if at.Some? && s.nextItemId < MAX_U64 {
      var p, p' := s.playlists[at.value], s'.playlists[at.value];
      forall k | 0 <= k < |p'.items| ensures HasItem(p.items, p'.items[k].id) || p'.items[k].id > s.nextItemId {
        if k < |p.items| { assert p'.items[k] == p.items[k]; }
      }
      assert Appended(p, p');
      ReplacedEffect(s, at.value, p', s', id, false);
    } else {
      Untouched(s, s', id, false);
    }
  }

  lemma EditEffect(s: State, to: nat, item: nat, spec: ItemSpec, id: nat)
    requires Valid(s)
    ensures StepEffect(s, s.EditItem(to, item, spec), id, false)
  {
    var s' := s.EditItem(to, item, spec);
    EditItemKeepsValid(s, to, item, spec);
    var at := PlaylistIndex(s.playlists, to);
    if at.Some? && ItemIndex(s.playlists[at.value].items, item).Some? {
      var p, p' := s.playlists[at.value], s'.playlists[at.value];
      assert forall k :: 0 <= k < |p.items| ==> p'.items[k].id == p.items[k].id;
      HeldByItself(p.items, s.nextItemId);
      assert Restructured(p, p');
      ReplacedEffect(s, at.value, p', s', id, false);
    } else {
      Untouched(s, s', id, false);
    }
  }

  lemma RemoveEffect(s: State, from: nat, item: nat, id: nat)
    requires Valid(s)
    ensures StepEffect(s, s.RemoveItem(from, item), id, false)
  {
    var s' := s.RemoveItem(from, item);
    RemoveKeepsValid(s, from, item);
    var at := PlaylistIndex(s.playlists, from);
    if at.Some? && ItemIndex(s.playlists[at.value].items, item).Some? {
      var p, p' := s.playlists[at.value], s'.playlists[at.value];
      WithoutItem(p.items, ItemIndex(p.items, item).value);
      RearrangedHeld(p.items, p'.items, s.nextItemId);
      assert Restructured(p, p');
      ReplacedEffect(s, at.value, p', s', id, false);
    } else {
      Untouched(s, s', id, false);
    }
  }

  lemma MoveEffect(s: State, inside: nat, item: nat, after: Option<nat>, id: nat)
    requires Valid(s)
    ensures StepEffect(s, s.MoveItem(inside, item, after), id, false)
  {
    var s' := s.MoveItem(inside, item, after);
    MoveKeepsValid(s, inside, item, after);
    var at := PlaylistIndex(s.playlists, inside);
    if at.Some? && Destination(s.playlists[at.value].items, item, after).Some? {
      var p, p' := s.playlists[at.value], s'.playlists[at.value];
      var from, to := ItemIndex(p.items, item).value, Destination(p.items, item, after).value;
      WithoutItem(p.items, from);
      InsertedItem(Without(p.items, from), to, p.items[from]);
      RearrangedHeld(p.items, p'.items, s.nextItemId);
      assert Restructured(p, p');
      ReplacedEffect(s, at.value, p', s', id, false);
    } else {
      Untouched(s, s', id, false);
    }
  }

  lemma RevisionOpEffect(s: State, op: Op, id: nat)
    requires Valid(s) && (op.OpRename? || op.OpTouchPreservingDirty? || op.OpMarkRevisionSaved?)
    ensures StepEffect(s, Step(s, op), id, Acks(op, id))
  {
    var s' := Step(s, op);
    StepKeepsValid(s, op);
    Untouched(s, s, id, Acks(op, id));
    var at := PlaylistIndex(s.playlists, op.id);
    if at.Some? && s' != s {
      var p, p' := s.playlists[at.value], s'.playlists[at.value];
      HeldByItself(p.items, s.nextItemId);
      assert (op.OpMarkRevisionSaved? && Acknowledged(p, p')) || Restructured(p, p') || p' == p.TouchStructurePreservingDirty();
      ReplacedEffect(s, at.value, p', s', id, op.OpMarkRevisionSaved?);
    }
  }

  lemma GrowOpEffect(s: State, op: Op, id: nat)
    requires Valid(s) && (op.OpCreate? || op.OpLoad?)
    ensures StepEffect(s, Step(s, op), id, Acks(op, id))
  {
    var s' := Step(s, op);
    if s' == s {
      Untouched(s, s, id, false);
    } else {
      GrownEffect(s, s'.playlists[|s.playlists|], s', id, false);
    }
  }

  lemma FailedPlaylists(s: State)
    ensures s.Failed().playlists == s.playlists
            || (s.cursor.Some? && s.Failed().playlists == s.Dropped(s.cursor.value.playlist).playlists)
    ensures s.Failed().nextPlaylistId == s.nextPlaylistId && s.Failed().nextItemId == s.nextItemId
  {
    if s.Awaiting() {
      StopPlaylists(s.(cursor := Some(s.cursor.value.(failures := Bump(s.cursor.value.failures)))));
    }
  }

  lemma CursorOpPlaylists(s: State, op: Op)
    requires op.OpStart? || op.OpStop? || op.OpPoll? || op.OpFailed? || op.OpSetMode? || op.OpFinished?
             || op.OpNext? || op.OpPrevious?
    ensures Step(s, op).playlists == s.playlists
            || (s.cursor.Some? && Step(s, op).playlists == s.Dropped(s.cursor.value.playlist).playlists)
    ensures Step(s, op).nextPlaylistId == s.nextPlaylistId && Step(s, op).nextItemId == s.nextItemId
  {
    StopPlaylists(s);
    FailedPlaylists(s);
    hide s.Stop, s.Failed, s.Dropped;
  }

  lemma CursorOpEffect(s: State, op: Op, id: nat)
    requires Valid(s)
    requires op.OpStart? || op.OpStop? || op.OpPoll? || op.OpFailed? || op.OpSetMode? || op.OpFinished?
             || op.OpNext? || op.OpPrevious?
    ensures StepEffect(s, Step(s, op), id, Acks(op, id))
  {
    CursorOpPlaylists(s, op);
    hide *;
    DroppedEffect(s, if s.cursor.Some? then s.cursor.value.playlist else 0, Step(s, op), id, false);
  }

  /** Each operation leaves every playlist alone, evolves it in one of four ways, drops it, or mints a new one. */
  lemma StepHasEffect(s: State, op: Op, id: nat)
    requires Valid(s)
    ensures StepEffect(s, Step(s, op), id, Acks(op, id))
  {
    match op
    case OpCreate(_) => GrowOpEffect(s, op, id);
    case OpLoad(_) => GrowOpEffect(s, op, id);
    case OpDelete(gone) => DroppedEffect(s, gone, Step(s, op), id, false);
    case OpRename(_, _) => RevisionOpEffect(s, op, id);
    case OpTouchPreservingDirty(_) => RevisionOpEffect(s, op, id);
    case OpMarkRevisionSaved(_, _) => RevisionOpEffect(s, op, id);
    case OpAppend(to, spec) => AppendEffect(s, to, spec, id);
    case OpEdit(to, item, spec) => EditEffect(s, to, item, spec, id);
    case OpRemove(from, item) => RemoveEffect(s, from, item, id);
    case OpMove(inside, item, after) => MoveEffect(s, inside, item, after, id);
    case OpStart(_, _) => CursorOpEffect(s, op, id);
    case OpStop => CursorOpEffect(s, op, id);
    case OpPoll => CursorOpEffect(s, op, id);
    case OpFailed => CursorOpEffect(s, op, id);
    case OpSetMode(_) => CursorOpEffect(s, op, id);
    case OpFinished => CursorOpEffect(s, op, id);
    case OpNext => CursorOpEffect(s, op, id);
    case OpPrevious => CursorOpEffect(s, op, id);
  }

  // ----- ids -----

  ghost predicate Stores(s: State, item: nat) {
    exists id :: s.Find(id).Some? && HasItem(s.Find(id).value.items, item)
  }

  /** The counters only rise, and an id that is new after a step lies between the old counter and the new one. */
  lemma StepMints(s: State, op: Op, playlist: nat, item: nat)
    requires Valid(s)
    ensures var s' := Step(s, op);
            && s.nextPlaylistId <= s'.nextPlaylistId && s.nextItemId <= s'.nextItemId
            && (s.Find(playlist).None? && s'.Find(playlist).Some? ==> s.nextPlaylistId < playlist <= s'.nextPlaylistId)
            && (!Stores(s, item) && Stores(s', item) ==> s.nextItemId < item <= s'.nextItemId)
  {
    var s' := Step(s, op);
    StepKeepsValid(s, op);
    StepHasEffect(s, op, playlist);
    hide Step, Valid;
    if s'.Find(playlist).Some? { StoredWithin(s', playlist); }
    if !Stores(s, item) && Stores(s', item) {
      var id :| s'.Find(id).Some? && HasItem(s'.Find(id).value.items, item);
      StepHasEffect(s, op, id);
      StoredWithin(s', id);
    }
  }

  /** What is stored carries ids that were minted. */
  lemma StoredWithin(s: State, id: nat)
    requires Valid(s) && s.Find(id).Some?
    ensures id <= s.nextPlaylistId
    ensures forall item: nat :: HasItem(s.Find(id).value.items, item) ==> item <= s.nextItemId
  {
  }

  /** An id once minted and since gone, of a playlist or of an item, never names anything again. */
  lemma {:induction false} IdsNeverComeBack(s: State, ops: seq<Op>, playlist: nat, item: nat)
    requires Valid(s) && playlist <= s.nextPlaylistId && item <= s.nextItemId
    ensures s.Find(playlist).None? ==> Run(s, ops).Find(playlist).None?
    ensures !Stores(s, item) ==> !Stores(Run(s, ops), item)
    decreases |ops|
  {
    if ops != [] {
      StepHasEffect(s, ops[0], playlist);
      StepKeepsValid(s, ops[0]);
      StepMints(s, ops[0], playlist, item);
      IdsNeverComeBack(Step(s, ops[0]), ops[1..], playlist, item);
    }
  }

  // ----- structure revisions -----

  ghost predicate OnlyAppended(p: Playlist, q: Playlist) {
    q.name == p.name && p.items <= q.items
  }

  /** Two states of one playlist with one structure revision differ only by appended items. */
  lemma {:induction false} EqualStructureOnlyAppends(s: State, ops: seq<Op>, id: nat)
    requires Valid(s) && s.Find(id).Some? && Run(s, ops).Find(id).Some?
    requires s.Find(id).value.structureRevision <= MAX_U64
    ensures var p, q := s.Find(id).value, Run(s, ops).Find(id).value;
            && p.structureRevision <= q.structureRevision <= MAX_U64
            && (p.structureRevision == q.structureRevision < MAX_U64 ==> OnlyAppended(p, q))
    decreases |ops|
  {
    if ops != [] {
      var s' := Step(s, ops[0]);
      StepHasEffect(s, ops[0], id);
      StepKeepsValid(s, ops[0]);
      var i := PlaylistIndex(s.playlists, id).value;
      assert s.playlists[i].id == id && PlaylistValid(s.playlists[i], s.nextPlaylistId, s.nextItemId);
      IdsNeverComeBack(s', ops[1..], id, 0);
      EqualStructureOnlyAppends(s', ops[1..], id);
    }
  }

  /** At the last structure revision an edit no longer shows: the counter saturates. */
  lemma StructureRevisionSaturates(p: Playlist, name: Option<string>)
    requires p.structureRevision <= MAX_U64
    ensures p.(name := name).TouchStructure().structureRevision == p.structureRevision
            <==> p.structureRevision == MAX_U64
  {
  }
}
