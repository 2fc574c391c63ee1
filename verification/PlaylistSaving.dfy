/**
 Saving a playlist while it keeps changing: what a clean playlist and the file it was
 saved to have to do with each other.

 A save serializes the contents of one revision, runs for a while, and then acknowledges
 that revision. Any operation may run in between, and saves may overlap.
 */
module PlaylistSaving {
  import opened Wrappers
  import opened PlaylistState
  import opened PlaylistInvariant
  import opened PlaylistHistory

  datatype Snapshot = Snapshot(revision: nat, document: Document)

  /**
   An engine beside the saves of one of its playlists.
   - `history` is the document of every revision so far;
   - `taken` and `acked` are the snapshots serialized and the ones acknowledged;
   - `base` is the newest acknowledged revision, or the one the playlist started clean at;
   - `last` is the revision of the save that completed last.
   */
  datatype World = World(engine: State, id: nat, initial: Document, history: map<nat, Document>,
                         taken: set<Snapshot>, acked: set<Snapshot>,
                         file: Option<Document>, base: nat, last: Option<nat>)

  datatype Event = Do(op: Op) | Take | Complete(snapshot: Snapshot)

  ghost predicate Starts(w: World) {
    && Valid(w.engine) && w.engine.Find(w.id).Some?
    && var p := w.engine.Find(w.id).value;
    && !p.IsDirty() && w.initial == DocumentOf(p) && w.history == map[p.contentRevision := DocumentOf(p)]
    && w.taken == {} && w.acked == {} && w.file == None && w.base == p.contentRevision && w.last == None
  }

  /** What may happen: any operation but a bare acknowledgement, or a save beginning or completing. */
  ghost predicate Enabled(w: World, e: Event) {
    && w.engine.Find(w.id).Some?
    && (e.Do? ==> !Acks(e.op, w.id))
    && (e.Complete? ==> e.snapshot in w.taken)
  }

  ghost function Next(w: World, e: Event): World
    requires Enabled(w, e)
  {
    match e
    case Do(op) =>
      var s' := Step(w.engine, op);
      var p' := s'.Find(w.id);
      w.(engine := s',
         history := if p'.None? then w.history else w.history[p'.value.contentRevision := DocumentOf(p'.value)])
    case Take =>
      var p := w.engine.Find(w.id).value;
      w.(taken := w.taken + {Snapshot(p.contentRevision, DocumentOf(p))})
    case Complete(snapshot) =>
      w.(engine := w.engine.MarkRevisionSaved(w.id, snapshot.revision), acked := w.acked + {snapshot},
         file := Some(snapshot.document),
         base := if w.base < snapshot.revision then snapshot.revision else w.base,
         last := Some(snapshot.revision))
  }

  ghost predicate History(w: World, p: Playlist) {
    && p.contentRevision in w.history && w.history[p.contentRevision] == DocumentOf(p)
    && p.lastSavedRevision in w.history && w.base in w.history
    && (forall r :: r in w.history ==> r <= p.contentRevision)
  }

  ghost predicate Snapshots(w: World) {
    && w.acked <= w.taken
    && (forall t :: t in w.taken ==> t.revision in w.history && w.history[t.revision] == t.document)
  }

  /** The base is the newest acknowledged revision, or with none acknowledged the first; the file is the last save's. */
  ghost predicate Newest(w: World)
    requires w.base in w.history
  {
    && (forall t <- w.acked :: t.revision <= w.base)
    && (w.acked != {} ==> exists t <- w.acked :: t.revision == w.base)
    && (w.acked == {} ==> w.history[w.base] == w.initial && w.last.None? && forall r <- w.history :: w.base <= r)
    && (w.last.Some? ==> w.last.value in w.history && w.last.value <= w.base && w.file == Some(w.history[w.last.value]))
    && (w.last.None? ==> w.file.None? && w.acked == {})
  }

  /** From the last acknowledged revision to the last saved one, the contents never changed. */
  ghost predicate Saved(w: World, p: Playlist)
    requires History(w, p)
  {
    && w.base <= p.lastSavedRevision <= p.contentRevision
    && (forall r :: r in w.history && w.base <= r <= p.lastSavedRevision ==>
          w.history[r] == w.history[p.lastSavedRevision])
  }

  ghost predicate Inv(w: World) {
    && Valid(w.engine)
    && (w.engine.Find(w.id).Some? && w.engine.Find(w.id).value.contentRevision < MAX_U64 ==>
          var p := w.engine.Find(w.id).value;
          History(w, p) && Snapshots(w) && Saved(w, p) && Newest(w))
  }

  lemma StartsInv(w: World)
    requires Starts(w)
    ensures Inv(w)
  {
    FoundItems(w.engine, w.id);
  }

  lemma SameDocument(p: Playlist, p': Playlist)
    requires p.name == p'.name && p.items == p'.items
    ensures DocumentOf(p) == DocumentOf(p')
  {
  }

  lemma DoKeepsInv(w: World, op: Op)
    requires Inv(w) && Enabled(w, Do(op))
    ensures Inv(Next(w, Do(op)))
  {
    var w' := Next(w, Do(op));
    StepKeepsValid(w.engine, op);
    StepHasEffect(w.engine, op, w.id);
    hide Step, Valid;
    if w'.engine.Find(w.id).Some? && w'.engine.Find(w.id).value.contentRevision < MAX_U64 {
      var p, p' := w.engine.Find(w.id).value, w'.engine.Find(w.id).value;
      assert Evolves(p, p', false);
      EvolutionKeepsSaved(w, w', p, p');
    }
  }

  lemma EvolutionKeepsSaved(w: World, w': World, p: Playlist, p': Playlist)
    requires p.contentRevision < MAX_U64 && p'.contentRevision < MAX_U64
    requires History(w, p) && Snapshots(w) && Saved(w, p) && Newest(w) && Evolves(p, p', false)
    requires w' == w.(engine := w'.engine, history := w.history[p'.contentRevision := DocumentOf(p')])
    ensures History(w', p') && Snapshots(w') && Saved(w', p') && Newest(w')
  {
    if p'.contentRevision == p.contentRevision {
      SameDocument(p, p');
      assert w'.history == w.history;
    } else if p' == p.TouchStructurePreservingDirty() {
      SameDocument(p, p');
    }
  }

  lemma TakeKeepsInv(w: World)
    requires Inv(w) && Enabled(w, Take)
    ensures Inv(Next(w, Take))
  {
  }

  lemma AcknowledgedPlaylist(s: State, id: nat, saved: nat)
    requires Valid(s) && s.Find(id).Some?
    ensures var p := s.Find(id).value;
            s.MarkRevisionSaved(id, saved).Find(id)
            == Some(if saved > p.contentRevision then p else p.Acknowledge(saved))
    ensures Valid(s.MarkRevisionSaved(id, saved))
  {
    StepKeepsValid(s, OpMarkRevisionSaved(id, saved));
    var i := PlaylistIndex(s.playlists, id).value;
    if saved <= s.playlists[i].contentRevision {
      assert s.MarkRevisionSaved(id, saved).playlists[i] == s.playlists[i].Acknowledge(saved);
      FindUnique(s.MarkRevisionSaved(id, saved), i);
    }
  }

  lemma CompleteKeepsInv(w: World, snapshot: Snapshot)
    requires Inv(w) && Enabled(w, Complete(snapshot))
    ensures Inv(Next(w, Complete(snapshot)))
  {
    AcknowledgedPlaylist(w.engine, w.id, snapshot.revision);
    var w' := Next(w, Complete(snapshot));
    var p := w.engine.Find(w.id).value;
    hide Valid;
    if p.contentRevision < MAX_U64 {
      assert snapshot.revision <= p.contentRevision;
      assert snapshot in w'.acked;
    }
  }

  /** Any number of events, each allowed where it happens. */
  ghost predicate Reaches(w: World, events: seq<Event>, w': World)
    decreases |events|
  {
    if events == [] then w' == w
    else Enabled(w, events[0]) && Reaches(Next(w, events[0]), events[1..], w')
  }

  lemma {:induction false} ReachesInv(w: World, events: seq<Event>, w': World)
    requires Inv(w) && Reaches(w, events, w')
    ensures Inv(w')
    decreases |events|
  {
    if events != [] {
      match events[0] {
        case Do(op) => DoKeepsInv(w, op);
        case Take => TakeKeepsInv(w);
        case Complete(snapshot) => CompleteKeepsInv(w, snapshot);
      }
      hide Inv;
      ReachesInv(Next(w, events[0]), events[1..], w');
    }
  }

  /**
   After any run, a clean playlist holds exactly the contents of its newest acknowledged revision, or of its
   load if none was acknowledged. The file holds those of the save that completed last, and so the
   playlist's exactly when those two are the same: whenever no older save completed after the newest.
   */
  lemma CleanMeansSaved(w: World, events: seq<Event>, w': World)
    requires Starts(w) && Reaches(w, events, w')
    requires w'.engine.Find(w'.id).Some?
    ensures var p := w'.engine.Find(w'.id).value;
            p.contentRevision < MAX_U64 && !p.IsDirty() ==>
              && w'.base in w'.history && w'.history[w'.base] == DocumentOf(p)
              && (forall t <- w'.acked :: t.revision <= w'.base)
              && (w'.acked != {} ==> exists t <- w'.acked :: t.revision == w'.base && t.document == DocumentOf(p))
              && (w'.acked == {} ==> DocumentOf(p) == w'.initial)
              && (w'.last.None? <==> w'.file.None?)
              && (w'.last.Some? ==>
                    && w'.last.value in w'.history && w'.file == Some(w'.history[w'.last.value])
                    && (w'.file == Some(DocumentOf(p)) <==> w'.history[w'.last.value] == w'.history[w'.base])
                    && (w'.base <= w'.last.value ==> w'.file == Some(DocumentOf(p))))
  {
    StartsInv(w);
    ReachesInv(w, events, w');
  }

  /** An acknowledgement of an older revision leaves newer edits dirty, whatever it says. */
  lemma LateAcknowledgement(p: Playlist, revision: nat)
    requires revision <= p.contentRevision && p.lastSavedRevision <= p.contentRevision
    ensures p.Acknowledge(revision).IsDirty() <==> p.IsDirty() && revision < p.contentRevision
    ensures p.Acknowledge(revision).lastSavedRevision >= p.lastSavedRevision
  {
  }

  /** An edit of a clean playlist shows as dirty exactly while the content counter has not saturated. */
  lemma EditShowsAsDirty(p: Playlist)
    requires !p.IsDirty() && p.contentRevision <= MAX_U64
    ensures p.TouchContent().IsDirty() <==> p.contentRevision < MAX_U64
    ensures !p.TouchStructurePreservingDirty().IsDirty()
  {
  }

  function Empty(): Playlist { Playlist(1, Some("p"), [], 0, 0, 0) }

  function Edited(spec: ItemSpec, saved: nat): Playlist { Playlist(1, Some("p"), [Item(1, spec)], 1, 0, saved) }

  function Holding(p: Playlist, nextItem: nat, revision: nat): State { State([p], 1, nextItem, revision, None, Sequential) }

  function Created(): World {
    World(Holding(Empty(), 0, 1), 1, DocumentOf(Empty()), map[0 := DocumentOf(Empty())], {}, {}, None, 0, None)
  }

  /** The empty playlist saved, appended to and saved again, the two saves completing in the opposite order. */
  function Overtaken(spec: ItemSpec): seq<Event> {
    [Take, Do(OpAppend(1, spec)), Take,
     Complete(Snapshot(1, DocumentOf(Edited(spec, 0)))), Complete(Snapshot(0, DocumentOf(Empty())))]
  }

  lemma Then(w: World, e: Event, rest: seq<Event>, w': World)
    requires Enabled(w, e) && Reaches(Next(w, e), rest, w')
    ensures Reaches(w, [e] + rest, w')
  {
    assert ([e] + rest)[1..] == rest;
  }

  lemma AppendsOne(spec: ItemSpec)
    ensures var s := Step(Holding(Empty(), 0, 1), OpAppend(1, spec));
            s.Find(1) == Some(Edited(spec, 0)) && s == Holding(Edited(spec, 0), 1, s.revision)
  {
    assert [] + [Item(1, spec)] == [Item(1, spec)];
  }

  lemma Acknowledges(spec: ItemSpec, saved: nat, newer: nat, revision: nat)
    requires saved <= 1 && newer <= 1
    ensures var s := Holding(Edited(spec, saved), 1, revision).MarkRevisionSaved(1, newer);
            s == Holding(Edited(spec, if newer < saved then saved else newer), 1, s.revision)
  {
  }

  lemma DifferentDocuments(spec: ItemSpec)
    ensures DocumentOf(Edited(spec, 0)) != DocumentOf(Empty()) && DocumentOf(Edited(spec, 1)) == DocumentOf(Edited(spec, 0))
  {
    assert |DocumentOf(Edited(spec, 0)).items| == 1;
  }

  /** ... leaves a clean playlist beside a file holding the older contents. */
  lemma OutOfOrderSavesLoseTheFile(spec: ItemSpec)
    ensures Starts(Created())
    ensures exists w :: Reaches(Created(), Overtaken(spec), w) && w.engine.Find(1).Some?
                        && !w.engine.Find(1).value.IsDirty() && w.engine.Find(1).value.contentRevision == 1
                        && w.file.Some? && w.file != Some(DocumentOf(w.engine.Find(1).value))
  {
    hide Step, DocumentOf, Reaches;
    var first, second := Complete(Snapshot(0, DocumentOf(Empty()))), Complete(Snapshot(1, DocumentOf(Edited(spec, 0))));
    var w0 := Created();
    StartsCreated();
    var w1 := Next(w0, Take);
    AppendsOne(spec);
    var w2 := Next(w1, Do(OpAppend(1, spec)));
    var w3 := Next(w2, Take);
    Acknowledges(spec, 0, 1, w3.engine.revision);
    var w4 := Next(w3, second);
    Acknowledges(spec, 1, 0, w4.engine.revision);
    var w5 := Next(w4, first);
    NoEvents(w5);
    Then(w4, first, [], w5);
    Then(w3, second, [first] + [], w5);
    Then(w2, Take, [second] + ([first] + []), w5);
    Then(w1, Do(OpAppend(1, spec)), [Take] + ([second] + ([first] + [])), w5);
    Then(w0, Take, [Do(OpAppend(1, spec))] + ([Take] + ([second] + ([first] + []))), w5);
    assert Overtaken(spec) == [Take] + ([Do(OpAppend(1, spec))] + ([Take] + ([second] + ([first] + []))));
    DifferentDocuments(spec);
  }

  lemma NoEvents(w: World)
    ensures Reaches(w, [], w)
  {
  }

  lemma StartsCreated()
    ensures Starts(Created())
  {
  }
}
