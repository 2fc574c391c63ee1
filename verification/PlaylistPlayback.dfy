/** Playback order, the failure bound and the document round trip. */
module PlaylistPlayback {
  import opened Wrappers
  import opened PlaylistState
  import opened PlaylistInvariant

  // ----- what a poll indexes -----

  /**
   The only poll that indexes past the end is a step back after the current item was removed
   and enough items before it went too.
   */
  lemma PollPanicsExactly(s: State)
    requires Valid(s)
    ensures s.Poll().1.Panicked? <==>
              && s.cursor.Some? && s.cursor.value.pending == Some(Backward)
              && s.CurrentIndex().None?
              && s.cursor.value.position > |s.Find(s.cursor.value.playlist).value.items|
  {
  }

  function Spec(identity: string): ItemSpec { ItemSpec(identity, 0, "", "", 0, "") }

  const A := Item(1, Spec("a"))
  const B := Item(2, Spec("b"))
  const C := Item(3, Spec("c"))

  /** An engine holding [a, b, c] in playlist 1. */
  function Three(): State {
    EMPTY.Create(Some("p")).Append(1, Spec("a")).Append(1, Spec("b")).Append(1, Spec("c"))
  }

  lemma ThreeStored()
    ensures Three().playlists == [Playlist(1, Some("p"), [A, B, C], 3, 0, 0)]
    ensures Three().cursor.None?
  {
    assert [] + [A] == [A] && [A] + [B] == [A, B] && [A, B] + [C] == [A, B, C];
    var s1 := EMPTY.Create(Some("p"));
    var s2 := s1.Append(1, Spec("a"));
    assert s2.playlists == [Playlist(1, Some("p"), [A], 1, 0, 0)];
    var s3 := s2.Append(1, Spec("b"));
    assert s3.playlists == [Playlist(1, Some("p"), [A, B], 2, 0, 0)];
  }

  /** Play c of [a, b, c], remove c and b, go back: the poll indexes past the end. */
  lemma PollCanPanic()
    ensures Three().StartAt(1, Some(3)).Poll().0.RemoveItem(1, 3).RemoveItem(1, 2).Previous().Poll().1 == Panicked
  {
    hide Three, State.StartAt, State.RemoveItem;
    ThreeStored();
    assert ItemIndex([A, B, C], 3) == Some(2) && ItemIndex([A, B], 2) == Some(1) by {
      IndexUnique([A, B, C], 2);
      IndexUnique([A, B], 1);
    }
    StartedAtC(Three());
    RemovedTwo(Three().StartAt(1, Some(3)).Poll().0);
  }

  lemma StartedAtC(s: State)
    requires s.playlists == [Playlist(1, Some("p"), [A, B, C], 3, 0, 0)] && s.cursor.None?
    requires ItemIndex([A, B, C], 3) == Some(2)
    ensures var s' := s.StartAt(1, Some(3)).Poll().0;
            s'.playlists == s.playlists && s'.cursor == Some(Cursor(1, Some(3), 2, None, 0, false))
  {
    assert s.StartAt(1, Some(3)).cursor == Some(Cursor(1, None, 2, Some(Start), 0, false));
  }

  lemma RemovedTwo(s: State)
    requires s.playlists == [Playlist(1, Some("p"), [A, B, C], 3, 0, 0)]
    requires s.cursor == Some(Cursor(1, Some(3), 2, None, 0, false))
    requires ItemIndex([A, B, C], 3) == Some(2) && ItemIndex([A, B], 2) == Some(1)
    ensures var s' := s.RemoveItem(1, 3).RemoveItem(1, 2);
            && s'.playlists == [Playlist(1, Some("p"), [A], 5, 2, 0)]
            && s'.cursor == Some(Cursor(1, Some(3), 2, None, 0, true))
  {
    assert Without([A, B, C], 2) == [A, B] && Without([A, B], 1) == [A];
    var s7 := s.RemoveItem(1, 3);
    assert s7.playlists == [Playlist(1, Some("p"), [A, B], 4, 1, 0)];
    assert s7.RemoveItem(1, 2).playlists == [Playlist(1, Some("p"), [A], 5, 2, 0)];
  }

  /** Removing the current item makes its successor by position play next, if nothing else is edited. */
  lemma SuccessorByPosition(s: State)
    requires Valid(s) && s.Awaiting() && s.CurrentIndex().Some?
    ensures var c := s.cursor.value;
            var items := s.Find(c.playlist).value.items;
            var i := s.CurrentIndex().value;
            var removed := s.RemoveItem(c.playlist, c.current.value);
            && removed.Finished().Poll().1 == removed.Failed().Poll().1
            && removed.Finished().Poll().1 ==
               (if i + 1 < |items| then Playing(items[i + 1])
                else if s.mode == Loop && i > 0 then Playing(items[0])
                else Nothing)
            && (removed.Finished().Poll().1.Nothing? ==> removed.Finished().Poll().0.cursor.None?)
  {
    var c := s.cursor.value;
    var items := s.Find(c.playlist).value.items;
    var i := s.CurrentIndex().value;
    var removed := s.RemoveItem(c.playlist, c.current.value);
    RemoveKeepsValid(s, c.playlist, c.current.value);
    hide Valid;
    HasItemIndex(Without(items, i), c.current.value);
    assert removed.CurrentIndex().None?;
    PutBack(items, i, 0);
    PlaysAtPosition(removed);
    hide s.Poll, s.Finished, s.Failed, Without, ItemIndex;
  }

  /** With its current item removed, the cursor goes on at the position that item had. */
  lemma PlaysAtPosition(s: State)
    requires s.Awaiting() && s.cursor.value.currentRemoved && s.CurrentIndex().None? && s.Find(s.cursor.value.playlist).Some?
    ensures var items := s.Find(s.cursor.value.playlist).value.items;
            var i := s.cursor.value.position;
            && s.Finished().Poll().1 == s.Failed().Poll().1
            && s.Finished().Poll().1 == (if i < |items| then Playing(items[i])
                                         else if s.mode == Loop && |items| > 0 then Playing(items[0]) else Nothing)
            && (s.Finished().Poll().1.Nothing? ==> s.Finished().Poll().0.cursor.None?)
  {
  }

  /**
   A step back from a stored item plays the one before it, the failure count cleared; at the first it is refused. With
   the current item removed it plays what stands just before the position it had, or is out of range.
   */
  lemma PreviousPlaysTheOneBefore(s: State)
    requires Valid(s) && s.Awaiting()
    ensures var items := s.Find(s.cursor.value.playlist).value.items;
            var at := if s.CurrentIndex().Some? then s.CurrentIndex().value else s.cursor.value.position;
            && (s.CurrentIndex().Some? ==> at < |items| && items[at].id == s.cursor.value.current.value)
            && (at == 0 ==> s.Previous() == s)
            && (at > 0 ==> s.Previous().cursor.value.failures == 0)
            && (at > 0 && at - 1 < |items| ==>
                  && s.Previous().Poll().1 == Playing(items[at - 1])
                  && s.Previous().Poll().0
                     == s.(cursor := Some(Cursor(s.cursor.value.playlist, Some(items[at - 1].id), at - 1, None, 0, false))))
            && (at > 0 && at - 1 >= |items| ==> s.Previous().Poll() == (s.Previous(), Panicked))
  {
  }

  /** Going on from a stored item to the next, and back again, returns to it. */
  lemma BackUndoesForward(s: State)
    requires Valid(s) && s.Awaiting() && s.CurrentIndex().Some?
    requires s.CurrentIndex().value + 1 < |s.Find(s.cursor.value.playlist).value.items|
    ensures var items := s.Find(s.cursor.value.playlist).value.items;
            && s.Finished().Poll().1 == Playing(items[s.CurrentIndex().value + 1])
            && s.Finished().Poll().0.Previous().Poll().1 == Playing(items[s.CurrentIndex().value])
  {
    var i := s.CurrentIndex().value;
    var items := s.Find(s.cursor.value.playlist).value.items;
    var t := s.Finished().Poll().0;
    ForwardMovesOn(s);
    StepKeepsValid(s, OpFinished);
    StepKeepsValid(s.Finished(), OpPoll);
    IndexUnique(items, i + 1);
    hide Valid, ItemIndex, s.Finished, s.Poll, s.Previous;
    assert t.CurrentIndex() == Some(i + 1);
    PreviousPlaysTheOneBefore(t);
  }

  lemma ForwardMovesOn(s: State)
    requires Valid(s) && s.Awaiting() && s.CurrentIndex().Some?
    requires s.CurrentIndex().value + 1 < |s.Find(s.cursor.value.playlist).value.items|
    ensures var i, items := s.CurrentIndex().value, s.Find(s.cursor.value.playlist).value.items;
            s.Finished().Poll()
            == (s.(cursor := Some(Cursor(s.cursor.value.playlist, Some(items[i + 1].id), i + 1, None, 0, false))),
                Playing(items[i + 1]))
  {
  }

  /** The item peeked at is the one the next forward poll hands out, and none means it stops. */
  lemma PeekNextIsTheForwardPoll(s: State)
    requires Valid(s) && s.cursor.Some? && s.cursor.value.pending == Some(Forward)
    ensures s.Poll().1 == match s.PeekNext() case Some(item) => Playing(item) case None => Nothing
    ensures s.PeekNext().None? <==> s.Poll().0.cursor.None?
    ensures s.PeekNext().Some? ==> s.Poll().0.cursor.value.current == Some(s.PeekNext().value.id)
  {
  }

  /** Transport forward, like an item that finished, plays what is peeked at, or ends playback; back is a step back. */
  lemma TransportMoves(s: State)
    requires Valid(s) && s.Awaiting()
    ensures Step(s, OpNext) == Step(s, OpFinished) && Step(s, OpPrevious) == s.Previous()
    ensures Step(s, OpNext).Poll().1 == match s.PeekNext() case Some(item) => Playing(item) case None => Nothing
    ensures s.PeekNext().None? ==> Step(s, OpNext).Poll().0.cursor.None?
  {
    StepKeepsValid(s, OpFinished);
    FinishingKeepsThePeek(s);
    hide Valid, State.Poll, State.PeekNext, State.Finished, State.Previous;
    PeekNextIsTheForwardPoll(s.Finished());
  }

  lemma FinishingKeepsThePeek(s: State)
    requires s.Awaiting()
    ensures s.Finished().PeekNext() == s.PeekNext()
    ensures s.Finished().cursor.Some? && s.Finished().cursor.value.pending == Some(Forward)
  {
  }

  // ----- playing through without edits -----

  /** A start or forward poll is due and will play item `i` of `p`. */
  ghost predicate Queued(s: State, p: Playlist, mode: Mode, i: nat) {
    && Valid(s) && s.cursor.Some? && s.mode == mode
    && s.Find(s.cursor.value.playlist) == Some(p) && i < |p.items|
    && s.cursor.value.pending.Some? && s.cursor.value.pending.value != Backward
    && s.TargetPosition(s.cursor.value.pending.value) == Some(i)
  }

  /** A forward poll is due and will stop. */
  ghost predicate Spent(s: State, p: Playlist) {
    && Valid(s) && s.cursor.Some? && s.Find(s.cursor.value.playlist) == Some(p)
    && s.cursor.value.pending == Some(Forward)
    && s.TargetPosition(Forward) == None
  }

  /** One item pulled, and then finished or failed. */
  function Round(s: State, failed: bool): State {
    if failed then s.Poll().0.Failed() else s.Poll().0.Finished()
  }

  function Rounds(s: State, failed: bool, k: nat): State
    decreases k
  {
    if k == 0 then s else Rounds(Round(s, failed), failed, k - 1)
  }

  lemma OneRound(s: State, p: Playlist, mode: Mode, i: nat, failed: bool)
    requires Queued(s, p, mode, i)
    requires failed && mode == Loop ==> s.cursor.value.failures + 1 < |p.items|
    ensures s.Poll().1 == Playing(p.items[i])
    ensures var s' := Round(s, failed);
            && (i + 1 < |p.items| ==> Queued(s', p, mode, i + 1))
            && (i + 1 == |p.items| && mode == Loop ==> Queued(s', p, mode, 0))
            && (i + 1 == |p.items| && mode == Sequential ==> Spent(s', p))
            && s'.cursor.Some? && (failed && mode == Loop ==> s'.cursor.value.failures == s.cursor.value.failures + 1)
  {
    PollKeepsValid(s);
    var polled := s.Poll().0;
    OutcomeKeepsValid(polled);
    FoundItems(s, s.cursor.value.playlist);
    IndexUnique(p.items, i);
    hide Valid;
    assert polled.CurrentIndex() == Some(i);
  }

  lemma QueuedPlays(s: State, p: Playlist, mode: Mode, i: nat)
    requires Queued(s, p, mode, i)
    ensures i < |p.items| && s.cursor.Some? && s.Poll().1 == Playing(p.items[i])
  {
  }

  lemma SpentStops(s: State, p: Playlist)
    requires Spent(s, p)
    ensures s.Poll().1 == Nothing && s.Poll().0.cursor.None?
  {
  }

  /** `a` modulo `n`, by taking `n` away. */
  function Wrap(a: nat, n: nat): (r: nat)
    requires n > 0
    ensures r < n
  {
    if a < n then a else Wrap(a - n, n)
  }

  /** The index `k` turns after `i` in a cycle of `n`. */
  function Turn(i: nat, k: nat, n: nat): (r: nat)
    requires n > 0
    ensures r < n
  {
    Wrap(i + k, n)
  }

  lemma TurnOn(i: nat, k: nat, n: nat)
    requires i < n
    ensures Turn(i, 0, n) == i
    ensures Turn(i, k + 1, n) == Turn(if i + 1 < n then i + 1 else 0, k, n)
  {
  }

  /** In loop mode, item `(i + k) mod n` plays at the k-th poll, for as long as playback finishes items. */
  lemma {:induction false} LoopOrder(s: State, p: Playlist, i: nat, k: nat)
    requires Queued(s, p, Loop, i)
    ensures Queued(Rounds(s, false, k), p, Loop, Turn(i, k, |p.items|))
    ensures Rounds(s, false, k).Poll().1 == Playing(p.items[Turn(i, k, |p.items|)])
    decreases k
  {
    hide Queued, Spent, Valid, State.Poll, State.Failed, State.Finished, State.Find, Round, Turn;
    QueuedPlays(s, p, Loop, i);
    TurnOn(i, if k > 0 then k - 1 else 0, |p.items|);
    if k > 0 {
      OneRound(s, p, Loop, i, false);
      LoopOrder(Round(s, false), p, if i + 1 < |p.items| then i + 1 else 0, k - 1);
    }
  }

  /** In sequential mode, items play in order to the last, whether they finish or fail. */
  lemma {:induction false} SequentialOrder(s: State, p: Playlist, i: nat, k: nat, failed: bool)
    requires Queued(s, p, Sequential, i) && i + k < |p.items|
    ensures Queued(Rounds(s, failed, k), p, Sequential, i + k)
    ensures Rounds(s, failed, k).Poll().1 == Playing(p.items[i + k])
    decreases k
  {
    hide Queued, Spent, Valid, State.Poll, State.Failed, State.Finished, State.Find, Round;
    QueuedPlays(s, p, Sequential, i);
    if k > 0 {
      OneRound(s, p, Sequential, i, failed);
      SequentialOrder(Round(s, failed), p, i + 1, k - 1, failed);
    }
  }

  /** ... and then playback stops. */
  lemma SequentialStops(s: State, p: Playlist, i: nat, failed: bool)
    requires Queued(s, p, Sequential, i)
    ensures Rounds(s, failed, |p.items| - i).Poll().1 == Nothing
    ensures Rounds(s, failed, |p.items| - i).Poll().0.cursor.None?
  {
    hide Queued, Spent, Valid, State.Poll, State.Failed, State.Finished, State.Find, Round, Rounds;
    QueuedPlays(s, p, Sequential, i);
    var last := |p.items| - 1;
    SequentialOrder(s, p, i, last - i, failed);
    OneRound(Rounds(s, failed, last - i), p, Sequential, last, failed);
    RoundsAdd(s, failed, last - i);
    SpentStops(Rounds(s, failed, last - i + 1), p);
  }

  /** In loop mode with every item failing, item `(i + k) mod n` is the k-th one tried, for each k below n. */
  lemma {:induction false} LoopFailures(s: State, p: Playlist, i: nat, k: nat)
    requires Queued(s, p, Loop, i) && s.cursor.value.failures + k < |p.items|
    ensures Queued(Rounds(s, true, k), p, Loop, Turn(i, k, |p.items|))
    ensures Rounds(s, true, k).cursor.Some? && Rounds(s, true, k).cursor.value.failures == s.cursor.value.failures + k
    ensures Rounds(s, true, k).Poll().1 == Playing(p.items[Turn(i, k, |p.items|)])
    decreases k
  {
    hide Queued, Spent, Valid, State.Poll, State.Failed, State.Finished, State.Find, Round, Turn;
    QueuedPlays(s, p, Loop, i);
    TurnOn(i, if k > 0 then k - 1 else 0, |p.items|);
    if k > 0 {
      OneRound(s, p, Loop, i, true);
      LoopFailures(Round(s, true), p, if i + 1 < |p.items| then i + 1 else 0, k - 1);
    }
  }

  lemma LastFailure(s: State, p: Playlist, i: nat)
    requires Queued(s, p, Loop, i) && s.cursor.value.failures + 1 == |p.items|
    ensures Round(s, true).cursor.None?
  {
    FoundItems(s, s.cursor.value.playlist);
    IndexUnique(p.items, i);
    hide Valid;
    var polled := s.Poll().0;
    assert polled.Find(s.cursor.value.playlist) == Some(p);
    assert polled.cursor.value.failures == s.cursor.value.failures;
  }

  lemma {:induction false} RoundsAdd(s: State, failed: bool, k: nat)
    ensures Rounds(s, failed, k + 1) == Round(Rounds(s, failed, k), failed)
    decreases k
  {
    hide Round, State.Poll;
    if k > 0 { RoundsAdd(Round(s, failed), failed, k - 1); }
  }

  /** ... and the n-th failure in a row stops playback, and no earlier one does. */
  lemma LoopStopsAtTheLastFailure(s: State, p: Playlist, i: nat)
    requires Queued(s, p, Loop, i) && s.cursor.value.failures == 0
    ensures forall k :: 0 <= k < |p.items| ==> Rounds(s, true, k).cursor.Some?
    ensures Rounds(s, true, |p.items|).cursor.None?
  {
    hide Queued, Spent, Valid, State.Poll, State.Failed, State.Finished, State.Find, Round, Rounds;
    QueuedPlays(s, p, Loop, i);
    var n := |p.items|;
    forall k | 0 <= k < n ensures Rounds(s, true, k).cursor.Some? { LoopFailures(s, p, i, k); }
    LoopFailures(s, p, i, n - 1);
    LastFailure(Rounds(s, true, n - 1), p, Turn(i, n - 1, n));
    RoundsAdd(s, true, n - 1);
  }

  /** The n polls of one loop cycle try every item, each exactly once. */
  lemma LoopCycleTriesEachOnce(i: nat, j: nat, n: nat)
    requires i < n && j < n
    ensures exists k :: 0 <= k < n && Turn(i, k, n) == j
    ensures forall k, l :: 0 <= k < n && 0 <= l < n && Turn(i, k, n) == Turn(i, l, n) ==> k == l
  {
    forall k | 0 <= k < n ensures Turn(i, k, n) == if i + k < n then i + k else i + k - n {
      if i + k >= n { assert Wrap(i + k - n, n) == i + k - n; }
    }
    assert Turn(i, if i <= j then j - i else j + n - i, n) == j;
  }

  // ----- from a start -----

  /** Where a start at `from`, or at the front, begins; nowhere if there is no such item. */
  function StartPosition(p: Playlist, from: Option<nat>): Option<nat> {
    if p.items == [] then None
    else if from.None? then Some(0)
    else ItemIndex(p.items, from.value)
  }

  /** A start queues its position in sequential mode, and in loop mode once the mode is set. */
  lemma StartQueues(s: State, id: nat, from: Option<nat>, mode: Mode)
    requires Valid(s) && s.Stop().Find(id).Some?
    requires StartPosition(s.Stop().Find(id).value, from).Some?
    ensures var p := s.Stop().Find(id).value;
            var started := Step(Step(s, OpStart(id, from)), OpSetMode(mode));
            && Queued(started, p, mode, StartPosition(p, from).value)
            && started.cursor.value.failures == 0
            && Step(s, OpStart(id, from)).mode == Sequential
  {
    StartKeepsValid(s, id, from);
    hide Valid;
    StepKeepsValid(s.StartAt(id, from), OpSetMode(mode));
  }

  /** Started in sequential mode, items play from the position on to the last, failing or not, and then playback stops. */
  lemma SequentialFromAStart(s: State, id: nat, from: Option<nat>, failed: bool, k: nat)
    requires Valid(s) && s.Stop().Find(id).Some?
    requires StartPosition(s.Stop().Find(id).value, from).Some?
    ensures var p := s.Stop().Find(id).value;
            var at := StartPosition(p, from).value;
            var started := Step(Step(s, OpStart(id, from)), OpSetMode(Sequential));
            && (at + k < |p.items| ==> Rounds(started, failed, k).Poll().1 == Playing(p.items[at + k]))
            && (at + k == |p.items| ==> Rounds(started, failed, k).Poll().1 == Nothing
                                        && Rounds(started, failed, k).Poll().0.cursor.None?)
  {
    hide Queued, Rounds, Step, StartPosition, State.Poll, Valid;
    StartQueues(s, id, from, Sequential);
    var p := s.Stop().Find(id).value;
    var at := StartPosition(p, from).value;
    var started := Step(Step(s, OpStart(id, from)), OpSetMode(Sequential));
    if at + k < |p.items| { SequentialOrder(started, p, at, k, failed); }
    if at + k == |p.items| { SequentialStops(started, p, at, failed); }
  }

  /**
   Started and set to loop, the k-th poll plays item `(at + k) mod n`; failing every time, each of the n items
   is tried once and the n-th failure, no earlier one, stops playback.
   */
  lemma LoopFromAStart(s: State, id: nat, from: Option<nat>, k: nat)
    requires Valid(s) && s.Stop().Find(id).Some?
    requires StartPosition(s.Stop().Find(id).value, from).Some?
    ensures var p := s.Stop().Find(id).value;
            var at, n := StartPosition(p, from).value, |p.items|;
            var started := Step(Step(s, OpStart(id, from)), OpSetMode(Loop));
            && n > 0
            && Rounds(started, false, k).Poll().1 == Playing(p.items[Turn(at, k, n)])
            && (k < n ==> Rounds(started, true, k).Poll().1 == Playing(p.items[Turn(at, k, n)])
                          && Rounds(started, true, k).cursor.Some?)
            && Rounds(started, true, n).cursor.None?
  {
    hide Queued, Rounds, Step, StartPosition, State.Poll, Valid, Turn;
    StartQueues(s, id, from, Loop);
    var p := s.Stop().Find(id).value;
    var at := StartPosition(p, from).value;
    var started := Step(Step(s, OpStart(id, from)), OpSetMode(Loop));
    QueuedPlays(started, p, Loop, at);
    LoopOrder(started, p, at, k);
    if k < |p.items| { LoopFailures(started, p, at, k); }
    LoopStopsAtTheLastFailure(started, p, at);
  }

  // ----- failures run out -----

  function Size(s: State): nat {
    if s.cursor.None? || s.Find(s.cursor.value.playlist).None? then 0
    else |s.Find(s.cursor.value.playlist).value.items|
  }

  function Ahead(target: Option<nat>, n: nat): nat {
    if target.Some? && target.value < n then n - target.value else 0
  }

  /** How many more failures can take effect before playback stops, if no more items are removed. */
  function Left(s: State): nat
    requires s.cursor.Some?
  {
    var c, n := s.cursor.value, Size(s);
    var afterRemoval := if c.currentRemoved && c.pending.None? then 1 else 0;
    if s.mode == Loop then
      if afterRemoval == 1 then 1 + (if n > 1 then n else 1)
      else if n > c.failures + 1 then n - c.failures else 1
    else if c.pending.Some? then Ahead(s.TargetPosition(c.pending.value), n)
    else if c.currentRemoved then 1 + Ahead(Some(c.position), n)
    else Ahead(s.CurrentIndex(), n)
  }

  /** Lexicographic in the items left and the failures left among them, folded into one number. */
  function Fuel(s: State): nat {
    if s.cursor.None? then 0 else Size(s) * (Size(s) + 3) / 2 + Left(s)
  }

  predicate Quiet(op: Op) { op.OpPoll? || op.OpFailed? || op.OpRemove? }

  function EffectiveFailures(s: State, ops: seq<Op>): nat
    decreases |ops|
  {
    if ops == [] then 0
    else (if ops[0].OpFailed? && s.Awaiting() then 1 else 0) + EffectiveFailures(Step(s, ops[0]), ops[1..])
  }

  lemma LeftBound(s: State)
    requires Valid(s) && s.cursor.Some?
    ensures Left(s) <= Size(s) + 2
  {
  }

  lemma FailureBurnsFuel(s: State)
    requires Valid(s) && s.Awaiting()
    ensures Fuel(s.Failed()) < Fuel(s)
  {
    var s' := s.Failed();
    FoundItems(s, s.cursor.value.playlist);
    if s'.cursor.Some? {
      assert Size(s') == Size(s);
      assert Left(s') < Left(s);
    }
  }

  lemma PollKeepsFuel(s: State)
    requires Valid(s)
    ensures Fuel(s.Poll().0) <= Fuel(s)
  {
  }

  lemma TrianglesStep(n: nat)
    requires n > 0
    ensures n * (n + 3) / 2 == (n - 1) * (n + 2) / 2 + n + 1
  {
    assert n * (n + 3) == (n - 1) * (n + 2) + 2 * (n + 1);
  }

  lemma TrianglesExpand(n: nat)
    ensures (n + 1) * (n + 4) / 2 == n * (n + 3) / 2 + n + 2
  {
    assert (n + 1) * (n + 4) == n * (n + 3) + 2 * (n + 2);
  }

  lemma RemovalKeepsFuel(s: State, id: nat, item: nat)
    requires Valid(s)
    ensures Fuel(s.RemoveItem(id, item)) <= Fuel(s)
  {
    var s' := s.RemoveItem(id, item);
    RemoveKeepsValid(s, id, item);
    if s.cursor.Some? && s' != s {
      LeftBound(s');
      if s.cursor.value.playlist == id {
        RemovalShrinks(s, id, item);
        TrianglesStep(Size(s));
        hide Left, Valid, Size, State.RemoveItem;
      } else {
        SamePlayback(s, s');
      }
    }
  }

  lemma RemovalShrinks(s: State, id: nat, item: nat)
    requires Valid(s) && s.cursor.Some? && s.cursor.value.playlist == id && s.RemoveItem(id, item) != s
    ensures s.RemoveItem(id, item).cursor.Some?
    ensures Size(s) > 0 && Size(s.RemoveItem(id, item)) == Size(s) - 1
  {
    RemoveKeepsValid(s, id, item);
  }

  lemma SamePlayback(s: State, s': State)
    requires s.cursor.Some? && s'.cursor == s.cursor && s'.mode == s.mode
    requires s'.Find(s.cursor.value.playlist) == s.Find(s.cursor.value.playlist)
    ensures Fuel(s') == Fuel(s)
  {
    assert Size(s') == Size(s) && s'.CurrentIndex() == s.CurrentIndex();
    assert Left(s') == Left(s);
  }

  /**
   A run of polls, failures and removals, however long and in whatever order, has at most
   (n + 1)(n + 4) / 2 failures that take effect, n being the items of the playing playlist.
   */
  lemma FailuresRunOut(s: State, ops: seq<Op>)
    requires Valid(s) && forall k :: 0 <= k < |ops| ==> Quiet(ops[k])
    ensures EffectiveFailures(s, ops) <= (Size(s) + 1) * (Size(s) + 4) / 2
    ensures s.cursor.None? ==> EffectiveFailures(s, ops) == 0
  {
    FuelBoundsFailures(s, ops);
    if s.cursor.Some? {
      LeftBound(s);
      TrianglesExpand(Size(s));
      hide Left, Valid, Size;
    }
  }

  lemma {:induction false} FuelBoundsFailures(s: State, ops: seq<Op>)
    requires Valid(s) && forall k :: 0 <= k < |ops| ==> Quiet(ops[k])
    ensures EffectiveFailures(s, ops) <= Fuel(s)
    decreases |ops|
  {
    if ops != [] {
      var s' := Step(s, ops[0]);
      StepKeepsValid(s, ops[0]);
      FuelBoundsFailures(s', ops[1..]);
      assert Quiet(ops[0]);
      match ops[0]
      case OpPoll => PollKeepsFuel(s);
      case OpRemove(id, item) => RemovalKeepsFuel(s, id, item);
      case OpFailed => if s.Awaiting() { FailureBurnsFuel(s); }
    }
  }

  // ----- documents -----

  /** Loading what was serialized gives the same name and items, clean, under new ids, and touches nothing else. */
  lemma DocumentRoundTrip(s: State, p: Playlist)
    requires Valid(s) && s.nextPlaylistId < MAX_U64 && s.nextItemId + |p.items| <= MAX_U64
    ensures var s' := s.Load(DocumentOf(p));
            && s'.Find(s.nextPlaylistId + 1).Some?
            && var q := s'.Find(s.nextPlaylistId + 1).value;
            && DocumentOf(q) == DocumentOf(p) && !q.IsDirty()
            && q.name == p.name && |q.items| == |p.items|
            && (forall k :: 0 <= k < |q.items| ==> q.items[k].spec == p.items[k].spec)
            && (forall k :: 0 <= k < |q.items| ==> q.items[k].id > s.nextItemId)
            && (forall id: nat :: id <= s.nextPlaylistId ==> s'.Find(id) == s.Find(id))
  {
    var d := DocumentOf(p);
    var s' := s.Load(d);
    var q := Playlist(s.nextPlaylistId + 1, d.name, Numbered(d.items, s.nextItemId), 0, 0, 0);
    GrownStorage(s, q, s');
    assert DocumentOf(q).items == d.items;
  }
}
