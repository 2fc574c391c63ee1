/**
 Authenticating an update channel against a stored floor of versions and time.

 The host decides the time, the chain and the target of every check; whether a chain
 verifies is the metadata client's answer and comes in with the check.
 */
module TrustFloor {
  import opened ChannelNames
  import opened Wrappers

  datatype Floor = Floor(root: nat, timestamp: nat, snapshot: nat, targets: nat, verifiedAt: int)

  /** The record on disk. A field it does not name reads as zero. */
  datatype Record =
    | Absent
    | Unreadable
    | Stored(root: Option<nat>, timestamp: Option<nat>, snapshot: Option<nat>, targets: Option<nat>,
             verifiedAt: Option<int>)

  datatype Error =
    | Trust
    | TimeRollback(floor: int, offered: int)
    | Refresh
    | IncompleteRefresh(role: Role)
    | Rollback(role: Role, floorVersion: nat, offeredVersion: nat)
    | Target

  datatype Attempt = Skipped | Authenticated(generationId: string, verifiedAt: int)

  /** The versions a refresh left trusted; only root is always there. */
  datatype Trusted = Trusted(root: nat, timestamp: Option<nat>, snapshot: Option<nat>, targets: Option<nat>)

  /** All the host decides about one check, and whether the record could be written. */
  datatype Check = Check(networkTime: Option<int>, chain: Option<Trusted>, writable: bool, target: Option<string>)

  function OrZero(v: Option<nat>): nat { if v.Some? then v.value else 0 }

  /** Only an absent record is a floor of zero: one that cannot be read is a refusal. */
  function ReadFloor(r: Record): Option<Floor> {
    match r
    case Absent => Some(Floor(0, 0, 0, 0, 0))
    case Unreadable => None
    case Stored(root, timestamp, snapshot, targets, at) =>
      Some(Floor(OrZero(root), OrZero(timestamp), OrZero(snapshot), OrZero(targets), if at.Some? then at.value else 0))
  }

  function Written(f: Floor): Record {
    Stored(Some(f.root), Some(f.timestamp), Some(f.snapshot), Some(f.targets), Some(f.verifiedAt))
  }

  function FloorOf(t: Trusted, at: int): Result<Floor, Error> {
    if t.timestamp.None? then Err(IncompleteRefresh(Timestamp))
    else if t.snapshot.None? then Err(IncompleteRefresh(Snapshot))
    else if t.targets.None? then Err(IncompleteRefresh(Targets))
    else Ok(Floor(t.root, t.timestamp.value, t.snapshot.value, t.targets.value, at))
  }

  function Version(f: Floor, role: Role): nat {
    match role
    case Root => f.root
    case Timestamp => f.timestamp
    case Snapshot => f.snapshot
    case Targets => f.targets
  }

  /** No role and no time of `a` is above `b`'s. */
  ghost predicate AtMost(a: Floor, b: Floor) {
    (forall role :: Version(a, role) <= Version(b, role)) && a.verifiedAt <= b.verifiedAt
  }

  lemma AtMostExactly(a: Floor, b: Floor)
    ensures AtMost(a, b) <==> a.root <= b.root && a.timestamp <= b.timestamp && a.snapshot <= b.snapshot
                              && a.targets <= b.targets && a.verifiedAt <= b.verifiedAt
  {
    if AtMost(a, b) {
      assert Version(a, Root) <= Version(b, Root) && Version(a, Timestamp) <= Version(b, Timestamp);
      assert Version(a, Snapshot) <= Version(b, Snapshot) && Version(a, Targets) <= Version(b, Targets);
    }
  }

  const ROLES: seq<Role> := [Root, Timestamp, Snapshot, Targets]

  /** Refuses `offered` by the first role in which it is below the floor. */
  method Admit(floor: Floor, offered: Floor) returns (refused: Option<Error>)
    ensures refused.None? <==> forall role :: Version(floor, role) <= Version(offered, role)
    ensures refused.Some? ==>
              exists k :: 0 <= k < 4 && refused == Some(Rollback(ROLES[k], Version(floor, ROLES[k]), Version(offered, ROLES[k])))
                          && Version(offered, ROLES[k]) < Version(floor, ROLES[k])
                          && forall j :: 0 <= j < k ==> Version(floor, ROLES[j]) <= Version(offered, ROLES[j])
    ensures refused == Admission(floor, offered)
  {
    assert ROLES[0] == Root && ROLES[1] == Timestamp && ROLES[2] == Snapshot && ROLES[3] == Targets;
    for k := 0 to 4
      invariant forall j :: 0 <= j < k ==> Version(floor, ROLES[j]) <= Version(offered, ROLES[j])
    {
      if Version(offered, ROLES[k]) < Version(floor, ROLES[k]) {
        return Some(Rollback(ROLES[k], Version(floor, ROLES[k]), Version(offered, ROLES[k])));
      }
    }
    forall role ensures Version(floor, role) <= Version(offered, role) {
      var k := match role case Root => 0 case Timestamp => 1 case Snapshot => 2 case Targets => 3;
      assert ROLES[k] == role;
    }
    refused := None;
  }

  function Admission(floor: Floor, offered: Floor): Option<Error> {
    if offered.root < floor.root then Some(Rollback(Root, floor.root, offered.root))
    else if offered.timestamp < floor.timestamp then Some(Rollback(Timestamp, floor.timestamp, offered.timestamp))
    else if offered.snapshot < floor.snapshot then Some(Rollback(Snapshot, floor.snapshot, offered.snapshot))
    else if offered.targets < floor.targets then Some(Rollback(Targets, floor.targets, offered.targets))
    else None
  }

  function Max(a: int, b: int): int { if a < b then b else a }

  function RaisedTo(f: Floor, offered: Floor): Floor {
    Floor(Max(f.root, offered.root), Max(f.timestamp, offered.timestamp), Max(f.snapshot, offered.snapshot),
          Max(f.targets, offered.targets), Max(f.verifiedAt, offered.verifiedAt))
  }

  /** The chain a check admits against `r`, if its time, its chain and every version pass. */
  function Admitted(r: Record, c: Check): Option<Floor> {
    if c.networkTime.None? || ReadFloor(r).None? || c.chain.None? then None
    else if c.networkTime.value < ReadFloor(r).value.verifiedAt then None
    else match FloorOf(c.chain.value, c.networkTime.value)
         case Err(_) => None
         case Ok(offered) => if Admission(ReadFloor(r).value, offered).None? then Some(offered) else None
  }

  /** The record a check leaves behind, whatever becomes of its manifest. */
  function Recorded(r: Record, c: Check): Record {
    if Admitted(r, c).Some? && c.writable then Written(RaisedTo(ReadFloor(r).value, Admitted(r, c).value)) else r
  }

  class Channel {
    var record: Record

    constructor (found: Record)
      ensures record == found
    {
      record := found;
    }

    /** One check: read the floor, refuse an earlier time, verify, refuse a rollback, record, resolve. */
    method Authenticate(c: Check) returns (r: Result<Attempt, Error>)
      modifies this
      ensures record == Recorded(old(record), c)
      ensures r == Ok(Skipped) <==> c.networkTime.None?
      ensures r.Ok? && r.value.Authenticated? <==> Admitted(old(record), c).Some? && c.writable && c.target.Some?
      ensures r.Ok? && r.value.Authenticated? ==> r.value == Authenticated(c.target.value, c.networkTime.value)
      ensures r.Err? && r.error.Rollback? ==>
                && c.chain.Some? && ReadFloor(old(record)).Some?
                && r.error.offeredVersion < r.error.floorVersion
                && var chain, floor := c.chain.value, ReadFloor(old(record)).value;
                match r.error.role
                case Root => r.error.offeredVersion == chain.root && r.error.floorVersion == floor.root
                case Timestamp => Some(r.error.offeredVersion) == chain.timestamp && r.error.floorVersion == floor.timestamp
                case Snapshot => Some(r.error.offeredVersion) == chain.snapshot && r.error.floorVersion == floor.snapshot
                case Targets => Some(r.error.offeredVersion) == chain.targets && r.error.floorVersion == floor.targets
      ensures r.Err? && r.error.IncompleteRefresh? ==>
                && c.chain.Some?
                && var chain := c.chain.value;
                match r.error.role
                case Root => false
                case Timestamp => chain.timestamp.None?
                case Snapshot => chain.timestamp.Some? && chain.snapshot.None?
                case Targets => chain.timestamp.Some? && chain.snapshot.Some? && chain.targets.None?
      ensures r.Err? && r.error.TimeRollback? ==>
                && ReadFloor(old(record)).Some?
                && c.networkTime.value < ReadFloor(old(record)).value.verifiedAt == r.error.floor
    {
      if c.networkTime.None? { return Ok(Skipped); }
      var at := c.networkTime.value;
      var floor := ReadFloor(record);
      if floor.None? { return Err(Trust); }
      if at < floor.value.verifiedAt { return Err(TimeRollback(floor.value.verifiedAt, at)); }
      if c.chain.None? { return Err(Refresh); }
      var offered := FloorOf(c.chain.value, at);
      if offered.Err? { return Err(offered.error); }
      var refused := Admit(floor.value, offered.value);
      if refused.Some? { return Err(refused.value); }
      if !c.writable { return Err(Trust); }
      record := Written(RaisedTo(floor.value, offered.value));
      if c.target.None? { return Err(Error.Target); }
      r := Ok(Authenticated(c.target.value, at));
    }
  }

  // ----- runs of checks; a restart keeps nothing but the record -----

  function After(r: Record, checks: seq<Check>): Record
    decreases |checks|
  {
    if checks == [] then r else After(Recorded(r, checks[0]), checks[1..])
  }

  /** The chain the last of `checks` admitted and recorded, if it did. */
  function Accepted(r: Record, checks: seq<Check>): Option<Floor>
    requires checks != []
  {
    var last := checks[|checks| - 1];
    var before := After(r, checks[..|checks| - 1]);
    if last.writable then Admitted(before, last) else None
  }

  lemma RecordedRises(r: Record, c: Check)
    ensures ReadFloor(Recorded(r, c)).Some? <==> ReadFloor(r).Some?
    ensures ReadFloor(r).Some? ==> AtMost(ReadFloor(r).value, ReadFloor(Recorded(r, c)).value)
  {
  }

  /** Over any run of checks against any host no field of the floor drops, and an unreadable record stays a refusal. */
  lemma {:induction false} FloorNeverDrops(r: Record, checks: seq<Check>)
    ensures ReadFloor(After(r, checks)).Some? <==> ReadFloor(r).Some?
    ensures ReadFloor(r).Some? ==> AtMost(ReadFloor(r).value, ReadFloor(After(r, checks)).value)
    decreases |checks|
  {
    if checks != [] {
      RecordedRises(r, checks[0]);
      FloorNeverDrops(Recorded(r, checks[0]), checks[1..]);
    }
  }

  lemma {:induction false} AfterSplits(r: Record, checks: seq<Check>, more: seq<Check>)
    ensures After(r, checks + more) == After(After(r, checks), more)
    decreases |checks|
  {
    if checks == [] {
      assert checks + more == more;
    } else {
      assert (checks + more)[1..] == checks[1..] + more;
      AfterSplits(Recorded(r, checks[0]), checks[1..], more);
    }
  }

  /** What a check admits is the chain's own four versions, and its time. */
  lemma AdmittedIsTheChain(r: Record, c: Check)
    requires Admitted(r, c).Some?
    ensures c.chain.Some? && c.networkTime.Some?
    ensures var f, chain := Admitted(r, c).value, c.chain.value;
            && f.root == chain.root && Some(f.timestamp) == chain.timestamp && Some(f.snapshot) == chain.snapshot
            && Some(f.targets) == chain.targets && Some(f.verifiedAt) == c.networkTime
  {
  }

  /**
   A chain that is admitted and recorded is exactly the floor from then on, whatever its manifest came to: the
   record holds the chain's own version of each role, and the time.
   */
  lemma AcceptedIsTheFloor(r: Record, checks: seq<Check>)
    requires checks != [] && Accepted(r, checks).Some?
    ensures ReadFloor(After(r, checks)) == Accepted(r, checks)
    ensures var c := checks[|checks| - 1];
            && c.chain.Some?
            && After(r, checks)
               == Stored(Some(c.chain.value.root), c.chain.value.timestamp, c.chain.value.snapshot, c.chain.value.targets,
                         c.networkTime)
  {
    AdmittedIsTheChain(After(r, checks[..|checks| - 1]), checks[|checks| - 1]);
    var last := |checks| - 1;
    assert checks == checks[..last] + [checks[last]];
    AfterSplits(r, checks[..last], [checks[last]]);
    assert [checks[last]][1..] == [];
  }

  /** The versions and the time of accepted chains never decrease, role by role, however many checks lie between. */
  lemma AcceptedNeverDecreases(r: Record, checks: seq<Check>, more: seq<Check>)
    requires checks != [] && more != []
    requires Accepted(r, checks).Some? && Accepted(r, checks + more).Some?
    ensures AtMost(Accepted(r, checks).value, Accepted(r, checks + more).value)
    ensures var a, b := checks[|checks| - 1], more[|more| - 1];
            && a.chain.Some? && b.chain.Some? && a.networkTime.Some? && b.networkTime.Some?
            && a.networkTime.value <= b.networkTime.value
            && Complete(a.chain.value) && Complete(b.chain.value)
            && a.chain.value.root <= b.chain.value.root
            && a.chain.value.timestamp.value <= b.chain.value.timestamp.value
            && a.chain.value.snapshot.value <= b.chain.value.snapshot.value
            && a.chain.value.targets.value <= b.chain.value.targets.value
  {
    AdmittedIsTheChain(After(r, checks[..|checks| - 1]), checks[|checks| - 1]);
    assert (checks + more)[|checks + more| - 1] == more[|more| - 1];
    AdmittedIsTheChain(After(r, (checks + more)[..|checks + more| - 1]), more[|more| - 1]);
    AcceptedIsTheFloor(r, checks);
    AcceptedIsTheFloor(r, checks + more);
    AfterSplits(r, checks, more);
    FloorNeverDrops(After(r, checks), more);
    AtMostExactly(Accepted(r, checks).value, Accepted(r, checks + more).value);
  }

  predicate Complete(t: Trusted) { t.timestamp.Some? && t.snapshot.Some? && t.targets.Some? }

  /**
   A check is admitted exactly when the record can be read, the time is not before the recorded one, and the chain
   has each role's version and none below the recorded one; a field the record does not name counts as zero.
   */
  lemma AdmittedExactly(r: Record, c: Check)
    ensures Admitted(r, c).Some? <==>
              && c.networkTime.Some? && c.chain.Some? && Complete(c.chain.value)
              && var at, chain := c.networkTime.value, c.chain.value;
              match r
              case Absent => at >= 0
              case Unreadable => false
              case Stored(root, timestamp, snapshot, targets, verifiedAt) =>
                && (if verifiedAt.Some? then verifiedAt.value else 0) <= at
                && OrZero(root) <= chain.root && OrZero(timestamp) <= chain.timestamp.value
                && OrZero(snapshot) <= chain.snapshot.value && OrZero(targets) <= chain.targets.value
  {
  }
}
