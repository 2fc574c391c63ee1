/**
 Applies, janitors and crashes over one install root, step by step.

 An apply claims its generation, lands its files one at a time in any order, writes the
 record last and drops the claim. A janitor checks the claims, removes the record, then the
 files one at a time. Anything may crash between two steps; the disk is all that survives.
 */
module InstallProtocol {
  import opened Wrappers
  import opened InstallDisk

  /** What every generation id stands for: the artifacts of the manifest whose digest it is. */
  type Plans = string -> seq<Artifact>

  datatype Apply = Apply(id: string, placed: set<nat>)

  datatype Stage = Checked | RecordGone

  datatype Collecting = Collecting(id: string, stage: Stage)

  datatype Root = Root(disk: Disk, claims: Claims, applies: map<nat, Apply>, janitors: map<nat, Collecting>)

  datatype Step =
    | Claim(apply: nat, id: string)
    | Land(apply: nat, index: nat, bytes: Bytes)
    | Publish(apply: nat)
    | Leave(apply: nat)
    | Check(janitor: nat, id: string)
    | RemoveRecord(janitor: nat)
    | RemoveFile(janitor: nat, path: string)
    | Done(janitor: nat)
    | Crash

  predicate Collected(r: Root, id: string) { exists j :: j in r.janitors && r.janitors[j].id == id }

  predicate Enabled(plans: Plans, r: Root, s: Step) {
    match s
    case Claim(a, _) => a !in r.applies
    case Land(a, i, bytes) =>
      a in r.applies && PathsDistinct(plans(r.applies[a].id)) && i < |plans(r.applies[a].id)|
      && i !in r.applies[a].placed && plans(r.applies[a].id)[i].sha256 == Sha256(bytes)
    case Publish(a) =>
      a in r.applies && PathsDistinct(plans(r.applies[a].id))
      && forall i :: 0 <= i < |plans(r.applies[a].id)| ==> i in r.applies[a].placed
    case Leave(a) => a in r.applies
    case Check(j, id) => j !in r.janitors && id !in r.claims
    case RemoveRecord(j) => j in r.janitors && r.janitors[j].stage == Checked
    case RemoveFile(j, _) => j in r.janitors && r.janitors[j].stage == RecordGone
    case Done(j) => j in r.janitors
    case Crash => true
  }

  function Next(plans: Plans, r: Root, s: Step): Root
    requires Enabled(plans, r, s)
  {
    match s
    case Claim(a, id) => r.(claims := Claimed(r.claims, id), applies := r.applies[a := Apply(id, {})])
    case Land(a, i, bytes) =>
      var apply := r.applies[a];
      r.(disk := Write(r.disk, apply.id, plans(apply.id)[i].path, bytes),
         applies := r.applies[a := apply.(placed := apply.placed + {i})])
    case Publish(a) =>
      var apply := r.applies[a];
      r.(disk := WriteRecord(r.disk, apply.id, AllInstalled(plans(apply.id))))
    case Leave(a) => r.(claims := Released(r.claims, r.applies[a].id), applies := r.applies - {a})
    case Check(j, id) => r.(janitors := r.janitors[j := Collecting(id, Checked)])
    case RemoveRecord(j) =>
      var id := r.janitors[j].id;
      r.(disk := r.disk.(records := r.disk.records - {id}), janitors := r.janitors[j := Collecting(id, RecordGone)])
    case RemoveFile(j, path) => r.(disk := r.disk.(files := r.disk.files - {Place(r.janitors[j].id, path)}))
    case Done(j) => r.(janitors := r.janitors - {j})
    case Crash => r.(claims := map[], applies := map[], janitors := map[])
  }

  /** No claim is taken on a generation while a janitor is between its check and its last removal. */
  predicate Orderly(r: Root, s: Step) { s.Claim? ==> !Collected(r, s.id) }

  ghost predicate Reaches(plans: Plans, r: Root, steps: seq<Step>, r': Root)
    decreases |steps|
  {
    if steps == [] then r' == r
    else Enabled(plans, r, steps[0]) && Reaches(plans, Next(plans, r, steps[0]), steps[1..], r')
  }

  ghost predicate ReachesOrderly(plans: Plans, r: Root, steps: seq<Step>, r': Root)
    decreases |steps|
  {
    if steps == [] then r' == r
    else Enabled(plans, r, steps[0]) && Orderly(r, steps[0])
         && ReachesOrderly(plans, Next(plans, r, steps[0]), steps[1..], r')
  }

  // ----- the invariant -----

  function Applying(r: Root, id: string): set<nat> { set a | a in r.applies && r.applies[a].id == id }

  /** The claims are exactly the applies in progress, counted per generation. */
  ghost predicate ClaimsCount(r: Root) {
    && (forall id :: id in r.claims ==> r.claims[id] == |Applying(r, id)| > 0)
    && (forall a :: a in r.applies ==> r.applies[a].id in r.claims)
  }

  ghost predicate PlacedLanded(plans: Plans, r: Root) {
    forall a :: a in r.applies ==> LandedAll(plans, r.disk, r.applies[a])
  }

  ghost predicate LandedAll(plans: Plans, d: Disk, apply: Apply) {
    forall i :: i in apply.placed ==>
      i < |plans(apply.id)| && Landed(d, apply.id, plans(apply.id)[i].path, plans(apply.id)[i].sha256)
  }

  ghost predicate RecordsTrue(plans: Plans, d: Disk) {
    forall id :: id in d.records ==> RecordTrue(plans, d, id)
  }

  ghost predicate RecordTrue(plans: Plans, d: Disk, id: string)
    requires id in d.records
  {
    && d.records[id] == Record(RECORD_SCHEMA, id, AllInstalled(plans(id)))
    && PathsDistinct(plans(id))
    && (forall i :: 0 <= i < |plans(id)| ==> Landed(d, id, plans(id)[i].path, plans(id)[i].sha256))
  }

  ghost predicate JanitorsAlone(r: Root) {
    forall j :: j in r.janitors ==>
      && (forall a :: a in r.applies ==> r.applies[a].id != r.janitors[j].id)
      && (r.janitors[j].stage == RecordGone ==> r.janitors[j].id !in r.disk.records)
  }

  ghost predicate Inv(plans: Plans, r: Root) {
    ClaimsCount(r) && PlacedLanded(plans, r) && RecordsTrue(plans, r.disk) && JanitorsAlone(r)
  }

  lemma ClaimIsCounted(plans: Plans, r: Root, a: nat, id: string)
    requires ClaimsCount(r) && a !in r.applies
    ensures ClaimsCount(Next(plans, r, Claim(a, id)))
  {
    var r' := Next(plans, r, Claim(a, id));
    assert Applying(r', id) == Applying(r, id) + {a};
    if id !in r.claims { assert Applying(r, id) == {}; }
    forall other | other in r'.claims ensures r'.claims[other] == |Applying(r', other)| > 0 {
      if other != id { assert Applying(r', other) == Applying(r, other); }
    }
  }

  lemma ClaimKeepsInv(plans: Plans, r: Root, a: nat, id: string)
    requires Inv(plans, r) && a !in r.applies && !Collected(r, id)
    ensures Inv(plans, Next(plans, r, Claim(a, id)))
  {
    ClaimIsCounted(plans, r, a, id);
    hide ClaimsCount, RecordTrue, Applying;
    var r' := Next(plans, r, Claim(a, id));
    forall b | b in r'.applies ensures LandedAll(plans, r'.disk, r'.applies[b]) {
      if b != a { assert LandedAll(plans, r.disk, r.applies[b]); }
    }
  }

  lemma LeaveKeepsInv(plans: Plans, r: Root, a: nat)
    requires Inv(plans, r) && a in r.applies
    ensures Inv(plans, Next(plans, r, Leave(a)))
  {
    var r' := Next(plans, r, Leave(a));
    var id := r.applies[a].id;
    assert Applying(r', id) == Applying(r, id) - {a};
    forall other | other in r'.claims ensures r'.claims[other] == |Applying(r', other)| > 0 {
      if other != id { assert Applying(r', other) == Applying(r, other); }
    }
    forall b | b in r'.applies ensures r'.applies[b].id in r'.claims {
      if r'.applies[b].id == id { assert b in Applying(r', id); }
    }
  }

  /** What a plan's artifacts had in place, they still have. */
  ghost predicate Keeps(plans: Plans, d: Disk, d': Disk) {
    forall id, k :: 0 <= k < |plans(id)| && Landed(d, id, plans(id)[k].path, plans(id)[k].sha256) ==>
      Landed(d', id, plans(id)[k].path, plans(id)[k].sha256)
  }

  /** A file landed again for one generation has the bytes it had: its digest is the same. */
  lemma LandingKeeps(plans: Plans, d: Disk, id: string, i: nat, bytes: Bytes)
    requires PathsDistinct(plans(id)) && i < |plans(id)| && plans(id)[i].sha256 == Sha256(bytes)
    ensures Keeps(plans, d, Write(d, id, plans(id)[i].path, bytes))
    ensures Landed(Write(d, id, plans(id)[i].path, bytes), id, plans(id)[i].path, plans(id)[i].sha256)
  {
    forall other, k | 0 <= k < |plans(other)| && Landed(d, other, plans(other)[k].path, plans(other)[k].sha256)
      ensures Landed(Write(d, id, plans(id)[i].path, bytes), other, plans(other)[k].path, plans(other)[k].sha256)
    {
      if other == id && k != i { Different(plans(id), i, k); }
    }
  }

  lemma AppliesKept(plans: Plans, r: Root, d: Disk)
    requires PlacedLanded(plans, r) && Keeps(plans, r.disk, d)
    ensures PlacedLanded(plans, r.(disk := d))
  {
    hide Landed;
    forall b | b in r.applies ensures LandedAll(plans, d, r.applies[b]) {
      assert LandedAll(plans, r.disk, r.applies[b]);
    }
  }

  lemma RecordsKept(plans: Plans, d: Disk, d': Disk)
    requires RecordsTrue(plans, d) && Keeps(plans, d, d')
    requires forall id :: id in d'.records ==> id in d.records && d'.records[id] == d.records[id]
    ensures RecordsTrue(plans, d')
  {
    hide Landed, AllInstalled, PathsDistinct;
    forall id | id in d'.records ensures RecordTrue(plans, d', id) {
      assert RecordTrue(plans, d, id);
    }
  }

  lemma LandKeepsInv(plans: Plans, r: Root, a: nat, i: nat, bytes: Bytes)
    requires Inv(plans, r) && Enabled(plans, r, Land(a, i, bytes))
    ensures Inv(plans, Next(plans, r, Land(a, i, bytes)))
  {
    var r' := Next(plans, r, Land(a, i, bytes));
    LandingKeeps(plans, r.disk, r.applies[a].id, i, bytes);
    AppliesKept(plans, r, r'.disk);
    RecordsKept(plans, r.disk, r'.disk);
    ClaimsAlike(r, r');
    hide Keeps, Landed, RecordsTrue, PathsDistinct, PlacedLanded, ClaimsCount;
    OneMorePlaced(plans, r.(disk := r'.disk), a, i);
  }

  lemma OneMorePlaced(plans: Plans, r: Root, a: nat, i: nat)
    requires PlacedLanded(plans, r) && a in r.applies && i < |plans(r.applies[a].id)|
    requires var artifact := plans(r.applies[a].id)[i]; Landed(r.disk, r.applies[a].id, artifact.path, artifact.sha256)
    ensures PlacedLanded(plans, r.(applies := r.applies[a := r.applies[a].(placed := r.applies[a].placed + {i})]))
  {
    hide Landed;
    assert LandedAll(plans, r.disk, r.applies[a]);
  }

  lemma ClaimsAlike(r: Root, r': Root)
    requires ClaimsCount(r) && r'.claims == r.claims && r'.applies.Keys == r.applies.Keys
    requires forall a :: a in r.applies ==> r'.applies[a].id == r.applies[a].id
    ensures ClaimsCount(r')
  {
    assert forall other :: Applying(r', other) == Applying(r, other);
  }

  lemma Different(artifacts: seq<Artifact>, i: nat, k: nat)
    requires PathsDistinct(artifacts) && i < |artifacts| && i != k && k < |artifacts|
    ensures artifacts[k].path != artifacts[i].path
  {
    if k < i { assert artifacts[k].path != artifacts[i].path; }
  }

  lemma PublishKeepsInv(plans: Plans, r: Root, a: nat)
    requires Inv(plans, r) && Enabled(plans, r, Publish(a))
    ensures Inv(plans, Next(plans, r, Publish(a)))
  {
  }

  /** A janitor past the record removes a file of a generation nobody applies and no record names. */
  lemma RemovingKeepsInv(plans: Plans, r: Root, j: nat, path: string)
    requires Inv(plans, r) && Enabled(plans, r, RemoveFile(j, path))
    ensures Inv(plans, Next(plans, r, RemoveFile(j, path)))
  {
    hide ClaimsCount, AllInstalled, PathsDistinct;
    var r' := Next(plans, r, RemoveFile(j, path));
    assert ClaimsCount(r') by { hide *; ClaimsAlike(r, r'); }
    forall b | b in r'.applies ensures LandedAll(plans, r'.disk, r'.applies[b]) {
      assert LandedAll(plans, r.disk, r.applies[b]);
    }
    forall other | other in r'.disk.records ensures RecordTrue(plans, r'.disk, other) {
      assert RecordTrue(plans, r.disk, other);
    }
  }

  lemma JanitorKeepsInv(plans: Plans, r: Root, s: Step)
    requires Inv(plans, r) && Enabled(plans, r, s)
    requires s.Check? || s.RemoveRecord? || s.Done? || s.Crash?
    ensures Inv(plans, Next(plans, r, s))
  {
    hide AllInstalled, PathsDistinct, RecordsTrue, PlacedLanded;
    var r' := Next(plans, r, s);
    if !s.Crash? { ClaimsAlike(r, r'); }
    AppliesKept(plans, r, r'.disk);
    RecordsKept(plans, r.disk, r'.disk);
    hide Keeps, Landed;
    NoneOrSame(plans, r.(disk := r'.disk), r');
  }

  lemma NoneOrSame(plans: Plans, r: Root, r': Root)
    requires PlacedLanded(plans, r) && r'.disk == r.disk && (r'.applies == r.applies || r'.applies == map[])
    ensures PlacedLanded(plans, r')
  {
  }

  lemma StepKeepsInv(plans: Plans, r: Root, s: Step)
    requires Inv(plans, r) && Enabled(plans, r, s) && Orderly(r, s)
    ensures Inv(plans, Next(plans, r, s))
  {
    match s
    case Claim(a, id) => ClaimKeepsInv(plans, r, a, id);
    case Land(a, i, bytes) => LandKeepsInv(plans, r, a, i, bytes);
    case Publish(a) => PublishKeepsInv(plans, r, a);
    case Leave(a) => LeaveKeepsInv(plans, r, a);
    case Check(_, _) => JanitorKeepsInv(plans, r, s);
    case RemoveRecord(_) => JanitorKeepsInv(plans, r, s);
    case RemoveFile(j, path) => RemovingKeepsInv(plans, r, j, path);
    case Done(_) => JanitorKeepsInv(plans, r, s);
    case Crash => JanitorKeepsInv(plans, r, s);
  }

  /** A step breaks the invariant exactly when it claims a generation a janitor is collecting. */
  lemma OrderlyExactly(plans: Plans, r: Root, s: Step)
    requires Inv(plans, r) && Enabled(plans, r, s)
    ensures Inv(plans, Next(plans, r, s)) <==> Orderly(r, s)
  {
    if Orderly(r, s) {
      StepKeepsInv(plans, r, s);
    } else {
      var j :| j in r.janitors && r.janitors[j].id == s.id;
      assert !JanitorsAlone(Next(plans, r, s)) by { assert Next(plans, r, s).applies[s.apply].id == s.id; }
    }
  }

  lemma {:induction false} RunKeepsInv(plans: Plans, r: Root, steps: seq<Step>, r': Root)
    requires Inv(plans, r) && ReachesOrderly(plans, r, steps, r')
    ensures Inv(plans, r')
    decreases |steps|
  {
    if steps != [] {
      StepKeepsInv(plans, r, steps[0]);
      RunKeepsInv(plans, Next(plans, r, steps[0]), steps[1..], r');
    }
  }

  const EMPTY := Root(Disk(map[], map[]), map[], map[], map[])

  /**
   After any interleaving of applies, janitors and crashes, a generation that resolves is its
   plan in manifest order, with every file in place and of the listed digest.
   */
  lemma ResolvedIsWhole(plans: Plans, steps: seq<Step>, r: Root, id: string)
    requires ReachesOrderly(plans, EMPTY, steps, r) && Resolve(r.disk, id).Some?
    ensures Resolve(r.disk, id).value == Generation(id, AllInstalled(plans(id)))
    ensures Sound(r.disk, id)
    ensures forall i :: 0 <= i < |plans(id)| ==> Landed(r.disk, id, plans(id)[i].path, plans(id)[i].sha256)
  {
    RunKeepsInv(plans, EMPTY, steps, r);
    assert RecordTrue(plans, r.disk, id);
  }

  /** A step that is not a janitor removing `id`'s own record leaves it resolving as it did. */
  lemma StaysResolved(plans: Plans, r: Root, s: Step, id: string)
    requires Inv(plans, r) && Enabled(plans, r, s) && Orderly(r, s) && Resolve(r.disk, id).Some?
    requires !(s.RemoveRecord? && r.janitors[s.janitor].id == id)
    ensures Resolve(Next(plans, r, s).disk, id) == Resolve(r.disk, id) && Sound(Next(plans, r, s).disk, id)
  {
    StepKeepsInv(plans, r, s);
    assert RecordTrue(plans, r.disk, id);
    assert RecordTrue(plans, Next(plans, r, s).disk, id);
  }

  /** A generation an apply is publishing is never touched by a janitor. */
  lemma ClaimedIsNotCollected(plans: Plans, r: Root, a: nat)
    requires Inv(plans, r) && a in r.applies
    ensures !Collected(r, r.applies[a].id)
    ensures forall j :: !Enabled(plans, r, Check(j, r.applies[a].id))
  {
  }

  // ----- and without the order it is not so -----

  lemma {:induction false} Append(plans: Plans, r: Root, steps: seq<Step>, r1: Root, more: seq<Step>, r2: Root)
    requires Reaches(plans, r, steps, r1) && Reaches(plans, r1, more, r2)
    ensures Reaches(plans, r, steps + more, r2)
    decreases |steps|
  {
    if steps == [] {
      assert steps + more == more;
    } else {
      assert (steps + more)[1..] == steps[1..] + more;
      Append(plans, Next(plans, r, steps[0]), steps[1..], r1, more, r2);
    }
  }

  lemma OneStep(plans: Plans, r: Root, s: Step)
    requires Enabled(plans, r, s)
    ensures Reaches(plans, r, [s], Next(plans, r, s))
  {
  }

  lemma Extended(plans: Plans, r0: Root, steps: seq<Step>, r: Root, s: Step)
    requires Reaches(plans, r0, steps, r) && Enabled(plans, r, s)
    ensures Reaches(plans, r0, steps + [s], Next(plans, r, s))
  {
    OneStep(plans, r, s);
    Append(plans, r0, steps, r, [s], Next(plans, r, s));
  }

  ghost predicate Publishable(plan: seq<Artifact>) {
    PathsDistinct(plan) && forall i :: 0 <= i < |plan| ==> plan[i].sha256.Sha256?
  }

  /** An apply left alone can land everything its plan names. */
  lemma {:induction false} CanLandAll(plans: Plans, r: Root, a: nat, n: nat) returns (steps: seq<Step>, r': Root)
    requires a in r.applies && Publishable(plans(r.applies[a].id)) && n <= |plans(r.applies[a].id)|
    requires forall i :: 0 <= i < |plans(r.applies[a].id)| ==> (i in r.applies[a].placed <==> i < n)
    ensures Reaches(plans, r, steps, r') && r'.janitors == r.janitors && a in r'.applies
    ensures r'.applies[a].id == r.applies[a].id
    ensures forall i :: 0 <= i < |plans(r.applies[a].id)| ==> i in r'.applies[a].placed
    decreases |plans(r.applies[a].id)| - n
  {
    var plan := plans(r.applies[a].id);
    if n == |plan| {
      steps, r' := [], r;
    } else {
      var s := Land(a, n, plan[n].sha256.of);
      OneStep(plans, r, s);
      var more;
      more, r' := CanLandAll(plans, Next(plans, r, s), a, n + 1);
      Append(plans, r, [s], Next(plans, r, s), more, r');
      steps := [s] + more;
    }
  }

  /**
   A claim taken inside a janitor's window always lets the run go wrong: the janitor removes
   the record, the apply lands its files and publishes, and the janitor removes a file.
   */
  lemma ClaimInTheWindowCanBreak(plans: Plans, r: Root, a: nat, j: nat)
    requires a !in r.applies && j in r.janitors
    requires plans(r.janitors[j].id) != [] && Publishable(plans(r.janitors[j].id))
    ensures exists steps, r' :: Reaches(plans, r, [Claim(a, r.janitors[j].id)] + steps, r') && !Sound(r'.disk, r.janitors[j].id)
  {
    var id := r.janitors[j].id;
    var r1 := Next(plans, r, Claim(a, id));
    var steps, r2 := CanLandAll(plans, r1, a, 0);
    var more, r3 := PublishingInTheWindowBreaks(plans, r2, a, j);
    hide *;
    Append(plans, r1, steps, r2, more, r3);
    OneStep(plans, r, Claim(a, id));
    Append(plans, r, [Claim(a, id)], r1, steps + more, r3);
  }

  lemma PublishingInTheWindowBreaks(plans: Plans, r: Root, a: nat, j: nat) returns (steps: seq<Step>, r': Root)
    requires a in r.applies && j in r.janitors && r.applies[a].id == r.janitors[j].id && Enabled(plans, r, Publish(a))
    requires plans(r.janitors[j].id) != []
    ensures Reaches(plans, r, steps, r') && !Sound(r'.disk, r.janitors[j].id)
  {
    var id := r.janitors[j].id;
    hide Reaches, Sound, PathsDistinct, Landed, AllInstalled;
    steps, r' := [], r;
    assert Reaches(plans, r, [], r) by { NoSteps(plans, r); }
    if r.janitors[j].stage == Checked {
      OneStep(plans, r, RemoveRecord(j));
      steps, r' := [RemoveRecord(j)], Next(plans, r, RemoveRecord(j));
    }
    Extended(plans, r, steps, r', Publish(a));
    steps, r' := steps + [Publish(a)], Next(plans, r', Publish(a));
    var last := RemoveFile(j, plans(id)[0].path);
    Extended(plans, r, steps, r', last);
    steps, r' := steps + [last], Next(plans, r', last);
    RecordedWithoutItsFile(plans, r'.disk, id);
  }

  lemma NoSteps(plans: Plans, r: Root)
    ensures Reaches(plans, r, [], r)
  {
  }

  lemma RecordedWithoutItsFile(plans: Plans, disk: Disk, id: string)
    requires plans(id) != [] && id in disk.records && Place(id, plans(id)[0].path) !in disk.files
    requires disk.records[id] == Record(RECORD_SCHEMA, id, AllInstalled(plans(id)))
    ensures !Sound(disk, id)
  {
  }
}
