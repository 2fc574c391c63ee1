/** The generations an applier has published, each offered to a reader once. */
module Completed {
  import opened Wrappers
  import opened InstallDisk

  function IdsOf(generations: seq<Generation>): (ids: seq<string>)
    ensures |ids| == |generations|
    ensures forall k :: 0 <= k < |ids| ==> ids[k] == generations[k].id
  {
    seq(|generations|, k requires 0 <= k < |generations| => generations[k].id)
  }

  ghost predicate Distinct<T(!new)>(s: seq<T>) { forall j, k :: 0 <= j < k < |s| ==> s[j] != s[k] }

  /** Recording a generation: queued unless its id was seen before. */
  function Noted(seen: set<string>, pending: seq<Generation>, g: Generation): (set<string>, seq<Generation>) {
    if g.id in seen then (seen, pending) else (seen + {g.id}, pending + [g])
  }

  class Completions {
    var seen: set<string>
    var pending: seq<Generation>
    /** What readers have been handed so far. */
    ghost var offered: seq<Generation>

    constructor ()
      ensures Valid() && Reported() == []
    {
      seen, pending := {}, [];
      offered := [];
    }

    /** Everything reported, handed out or still waiting, in the order it was first recorded. */
    ghost function Reported(): seq<Generation>
      reads this
    {
      offered + pending
    }

    /** No id is ever reported twice, and exactly the seen ones have been. */
    ghost predicate Valid()
      reads this
    {
      && Distinct(IdsOf(Reported()))
      && (forall id :: id in seen <==> id in IdsOf(Reported()))
    }

    method Record(g: Generation)
      requires Valid()
      modifies `seen, `pending
      ensures Valid() && (seen, pending) == Noted(old(seen), old(pending), g)
      ensures Reported() == if g.id in IdsOf(old(Reported())) then old(Reported()) else old(Reported()) + [g]
    {
      if g.id in seen { return; }
      ghost var before := IdsOf(Reported());
      seen := seen + {g.id};
      pending := pending + [g];
      assert Reported() == old(Reported()) + [g];
      assert IdsOf(Reported()) == before + [g.id];
    }

    /** The next generation no reader has been handed. */
    method NextCompleted() returns (g: Option<Generation>)
      requires Valid()
      modifies `pending, `offered
      ensures Valid() && Reported() == old(Reported())
      ensures g.None? <==> old(pending) == []
      ensures g.Some? ==> g.value == old(pending)[0] && offered == old(offered) + [g.value]
                          && g.value.id !in IdsOf(old(offered))
    {
      if pending == [] { return None; }
      g := Some(pending[0]);
      assert IdsOf(Reported())[|offered|] == pending[0].id;
      assert forall k :: 0 <= k < |offered| ==> IdsOf(Reported())[k] == IdsOf(offered)[k];
      offered := offered + [pending[0]];
      pending := pending[1..];
      assert Reported() == old(Reported());
    }
  }
}
