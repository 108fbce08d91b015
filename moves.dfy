/** The mover vocabulary shared by the model (the status a mover reports) and the
    MoverContainer family of protocols/moves/MoverContainer.hh: an ordered list of movers
    with weights, and the per-kind state of SequenceMover, RandomMover, CycleMover and
    SwitchMover. A mover held by a container is an opaque value of type `M`; the container
    holds its own copy of it. */
module Moves {

  /** The status a mover reports after `apply` (protocols::moves::MoverStatus). */
  datatype MoverStatus = MsSuccess | FailRetry | FailDoNotRetry | FailBadInput | Fail

  /** The ordered movers of a container and their relative weights (`movers_`, `weight_`). */
  class MoverContainer<M> {
    var movers: seq<M>
    var weights: seq<real>

    /** Every mover has a weight. `Clear` forgets the movers but keeps the weights, so the
        weights may outnumber the movers. */
    ghost predicate Valid()
      reads this
    {
      |movers| <= |weights|
    }

    constructor ()
      ensures Valid() && movers == [] && weights == []
    {
      movers := [];
      weights := [];
    }

    /** Adds a mover, with its weight, at the end of the container. */
    method AddMover(m: M, weight: real := 1.0)
      requires Valid()
      modifies this
      ensures Valid()
      ensures movers == old(movers) + [m] && weights == old(weights) + [weight]
      ensures Size() == old(Size()) + 1 && movers[Size() - 1] == m
    {
      movers := movers + [m];
      weights := weights + [weight];
    }

    /** Empties the movers; the weights are left as they are. */
    method Clear()
      requires Valid()
      modifies this`movers
      ensures Valid() && movers == [] && Size() == 0
    {
      movers := [];
    }

    /** The number of movers held (`size()`). */
    function Size(): (n: nat)
      reads this
      ensures n == |movers|
    {
      |movers|
    }

    /** The number of movers held, under its other name (`nr_moves()`). */
    function NrMoves(): (n: nat)
      reads this
      ensures n == Size()
    {
      |movers|
    }

    /** The first mover; the container must not be empty. */
    function Front(): (m: M)
      reads this
      requires |movers| > 0
      ensures m == movers[0]
    {
      movers[0]
    }
  }

  /** After a `clear()` and a new `add_mover`, the weight stored at the new mover's position
      is still the weight of the mover that was cleared away. */
  method ClearThenAddKeepsOldWeight<M>(a: M, b: M) returns (movers: seq<M>, weights: seq<real>)
    ensures movers == [b] && weights == [1.0, 5.0]
    ensures weights[0] != 5.0
  {
    var c := new MoverContainer<M>();
    c.AddMover(a);
    c.Clear();
    c.AddMover(b, 5.0);
    movers, weights := c.movers, c.weights;
  }

  /** A container that applies its movers one after another on the same pose; whether it
      stops at a mover whose status is not success is the `use_mover_status_` flag. */
  class SequenceMover<M> {
    const container: MoverContainer<M>
    var useMoverStatus: bool

    constructor (ms: bool := false)
      ensures fresh(container) && container.Valid() && container.movers == [] && container.weights == []
      ensures useMoverStatus == ms
    {
      container := new MoverContainer<M>();
      useMoverStatus := ms;
    }

    /** Sets whether the status of each mover is looked at; `use_mover_status()` then
        returns `flag`. */
    method SetUseMoverStatus(flag: bool)
      modifies this`useMoverStatus
      ensures useMoverStatus == flag
    {
      useMoverStatus := flag;
    }
  }

  /** A container that applies randomly chosen movers, `nmoves` of them per call. */
  class RandomMover<M> {
    const container: MoverContainer<M>
    var nmoves: nat
    var lastProposalDensityRatio: real
    var indexOfLastMoverUsed: nat
    var repeats: seq<nat>

    constructor ()
      ensures fresh(container) && container.Valid() && container.movers == [] && container.weights == []
      ensures nmoves == 1 && lastProposalDensityRatio == 1.0
      ensures indexOfLastMoverUsed == 0 && repeats == []
    {
      container := new MoverContainer<M>();
      nmoves := 1;
      lastProposalDensityRatio := 1.0;
      indexOfLastMoverUsed := 0;
      repeats := [];
    }
  }

  /** A container that applies one mover per call, taking the movers in turn and starting
      over after the last one. `nextMove` persists across calls. */
  class CycleMover<M> {
    const container: MoverContainer<M>
    var nextMove: nat

    constructor ()
      ensures fresh(container) && container.Valid() && container.movers == [] && container.weights == []
      ensures nextMove == 0
    {
      container := new MoverContainer<M>();
      nextMove := 0;
    }

    /** Brings the cursor back into range, applies the mover it points at (given as
        `applyMover`) and moves the cursor on. Returns the new pose and the index used. */
    method Apply<P>(pose: P, applyMover: (M, P) -> P) returns (result: P, used: nat)
      requires |container.movers| > 0
      modifies this`nextMove
      ensures used == old(nextMove) % |container.movers| && used < |container.movers|
      ensures result == applyMover(container.movers[used], pose)
      ensures nextMove == used + 1
    {
      nextMove := nextMove % |container.movers|;
      used := nextMove;
      result := applyMover(container.movers[used], pose);
      nextMove := nextMove + 1;
    }

    /** Makes `calls` successive `Apply` calls, starting from `pose`. Returns the final pose
        and the indices of the movers used, which are those `CycleSchedule` lists. */
    method ApplyRepeatedly<P>(pose: P, applyMover: (M, P) -> P, calls: nat) returns (result: P, used: seq<nat>)
      requires |container.movers| > 0
      modifies this`nextMove
      ensures used == CycleSchedule(old(nextMove), |container.movers|, calls)
      ensures nextMove == CursorAfter(old(nextMove), |container.movers|, calls)
      ensures result == AppliedInOrder(container.movers, used, applyMover, pose)
    {
      ghost var start := nextMove;
      var size := |container.movers|;
      result := pose;
      used := [];
      var i := 0;
      while i < calls
        invariant 0 <= i <= calls
        invariant used == CycleSchedule(start, size, i)
        invariant nextMove == CursorAfter(start, size, i)
        invariant result == AppliedInOrder(container.movers, used, applyMover, pose)
      {
        CycleScheduleSnoc(start, size, i);
        var u;
        result, u := Apply(result, applyMover);
        assert (used + [u])[..|used|] == used;
        used := used + [u];
        i := i + 1;
      }
    }

    /** Rewinds the cursor to the first mover. */
    method ResetCycleIndex()
      modifies this`nextMove
      ensures nextMove == 0
    {
      nextMove := 0;
    }
  }

  /** The indices of the movers that `calls` successive `CycleMover.Apply` calls use on a
      container of `size` movers, starting from cursor `next`. */
  function CycleSchedule(next: nat, size: nat, calls: nat): (used: seq<nat>)
    requires size > 0
    decreases calls
    ensures |used| == calls
    ensures forall j :: 0 <= j < calls ==> used[j] < size
  {
    if calls == 0 then [] else [next % size] + CycleSchedule(next % size + 1, size, calls - 1)
  }

  /** The cursor of a CycleMover over `size` movers after `calls` calls from cursor `next`. */
  function CursorAfter(next: nat, size: nat, calls: nat): (c: nat)
    requires size > 0
    decreases calls
    ensures calls > 0 ==> 0 < c <= size
  {
    if calls == 0 then next else CursorAfter(next % size + 1, size, calls - 1)
  }

  /** One more call uses the mover the cursor points at, brought back into range. */
  lemma {:induction false} CycleScheduleSnoc(next: nat, size: nat, calls: nat)
    requires size > 0
    decreases calls
    ensures CycleSchedule(next, size, calls + 1) == CycleSchedule(next, size, calls) + [CursorAfter(next, size, calls) % size]
    ensures CursorAfter(next, size, calls + 1) == CursorAfter(next, size, calls) % size + 1
  {
    if calls > 0 {
      CycleScheduleSnoc(next % size + 1, size, calls - 1);
    }
  }

  /** The pose after applying the movers at indices `used`, first to last, to `pose`. */
  function AppliedInOrder<M, P>(movers: seq<M>, used: seq<nat>, applyMover: (M, P) -> P, pose: P): P
    requires forall j :: 0 <= j < |used| ==> used[j] < |movers|
    decreases |used|
  {
    if used == [] then pose
    else applyMover(movers[used[|used| - 1]], AppliedInOrder(movers, used[..|used| - 1], applyMover, pose))
  }

  /** The mover after mover `i`, wrapping round to the first after the last. */
  function NextInCycle(i: nat, size: nat): (k: nat)
    requires i < size
    ensures k < size
    ensures k == 0 <==> i == size - 1
    ensures i < size - 1 ==> k == i + 1
  {
    if i + 1 == size then 0 else i + 1
  }

  /** A cursor at most one past the last mover is brought back into range by `% n`. */
  lemma ModOfCursor(x: nat, n: nat)
    requires 0 < n && x <= n
    ensures x % n == if x == n then 0 else x
  {
  }

  /** Each call uses the mover after the one the previous call used, wrapping round after
      the last; the first call from a cursor already in range uses that cursor. */
  lemma {:induction false} CycleScheduleWraps(next: nat, size: nat, calls: nat)
    requires size > 0
    decreases calls
    ensures next < size && calls > 0 ==> CycleSchedule(next, size, calls)[0] == next
    ensures forall j :: 0 <= j < calls - 1 ==>
      CycleSchedule(next, size, calls)[j + 1] == NextInCycle(CycleSchedule(next, size, calls)[j], size)
  {
    if calls > 0 {
      var u := next % size;
      if next < size {
        ModOfCursor(next, size);
      }
      var rest := CycleSchedule(u + 1, size, calls - 1);
      CycleScheduleWraps(u + 1, size, calls - 1);
      if calls > 1 {
        ModOfCursor(u + 1, size);
        assert rest[0] == NextInCycle(u, size);
      }
      forall j | 0 < j < calls - 1
        ensures CycleSchedule(next, size, calls)[j + 1] == NextInCycle(CycleSchedule(next, size, calls)[j], size)
      {
        assert CycleSchedule(next, size, calls)[j + 1] == rest[j];
        assert CycleSchedule(next, size, calls)[j] == rest[j - 1];
      }
    }
  }

  /** A CycleMover over three movers uses them as 0, 1, 2, 0 on four calls, and uses the
      first again after `reset_cycle_index()`. */
  method CycleFourThenReset<M, P>(a: M, b: M, c: M, pose: P, applyMover: (M, P) -> P)
    returns (used: seq<nat>)
    ensures used == [0, 1, 2, 0, 0]
  {
    var cycle := new CycleMover<M>();
    cycle.container.AddMover(a);
    cycle.container.AddMover(b);
    cycle.container.AddMover(c);
    assert |cycle.container.movers| == 3 && cycle.nextMove == 0;
    var p := pose;
    var i0, i1, i2, i3, i4;
    p, i0 := cycle.Apply(p, applyMover);
    assert i0 == 0 && cycle.nextMove == 1;
    p, i1 := cycle.Apply(p, applyMover);
    assert i1 == 1 && cycle.nextMove == 2;
    p, i2 := cycle.Apply(p, applyMover);
    assert i2 == 2 && cycle.nextMove == 3;
    p, i3 := cycle.Apply(p, applyMover);
    assert i3 == 0;
    cycle.ResetCycleIndex();
    p, i4 := cycle.Apply(p, applyMover);
    used := [i0, i1, i2, i3, i4];
  }

  /** A SwitchMover runs only the mover whose name was selected. */
  class SwitchMover<M> {
    const container: MoverContainer<M>
    var userName: string
    var moverNames: seq<string>
    var selected: string
    var available: bool

    constructor ()
      ensures fresh(container) && container.Valid() && container.movers == [] && container.weights == []
      ensures userName == "" && moverNames == [] && selected == "" && !available
    {
      container := new MoverContainer<M>();
      userName := "";
      moverNames := [];
      selected := "";
      available := false;
    }

    /** Selects the mover to run by name; `selected()` then returns `sele`. */
    method SetSelected(sele: string)
      modifies this`selected
      ensures selected == sele
    {
      selected := sele;
    }
  }
}
