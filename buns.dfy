/** BuriedUnsatHbondFilter2 (protocols/buns/BuriedUnsatHbondFilter2.cc): a filter that counts
    buried unsatisfied hydrogen-bond donors and acceptors and passes when the count is at
    most a threshold. The counting itself (scoring the pose, the burial calculator, pulling
    the partners apart along a jump, the residue selection of a task factory) is done by code
    outside this model; its results are the inputs here, and the model is how the filter
    combines them, in the unsigned arithmetic of `core::Size`. */
module Buns {
  import opened Wrappers

  /** `core::Size` is an unsigned 64-bit integer: its values are below `SIZE_MODULUS` and its
      arithmetic wraps round modulo it. */
  const SIZE_MODULUS: nat := 0x1_0000_0000_0000_0000

  predicate IsSize(x: int)
  {
    0 <= x < SIZE_MODULUS
  }

  /** Unsigned subtraction: the difference when it is not negative, otherwise the difference
      wrapped round to a very large value. */
  function SizeSub(a: nat, b: nat): (r: nat)
    requires IsSize(a) && IsSize(b)
    ensures IsSize(r)
    ensures a >= b ==> r == a - b
    ensures a < b ==> r == SIZE_MODULUS - (b - a)
  {
    (a - b) % SIZE_MODULUS
  }

  /** Unsigned addition: the sum when it fits, otherwise the sum wrapped round. */
  function SizeAdd(a: nat, b: nat): (r: nat)
    requires IsSize(a) && IsSize(b)
    ensures IsSize(r)
    ensures a + b < SIZE_MODULUS ==> r == a + b
    ensures a + b >= SIZE_MODULUS ==> r == a + b - SIZE_MODULUS
  {
    (a + b) % SIZE_MODULUS
  }

  /** `std::max` on two unsigned values. */
  function SizeMax(a: nat, b: nat): (r: nat)
    ensures r >= a && r >= b && (r == a || r == b)
  {
    if a >= b then a else b
  }

  /** What the calculator reports for one pose: the total count and the count per residue
      (`residue_bur_unsat_polars`, a 1-based vector, here 0-based). */
  datatype BunsCounts = BunsCounts(total: nat, perResidue: seq<nat>)

  /** The calculator's counts for a pose of `poseSize` residues are `core::Size` values, one
      per residue. */
  predicate CountsFit(c: BunsCounts, poseSize: nat)
  {
    && IsSize(c.total)
    && |c.perResidue| == poseSize
    && forall i :: 0 <= i < poseSize ==> IsSize(c.perResidue[i])
  }

  /** The residue numbers a task factory selects are 1-based residue numbers of the pose. */
  predicate SelectionFits(selection: seq<nat>, poseSize: nat)
  {
    forall k :: 0 <= k < |selection| ==> 1 <= selection[k] <= poseSize
  }

  /** The counts `compute` starts from. The unbound counts are zero for every residue of the
      pose unless a jump is given, in which case they are the calculator's counts for the
      pose pulled apart along that jump. */
  function UnboundCounts(jumpNum: nat, poseSize: nat, separated: BunsCounts): (u: BunsCounts)
    ensures jumpNum == 0 ==> u.total == 0 && |u.perResidue| == poseSize
    ensures jumpNum == 0 ==> forall i :: 0 <= i < poseSize ==> u.perResidue[i] == 0
    ensures jumpNum != 0 ==> u == separated
    ensures CountsFit(separated, poseSize) ==> CountsFit(u, poseSize)
  {
    if jumpNum == 0 then BunsCounts(0, seq(poseSize, _ => 0)) else separated
  }

  /** One selected residue's contribution as the code computes it: `std::max(bound - unbound,
      Size(0))`, where the subtraction is unsigned. */
  function DifferenceAsWritten(bound: nat, unbound: nat): (r: nat)
    requires IsSize(bound) && IsSize(unbound)
    ensures IsSize(r)
    ensures r == SizeSub(bound, unbound)
  {
    SizeMax(SizeSub(bound, unbound), 0)
  }

  /** One selected residue's contribution as the `std::max` with zero evidently intends: the
      buried unsatisfied groups the bound pose has beyond the unbound one, never below zero. */
  function Difference(bound: nat, unbound: nat): (r: nat)
    ensures r <= bound
    ensures bound >= unbound ==> r + unbound == bound
    ensures bound < unbound ==> r == 0
  {
    if bound >= unbound then bound - unbound else 0
  }

  /** Both vectors describe the same pose in `core::Size` values and the selection lies in it. */
  predicate ResiduesFit(bound: seq<nat>, unbound: seq<nat>, selection: seq<nat>)
  {
    && |bound| == |unbound|
    && (forall i :: 0 <= i < |bound| ==> IsSize(bound[i]) && IsSize(unbound[i]))
    && SelectionFits(selection, |bound|)
  }

  /** The loop over the selected residues as written: the wrapping differences, added up in
      selection order with wrapping addition. */
  function SelectedSumAsWritten(bound: seq<nat>, unbound: seq<nat>, selection: seq<nat>): (r: nat)
    requires ResiduesFit(bound, unbound, selection)
    ensures IsSize(r)
    decreases |selection|
  {
    if selection == [] then 0
    else
      var sr := selection[|selection| - 1];
      SizeAdd(SelectedSumAsWritten(bound, unbound, selection[..|selection| - 1]),
              DifferenceAsWritten(bound[sr - 1], unbound[sr - 1]))
  }

  /** The loop over the selected residues with the differences clamped at zero, added up in
      selection order with wrapping addition. */
  function SelectedSum(bound: seq<nat>, unbound: seq<nat>, selection: seq<nat>): (r: nat)
    requires ResiduesFit(bound, unbound, selection)
    ensures IsSize(r)
    decreases |selection|
  {
    if selection == [] then 0
    else
      var sr := selection[|selection| - 1];
      SizeAdd(SelectedSum(bound, unbound, selection[..|selection| - 1]), Difference(bound[sr - 1], unbound[sr - 1]))
  }

  /** The exact (unbounded) sum of the clamped differences over the selection. */
  ghost function ExactSum(bound: seq<nat>, unbound: seq<nat>, selection: seq<nat>): nat
    requires SelectionFits(selection, |bound|) && |bound| == |unbound|
    decreases |selection|
  {
    if selection == [] then 0
    else
      var sr := selection[|selection| - 1];
      ExactSum(bound, unbound, selection[..|selection| - 1]) + Difference(bound[sr - 1], unbound[sr - 1])
  }

  /** The wrapping sum of the values at the selected residues. */
  function SumAt(values: seq<nat>, selection: seq<nat>): (r: nat)
    requires SelectionFits(selection, |values|)
    requires forall i :: 0 <= i < |values| ==> IsSize(values[i])
    ensures IsSize(r)
    decreases |selection|
  {
    if selection == [] then 0
    else SizeAdd(SumAt(values, selection[..|selection| - 1]), values[selection[|selection| - 1] - 1])
  }

  /** Where no selected residue has more unbound than bound unsatisfied groups, the loop as
      written and the clamped loop agree. */
  lemma {:induction false} SelectedSumAgreesWithoutExcess(bound: seq<nat>, unbound: seq<nat>, selection: seq<nat>)
    requires ResiduesFit(bound, unbound, selection)
    requires forall k :: 0 <= k < |selection| ==> bound[selection[k] - 1] >= unbound[selection[k] - 1]
    decreases |selection|
    ensures SelectedSum(bound, unbound, selection) == SelectedSumAsWritten(bound, unbound, selection)
  {
    if selection != [] {
      var init := selection[..|selection| - 1];
      SelectedSumAgreesWithoutExcess(bound, unbound, init);
    }
  }

  /** A prefix of the selection never sums to more than the whole. */
  lemma {:induction false} ExactSumOfPrefix(bound: seq<nat>, unbound: seq<nat>, selection: seq<nat>, n: nat)
    requires SelectionFits(selection, |bound|) && |bound| == |unbound| && n <= |selection|
    decreases |selection|
    ensures ExactSum(bound, unbound, selection[..n]) <= ExactSum(bound, unbound, selection)
  {
    if n < |selection| {
      var init := selection[..|selection| - 1];
      ExactSumOfPrefix(bound, unbound, init, n);
      assert init[..n] == selection[..n];
    } else {
      assert selection[..n] == selection;
    }
  }

  /** When the clamped differences of the selection add up to less than 2^64, the clamped
      loop's count is exactly that sum: every term is counted and nothing wraps. */
  lemma {:induction false} SelectedSumExact(bound: seq<nat>, unbound: seq<nat>, selection: seq<nat>)
    requires ResiduesFit(bound, unbound, selection)
    requires ExactSum(bound, unbound, selection) < SIZE_MODULUS
    decreases |selection|
    ensures SelectedSum(bound, unbound, selection) == ExactSum(bound, unbound, selection)
  {
    if selection != [] {
      var init := selection[..|selection| - 1];
      ExactSumOfPrefix(bound, unbound, selection, |selection| - 1);
      SelectedSumExact(bound, unbound, init);
    }
  }

  /** With nothing unbound, each selected residue contributes its bound count. */
  lemma {:induction false} SelectedSumWithoutUnbound(bound: seq<nat>, unbound: seq<nat>, selection: seq<nat>)
    requires ResiduesFit(bound, unbound, selection)
    requires forall i :: 0 <= i < |unbound| ==> unbound[i] == 0
    decreases |selection|
    ensures SelectedSum(bound, unbound, selection) == SumAt(bound, selection)
  {
    if selection != [] {
      SelectedSumWithoutUnbound(bound, unbound, selection[..|selection| - 1]);
    }
  }

  /** As written, one selected residue with one more unbound than bound unsatisfied group
      gives a count of 2^64 - 1, which fails any threshold below it (the default is 20);
      the clamped count is 0. */
  lemma ExcessUnboundWrapsAsWritten()
    ensures SelectedSumAsWritten([0], [1], [1]) == SIZE_MODULUS - 1
    ensures SelectedSum([0], [1], [1]) == 0
  {
    assert [1][..0] == [];
  }

  /** The inputs of `compute` that come from outside the filter. */
  datatype ComputeInputs = ComputeInputs(
    numJump: nat,             // pose.num_jump()
    poseSize: nat,            // pose.size()
    bound: BunsCounts,        // the calculator's counts for the scored bound pose
    separated: BunsCounts,    // the calculator's counts for the pose pulled apart along the jump
    selection: seq<nat>)      // residue_packer_states of the task factory (designable or packable)

  /** The external inputs are what their producers promise: `core::Size` counts, one per
      residue, and a selection of residue numbers of the pose. */
  predicate InputsFit(jumpNum: nat, inp: ComputeInputs)
  {
    && CountsFit(inp.bound, inp.poseSize)
    && (jumpNum != 0 ==> CountsFit(inp.separated, inp.poseSize))
    && SelectionFits(inp.selection, inp.poseSize)
  }

  /** The count `compute` returns, with the per-residue differences clamped at zero. It
      stops the run when the jump does not exist in the pose. */
  function Count(jumpNum: nat, hasTaskFactory: bool, inp: ComputeInputs): (r: Result<nat>)
    requires InputsFit(jumpNum, inp)
    ensures r.Fatal? <==> jumpNum > inp.numJump
    ensures r.Ok? ==> IsSize(r.value)
    ensures r.Ok? && hasTaskFactory && inp.selection == [] ==> r.value == 0
  {
    if jumpNum > inp.numJump then Fatal("jump_num_ <= pose.num_jump()")
    else
      var unbound := UnboundCounts(jumpNum, inp.poseSize, inp.separated);
      if !hasTaskFactory then Ok(SizeSub(inp.bound.total, unbound.total))
      else if |inp.selection| == 0 then Ok(0)
      else Ok(SelectedSum(inp.bound.perResidue, unbound.perResidue, inp.selection))
  }

  /** The count `compute` returns as written: each selected residue adds the unsigned
      difference of line 194, which wraps round where the residue has more unbound than
      bound unsatisfied groups. */
  function CountAsWritten(jumpNum: nat, hasTaskFactory: bool, inp: ComputeInputs): (r: Result<nat>)
    requires InputsFit(jumpNum, inp)
    ensures r.Fatal? <==> jumpNum > inp.numJump
    ensures r.Ok? ==> IsSize(r.value)
    ensures r.Ok? && hasTaskFactory && inp.selection == [] ==> r.value == 0
  {
    if jumpNum > inp.numJump then Fatal("jump_num_ <= pose.num_jump()")
    else
      var unbound := UnboundCounts(jumpNum, inp.poseSize, inp.separated);
      if !hasTaskFactory then Ok(SizeSub(inp.bound.total, unbound.total))
      else if |inp.selection| == 0 then Ok(0)
      else Ok(SelectedSumAsWritten(inp.bound.perResidue, unbound.perResidue, inp.selection))
  }

  /** Where no selected residue has more unbound than bound unsatisfied groups, the count as
      written and the clamped count are the same. */
  lemma CountAgreesWithAsWritten(jumpNum: nat, hasTaskFactory: bool, inp: ComputeInputs)
    requires InputsFit(jumpNum, inp)
    requires var u := UnboundCounts(jumpNum, inp.poseSize, inp.separated);
      forall k :: 0 <= k < |inp.selection| ==>
        inp.bound.perResidue[inp.selection[k] - 1] >= u.perResidue[inp.selection[k] - 1]
    ensures Count(jumpNum, hasTaskFactory, inp) == CountAsWritten(jumpNum, hasTaskFactory, inp)
  {
    if jumpNum <= inp.numJump && hasTaskFactory && |inp.selection| > 0 {
      var u := UnboundCounts(jumpNum, inp.poseSize, inp.separated);
      SelectedSumAgreesWithoutExcess(inp.bound.perResidue, u.perResidue, inp.selection);
    }
  }

  /** With a task factory and a non-empty selection, the count is the exact sum over the
      selected residues of the bound groups beyond the unbound ones, as long as that sum
      fits in a `core::Size`. */
  lemma CountOfSelection(jumpNum: nat, inp: ComputeInputs)
    requires InputsFit(jumpNum, inp) && jumpNum <= inp.numJump && inp.selection != []
    requires var u := UnboundCounts(jumpNum, inp.poseSize, inp.separated);
      ExactSum(inp.bound.perResidue, u.perResidue, inp.selection) < SIZE_MODULUS
    ensures var u := UnboundCounts(jumpNum, inp.poseSize, inp.separated);
      Count(jumpNum, true, inp) == Ok(ExactSum(inp.bound.perResidue, u.perResidue, inp.selection))
  {
    var u := UnboundCounts(jumpNum, inp.poseSize, inp.separated);
    SelectedSumExact(inp.bound.perResidue, u.perResidue, inp.selection);
  }

  /** Jump 1 of a one-residue pose with one jump, a task factory selecting that residue,
      bound count 0 and unbound count 1: the count as written is 2^64 - 1, so `apply` fails
      at the default cutoff 20; the clamped count is 0. */
  lemma CountAsWrittenWraps()
    ensures var inp := ComputeInputs(1, 1, BunsCounts(0, [0]), BunsCounts(1, [1]), [1]);
      && CountAsWritten(1, true, inp) == Ok(SIZE_MODULUS - 1)
      && Count(1, true, inp) == Ok(0)
      && SIZE_MODULUS - 1 > 20
  {
    ExcessUnboundWrapsAsWritten();
  }

  /** Without a jump nothing is unbound: the count is the bound total, or over a selection
      the (wrapping) sum of the bound per-residue counts of the selected residues. With a
      jump and no task factory it is the bound total minus the unbound total, exactly when
      the unbound total is not the larger. */
  lemma CountCases(jumpNum: nat, hasTaskFactory: bool, inp: ComputeInputs)
    requires InputsFit(jumpNum, inp) && jumpNum <= inp.numJump
    ensures jumpNum == 0 && !hasTaskFactory ==> Count(jumpNum, hasTaskFactory, inp) == Ok(inp.bound.total)
    ensures jumpNum == 0 && hasTaskFactory ==>
      Count(jumpNum, hasTaskFactory, inp) == Ok(SumAt(inp.bound.perResidue, inp.selection))
    ensures jumpNum != 0 && !hasTaskFactory && inp.separated.total <= inp.bound.total ==>
      Count(jumpNum, hasTaskFactory, inp) == Ok(inp.bound.total - inp.separated.total)
  {
    if jumpNum == 0 && hasTaskFactory {
      var unbound := UnboundCounts(jumpNum, inp.poseSize, inp.separated);
      SelectedSumWithoutUnbound(inp.bound.perResidue, unbound.perResidue, inp.selection);
    }
  }

  /** A task factory, here only the names of its task operations. */
  datatype TaskFactory = TaskFactory(operations: seq<string>)

  /** The options of a BuriedUnsatHbonds2 tag that the filter itself keeps. */
  datatype BunsTag = BunsTag(jumpNumber: Option<nat>, cutoff: Option<nat>)

  /** The name the filter registers and reports under. */
  const FILTER_NAME: string := "BuriedUnsatHbonds2"

  /** The filter. */
  class BuriedUnsatHbondFilter2 {
    var upperThreshold: nat
    var jumpNum: nat
    var taskFactory: Option<TaskFactory>

    constructor (upperThreshold: nat, jumpNum: nat)
      ensures this.upperThreshold == upperThreshold && this.jumpNum == jumpNum
      ensures taskFactory == None
    {
      this.upperThreshold := upperThreshold;
      this.jumpNum := jumpNum;
      taskFactory := None;
    }

    /** Reads the jump number (default 1) and the cutoff (default 20) from a tag, and takes
        the task factory built from the tag's task operations. */
    method ParseMyTag(tag: BunsTag, tf: Option<TaskFactory>)
      modifies this
      ensures jumpNum == (match tag.jumpNumber case Some(j) => j case None => 1)
      ensures upperThreshold == (match tag.cutoff case Some(c) => c case None => 20)
      ensures taskFactory == tf
    {
      jumpNum := match tag.jumpNumber case Some(j) => j case None => 1;
      upperThreshold := match tag.cutoff case Some(c) => c case None => 20;
      SetTaskFactory(tf);
    }

    /** Sets the task factory (`task_factory(tf)`). */
    method SetTaskFactory(tf: Option<TaskFactory>)
      modifies this`taskFactory
      ensures taskFactory == tf
    {
      taskFactory := tf;
    }

    /** The count of buried unsatisfied polar groups (`compute`). */
    method Compute(inp: ComputeInputs) returns (r: Result<nat>)
      requires InputsFit(jumpNum, inp)
      ensures r == Count(jumpNum, taskFactory.Some?, inp)
    {
      if jumpNum > inp.numJump {
        return Fatal("jump_num_ <= pose.num_jump()");
      }
      var unbound := BunsCounts(0, seq(inp.poseSize, _ => 0));
      if jumpNum != 0 {
        unbound := inp.separated;
      }
      if taskFactory == None {
        return Ok(SizeSub(inp.bound.total, unbound.total));
      }
      var selected := inp.selection;
      if |selected| == 0 {
        return Ok(0);
      }
      var bound := inp.bound.perResidue;
      var unsatHbonds := 0;
      var k := 0;
      while k < |selected|
        invariant 0 <= k <= |selected|
        invariant unsatHbonds == SelectedSum(bound, unbound.perResidue, selected[..k])
      {
        var sr := selected[k];
        assert selected[..k + 1][..k] == selected[..k];
        unsatHbonds := SizeAdd(unsatHbonds, Difference(bound[sr - 1], unbound.perResidue[sr - 1]));
        k := k + 1;
      }
      assert selected[..k] == selected;
      r := Ok(unsatHbonds);
    }

    /** The filter passes exactly when the count is at most the threshold. */
    method Apply(inp: ComputeInputs) returns (r: Result<bool>)
      requires InputsFit(jumpNum, inp)
      ensures r.Fatal? <==> jumpNum > inp.numJump
      ensures r.Ok? ==> (r.value <==> Count(jumpNum, taskFactory.Some?, inp).value <= upperThreshold)
    {
      var count := Compute(inp);
      match count
      case Fatal(m) => r := Fatal(m);
      case Ok(n) => r := Ok(n <= upperThreshold);
    }
  }
}
