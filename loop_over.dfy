/** LoopOver (protocols/protein_interface_design/movers/LoopOver.cc): a mover that applies a
    wrapped mover again and again until a filter passes or an iteration budget runs out.
    The pose is an opaque value of type `P`. The wrapped mover and the filter are given as
    total functions of the pose they see and of the 0-based iteration number of the current
    `apply` call; the iteration number stands for whatever internal state or randomness
    makes their successive calls differ. */
module ProteinInterfaceDesign {
  import opened Wrappers
  import opened Moves

  /** What one call of the wrapped mover leaves behind: the pose it produced, the status it
      reports (`get_last_move_status()`) and the info lines it wrote (`info()`). */
  datatype MoveOutcome<P> = MoveOutcome(pose: P, status: MoverStatus, info: seq<string>)

  /** The wrapped mover: its behaviour, and whether it reports additional output poses
      (`get_additional_output()` non-null). */
  datatype WrappedMover<!P> = WrappedMover(run: (P, nat) -> MoveOutcome<P>, additionalOutput: bool)

  /** The settings one `apply` call works with. */
  datatype LoopSettings<!P> = LoopSettings(
    run: (P, nat) -> MoveOutcome<P>,
    condition: (P, nat) -> bool,
    maxIterations: nat,
    msWhenFail: MoverStatus,
    drift: bool)

  /** One iteration of the loop: the pose the mover was applied to, what the mover did,
      whether the filter was evaluated and whether it passed. */
  datatype Attempt<P> = Attempt(start: P, outcome: MoveOutcome<P>, filterRan: bool, passed: bool)

  /** The iterations the loop performs from iteration `count` on, when the pose is `pose`
      and the pose saved on entry is `saved`. */
  function Attempts<P>(s: LoopSettings<P>, saved: P, pose: P, count: nat): (trace: seq<Attempt<P>>)
    decreases s.maxIterations - count
    ensures trace == [] <==> count >= s.maxIterations
    ensures trace != [] ==>
      && trace[0].start == (if s.drift then pose else saved)
      && trace[0].outcome == s.run(trace[0].start, count)
      && (trace[0].passed ==> |trace| == 1)
  {
    if count >= s.maxIterations then []
    else
      var start := if s.drift then pose else saved;
      var o := s.run(start, count);
      var ran := o.status == MsSuccess;
      var passed := ran && s.condition(o.pose, count);
      var a := Attempt(start, o, ran, passed);
      if passed then [a] else [a] + Attempts(s, saved, o.pose, count + 1)
  }

  /** One iteration of `Attempts`, unfolded. */
  lemma AttemptsStep<P>(s: LoopSettings<P>, saved: P, pose: P, count: nat, a: Attempt<P>)
    requires count < s.maxIterations
    requires a.start == (if s.drift then pose else saved) && a.outcome == s.run(a.start, count)
    requires a.filterRan == (a.outcome.status == MsSuccess)
    requires a.passed == (a.filterRan && s.condition(a.outcome.pose, count))
    ensures Attempts(s, saved, pose, count) == if a.passed then [a] else [a] + Attempts(s, saved, a.outcome.pose, count + 1)
  {
  }

  /** The info lines of the iterations, concatenated in iteration order. */
  function Infos<P>(trace: seq<Attempt<P>>): seq<string>
  {
    if trace == [] then [] else Infos(trace[..|trace| - 1]) + trace[|trace| - 1].outcome.info
  }

  /** Appending an iteration appends its info lines. */
  lemma InfosSnoc<P>(trace: seq<Attempt<P>>, a: Attempt<P>)
    ensures Infos(trace + [a]) == Infos(trace) + a.outcome.info
  {
    assert (trace + [a])[..|trace|] == trace;
  }

  /** Prepending an iteration prepends its info lines. */
  lemma {:induction false} InfosPrepend<P>(a: Attempt<P>, trace: seq<Attempt<P>>)
    decreases |trace|
    ensures Infos([a] + trace) == a.outcome.info + Infos(trace)
  {
    if trace != [] {
      var init := trace[..|trace| - 1];
      InfosPrepend(a, init);
      assert ([a] + trace)[..|trace|] == [a] + init;
    }
  }

  /** Whether the last iteration's filter evaluation passed. */
  predicate EndsPassing<P>(trace: seq<Attempt<P>>)
  {
    |trace| > 0 && trace[|trace| - 1].passed
  }

  /** What the caller sees after `apply`: the pose, the status and the info, with the
      iterations that produced them. */
  datatype LoopResult<P> = LoopResult(pose: P, status: MoverStatus, info: seq<string>, trace: seq<Attempt<P>>)

  /** The result of `apply` on `entry`. */
  function Run<P>(s: LoopSettings<P>, entry: P): (r: LoopResult<P>)
    ensures r.trace == Attempts(s, entry, entry, 0) && r.info == Infos(r.trace)
    ensures r.status == MsSuccess || r.status == s.msWhenFail
    ensures EndsPassing(r.trace) ==> r.status == MsSuccess
    ensures !EndsPassing(r.trace) && !s.drift ==> r.pose == entry
    ensures !EndsPassing(r.trace) && s.drift && r.trace != [] ==> r.pose == r.trace[|r.trace| - 1].outcome.pose
  {
    var trace := Attempts(s, entry, entry, 0);
    var pose :=
      if EndsPassing(trace) then trace[|trace| - 1].outcome.pose
      else if !s.drift || trace == [] then entry
      else trace[|trace| - 1].outcome.pose;
    LoopResult(pose, if EndsPassing(trace) then MsSuccess else s.msWhenFail, Infos(trace), trace)
  }

  /** The loop runs at most the remaining budget of iterations, and each iteration is what
      the mover and the filter make of it: the mover sees iteration number `count + i`, the
      filter is evaluated exactly when the mover reported success, on the mover's pose. */
  lemma {:induction false} AttemptsFollowSettings<P>(s: LoopSettings<P>, saved: P, pose: P, count: nat)
    decreases s.maxIterations - count
    ensures |Attempts(s, saved, pose, count)| <= if count <= s.maxIterations then s.maxIterations - count else 0
    ensures forall i :: 0 <= i < |Attempts(s, saved, pose, count)| ==>
      var a := Attempts(s, saved, pose, count)[i];
      && a.outcome == s.run(a.start, count + i)
      && (a.filterRan <==> a.outcome.status == MsSuccess)
      && (a.passed <==> a.filterRan && s.condition(a.outcome.pose, count + i))
  {
    if count < s.maxIterations {
      var trace := Attempts(s, saved, pose, count);
      var a := trace[0];
      if !a.passed {
        var rest := Attempts(s, saved, a.outcome.pose, count + 1);
        AttemptsFollowSettings(s, saved, a.outcome.pose, count + 1);
        assert trace == [a] + rest;
        forall i | 1 <= i < |trace|
          ensures trace[i] == rest[i - 1] && count + i == (count + 1) + (i - 1)
        {
        }
      }
    }
  }

  /** The loop stops at the first iteration whose filter passed; an iteration in which the
      filter did not pass is followed by another unless the budget is spent. */
  lemma {:induction false} AttemptsStopAtFirstPass<P>(s: LoopSettings<P>, saved: P, pose: P, count: nat)
    decreases s.maxIterations - count
    ensures forall i :: 0 <= i < |Attempts(s, saved, pose, count)| - 1 ==> !Attempts(s, saved, pose, count)[i].passed
    ensures !EndsPassing(Attempts(s, saved, pose, count)) ==>
      |Attempts(s, saved, pose, count)| == if count <= s.maxIterations then s.maxIterations - count else 0
  {
    if count < s.maxIterations {
      var trace := Attempts(s, saved, pose, count);
      var a := trace[0];
      if !a.passed {
        var rest := Attempts(s, saved, a.outcome.pose, count + 1);
        AttemptsStopAtFirstPass(s, saved, a.outcome.pose, count + 1);
        assert trace == [a] + rest;
        assert EndsPassing(trace) <==> EndsPassing(rest) by {
          if rest != [] { assert trace[|trace| - 1] == rest[|rest| - 1]; }
        }
        forall i | 1 <= i < |trace| - 1
          ensures !trace[i].passed
        {
          assert trace[i] == rest[i - 1];
        }
      }
    }
  }

  /** Without drift every iteration starts from the saved pose; with drift the first starts
      from the current pose and each later one from the pose the previous one produced. */
  lemma {:induction false} AttemptsStartingPoses<P>(s: LoopSettings<P>, saved: P, pose: P, count: nat)
    decreases s.maxIterations - count
    ensures !s.drift ==> forall i :: 0 <= i < |Attempts(s, saved, pose, count)| ==> Attempts(s, saved, pose, count)[i].start == saved
    ensures s.drift && |Attempts(s, saved, pose, count)| > 0 ==> Attempts(s, saved, pose, count)[0].start == pose
    ensures s.drift ==> forall i :: 0 <= i < |Attempts(s, saved, pose, count)| - 1 ==>
      Attempts(s, saved, pose, count)[i + 1].start == Attempts(s, saved, pose, count)[i].outcome.pose
  {
    if count < s.maxIterations {
      var trace := Attempts(s, saved, pose, count);
      var a := trace[0];
      if !a.passed {
        var rest := Attempts(s, saved, a.outcome.pose, count + 1);
        AttemptsStartingPoses(s, saved, a.outcome.pose, count + 1);
        assert trace == [a] + rest;
        forall i | 1 <= i < |trace|
          ensures trace[i] == rest[i - 1]
        {
        }
      }
    }
  }

  /** What the caller of `apply` sees. At most `maxIterations` mover calls are made, with a
      budget of 0 none at all; the result reports success exactly when the last filter
      evaluation passed, and otherwise `msWhenFail` after the whole budget was spent;
      without drift a failed loop hands back the pose it was given, and with drift the pose
      the last mover call produced. */
  lemma RunOutcome<P>(s: LoopSettings<P>, entry: P)
    ensures |Run(s, entry).trace| <= s.maxIterations
    ensures s.maxIterations == 0 ==> Run(s, entry) == LoopResult(entry, s.msWhenFail, [], [])
    ensures Run(s, entry).status == MsSuccess <== EndsPassing(Run(s, entry).trace)
    ensures !EndsPassing(Run(s, entry).trace) ==>
      && Run(s, entry).status == s.msWhenFail
      && |Run(s, entry).trace| == s.maxIterations
      && (!s.drift ==> Run(s, entry).pose == entry)
    ensures EndsPassing(Run(s, entry).trace) ==>
      Run(s, entry).pose == Run(s, entry).trace[|Run(s, entry).trace| - 1].outcome.pose
    ensures !EndsPassing(Run(s, entry).trace) && s.drift && Run(s, entry).trace != [] ==>
      Run(s, entry).pose == Run(s, entry).trace[|Run(s, entry).trace| - 1].outcome.pose
  {
    AttemptsFollowSettings(s, entry, entry, 0);
    AttemptsStopAtFirstPass(s, entry, entry, 0);
  }

  /** Without drift, a mover that succeeds on each of its calls and a filter that fails on
      the mover's first four results and passes on the fifth: with a budget of 5 the result
      is success and the pose is that of one single application of the mover to the entry
      pose (the fifth), not of five accumulated ones. */
  lemma ResetScenario<P>(s: LoopSettings<P>, entry: P)
    requires s.maxIterations == 5 && !s.drift
    requires forall k: nat :: s.run(entry, k).status == MsSuccess
    requires forall k: nat :: s.condition(s.run(entry, k).pose, k) == (k >= 4)
    ensures Run(s, entry).status == MsSuccess
    ensures Run(s, entry).pose == s.run(entry, 4).pose
    ensures |Run(s, entry).trace| == 5
  {
    var trace := Run(s, entry).trace;
    assert trace == Attempts(s, entry, entry, 0);
    AttemptsFollowSettings(s, entry, entry, 0);
    AttemptsStopAtFirstPass(s, entry, entry, 0);
    AttemptsStartingPoses(s, entry, entry, 0);
    forall i | 0 <= i < |trace|
      ensures trace[i].passed == (i >= 4)
    {
      assert trace[i].start == entry;
      assert trace[i].outcome == s.run(entry, i);
    }
    assert |trace| == 5;
  }

  /** With drift, a mover that succeeds on each of its calls and a filter that never passes
      on its results: with a budget of 3 the result is `msWhenFail` and the pose carries the
      three accumulated applications. */
  lemma DriftScenario<P>(s: LoopSettings<P>, entry: P)
    requires s.maxIterations == 3 && s.drift && s.msWhenFail == FailRetry
    requires s.run(entry, 0).status == MsSuccess && !s.condition(s.run(entry, 0).pose, 0)
    requires var p := s.run(entry, 0).pose;
      s.run(p, 1).status == MsSuccess && !s.condition(s.run(p, 1).pose, 1)
    requires var p := s.run(s.run(entry, 0).pose, 1).pose;
      s.run(p, 2).status == MsSuccess && !s.condition(s.run(p, 2).pose, 2)
    ensures Run(s, entry).status == FailRetry
    ensures Run(s, entry).pose == s.run(s.run(s.run(entry, 0).pose, 1).pose, 2).pose
  {
    var trace := Run(s, entry).trace;
    assert trace == Attempts(s, entry, entry, 0);
    AttemptsFollowSettings(s, entry, entry, 0);
    AttemptsStopAtFirstPass(s, entry, entry, 0);
    AttemptsStartingPoses(s, entry, entry, 0);
    assert trace[0].outcome == s.run(entry, 0);
    assert trace[1].outcome == s.run(trace[0].outcome.pose, 1);
    assert trace[2].outcome == s.run(trace[1].outcome.pose, 2);
    assert !EndsPassing(trace);
    assert |trace| == 3;
  }

  /** What the caller sees, without the iterations behind it. */
  datatype Seen<P> = Seen(pose: P, status: MoverStatus, info: seq<string>)

  /** The loop of `apply` as it runs, from a state in the middle of it: iteration `count`,
      current pose `pose`, filter result `passed` so far and info `info` so far. */
  function Continue<P>(s: LoopSettings<P>, saved: P, pose: P, count: nat, passed: bool, info: seq<string>): (r: Seen<P>)
    decreases s.maxIterations - count
    ensures passed ==> r == Seen(pose, MsSuccess, info)
    ensures r.status == MsSuccess || r.status == s.msWhenFail
    ensures |info| <= |r.info| && r.info[..|info|] == info
  {
    if !passed && count < s.maxIterations then
      var o := s.run(if s.drift then pose else saved, count);
      var passed' := if o.status == MsSuccess then s.condition(o.pose, count) else passed;
      Continue(s, saved, o.pose, count + 1, passed', info + o.info)
    else if passed then Seen(pose, MsSuccess, info)
    else Seen(if s.drift then pose else saved, s.msWhenFail, info)
  }

  /** What the caller sees when the loop, before the filter has passed, goes on from pose
      `pose` with info `info` and performs the iterations `t`. */
  function Ending<P>(s: LoopSettings<P>, saved: P, pose: P, t: seq<Attempt<P>>, info: seq<string>): Seen<P>
  {
    Seen(if EndsPassing(t) || (s.drift && t != []) then t[|t| - 1].outcome.pose
         else if s.drift then pose else saved,
         if EndsPassing(t) then MsSuccess else s.msWhenFail,
         info + Infos(t))
  }

  /** An iteration whose filter did not pass hands its pose and info on to the rest. */
  lemma EndingAfterFailedAttempt<P>(s: LoopSettings<P>, saved: P, pose: P, a: Attempt<P>,
                                    rest: seq<Attempt<P>>, info: seq<string>)
    requires !a.passed && a.start == (if s.drift then pose else saved)
    ensures Ending(s, saved, pose, [a] + rest, info) == Ending(s, saved, a.outcome.pose, rest, info + a.outcome.info)
  {
    var t := [a] + rest;
    InfosPrepend(a, rest);
    assert info + Infos(t) == (info + a.outcome.info) + Infos(rest);
    assert EndsPassing(t) == EndsPassing(rest) by {
      if rest != [] {
        assert t[|t| - 1] == rest[|rest| - 1];
      }
    }
    if rest != [] {
      assert t[|t| - 1] == rest[|rest| - 1];
    } else {
      assert t == [a];
    }
  }

  /** The loop as it runs, continued from iteration `count` before the filter has passed,
      ends as the iterations `Attempts` from there say. */
  lemma {:induction false} ContinueFollowsAttempts<P>(s: LoopSettings<P>, saved: P, pose: P, count: nat, info: seq<string>)
    decreases s.maxIterations - count
    ensures Continue(s, saved, pose, count, false, info) == Ending(s, saved, pose, Attempts(s, saved, pose, count), info)
  {
    var t := Attempts(s, saved, pose, count);
    if count < s.maxIterations {
      var o := s.run(if s.drift then pose else saved, count);
      var passed := o.status == MsSuccess && s.condition(o.pose, count);
      var a := Attempt(if s.drift then pose else saved, o, o.status == MsSuccess, passed);
      AttemptsStep(s, saved, pose, count, a);
      if passed {
        assert t == [a];
        InfosSnoc([], a);
        assert [] + [a] == [a];
      } else {
        var rest := Attempts(s, saved, o.pose, count + 1);
        ContinueFollowsAttempts(s, saved, o.pose, count + 1, info + o.info);
        assert t == [a] + rest;
        EndingAfterFailedAttempt(s, saved, pose, a, rest, info);
      }
    } else {
      assert t == [];
    }
  }

  /** Running the loop from its start gives what `Run` describes. */
  lemma LoopMatchesRun<P>(s: LoopSettings<P>, entry: P)
    ensures var r := Run(s, entry);
      Continue(s, entry, entry, 0, false, []) == Seen(r.pose, r.status, r.info)
  {
    ContinueFollowsAttempts(s, entry, entry, 0, []);
  }

  /** The XML options of a LoopOver tag, each absent when not given. The mover and filter
      names refer to entries of the script's data map. */
  datatype LoopOverTag = LoopOverTag(
    drift: Option<bool>,
    moverName: string,
    filterName: Option<string>,
    iterations: Option<nat>,
    msWhenFail: Option<MoverStatus>)

  /** The settings a tag yields, with the defaults for absent options. */
  datatype LoopOverOptions = LoopOverOptions(drift: bool, moverName: string, filterName: string,
                                             iterations: nat, msWhenFail: MoverStatus)

  function ParsedOptions(tag: LoopOverTag): (o: LoopOverOptions)
    ensures o.drift == (tag.drift != Some(false))
    ensures tag.filterName.None? ==> o.filterName == "false_filter"
    ensures tag.filterName.Some? ==> o.filterName == tag.filterName.value
    ensures tag.iterations.None? ==> o.iterations == 10
    ensures tag.iterations.Some? ==> o.iterations == tag.iterations.value
    ensures tag.msWhenFail.None? ==> o.msWhenFail == MsSuccess
    ensures tag.msWhenFail.Some? ==> o.msWhenFail == tag.msWhenFail.value
    ensures o.moverName == tag.moverName
  {
    LoopOverOptions(
      match tag.drift case Some(d) => d case None => true,
      tag.moverName,
      match tag.filterName case Some(f) => f case None => "false_filter",
      match tag.iterations case Some(n) => n case None => 10,
      match tag.msWhenFail case Some(m) => m case None => MsSuccess)
  }

  /** The name the mover registers and reports under. */
  const MOVER_NAME: string := "LoopOver"

  /** The LoopOver mover. */
  class LoopOver<P> {
    var maxIterations: nat
    var mover: Option<WrappedMover<P>>
    var condition: Option<(P, nat) -> bool>
    var msWhenFail: MoverStatus
    var drift: bool
    var lastStatus: MoverStatus
    var info: seq<string>

    /** The default constructor: 10 iterations, success when the budget is spent, no mover
        or filter yet. The drift flag, which this constructor leaves unset, is a parameter. */
    constructor Default(drift: bool)
      ensures maxIterations == 10 && msWhenFail == MsSuccess
      ensures mover == None && condition == None && this.drift == drift
    {
      maxIterations := 10;
      mover := None;
      condition := None;
      msWhenFail := MsSuccess;
      this.drift := drift;
    }

    /** The constructor from a budget, a mover, a filter and the failure status. */
    constructor (maxIterations: nat, mover: WrappedMover<P>, condition: (P, nat) -> bool,
                 msWhenFail: MoverStatus, drift: bool)
      ensures this.maxIterations == maxIterations && this.mover == Some(mover)
      ensures this.condition == Some(condition) && this.msWhenFail == msWhenFail
      ensures this.drift == drift
    {
      this.maxIterations := maxIterations;
      this.mover := Some(mover);
      this.condition := Some(condition);
      this.msWhenFail := msWhenFail;
      this.drift := drift;
    }

    /** The settings `apply` runs with. */
    ghost function Settings(): (s: LoopSettings<P>)
      reads this`mover, this`condition, this`maxIterations, this`msWhenFail, this`drift
      requires mover.Some? && condition.Some?
    {
      LoopSettings(mover.value.run, condition.value, maxIterations, msWhenFail, drift)
    }

    /** Reads the options of a tag. The mover and the filter are looked up by name in the
        script's movers and filters; a name that is not there stops the run. */
    method ParseMyTag(tag: LoopOverTag, movers: map<string, WrappedMover<P>>,
                      filters: map<string, (P, nat) -> bool>) returns (r: Result<()>)
      modifies this`drift, this`maxIterations, this`msWhenFail, this`mover, this`condition
      ensures var o := ParsedOptions(tag);
        && drift == o.drift && maxIterations == o.iterations && msWhenFail == o.msWhenFail
        && (r.Ok? <==> o.moverName in movers && o.filterName in filters)
        && (r.Ok? ==> mover == Some(movers[o.moverName]) && condition == Some(filters[o.filterName]))
    {
      var o := ParsedOptions(tag);
      drift := o.drift;
      maxIterations := o.iterations;
      msWhenFail := o.msWhenFail;
      if o.moverName !in movers {
        return Fatal("mover " + o.moverName + " not found");
      }
      mover := Some(movers[o.moverName]);
      if o.filterName !in filters {
        return Fatal("filter " + o.filterName + " not found");
      }
      condition := Some(filters[o.filterName]);
      r := Ok(());
    }

    /** Applies the wrapped mover until the filter passes or the budget is spent. `info` is
        cleared first; a mover with additional output stops the run before any iteration.
        Otherwise the pose, status and info are those of `Run` (see `RunOutcome`). */
    method Apply(pose: P) returns (r: Result<P>)
      requires mover.Some? && condition.Some?
      modifies this`info, this`lastStatus
      ensures mover.value.additionalOutput ==> r.Fatal? && info == [] && lastStatus == old(lastStatus)
      ensures !mover.value.additionalOutput ==>
        var res := Run(Settings(), pose);
        r == Ok(res.pose) && lastStatus == res.status && info == res.info
    {
      info := [];
      if mover.value.additionalOutput {
        return Fatal("Movers returning multiple poses are unsupported by LoopOver.");
      }
      ghost var s := Settings();
      var run := mover.value.run;
      var cond := condition.value;
      var budget := maxIterations;
      var keepDrift := drift;
      var whenFail := msWhenFail;
      assert s == LoopSettings(run, cond, budget, whenFail, keepDrift);
      var saved := pose;
      var current := pose;
      var count: nat := 0;
      var filterResult := false;
      while !filterResult && count < budget
        invariant count <= budget
        invariant Continue(s, saved, current, count, filterResult, info) == Continue(s, saved, saved, 0, false, [])
      {
        if !keepDrift {
          current := saved;
        }
        var o := run(current, count);
        info := info + o.info;
        if o.status == MsSuccess {
          filterResult := cond(o.pose, count);
        }
        current := o.pose;
        count := count + 1;
      }
      if !filterResult {
        lastStatus := whenFail;
        if !keepDrift {
          current := saved;
        }
      } else {
        lastStatus := MsSuccess;
      }
      LoopMatchesRun(s, saved);
      r := Ok(current);
    }
  }
}
