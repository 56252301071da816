/**
 * `main` (src/main.rs): the gate, the verb, then the stages in order, each
 * stopping the driver when its child fails.
 */
module Driver {
  import opened Wrappers
  import opened Toolchain
  import opened Outcomes
  import opened Stages

  /**
   * Everything `main` reads from outside: the compiler's report, the process
   * arguments, the two environment variables, the two filesystem probes, the
   * answer of `cargo metadata`, and the exit status of each child.
   */
  datatype Inputs = Inputs(
    rustc: RustcMeta,
    argv: seq<string>,
    rustflags: Option<string>,
    devkitpro: Option<string>,
    iconOpens: bool,
    romfsReadable: bool,
    metadata: Metadata,
    cargoStatus: ExitStatus,
    smdhStatus: ExitStatus,
    dsxStatus: ExitStatus,
    linkStatus: ExitStatus)

  /** The children spawned, in order, and how the driver ends. */
  datatype Run = Run(trace: seq<Invocation>, outcome: Outcome)

  /** The artifact directory segment: `release` exactly when `--release` is anywhere in argv. */
  function OptimizationLevel(argv: seq<string>): (level: string)
    ensures level == "release" <==> "--release" in argv
    ensures level == "release" || level == "debug"
  {
    if "--release" in argv then "release" else "debug"
  }

  /**
   * The verb after `cargo 3ds`: `build` (no upload) or `link` (upload);
   * anything else, or nothing, panics.
   */
  function Dispatch(argv: seq<string>): (r: Result<bool, Panic>)
    ensures r == Success(false) <==> |argv| >= 3 && argv[2] == "build"
    ensures r == Success(true) <==> |argv| >= 3 && argv[2] == "link"
    ensures r == Failure(NoCommand) <==> |argv| < 3
    ensures r == Failure(InvalidCommand) <==> |argv| >= 3 && argv[2] != "build" && argv[2] != "link"
  {
    if |argv| < 3 then Failure(NoCommand)
    else if argv[2] == "build" then Success(false)
    else if argv[2] == "link" then Success(true)
    else Failure(InvalidCommand)
  }

  /** What is left of argv after `cargo 3ds <verb>`. */
  function UserArgs(argv: seq<string>): seq<string> {
    if |argv| >= 3 then argv[3..] else []
  }

  /** Every stage, in order, as it would run if none failed. */
  function Pipeline(inp: Inputs, config: Config, level: string, mustLink: bool): seq<Invocation> {
    [CargoInvocation(UserArgs(inp.argv), inp.rustflags),
     SmdhInvocation(config, level),
     DsxInvocation(config.name, level, inp.romfsReadable)]
    + (if mustLink then [LinkInvocation(config.name, level)] else [])
  }

  /** The stages' exit statuses, in pipeline order. */
  function Statuses(inp: Inputs): seq<ExitStatus> {
    [inp.cargoStatus, inp.smdhStatus, inp.dsxStatus, inp.linkStatus]
  }

  /** Run stages in order until one fails; its code (or 1) ends the driver, else 0. */
  function RunStages(stages: seq<Invocation>, statuses: seq<ExitStatus>): Run
    requires |statuses| >= |stages|
  {
    if stages == [] then Run([], Exited(0))
    else if !Succeeded(statuses[0]) then Run([stages[0]], Exited(FailureCode(statuses[0])))
    else
      var rest := RunStages(stages[1..], statuses[1..]);
      Run([stages[0]] + rest.trace, rest.outcome)
  }

  /**
   * The stages before the first failing one all ran, the failing one ran
   * too, nothing after it ran, and its code (or 1) is the exit status.
   */
  lemma {:induction false} StopsAtFirstFailure(stages: seq<Invocation>, statuses: seq<ExitStatus>, k: nat)
    requires |statuses| >= |stages| && k < |stages|
    requires forall i :: 0 <= i < k ==> Succeeded(statuses[i])
    requires !Succeeded(statuses[k])
    ensures RunStages(stages, statuses) == Run(stages[..k + 1], Exited(FailureCode(statuses[k])))
  {
    if k > 0 {
      StopsAtFirstFailure(stages[1..], statuses[1..], k - 1);
      assert [stages[0]] + stages[1..][..k] == stages[..k + 1];
    }
  }

  /** When every stage succeeds, all of them run, in order, and the driver exits with 0. */
  lemma {:induction false} AllSucceed(stages: seq<Invocation>, statuses: seq<ExitStatus>)
    requires |statuses| >= |stages|
    requires forall i :: 0 <= i < |stages| ==> Succeeded(statuses[i])
    ensures RunStages(stages, statuses) == Run(stages, Exited(0))
  {
    if stages != [] {
      AllSucceed(stages[1..], statuses[1..]);
      assert [stages[0]] + stages[1..] == stages;
    }
  }

  /** What `main` does, stated as a whole: which children run and how it ends. */
  function Plan(inp: Inputs): (r: Run)
    ensures |r.trace| <= 4
    ensures r.trace != [] ==> r.trace[0] == CargoInvocation(UserArgs(inp.argv), inp.rustflags)
  {
    match Check(inp.rustc)
    case NotNightly => Run([], Exited(1))
    case TooOld(_) => Run([], Exited(1))
    case BadCommitDate => Run([], Panicked(UnparsableCommitDate))
    case Accepted =>
      match Dispatch(inp.argv)
      case Failure(reason) => Run([], Panicked(reason))
      case Success(mustLink) => PlanBuild(inp, mustLink)
  }

  /** Everything after the verb: the cargo build, the metadata, then the artifact stages. */
  function PlanBuild(inp: Inputs, mustLink: bool): (r: Run)
    ensures 1 <= |r.trace| <= 4
    ensures r.trace[0] == CargoInvocation(UserArgs(inp.argv), inp.rustflags)
  {
    var cargo := CargoInvocation(UserArgs(inp.argv), inp.rustflags);
    if !Succeeded(inp.cargoStatus) then Run([cargo], Exited(FailureCode(inp.cargoStatus)))
    else
      match GetMetadata(inp.metadata, inp.iconOpens, inp.devkitpro)
      case Failure(reason) => Run([cargo], Panicked(reason))
      case Success(config) =>
        var stages := Pipeline(inp, config, OptimizationLevel(inp.argv), mustLink);
        StagesBound(stages, Statuses(inp));
        RunStages(stages, Statuses(inp))
  }

  lemma {:induction false} StagesBound(stages: seq<Invocation>, statuses: seq<ExitStatus>)
    requires |statuses| >= |stages|
    ensures |RunStages(stages, statuses).trace| <= |stages|
    ensures stages != [] ==> RunStages(stages, statuses).trace[0] == stages[0]
  {
    if stages != [] && Succeeded(statuses[0]) {
      StagesBound(stages[1..], statuses[1..]);
    }
  }

  /**
   * `main`, step by step: the gate, the level, the verb taken from the
   * argument iterator, then the stages.
   */
  method Drive(inp: Inputs) returns (trace: seq<Invocation>, outcome: Outcome)
    ensures Run(trace, outcome) == Plan(inp)
  {
    trace := [];
    var verdict := Check(inp.rustc);
    if verdict == NotNightly || verdict.TooOld? {
      return trace, Exited(1);
    }
    if verdict == BadCommitDate {
      return trace, Panicked(UnparsableCommitDate);
    }

    var level := if "--release" in inp.argv then "release" else "debug";

    // `env::args().skip(2)`, then `next()` for the verb.
    var cursor := if |inp.argv| < 2 then |inp.argv| else 2;
    if cursor == |inp.argv| {
      return trace, Panicked(NoCommand);
    }
    var command := inp.argv[cursor];
    cursor := cursor + 1;
    var mustLink: bool;
    if command == "build" {
      mustLink := false;
    } else if command == "link" {
      mustLink := true;
    } else {
      return trace, Panicked(InvalidCommand);
    }

    assert inp.argv[cursor..] == UserArgs(inp.argv);
    trace, outcome := BuildAndLink(inp, inp.argv[cursor..], level, mustLink);
  }

  /**
   * The rest of `main` once the verb is known: `build_elf`, `get_metadata`,
   * `build_3dsx` and, for `link`, `link`, returning as soon as one asks for
   * an exit.
   */
  method BuildAndLink(inp: Inputs, user: seq<string>, level: string, mustLink: bool)
    returns (trace: seq<Invocation>, outcome: Outcome)
    requires user == UserArgs(inp.argv) && level == OptimizationLevel(inp.argv)
    ensures Run(trace, outcome) == PlanBuild(inp, mustLink)
  {
    var cargo, exit := BuildElf(user, inp.rustflags, inp.cargoStatus);
    trace := [cargo];
    if exit.Some? {
      return trace, Exited(exit.value);
    }

    var config := GetMetadata(inp.metadata, inp.iconOpens, inp.devkitpro);
    if config.Failure? {
      return trace, Panicked(config.error);
    }

    var spawned;
    spawned, exit := Build3dsx(config.value, level, inp.romfsReadable, inp.smdhStatus, inp.dsxStatus);
    trace := trace + spawned;
    ghost var stages := Pipeline(inp, config.value, level, mustLink);
    ghost var statuses := Statuses(inp);
    assert PlanBuild(inp, mustLink) == RunStages(stages, statuses);
    if exit.Some? {
      ghost var k := if Succeeded(inp.smdhStatus) then 2 else 1;
      StopsAtFirstFailure(stages, statuses, k);
      assert trace == stages[..k + 1];
      return trace, Exited(exit.value);
    }

    if mustLink {
      var upload;
      upload, exit := Link(config.value.name, level, inp.linkStatus);
      trace := trace + [upload];
      if exit.Some? {
        StopsAtFirstFailure(stages, statuses, 3);
        assert trace == stages[..4];
        return trace, Exited(exit.value);
      }
    }
    AllSucceed(stages, statuses);
    assert trace == stages;
    outcome := Exited(0);
  }

  /**
   * Whatever the statuses, the stages that ran are a non-empty prefix of the
   * pipeline; all but the last succeeded; and either every stage ran and the
   * driver exits with 0, or the last one failed and its code is the exit status.
   */
  lemma {:induction false} RunStagesShape(stages: seq<Invocation>, statuses: seq<ExitStatus>)
    requires |statuses| >= |stages| >= 1
    ensures var r := RunStages(stages, statuses);
      && 1 <= |r.trace| <= |stages|
      && r.trace == stages[..|r.trace|]
      && (forall i :: 0 <= i < |r.trace| - 1 ==> Succeeded(statuses[i]))
      && (|| (Succeeded(statuses[|r.trace| - 1]) && |r.trace| == |stages| && r.outcome == Exited(0))
          || (!Succeeded(statuses[|r.trace| - 1]) &&
              r.outcome == Exited(FailureCode(statuses[|r.trace| - 1]))))
  {
    if Succeeded(statuses[0]) && |stages| > 1 {
      RunStagesShape(stages[1..], statuses[1..]);
      var rest := RunStages(stages[1..], statuses[1..]);
      assert [stages[0]] + stages[1..][..|rest.trace|] == stages[..|rest.trace| + 1];
    }
  }

  /** A rejected compiler or a bad verb ends the driver before any child is spawned. */
  lemma RejectedBeforeAnyChild(inp: Inputs)
    ensures Plan(inp).trace == [] <==> Check(inp.rustc) != Accepted || Dispatch(inp.argv).Failure?
    ensures Check(inp.rustc) == NotNightly || Check(inp.rustc).TooOld? ==>
      Plan(inp).outcome == Exited(1)
    ensures Check(inp.rustc) == BadCommitDate ==>
      Plan(inp).outcome == Panicked(UnparsableCommitDate)
    ensures Check(inp.rustc) == Accepted && Dispatch(inp.argv).Failure? ==>
      Plan(inp).outcome == Panicked(Dispatch(inp.argv).error)
  {
  }

  /** Every condition under which `main` gets to its end. */
  predicate AllGood(inp: Inputs) {
    && Check(inp.rustc) == Accepted
    && Dispatch(inp.argv).Success?
    && Succeeded(inp.cargoStatus)
    && GetMetadata(inp.metadata, inp.iconOpens, inp.devkitpro).Success?
    && Succeeded(inp.smdhStatus)
    && Succeeded(inp.dsxStatus)
    && (Dispatch(inp.argv).value ==> Succeeded(inp.linkStatus))
  }

  /**
   * The driver exits with 0 exactly when every check passes and every child
   * it runs succeeds; it has then run cargo, smdhtool and 3dsxtool, and
   * 3dslink after them only for `link`.
   */
  lemma SucceedsIff(inp: Inputs)
    ensures Plan(inp).outcome == Exited(0) <==> AllGood(inp)
    ensures AllGood(inp) ==>
      var config := GetMetadata(inp.metadata, inp.iconOpens, inp.devkitpro).value;
      var level := OptimizationLevel(inp.argv);
      Plan(inp).trace ==
        [CargoInvocation(UserArgs(inp.argv), inp.rustflags),
         SmdhInvocation(config, level),
         DsxInvocation(config.name, level, inp.romfsReadable)]
        + (if Dispatch(inp.argv).value then [LinkInvocation(config.name, level)] else [])
  {
    if Check(inp.rustc) == Accepted && Dispatch(inp.argv).Success? && Succeeded(inp.cargoStatus) {
      var metadata := GetMetadata(inp.metadata, inp.iconOpens, inp.devkitpro);
      if metadata.Success? {
        var mustLink := Dispatch(inp.argv).value;
        var stages := Pipeline(inp, metadata.value, OptimizationLevel(inp.argv), mustLink);
        var statuses := Statuses(inp);
        if AllGood(inp) {
          AllSucceed(stages, statuses);
        }
        RunStagesShape(stages, statuses);
        var r := RunStages(stages, statuses);
        if r.outcome == Exited(0) {
          assert |r.trace| == |stages|;
          assert Succeeded(statuses[1]) && Succeeded(statuses[2]);
          assert mustLink ==> Succeeded(statuses[3]);
        }
      }
    }
  }

  /**
   * Once the gate, the verb, cargo and the metadata have all passed, the
   * children spawned are the pipeline's stages in order, cut off after the
   * first one that fails.
   */
  lemma PlanPrefix(inp: Inputs)
    requires Check(inp.rustc) == Accepted && Dispatch(inp.argv).Success?
    requires Succeeded(inp.cargoStatus)
    requires GetMetadata(inp.metadata, inp.iconOpens, inp.devkitpro).Success?
    ensures var full := Pipeline(inp, GetMetadata(inp.metadata, inp.iconOpens, inp.devkitpro).value,
                                 OptimizationLevel(inp.argv), Dispatch(inp.argv).value);
      |Plan(inp).trace| <= |full| && Plan(inp).trace == full[..|Plan(inp).trace|]
  {
    var full := Pipeline(inp, GetMetadata(inp.metadata, inp.iconOpens, inp.devkitpro).value,
                         OptimizationLevel(inp.argv), Dispatch(inp.argv).value);
    RunStagesShape(full, Statuses(inp));
    assert Plan(inp) == RunStages(full, Statuses(inp));
  }

  /**
   * A non-zero exit is either the gate's status 1 before any child, or the
   * code (1 without one) of the last child spawned, after all earlier ones
   * succeeded.
   */
  lemma FailureExitCode(inp: Inputs)
    requires Plan(inp).outcome.Exited? && Plan(inp).outcome.code != 0
    ensures var r := Plan(inp);
      || (r.trace == [] && r.outcome.code == 1)
      || (&& r.trace != []
          && (forall i :: 0 <= i < |r.trace| - 1 ==> Succeeded(Statuses(inp)[i]))
          && !Succeeded(Statuses(inp)[|r.trace| - 1])
          && r.outcome.code == FailureCode(Statuses(inp)[|r.trace| - 1]))
  {
    if Check(inp.rustc) == Accepted && Dispatch(inp.argv).Success? && Succeeded(inp.cargoStatus) {
      var metadata := GetMetadata(inp.metadata, inp.iconOpens, inp.devkitpro);
      if metadata.Success? {
        var stages := Pipeline(inp, metadata.value, OptimizationLevel(inp.argv), Dispatch(inp.argv).value);
        RunStagesShape(stages, Statuses(inp));
      }
    }
  }

  /** 3dslink runs only for the `link` verb, and only as the fourth child. */
  lemma UploadOnlyForLink(inp: Inputs)
    ensures forall i :: 0 <= i < |Plan(inp).trace| && Plan(inp).trace[i].program == "3dslink" ==>
      i == 3 && Dispatch(inp.argv) == Success(true)
  {
    var r := Plan(inp);
    if Check(inp.rustc) == Accepted && Dispatch(inp.argv).Success? && Succeeded(inp.cargoStatus) {
      var metadata := GetMetadata(inp.metadata, inp.iconOpens, inp.devkitpro);
      if metadata.Success? {
        var mustLink := Dispatch(inp.argv).value;
        var stages := Pipeline(inp, metadata.value, OptimizationLevel(inp.argv), mustLink);
        RunStagesShape(stages, Statuses(inp));
        assert forall i :: 0 <= i < |r.trace| ==> r.trace[i] == stages[i];
      }
    }
  }

  /** `--release` reaches cargo exactly when the user gave it after the verb. */
  lemma ReleaseReachesCargo(argv: seq<string>, prior: Option<string>)
    ensures "--release" in CargoInvocation(UserArgs(argv), prior).args <==> "--release" in UserArgs(argv)
  {
    var args := CargoInvocation(UserArgs(argv), prior).args;
    assert forall i :: 0 <= i < |CargoPrefix| ==> CargoPrefix[i] != "--release" by {
      assert CargoPrefix[0][0] != '-' && CargoPrefix[2][0] != '-' && CargoPrefix[4][0] != '-';
      assert CargoPrefix[6][0] != '-';
      assert CargoPrefix[1][1] != '-' && CargoPrefix[3][1] != '-';
      assert CargoPrefix[5][2] != 'r';
    }
    assert forall i :: |CargoPrefix| <= i < |args| ==> args[i] == UserArgs(argv)[i - |CargoPrefix|];
  }
}
