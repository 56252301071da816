/**
 * The stage functions of src/main.rs: `build_elf`, `get_metadata`,
 * `build_3dsx` and `link`. Each builds a command line, runs it, and stops the
 * driver when the child fails; here running a child is recording the
 * `Invocation` and reading its exit status from the caller.
 */
module Stages {
  import opened Wrappers
  import opened Outcomes

  /** A command line as it is handed to the OS: program, arguments, extra environment. */
  datatype Invocation = Invocation(program: string, args: seq<string>, env: map<string, string>)

  /** `std::process::Command`, the builder each stage fills in before spawning. */
  class Command {
    const program: string
    var args: seq<string>
    var env: map<string, string>

    constructor (program: string)
      ensures this.program == program && args == [] && env == map[]
    {
      this.program := program;
      args := [];
      env := map[];
    }

    method Arg(arg: string)
      modifies this
      ensures args == old(args) + [arg] && env == old(env)
    {
      args := args + [arg];
    }

    method Args(more: seq<string>)
      modifies this
      ensures args == old(args) + more && env == old(env)
    {
      args := args + more;
    }

    method Env(key: string, value: string)
      modifies this
      ensures env == old(env)[key := value] && args == old(args)
    {
      env := env[key := value];
    }

    /** The command line as spawned. */
    function Spawned(): Invocation
      reads this
    {
      Invocation(program, args, env)
    }
  }

  /** The only target triple. */
  const Target: string := "armv6k-nintendo-3ds"

  /** The linker flags every build adds to `RUSTFLAGS`. */
  const LinkFlags: string :=
    "-Clink-arg=-specs=3dsx.specs -Clink-arg=-z -Clink-arg=muldefs -Clink-arg=-D__3DS__"

  /** What `cargo build` always gets before the user's own arguments. */
  const CargoPrefix: seq<string> :=
    ["build", "-Z", "unstable-options", "-Z", "build-std", "--target", Target]

  /**
   * `RUSTFLAGS` for the build: the caller's value (empty when unset) followed
   * directly by the linker flags, with no separator between them.
   */
  function RustFlags(prior: Option<string>): (flags: string)
    ensures |flags| == |prior.GetOr("")| + |LinkFlags|
    ensures flags[..|prior.GetOr("")|] == prior.GetOr("")
    ensures flags[|prior.GetOr("")|..] == LinkFlags
  {
    prior.GetOr("") + LinkFlags
  }

  /** The cross-compiling `cargo build`, with the user's arguments after the fixed prefix. */
  function CargoInvocation(user: seq<string>, prior: Option<string>): Invocation {
    Invocation("cargo", CargoPrefix + user, map["RUSTFLAGS" := RustFlags(prior)])
  }

  /** `build_elf`: builds the cargo command, runs it, stops on failure. */
  method BuildElf(user: seq<string>, prior: Option<string>, status: ExitStatus)
    returns (spawned: Invocation, exit: Option<int>)
    ensures spawned == CargoInvocation(user, prior)
    ensures exit == StageExit(status)
  {
    var flags := (if prior.Some? then prior.value else "") + LinkFlags;
    var command := new Command("cargo");
    command.Arg("build");
    command.Arg("-Z");
    command.Arg("unstable-options");
    command.Arg("-Z");
    command.Arg("build-std");
    command.Arg("--target");
    command.Arg(Target);
    command.Args(user);
    command.Env("RUSTFLAGS", flags);
    spawned := command.Spawned();
    exit := ExitOnFailure(status);
  }

  /** The root package as `cargo metadata` reports it. */
  datatype Package = Package(name: string, authors: seq<string>, description: Option<string>)

  /** The answer of `cargo metadata`: no answer, no root package, or the root package. */
  datatype Metadata = ProbeFailed | NoRootPackage | Root(package: Package)

  /** `CTRConfig`: what goes into the SMDH file. */
  datatype Config = Config(name: string, author: string, description: string, icon: string)

  const LocalIcon: string := "./icon.png"
  const DefaultIconSuffix: string := "/libctru/default_icon.png"
  const DefaultDescription: string := "Homebrew Application"

  /**
   * `get_metadata`: the config from the root package, with `./icon.png` when
   * it opens and otherwise the SDK's default icon under `DEVKITPRO`.
   */
  function GetMetadata(metadata: Metadata, iconOpens: bool, devkitpro: Option<string>)
    : (r: Result<Config, Panic>)
    ensures r.Success? <==>
      metadata.Root? && |metadata.package.authors| >= 1 && (iconOpens || devkitpro.Some?)
    ensures r == Failure(MetadataFailed) <==> metadata.ProbeFailed?
    ensures r == Failure(NoRootCrate) <==> metadata.NoRootPackage?
    ensures r == Failure(NoDevkitPro) <==> metadata.Root? && !iconOpens && devkitpro.None?
    ensures r == Failure(NoAuthors) <==>
      metadata.Root? && (iconOpens || devkitpro.Some?) && |metadata.package.authors| == 0
    ensures r.Success? ==>
      var package := metadata.package;
      && r.value.name == package.name
      && r.value.author == package.authors[0]
      && (package.description.Some? ==> r.value.description == package.description.value)
      && (package.description.None? ==> r.value.description == DefaultDescription)
      && (iconOpens ==> r.value.icon == LocalIcon)
      && (!iconOpens ==> r.value.icon == devkitpro.value + DefaultIconSuffix)
  {
    match metadata
    case ProbeFailed => Failure(MetadataFailed)
    case NoRootPackage => Failure(NoRootCrate)
    case Root(package) =>
      if !iconOpens && devkitpro.None? then Failure(NoDevkitPro)
      else
        var icon := if iconOpens then LocalIcon else devkitpro.value + DefaultIconSuffix;
        if |package.authors| == 0 then Failure(NoAuthors)
        else
          Success(Config(package.name, package.authors[0],
                         package.description.GetOr(DefaultDescription), icon))
  }

  /** `./target/armv6k-nintendo-3ds/<level>/<name>.<ext>`, where cargo and the tools meet. */
  function ArtifactPath(level: string, name: string, ext: string): string {
    "./target/" + Target + "/" + level + "/" + name + "." + ext
  }

  /** Added to 3dsxtool's arguments when `./romfs` is readable, quotes included. */
  const RomfsFlag: string := "--romfs=\"./romfs\""

  function SmdhInvocation(config: Config, level: string): Invocation {
    Invocation("smdhtool",
               ["--create", config.name, config.description, config.author, config.icon,
                ArtifactPath(level, config.name, "smdh")],
               map[])
  }

  function DsxInvocation(name: string, level: string, romfs: bool): Invocation {
    Invocation("3dsxtool",
               [ArtifactPath(level, name, "elf"),
                ArtifactPath(level, name, "3dsx"),
                "--smdh=" + ArtifactPath(level, name, "smdh")]
               + (if romfs then [RomfsFlag] else []),
               map[])
  }

  function LinkInvocation(name: string, level: string): Invocation {
    Invocation("3dslink", [ArtifactPath(level, name, "3dsx")], map[])
  }

  /**
   * `build_3dsx`: runs smdhtool, and only when it succeeds 3dsxtool, whose
   * command gets the romfs flag appended when the directory is readable.
   */
  method Build3dsx(config: Config, level: string, romfs: bool,
                   smdhStatus: ExitStatus, dsxStatus: ExitStatus)
    returns (spawned: seq<Invocation>, exit: Option<int>)
    ensures !Succeeded(smdhStatus) ==>
      spawned == [SmdhInvocation(config, level)] && exit == StageExit(smdhStatus)
    ensures Succeeded(smdhStatus) ==>
      && spawned == [SmdhInvocation(config, level), DsxInvocation(config.name, level, romfs)]
      && exit == StageExit(dsxStatus)
  {
    var smdh := new Command("smdhtool");
    smdh.Arg("--create");
    smdh.Arg(config.name);
    smdh.Arg(config.description);
    smdh.Arg(config.author);
    smdh.Arg(config.icon);
    smdh.Arg(ArtifactPath(level, config.name, "smdh"));
    assert smdh.args == SmdhInvocation(config, level).args;
    spawned := [smdh.Spawned()];
    exit := ExitOnFailure(smdhStatus);
    if exit.Some? {
      return;
    }
    var dsx := new Command("3dsxtool");
    dsx.Arg(ArtifactPath(level, config.name, "elf"));
    dsx.Arg(ArtifactPath(level, config.name, "3dsx"));
    dsx.Arg("--smdh=" + ArtifactPath(level, config.name, "smdh"));
    if romfs {
      dsx.Arg(RomfsFlag);
    }
    assert dsx.args == DsxInvocation(config.name, level, romfs).args;
    spawned := spawned + [dsx.Spawned()];
    exit := ExitOnFailure(dsxStatus);
  }

  /** `link`: hands the 3DSX to 3dslink. */
  method Link(name: string, level: string, status: ExitStatus)
    returns (spawned: Invocation, exit: Option<int>)
    ensures spawned == LinkInvocation(name, level)
    ensures exit == StageExit(status)
  {
    var command := new Command("3dslink");
    command.Arg(ArtifactPath(level, name, "3dsx"));
    spawned := command.Spawned();
    exit := ExitOnFailure(status);
  }

  /**
   * The three artifact stages address the same `<level>/<name>`: smdhtool
   * writes the SMDH that 3dsxtool is pointed at, and 3dslink uploads the
   * 3DSX that 3dsxtool writes from the ELF cargo builds.
   */
  lemma ArtifactsAgree(config: Config, level: string, romfs: bool)
    ensures SmdhInvocation(config, level).args[5] == ArtifactPath(level, config.name, "smdh")
    ensures DsxInvocation(config.name, level, romfs).args[0] == ArtifactPath(level, config.name, "elf")
    ensures DsxInvocation(config.name, level, romfs).args[2] == "--smdh=" + SmdhInvocation(config, level).args[5]
    ensures DsxInvocation(config.name, level, romfs).args[1] == LinkInvocation(config.name, level).args[0]
  {
  }

  /** 3dsxtool gets the romfs flag exactly when `./romfs` is readable, and then as its last argument. */
  lemma RomfsFlagIff(name: string, level: string, romfs: bool)
    ensures RomfsFlag in DsxInvocation(name, level, romfs).args <==> romfs
    ensures |DsxInvocation(name, level, romfs).args| == if romfs then 4 else 3
    ensures romfs ==> DsxInvocation(name, level, romfs).args[3] == RomfsFlag
  {
    var args := DsxInvocation(name, level, romfs).args;
    // The paths start with '.', the SMDH flag differs from the romfs flag at its third character.
    assert args[0][0] == '.' && args[1][0] == '.' && RomfsFlag[0] == '-';
    assert args[2][2] == 's' && RomfsFlag[2] == 'r';
  }
}
