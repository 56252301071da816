# cargo-3ds driver, modelled in Dafny

`cargo 3ds` builds a Nintendo 3DS homebrew application and can also upload it to the console. It first checks the compiler (the toolchain gate). It then reads the verb (`build` or `link`) and runs four external tools in turn:

- `cargo build` for the `armv6k-nintendo-3ds` target, with extra linker flags in `RUSTFLAGS`;
- `smdhtool`, which packs the SMDH metadata (name, description, author, icon);
- `3dsxtool`, which turns the ELF into a 3DSX, with the `./romfs` directory added when it is readable;
- for `link` only, `3dslink`, which uploads the 3DSX.

The first child that fails ends the driver with that child's exit code, or 1 when it has none.

The model takes the things the driver reads from outside as inputs:

- the compiler's report;
- the argument vector;
- `RUSTFLAGS` and `DEVKITPRO`;
- whether `./icon.png` opens and whether `./romfs` is readable;
- what `cargo metadata` answers;
- the exit status of each child.

It returns the children spawned, in order, and how the process ends: `Exited(code)` or `Panicked(reason)`.

Modules, leaves first:

- `Wrappers`: `Option`, `Result`.
- `Decimal`: Rust's `str::parse::<i32>` (`ParseI32`) and the zero-padded `{:0w}` rendering (`ZeroPad`).
- `Splitting`: `str::split("-")`, both as a function (`Split`) and as the iterator `CommitDate::parse` advances (`SplitIter`).
- `CommitDates`: `CommitDate`, its parser (`Parse`, specified by `ParseDate`), `Display` (`Render`) and the derived ordering (`Less`).
- `Toolchain`: the gate `check_rust_version` (`Check`).
- `Outcomes`: how a child's exit status is read, and how the process ends.
- `Stages`: the `Command` builder and the stage functions `build_elf`, `get_metadata`, `build_3dsx` and `link`.
- `Driver`: `main`, written twice:
  - `Plan`, a declarative statement: the pipeline, cut at the first failing stage;
  - `Drive`, the step-by-step method with early returns, proved equal to `Plan`.

Behaviour of the code worth noting:

- `RUSTFLAGS` is the prior value directly followed by the linker flags, with no space. A prior `-Copt-level=s` therefore becomes `-Copt-level=s-Clink-arg=-specs=3dsx.specs …`.
- smdhtool's first argument is `--create`.
- The romfs argument is `--romfs="./romfs"`, quote characters included.
- `build_elf` runs before `get_metadata`. A failing build therefore ends the driver before the metadata is looked at.
- `--release` is passed on to cargo unchanged.
- A missing or unknown verb panics (`panic!`); it does not go through `process::exit`.
- Only an absent package description gets `Homebrew Application`. An empty description is kept.
- The channel order is `Dev < Nightly < Beta < Stable`, so the gate rejects `Beta` and `Stable`.
- The gate parses a reported commit date even when the version is already too old. An unparsable date therefore panics in that case too.

`str::parse::<i32>` is modelled concretely:

- an optional `+` or `-`, then one or more ASCII digits;
- the value must lie in the `i32` range;
- anything else is `None`.

## Model

| member | source | states |
|---|---|---|
| Decimal.Digits | src/main.rs:37 | the decimal spelling of a natural number is a non-empty digit string denoting that number, with no leading zero, and 0 spelled `0` |
| Decimal.ZeroPad | src/main.rs:37 | `{:0w}` output is exactly max(w, sign + digits) characters long: padded up to the width, never cut |
| Decimal.ZeroPadNonNegative | src/main.rs:37 | a padded non-negative number is all digits and still denotes the number |
| Decimal.ZeroPadNegative | src/main.rs:37 | a padded negative number is `-` followed by zero-padded digits denoting its magnitude |
| Decimal.ValueLeadingZeros | src/main.rs:27-29 | leading zeros do not change the value a digit string denotes |
| Decimal.ParseI32 | src/main.rs:27-29 | `parse::<i32>` rejects the empty string; accepts only a sign followed by digits, or digits alone; a negative result needs a leading `-`; every plain digit string within `i32` parses to its value |
| Decimal.ValueBound | src/main.rs:27-29 | a string of k digits denotes a number below 10^k |
| Decimal.DigitStringsInjective | src/main.rs:37 | two digit strings of one length that denote the same number are equal |
| Decimal.PadCanonical | src/main.rs:37 | padding the number a non-empty digit string denotes to that string's width gives the string back |
| Decimal.ParsePadded | src/main.rs:27-37 | parsing a zero-padded non-negative `i32` gives the number back |
| Splitting.SplitJoin | src/main.rs:25 | splitting on `-` loses nothing: no piece contains `-`, there is one more piece than there are `-`, and joining the pieces with `-` gives the text back |
| Splitting.SplitFirstPiece | src/main.rs:25 | a run free of `-` followed by `-` is the first piece, and the rest splits independently |
| Splitting.SplitWhole | src/main.rs:25 | text free of `-` is a single piece |
| Splitting.SplitIter.constructor | src/main.rs:25 | a fresh `split` iterator has every piece of the text still to hand out |
| Splitting.SplitIter.Next | src/main.rs:27-29 | `next()` hands out the first remaining piece and drops it from the remaining ones, or gives `None` once none remain |
| CommitDates.Parse | src/main.rs:24-32 | `CommitDate::parse`, pulling three pieces from the iterator and returning early on a missing or unreadable piece, returns what `ParseDate` specifies: the first three pieces read as `i32`s |
| CommitDates.TooFewPieces | src/main.rs:24-32 | text with fewer than two `-` (fewer than three pieces) never parses |
| CommitDates.ParseThreeParts | src/main.rs:24-32 | `x-y-z`, with x, y and z free of `-`, parses exactly when each part reads as an `i32`, and to those three values |
| CommitDates.ParseIgnoresTail | src/main.rs:24-32 | anything after a third `-` is ignored: `x-y-z-tail` parses as `x-y-z` does |
| CommitDates.Render | src/main.rs:35-38 | the rendered date is at least 10 characters long (`YYYY-MM-DD` or longer) |
| CommitDates.RenderPieces | src/main.rs:35-38 | a date with non-negative fields renders as exactly three `-`-separated pieces: the year padded to 4 digits, then the month and the day padded to 2 |
| CommitDates.RoundTrip | src/main.rs:24-38 | parsing a rendered date gives the same date when no field is negative, and `None` otherwise |
| CommitDates.NegativeFieldEmptyPiece | src/main.rs:35-38 | a negative field puts a second `-` beside a separator, so one of the first three pieces of the rendering is empty |
| CommitDates.EmptyPieceAmongThree | src/main.rs:25-29 | three parts joined by `-`, where a part itself begins with `-`, split with an empty piece among the first three |
| CommitDates.ParsedIsNonNegative | src/main.rs:24-32 | no field of a parsed date is negative, because no piece contains `-` |
| CommitDates.ReparseRendered | src/main.rs:24-38 | rendering a parsed date and parsing again gives the same date |
| CommitDates.CanonicalRoundTrip | src/main.rs:24-38 | canonical `YYYY-MM-DD` text (4, 2 and 2 digits) parses to the numbers its fields denote, and rendering that date gives the text back character for character |
| CommitDates.LessIrreflexive | src/main.rs:16 | the derived order is irreflexive |
| CommitDates.LessTransitive | src/main.rs:16 | the derived order is transitive |
| CommitDates.LessTrichotomy | src/main.rs:16 | any two dates are equal or ordered one way, and never both ways |
| CommitDates.MinimumRendered | src/main.rs:41 | the minimum commit date renders as `2021-10-01`, the date the gate's message prints |
| Toolchain.Check | src/main.rs:78-109 | the gate accepts iff the channel is not above Nightly, the version is at least 1.56.0, and the commit date is absent or parses to a date not before 2021-10-01; it rejects as not nightly (`NotNightly`, status 1) iff the channel is Beta or Stable; otherwise a version below 1.56.0 or a date before 2021-10-01 is rejected as `TooOld`, also with status 1; it panics iff the channel passes and a present date does not parse; a too-old rejection names `2021-10-01` |
| Toolchain.AbsentDateNeverRejects | src/main.rs:92-96 | with no commit date, only the channel and the version decide, and the gate never panics |
| Toolchain.NewerIsAccepted | src/main.rs:90-98 | a compiler on the same channel with a version and commit date no older than an accepted one's is accepted too |
| Outcomes.FailureCode | src/main.rs:133-139 | a failed child's exit code is its own code, or 1 when it has none, and never 0 |
| Outcomes.ExitOnFailure | src/main.rs:131-140 | after the wait, the driver goes on exactly when the child succeeded, and otherwise exits with a non-zero code |
| Stages.Command.constructor | src/main.rs:115 | a new command has its program, no arguments and no extra environment |
| Stages.Command.Arg | src/main.rs:116-122 | `arg` appends one argument and leaves the environment alone |
| Stages.Command.Args | src/main.rs:123 | `args` appends the arguments in their order |
| Stages.Command.Env | src/main.rs:124 | `env` sets one variable and leaves the arguments alone |
| Stages.RustFlags | src/main.rs:112-113 | `RUSTFLAGS` starts with the prior value (`""` when unset) and ends with the four `-Clink-arg=` flags, with no separator between the two |
| Stages.BuildElf | src/main.rs:111-141 | the cargo command is `build -Z unstable-options -Z build-std --target armv6k-nintendo-3ds` followed by the user's arguments in order, with `RUSTFLAGS` set as above; a failed build asks for an exit with its code, or 1 |
| Stages.GetMetadata | src/main.rs:143-164 | the config exists iff there is a root package with at least one author and either `./icon.png` opens or `DEVKITPRO` is set; the failures are told apart (`MetadataFailed`, `NoRootCrate`, `NoDevkitPro`, and `NoAuthors` for a root package with an empty author list); the name is the package's; the author is the first author; the description defaults to `Homebrew Application` only when absent; the icon is `./icon.png` or `DEVKITPRO/libctru/default_icon.png` |
| Stages.Build3dsx | src/main.rs:166-218 | smdhtool gets `--create, name, description, author, icon, …/L/N.smdh`; only if it succeeds does 3dsxtool run, with `…/L/N.elf, …/L/N.3dsx, --smdh=…/L/N.smdh` and the romfs flag when `./romfs` is readable; the exit request is that of the last child run |
| Stages.Link | src/main.rs:220-239 | 3dslink gets `…/L/N.3dsx` alone; a failure asks for an exit with its code, or 1 |
| Stages.ArtifactsAgree | src/main.rs:173-195 | the SMDH smdhtool writes is the one 3dsxtool is pointed at; 3dsxtool reads the ELF under the same level and name; 3dslink uploads the 3DSX that 3dsxtool writes |
| Stages.RomfsFlagIff | src/main.rs:197-200 | `--romfs="./romfs"` is among 3dsxtool's arguments exactly when `./romfs` is readable, and it is then the fourth and last argument |
| Driver.OptimizationLevel | src/main.rs:47-51 | the level is `release` exactly when `--release` occurs anywhere in the full argument vector, and `debug` otherwise |
| Driver.Dispatch | src/main.rs:54-66 | with the first two arguments skipped, `build` means no upload and `link` means upload; no verb panics with `NoCommand`, and any other verb with `InvalidCommand` |
| Driver.Plan | src/main.rs:44-76 | at most four children are spawned, and the first is always the cargo build with the user's arguments |
| Driver.PlanBuild | src/main.rs:68-75 | once the verb is accepted, the cargo build is always spawned first, and at most four children in all |
| Driver.StopsAtFirstFailure | src/main.rs:68-75 | when stage k is the first failing one, exactly stages 0..k run and the driver exits with stage k's code, or 1 |
| Driver.AllSucceed | src/main.rs:68-76 | when every stage succeeds, all of them run in order and the driver exits with 0 |
| Driver.RunStagesShape | src/main.rs:68-76 | for any statuses, the stages run form a non-empty prefix; all but the last succeeded; the driver exits with 0 after the whole pipeline, or else with the last stage's failure code |
| Driver.Drive | src/main.rs:44-76 | `main`, step by step (gate, level, verb from the argument iterator, then the stages), spawns exactly the children `Plan` states and ends as `Plan` states |
| Driver.BuildAndLink | src/main.rs:68-75 | `build_elf`, `get_metadata`, `build_3dsx` and `link` in sequence, returning at the first exit request, do what `PlanBuild` states |
| Driver.RejectedBeforeAnyChild | src/main.rs:45-66 | no child is spawned iff the gate rejects or the verb is bad; a gate rejection exits with 1; a bad date or a bad verb panics |
| Driver.SucceedsIff | src/main.rs:44-76 | the driver exits with 0 iff the gate accepts, the verb is valid, the config exists and every child it runs succeeds; the children are then cargo, smdhtool, 3dsxtool and, for `link` only, 3dslink |
| Driver.PlanPrefix | src/main.rs:68-75 | once the gate, the verb, cargo and the metadata have passed, the children spawned are a prefix of cargo, smdhtool, 3dsxtool and (for `link`) 3dslink, in that order |
| Driver.FailureExitCode | src/main.rs:68-75 | a non-zero exit is either the gate's 1 with no children spawned, or the failure code of the last child spawned after all earlier ones succeeded |
| Driver.UploadOnlyForLink | src/main.rs:73-75 | 3dslink is spawned only for the `link` verb, and only as the fourth child |
| Driver.ReleaseReachesCargo | src/main.rs:111-124 | `--release` is among cargo's arguments exactly when the user gave it after the verb |

## Left out

- Spawning and waiting on children, and their inherited standard streams. Each child's exit status is an input. A failed `spawn().unwrap()` or `wait().unwrap()` (for example a tool missing from `PATH`) is not modelled.
- The `rustc_version::version_meta()` query and its `unwrap`. The compiler's report is an input.
- Toolchain.Check: versions are compared as (major, minor, patch) only. Pre-release and build-metadata ordering belong to the `semver` crate, which is not part of this model.
- `cargo metadata` and its JSON parsing. Its answer is an input (`Metadata`), and that invocation does not appear in the trace of spawned children.
- The filesystem probes (`File::open("./icon.png")`, `read_dir("./romfs")`) and the reads of `RUSTFLAGS` and `DEVKITPRO` are boolean and `Option` inputs. `env::args` panicking on arguments that are not Unicode is not modelled.
- Printed diagnostics, apart from the rendered minimum commit date.
- A panic's exit status (101 under Rust's default panic handling) is not given a number. It is the distinct outcome `Panicked(reason)`.
- The operating system's truncation of an exit code to 8 bits is not modelled. `Exited(code)` carries the code the driver passes to `process::exit`.
- CommitDates.Render: its own contract gives only the minimum length. The exact shape is stated by `RenderPieces` and `RoundTrip` for dates with non-negative fields, and by `NegativeFieldEmptyPiece` for the others.
