/**
 * The toolchain gate, `check_rust_version` (src/main.rs): decides from what
 * `rustc -vV` reports whether the driver may go on.
 */
module Toolchain {
  import opened Wrappers
  import opened CommitDates

  /** `rustc_version::Channel`; its derived order follows declaration order. */
  datatype Channel = Dev | Nightly | Beta | Stable

  function Rank(c: Channel): nat {
    match c
    case Dev => 0
    case Nightly => 1
    case Beta => 2
    case Stable => 3
  }

  /** A semantic version, major.minor.patch. */
  datatype Version = Version(major: nat, minor: nat, patch: nat)

  predicate VersionLess(a: Version, b: Version) {
    || a.major < b.major
    || (a.major == b.major && a.minor < b.minor)
    || (a.major == b.major && a.minor == b.minor && a.patch < b.patch)
  }

  const MinimumRustcVersion: Version := Version(1, 56, 0)

  /** What the compiler reports about itself. */
  datatype RustcMeta = RustcMeta(semver: Version, channel: Channel, commitDate: Option<string>)

  /**
   * The gate's verdict: go on, stop with status 1 for a release channel or
   * for a compiler that is too old (the message names the floor date), or
   * panic on a commit date that does not parse.
   */
  datatype Verdict = Accepted | NotNightly | TooOld(floor: string) | BadCommitDate

  function Check(meta: RustcMeta): (v: Verdict)
    ensures v == Accepted <==>
      && Rank(meta.channel) <= Rank(Nightly)
      && !VersionLess(meta.semver, MinimumRustcVersion)
      && (meta.commitDate.None? ||
          (ParseDate(meta.commitDate.value).Some? &&
           !Less(ParseDate(meta.commitDate.value).value, MinimumCommitDate)))
    ensures v == NotNightly <==> meta.channel == Beta || meta.channel == Stable
    ensures v == BadCommitDate <==>
      Rank(meta.channel) <= Rank(Nightly) &&
      meta.commitDate.Some? && ParseDate(meta.commitDate.value).None?
    ensures v.TooOld? ==> v.floor == "2021-10-01"
  {
    if Rank(meta.channel) > Rank(Nightly) then NotNightly
    else
      var oldVersion := VersionLess(meta.semver, MinimumRustcVersion);
      MinimumRendered();
      var floor := Render(MinimumCommitDate);
      match meta.commitDate
      case None =>
        if oldVersion then TooOld(floor) else Accepted
      case Some(date) =>
        match ParseDate(date)
        case None => BadCommitDate
        case Some(d) =>
          if oldVersion || Less(d, MinimumCommitDate) then TooOld(floor) else Accepted
  }

  /** With no commit date reported, only the channel and the version decide. */
  lemma AbsentDateNeverRejects(meta: RustcMeta)
    requires meta.commitDate.None?
    ensures Check(meta) == Accepted <==>
      Rank(meta.channel) <= Rank(Nightly) && !VersionLess(meta.semver, MinimumRustcVersion)
    ensures Check(meta) != BadCommitDate
  {
  }

  /**
   * A compiler at least as new as an accepted one, on the same channel, is
   * accepted too.
   */
  lemma {:induction false} NewerIsAccepted(meta: RustcMeta, newer: RustcMeta)
    requires Check(meta) == Accepted
    requires newer.channel == meta.channel
    requires !VersionLess(newer.semver, meta.semver)
    requires meta.commitDate.Some? <==> newer.commitDate.Some?
    requires newer.commitDate.Some? ==>
      ParseDate(newer.commitDate.value).Some? &&
      !Less(ParseDate(newer.commitDate.value).value, ParseDate(meta.commitDate.value).value)
    ensures Check(newer) == Accepted
  {
    if newer.commitDate.Some? {
      var d, e := ParseDate(meta.commitDate.value).value, ParseDate(newer.commitDate.value).value;
      if Less(e, MinimumCommitDate) {
        LessTrichotomy(d, e);
        if d != e {
          LessTransitive(d, e, MinimumCommitDate);
        }
      }
    }
  }
}
