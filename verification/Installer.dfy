/** `interop install` and `interop uninstall` as the sequence of file operations each
    performs.  Rename, replace and unlink are atomic, so a process that dies leaves the
    disk as one of the states of that sequence. */
module Installer {
  import opened Strings
  import opened Wrappers

  /** Where non-launch commands are chained to. */
  datatype Target = BackedUpWrapper | RealOllama(path: string)

  /** A file's text: exactly what `_build_shim` renders, or anything else. */
  datatype Text = Rendered(target: Target, runner: seq<string>) | Other(content: string)

  const MARKER := "Interop wrapper"

  /** The fallback ownership test; the rendered shim always passes it. */
  predicate Marked(t: Text) {
    t.Rendered? || Contains(t.content, MARKER)
  }

  /** The shim, the backup `install` moves a foreign wrapper to, and the fixed backup
      name of installs that had no manifest. */
  datatype Place = Shim | Backup | Legacy

  /** `sha` stands for the recorded realpath and content hash; hashing is injective,
      so the record names the text itself. */
  datatype Manifest = Manifest(original: Option<Place>, sha: Option<Text>, complete: bool)

  datatype ManifestFile = Absent | Unreadable | Readable(manifest: Manifest)

  datatype Disk = Disk(files: map<Place, Text>, record: ManifestFile)

  /** What the surroundings decide: the binary found, the runner, and whether building
      or writing the shim raises. */
  datatype Env = Env(binary: Option<string>, runner: seq<string>, writeFails: bool)

  // -------------------------------------------------------- file operations

  function Unlinked(d: Disk, p: Place): Disk { d.(files := d.files - {p}) }

  function Renamed(d: Disk, from: Place, to: Place): Disk
    requires from in d.files
  {
    d.(files := (d.files - {from})[to := d.files[from]])
  }

  function Written(d: Disk, t: Text): Disk { d.(files := d.files[Shim := t]) }

  function Recorded(d: Disk, original: Option<Place>, sha: Option<Text>, complete: bool): Disk {
    d.(record := Readable(Manifest(original, sha, complete)))
  }

  function Original(d: Disk): Option<Place> {
    if d.record.Readable? then d.record.manifest.original else None
  }

  predicate Unfinished(d: Disk) { d.record.Readable? && !d.record.manifest.complete }

  /** Where `uninstall` looks for a wrapper to restore. */
  function RestoredFrom(d: Disk): Place { if Original(d).Some? then Original(d).value else Legacy }

  /** `_shim_matches_manifest`. */
  predicate Matches(d: Disk) {
    Shim in d.files &&
    if d.record.Readable? && d.record.manifest.sha.Some?
    then d.files[Shim] == d.record.manifest.sha.value
    else Marked(d.files[Shim])
  }

  function TargetOf(original: Option<Place>, binary: string): Target {
    if original.Some? then BackedUpWrapper else RealOllama(binary)
  }

  // ---------------------------------------------------------- the two commands

  /** From the moment the shim path is free: the states still to come. */
  function FinishTrace(d: Disk, original: Option<Place>, renamed: bool, binary: string, env: Env): seq<Disk> {
    var pending := Recorded(d, original, None, false);
    if env.writeFails then
      if renamed && Backup in pending.files && Shim !in pending.files
      then [pending, Renamed(pending, Backup, Shim)]
      else [pending]
    else
      var text := Rendered(TargetOf(original, binary), env.runner);
      var written := Written(pending, text);
      [pending, written, Recorded(written, original, Some(text), true)]
  }

  /** Every state `install` takes the disk through, in order. */
  function InstallTrace(d: Disk, force: bool, dryRun: bool, env: Env): seq<Disk> {
    if env.binary.None? || dryRun then []
    else if Shim !in d.files then
      FinishTrace(d, Original(d), false, env.binary.value, env)
    else if Matches(d) then
      if !force then []
      else
        var free := Unlinked(d, Shim);
        [free] + FinishTrace(free, Original(d), false, env.binary.value, env)
    else if Backup in d.files then []
    else
      var moved := Renamed(d, Shim, Backup);
      [moved] + FinishTrace(moved, Some(Backup), true, env.binary.value, env)
  }

  function WithoutRecord(d: Disk): seq<Disk> {
    if d.record.Absent? then [] else [d.(record := Absent)]
  }

  /** Every state `uninstall` takes the disk through, in order. */
  function UninstallTrace(d: Disk): seq<Disk> {
    if Unfinished(d) then []
    else if Shim !in d.files then WithoutRecord(d)
    else if !Matches(d) then []
    else
      var free := Unlinked(d, Shim);
      var from := RestoredFrom(d);
      if from in free.files then
        var restored := Renamed(free, from, Shim);
        [free, restored] + WithoutRecord(restored)
      else
        [free] + WithoutRecord(free)
  }

  /** One invocation, dying after `cut` file operations if it gets that far. */
  datatype Call = Install(force: bool, dryRun: bool, env: Env, cut: nat) | Uninstall(cut: nat)

  function Trace(d: Disk, c: Call): seq<Disk> {
    match c
    case Install(force, dryRun, env, _) => InstallTrace(d, force, dryRun, env)
    case Uninstall(_) => UninstallTrace(d)
  }

  function Apply(d: Disk, c: Call): Disk {
    var t := Trace(d, c);
    if c.cut == 0 || t == [] then d
    else if c.cut >= |t| then t[|t| - 1]
    else t[c.cut - 1]
  }

  function Run(d: Disk, calls: seq<Call>): Disk
    decreases |calls|
  {
    if calls == [] then d else Run(Apply(d, calls[0]), calls[1..])
  }

  // --------------------------------------------------- nothing foreign is lost

  /** What every record the installer ever writes satisfies. */
  ghost predicate OwnRecord(d: Disk) {
    d.record.Readable? ==>
      var m := d.record.manifest;
      && (m.original.None? || m.original == Some(Backup))
      && (m.sha.Some? ==> Marked(m.sha.value))
      && (m.complete ==> m.sha.Some?)
  }

  ghost predicate At(d: Disk, p: Place, t: Text) { p in d.files && d.files[p] == t }

  ghost predicate Kept(d: Disk, wrapper: Text) { At(d, Shim, wrapper) || At(d, Backup, wrapper) }

  lemma AppliedIsInTrace(d: Disk, c: Call)
    ensures Apply(d, c) == d || Apply(d, c) in Trace(d, c)
  {
  }

  /** An unmarked wrapper kept on a disk with a record of our own. */
  ghost predicate Safe(d: Disk, wrapper: Text) {
    OwnRecord(d) && (!Marked(wrapper) ==> Kept(d, wrapper))
  }

  lemma FinishIsSafe(d: Disk, original: Option<Place>, renamed: bool, binary: string, env: Env, wrapper: Text)
    requires Safe(d, wrapper) && Shim !in d.files && original in {None, Some(Backup)}
    ensures forall x :: x in FinishTrace(d, original, renamed, binary, env) ==> Safe(x, wrapper)
  {
  }

  lemma InstallIsSafe(d: Disk, force: bool, dryRun: bool, env: Env, wrapper: Text)
    requires Safe(d, wrapper)
    ensures forall x :: x in InstallTrace(d, force, dryRun, env) ==> Safe(x, wrapper)
  {
    if env.binary.Some? {
      if Shim !in d.files {
        FinishIsSafe(d, Original(d), false, env.binary.value, env, wrapper);
      } else if Matches(d) {
        FinishIsSafe(Unlinked(d, Shim), Original(d), false, env.binary.value, env, wrapper);
      } else if Backup !in d.files {
        FinishIsSafe(Renamed(d, Shim, Backup), Some(Backup), true, env.binary.value, env, wrapper);
      }
    }
  }

  lemma UninstallIsSafe(d: Disk, wrapper: Text)
    requires Safe(d, wrapper)
    ensures forall x :: x in UninstallTrace(d) ==> Safe(x, wrapper)
  {
  }

  lemma CallKeepsWrapper(d: Disk, c: Call, wrapper: Text)
    requires OwnRecord(d)
    ensures OwnRecord(Apply(d, c))
    ensures !Marked(wrapper) && Kept(d, wrapper) ==> Kept(Apply(d, c), wrapper)
  {
    AppliedIsInTrace(d, c);
    var kept := if Kept(d, wrapper) then wrapper else Rendered(BackedUpWrapper, []);
    match c
    case Install(force, dryRun, env, _) => InstallIsSafe(d, force, dryRun, env, kept);
    case Uninstall(_) => UninstallIsSafe(d, kept);
  }

  /** Over any sequence of installs and uninstalls, each dying wherever it may, a
      wrapper without the marker text that is at the shim path, or has been moved to
      the backup path, stays at one of the two. */
  lemma {:induction false} ForeignWrapperIsNeverLost(d: Disk, calls: seq<Call>, wrapper: Text)
    requires OwnRecord(d)
    ensures OwnRecord(Run(d, calls))
    ensures !Marked(wrapper) && Kept(d, wrapper) ==> Kept(Run(d, calls), wrapper)
    decreases |calls|
  {
    if calls != [] {
      CallKeepsWrapper(d, calls[0], wrapper);
      ForeignWrapperIsNeverLost(Apply(d, calls[0]), calls[1..], wrapper);
    }
  }

  // ------------------------------------------------------ what the shim chains to

  /** A wrapper that is not ours is at the shim path and can be moved out of the way. */
  predicate MovesWrapper(d: Disk) { Shim in d.files && !Matches(d) && Backup !in d.files }

  /** The manifest that was read names a wrapper moved earlier. */
  predicate NamesWrapper(d: Disk) { d.record.Readable? && d.record.manifest.original.Some? }

  /** An install that succeeds leaves a shim that chains to the backed-up wrapper if one was
      moved now or is named by the manifest it read, and to the binary it found otherwise; a
      manifest that names that wrapper and this very shim; a wrapper that was moved at the
      backup path; and everything else as it was. */
  lemma ShimChains(d: Disk, force: bool, env: Env)
    requires Proceeds(d, force, false, env) && !env.writeFails
    ensures var after := Apply(d, Install(force, false, env, 4));
            && Shim in after.files
            && after.files[Shim] == Rendered(if MovesWrapper(d) || NamesWrapper(d) then BackedUpWrapper
                                             else RealOllama(env.binary.value), env.runner)
            && after.record == Readable(Manifest(if MovesWrapper(d) then Some(Backup)
                                                 else if d.record.Readable? then d.record.manifest.original else None,
                                                 Some(after.files[Shim]), true))
            && (MovesWrapper(d) ==> Backup in after.files && after.files[Backup] == d.files[Shim])
            && (!MovesWrapper(d) ==> Rest(after, Backup) == Rest(d, Backup))
            && Rest(after, Legacy) == Rest(d, Legacy)
  {
    TraceLengths(d, force, false, env);
  }

  function Rest(d: Disk, p: Place): Option<Text> { if p in d.files then Some(d.files[p]) else None }

  /** An install that fails while it builds or writes the shim leaves the manifest unfinished
      and, if it had moved a wrapper, that wrapper back at the shim path. */
  lemma FailureIsRolledBack(d: Disk, force: bool, env: Env)
    requires Proceeds(d, force, false, env) && env.writeFails
    ensures var after := Apply(d, Install(force, false, env, 4));
            && after.record.Readable? && !after.record.manifest.complete
            && (MovesWrapper(d) ==> after.files == d.files)
            && (!MovesWrapper(d) ==> after.files == d.files - {Shim})
  {
    TraceLengths(d, force, false, env);
    var after := Apply(d, Install(force, false, env, 4));
    if MovesWrapper(d) {
      assert after.files == d.files;
    } else if Shim !in d.files {
      assert d.files - {Shim} == d.files;
    }
  }

  /** An uninstall that recognises its shim leaves the recorded wrapper, or with none recorded
      the legacy backup, at the shim path in its place, or nothing if there is none; no
      manifest; and everything else as it was. */
  lemma UninstallPutsBack(d: Disk)
    requires !Unfinished(d) && Matches(d)
    ensures var (after, from) := (Apply(d, Uninstall(3)), if NamesWrapper(d) then d.record.manifest.original.value else Legacy);
            && after.record.Absent?
            && Rest(after, Shim) == (if from == Shim then None else Rest(d, from))
            && (from != Shim ==> from !in after.files)
            && forall p :: p != Shim && p != from ==> Rest(after, p) == Rest(d, p)
  {
    TraceLengths(d, false, false, Env(None, [], false));
  }

  /** With nothing at the shim path only the manifest goes. */
  lemma UninstallForgets(d: Disk)
    requires Shim !in d.files && (d.record.Readable? ==> d.record.manifest.complete)
    ensures Apply(d, Uninstall(3)) == Disk(d.files, Absent)
  {
    TraceLengths(d, false, false, Env(None, [], false));
  }

  /** A file at the shim path is ours by the hash in the manifest, or with no hash recorded if
      it is a shim or quotes the marker. */
  ghost predicate OursAtShim(d: Disk) {
    && Shim in d.files
    && match d.record
       case Readable(Manifest(_, Some(sha), _)) => d.files[Shim] == sha
       case _ => d.files[Shim].Rendered? || Contains(d.files[Shim].content, "Interop wrapper")
  }

  /** The commands that do not touch the disk at all: an install that finds no binary, only
      plans, finds its shim and is not forced, or finds a wrapper with the backup path taken;
      an uninstall that finds an unfinished manifest, a file that is not ours, or nothing. */
  lemma TouchesNothingIff(d: Disk, force: bool, dryRun: bool, env: Env)
    ensures InstallTrace(d, force, dryRun, env) == [] <==>
              || env.binary.None? || dryRun
              || (OursAtShim(d) && !force)
              || (Shim in d.files && !OursAtShim(d) && Backup in d.files)
    ensures UninstallTrace(d) == [] <==>
              || (d.record.Readable? && !d.record.manifest.complete)
              || (if Shim in d.files then !OursAtShim(d) else d.record.Absent?)
  {
  }

  /** A finished record knows its shim, and the shim it knows chains to a backed-up wrapper
      exactly when the record names one. */
  ghost predicate ChainsAsRecorded(d: Disk) {
    d.record.Readable? && d.record.manifest.complete ==>
      var m := d.record.manifest;
      m.sha.Some? && m.sha.value.Rendered? && (m.sha.value.target.BackedUpWrapper? <==> m.original.Some?)
  }

  lemma CallKeepsChain(d: Disk, c: Call)
    requires ChainsAsRecorded(d)
    ensures ChainsAsRecorded(Apply(d, c))
  {
    AppliedIsInTrace(d, c);
    match c
    case Install(force, dryRun, env, _) => InstallKeepsChain(d, force, dryRun, env);
    case Uninstall(_) =>
  }

  lemma InstallKeepsChain(d: Disk, force: bool, dryRun: bool, env: Env)
    requires ChainsAsRecorded(d)
    ensures forall x :: x in InstallTrace(d, force, dryRun, env) ==> ChainsAsRecorded(x)
  {
  }

  /** Over any sequence of commands, each stopping wherever it may: where the record is finished
      and its shim in place, that shim chains to the backed-up wrapper if and only if the
      record names one. */
  lemma {:induction false} ShimsChainAsRecorded(d: Disk, calls: seq<Call>)
    requires ChainsAsRecorded(d)
    ensures ChainsAsRecorded(Run(d, calls))
    ensures var e := Run(d, calls);
            e.record.Readable? && e.record.manifest.complete && Matches(e) ==>
              e.files[Shim].Rendered? && (e.files[Shim].target.BackedUpWrapper? <==> e.record.manifest.original.Some?)
    decreases |calls|
  {
    if calls != [] {
      CallKeepsChain(d, calls[0]);
      ShimsChainAsRecorded(Apply(d, calls[0]), calls[1..]);
    }
  }

  // ------------------------------------------------------ install, then uninstall

  function Completed(d: Disk, force: bool, env: Env): Disk
  {
    Apply(Apply(d, Install(force, false, env, 4)), Uninstall(3))
  }

  lemma TraceLengths(d: Disk, force: bool, dryRun: bool, env: Env)
    ensures |InstallTrace(d, force, dryRun, env)| <= 4
    ensures |UninstallTrace(d)| <= 3
  {
  }

  lemma MarkedIsNotRestored(d: Disk, force: bool, env: Env)
    requires d.record.Absent? && env.binary.Some? && !env.writeFails && Shim in d.files && Marked(d.files[Shim])
    ensures Completed(d, force, env) != d
  {
    TraceLengths(d, force, false, env);
    TraceLengths(Apply(d, Install(force, false, env, 4)), force, false, env);
    assert Legacy !in Completed(d, force, env).files;
  }

  lemma UnmarkedIsRestored(d: Disk, force: bool, env: Env)
    requires d.record.Absent? && env.binary.Some? && !env.writeFails && Shim in d.files && !Marked(d.files[Shim])
    ensures Completed(d, force, env) == d
  {
    TraceLengths(d, force, false, env);
    TraceLengths(Apply(d, Install(force, false, env, 4)), force, false, env);
    if Backup !in d.files {
      assert Completed(d, force, env).files == d.files;
    }
  }

  lemma EmptyIsRestoredIff(d: Disk, force: bool, env: Env)
    requires d.record.Absent? && env.binary.Some? && !env.writeFails && Shim !in d.files
    ensures Completed(d, force, env) == d <==> Legacy !in d.files
  {
    TraceLengths(d, force, false, env);
    TraceLengths(Apply(d, Install(force, false, env, 4)), force, false, env);
    if Legacy !in d.files {
      assert Completed(d, force, env).files == d.files;
    }
  }

  /** On a directory with no manifest, an install followed by an uninstall, neither
      interrupted, restores the disk exactly when the shim path held a wrapper without
      the marker, or held nothing and there was no legacy backup either.  A file at the
      shim path that merely quotes the marker is deleted. */
  lemma InstallThenUninstallRestoresIff(d: Disk, force: bool, env: Env)
    requires d.record.Absent? && env.binary.Some? && !env.writeFails
    ensures Completed(d, force, env) == d
       <==> (if Shim in d.files then !Marked(d.files[Shim]) else Legacy !in d.files)
  {
    if Shim !in d.files {
      EmptyIsRestoredIff(d, force, env);
    } else if Marked(d.files[Shim]) {
      MarkedIsNotRestored(d, force, env);
    } else {
      UnmarkedIsRestored(d, force, env);
    }
  }

  // ------------------------------------------- what a "complete" manifest is worth

  /** A finished record whose shim is in place chains to a wrapper that exists. */
  ghost predicate Trustworthy(d: Disk) {
    d.record.Readable? && d.record.manifest.complete && Matches(d) ==>
      Original(d).None? || Original(d).value in d.files
  }

  /** The one family of starting points from which the promise can be broken: a legacy
      backup that carries the marker, and nothing foreign at the other two paths. */
  predicate MarkedLegacyAlone(d: Disk) {
    && Legacy in d.files && Marked(d.files[Legacy])
    && Backup !in d.files
    && (Shim in d.files ==> Marked(d.files[Shim]))
  }

  /** The backup path was taken from the start, so the installer never uses it. */
  ghost predicate BackupForeign(d: Disk) {
    OwnRecord(d) && Backup in d.files && Original(d).None?
  }

  /** Nothing but the shim ever carries the marker, so a recorded wrapper is either at
      the backup path or back at the shim path. */
  ghost predicate OnlyShimMarked(d: Disk) {
    && OwnRecord(d)
    && (Legacy in d.files ==> !Marked(d.files[Legacy]))
    && (Backup in d.files ==> !Marked(d.files[Backup]))
    && (Shim in d.files && Marked(d.files[Shim]) ==> Matches(d))
    && (Original(d).Some? ==> Backup in d.files || (Shim in d.files && !Marked(d.files[Shim])))
  }

  lemma BackupForeignStays(d: Disk, c: Call)
    requires BackupForeign(d)
    ensures BackupForeign(Apply(d, c))
  {
  }

  lemma FinishKeepsShimMarked(d: Disk, original: Option<Place>, renamed: bool, binary: string, env: Env)
    requires OnlyShimMarked(d) || (OwnRecord(d) && Original(d).None?)
    requires Shim !in d.files && original in {None, Some(Backup)}
    requires Legacy in d.files ==> !Marked(d.files[Legacy])
    requires Backup in d.files ==> !Marked(d.files[Backup])
    requires original.Some? ==> Backup in d.files
    ensures forall x :: x in FinishTrace(d, original, renamed, binary, env) ==> OnlyShimMarked(x)
  {
  }

  lemma InstallKeepsShimMarked(d: Disk, force: bool, dryRun: bool, env: Env)
    requires OnlyShimMarked(d)
    ensures forall x :: x in InstallTrace(d, force, dryRun, env) ==> OnlyShimMarked(x)
  {
    if env.binary.Some? {
      if Shim !in d.files {
        FinishKeepsShimMarked(d, Original(d), false, env.binary.value, env);
      } else if Matches(d) {
        FinishKeepsShimMarked(Unlinked(d, Shim), Original(d), false, env.binary.value, env);
      } else if Backup !in d.files {
        FinishKeepsShimMarked(Renamed(d, Shim, Backup), Some(Backup), true, env.binary.value, env);
      }
    }
  }

  lemma UninstallKeepsShimMarked(d: Disk)
    requires OnlyShimMarked(d)
    ensures forall x :: x in UninstallTrace(d) ==> OnlyShimMarked(x)
  {
  }

  lemma OnlyShimMarkedStays(d: Disk, c: Call)
    requires OnlyShimMarked(d)
    ensures OnlyShimMarked(Apply(d, c))
  {
    AppliedIsInTrace(d, c);
    match c
    case Install(force, dryRun, env, _) => InstallKeepsShimMarked(d, force, dryRun, env);
    case Uninstall(_) => UninstallKeepsShimMarked(d);
  }

  lemma {:induction false} RunsStayTrustworthy(d: Disk, calls: seq<Call>)
    requires BackupForeign(d) || OnlyShimMarked(d)
    ensures Trustworthy(Run(d, calls))
    decreases |calls|
  {
    if calls != [] {
      if BackupForeign(d) {
        BackupForeignStays(d, calls[0]);
      } else {
        OnlyShimMarkedStays(d, calls[0]);
      }
      RunsStayTrustworthy(Apply(d, calls[0]), calls[1..]);
    }
  }

  /** Where a wrapper without the marker starts at the shim path the promise is kept by
      that wrapper alone: while it is at the shim path nothing matches. */
  lemma WrapperKeepsTrust(d: Disk, calls: seq<Call>, wrapper: Text)
    requires OwnRecord(d) && !Marked(wrapper) && Kept(d, wrapper)
    ensures Trustworthy(Run(d, calls))
  {
    ForeignWrapperIsNeverLost(d, calls, wrapper);
  }

  /** The run that breaks it: install, an uninstall that dies after restoring the marked
      legacy file, an install that fails and rolls back, and a forced install, which takes
      the rolled-back file for its own shim, deletes it, and records a backup that is gone.
      Any runner will do. */
  function BreakingRun(legacy: Text, runner: seq<string>): seq<Call> {
    var path := if legacy == Rendered(RealOllama("/usr/bin/ollama"), runner) then "/usr/local/bin/ollama" else "/usr/bin/ollama";
    var env := Env(Some(path), runner, false);
    [ Install(true, false, env, 4),
      Uninstall(2),
      Install(false, false, env.(writeFails := true), 4),
      Install(true, false, env, 4) ]
  }

  lemma FirstInstall(d: Disk, env: Env)
    requires !d.record.Readable? && MarkedLegacyAlone(d) && env.binary.Some? && !env.writeFails
    ensures var shim := Rendered(RealOllama(env.binary.value), env.runner);
            Apply(d, Install(true, false, env, 4))
            == Disk(map[Shim := shim, Legacy := d.files[Legacy]], Readable(Manifest(None, Some(shim), true)))
  {
    var shim := Rendered(RealOllama(env.binary.value), env.runner);
    var files := Apply(d, Install(true, false, env, 4)).files;
    forall p | p in files ensures p == Shim || p == Legacy {
    }
    assert files == map[Shim := shim, Legacy := d.files[Legacy]];
  }

  lemma DyingUninstall(shim: Text, legacy: Text)
    ensures var m := Readable(Manifest(None, Some(shim), true));
            Apply(Disk(map[Shim := shim, Legacy := legacy], m), Uninstall(2)) == Disk(map[Shim := legacy], m)
  {
    var d := Disk(map[Shim := shim, Legacy := legacy], Readable(Manifest(None, Some(shim), true)));
    assert UninstallTrace(d)[1].files == map[Shim := legacy];
  }

  lemma FailingInstall(shim: Text, legacy: Text, env: Env)
    requires shim != legacy && env.binary.Some? && env.writeFails
    ensures Apply(Disk(map[Shim := legacy], Readable(Manifest(None, Some(shim), true))), Install(false, false, env, 4))
         == Disk(map[Shim := legacy], Readable(Manifest(Some(Backup), None, false)))
  {
    var d := Disk(map[Shim := legacy], Readable(Manifest(None, Some(shim), true)));
    var t := InstallTrace(d, false, false, env);
    assert t[0].files == map[Backup := legacy];
    assert |t| == 3 && t[2].files == map[Shim := legacy];
  }

  lemma ForcedReinstall(legacy: Text, env: Env)
    requires Marked(legacy) && env.binary.Some? && !env.writeFails
    ensures !Trustworthy(Apply(Disk(map[Shim := legacy], Readable(Manifest(Some(Backup), None, false))),
                               Install(true, false, env, 4)))
  {
  }

  lemma BreakingRunBreaks(d: Disk, runner: seq<string>)
    requires !d.record.Readable? && MarkedLegacyAlone(d)
    ensures !Trustworthy(Run(d, BreakingRun(d.files[Legacy], runner)))
  {
    var legacy := d.files[Legacy];
    var calls := BreakingRun(legacy, runner);
    var env := calls[0].env;
    var shim := Rendered(RealOllama(env.binary.value), env.runner);
    FirstInstall(d, env);
    DyingUninstall(shim, legacy);
    FailingInstall(shim, legacy, calls[2].env);
    ForcedReinstall(legacy, env);
    FourCalls(d, calls);
  }

  lemma FourCalls(d: Disk, calls: seq<Call>)
    requires |calls| == 4
    ensures Run(d, calls) == Apply(Apply(Apply(Apply(d, calls[0]), calls[1]), calls[2]), calls[3])
  {
    var d1 := Apply(d, calls[0]);
    var d2 := Apply(d1, calls[1]);
    var d3 := Apply(d2, calls[2]);
    assert calls[1..] == [calls[1]] + calls[2..];
    assert calls[2..] == [calls[2]] + calls[3..];
    assert calls[3..] == [calls[3]];
    assert Run(d, calls) == Run(d1, calls[1..]);
    assert calls[1..][1..] == calls[2..];
    assert Run(d1, calls[1..]) == Run(d2, calls[2..]);
    assert calls[2..][1..] == calls[3..];
    assert Run(d2, calls[2..]) == Run(d3, calls[3..]);
    assert calls[3..][1..] == [];
    assert Run(Apply(d3, calls[3]), []) == Apply(d3, calls[3]);
  }

  /** Starting with no readable manifest: in every state of every run a complete manifest with a
      matching shim names no original wrapper or one that exists, if and only if the
      directory did not start with a marked legacy backup alone. */
  lemma TrustworthyAlwaysIff(d: Disk)
    requires !d.record.Readable?
    ensures (forall calls :: Trustworthy(Run(d, calls))) <==> !MarkedLegacyAlone(d)
  {
    if MarkedLegacyAlone(d) {
      BreakingRunBreaks(d, ["interop"]);
    } else {
      forall calls ensures Trustworthy(Run(d, calls)) {
        if Shim in d.files && !Marked(d.files[Shim]) {
          WrapperKeepsTrust(d, calls, d.files[Shim]);
        } else {
          RunsStayTrustworthy(d, calls);
        }
      }
    }
  }

  // ---------------------------------------------------- the commands themselves

  datatype InstallResult = Installed | AlreadyInstalled | NoBinary | BackupTaken | Planned | RolledBack
  datatype UninstallResult = Removed(restored: bool) | NothingToRemove | NotOurs | ManualRecovery

  /** `install` gets to the point of writing: nothing is in the way at the shim path, or what
      is there is ours and may be replaced, or can be moved out of the way. */
  predicate Proceeds(d: Disk, force: bool, dryRun: bool, env: Env) {
    && env.binary.Some? && !dryRun
    && (Shim in d.files ==> if Matches(d) then force else Backup !in d.files)
  }

  /** The target directory.  `history` lists every state the disk has been in. */
  class Directory {
    var disk: Disk
    ghost var history: seq<Disk>

    constructor (disk: Disk)
      ensures this.disk == disk && history == []
    {
      this.disk := disk;
      history := [];
    }

    method Unlink(p: Place)
      modifies this
      ensures disk == Unlinked(old(disk), p) && history == old(history) + [disk]
    {
      disk := disk.(files := disk.files - {p});
      history := history + [disk];
    }

    method Rename(from: Place, to: Place)
      requires from in disk.files
      modifies this
      ensures disk == Renamed(old(disk), from, to) && history == old(history) + [disk]
    {
      disk := disk.(files := (disk.files - {from})[to := disk.files[from]]);
      history := history + [disk];
    }

    method WriteShim(t: Text)
      modifies this
      ensures disk == Written(old(disk), t) && history == old(history) + [disk]
    {
      disk := disk.(files := disk.files[Shim := t]);
      history := history + [disk];
    }

    method WriteManifest(m: Manifest)
      modifies this
      ensures disk == old(disk).(record := Readable(m)) && history == old(history) + [disk]
    {
      disk := disk.(record := Readable(m));
      history := history + [disk];
    }

    method RemoveManifest()
      modifies this
      ensures disk == old(disk).(record := Absent) && history == old(history) + [disk]
    {
      disk := disk.(record := Absent);
      history := history + [disk];
    }

    method Install(force: bool, dryRun: bool, env: Env) returns (result: InstallResult)
      modifies this
      ensures history == old(history) + InstallTrace(old(disk), force, dryRun, env)
      ensures disk == Apply(old(disk), Call.Install(force, dryRun, env, 4))
      ensures result.Installed? <==> disk.record == Readable(Manifest(Original(disk), Some(Rendered(TargetOf(Original(disk), if env.binary.Some? then env.binary.value else ""), env.runner)), true))
                                     && InstallTrace(old(disk), force, dryRun, env) != [] && Matches(disk)
      ensures result.Installed? <==> Proceeds(old(disk), force, dryRun, env) && !env.writeFails
      ensures result.RolledBack? <==> Proceeds(old(disk), force, dryRun, env) && env.writeFails
      ensures result.NoBinary? <==> env.binary.None?
      ensures result.Planned? <==> env.binary.Some? && dryRun
      ensures result.AlreadyInstalled? <==> env.binary.Some? && !dryRun && Matches(old(disk)) && !force
      ensures result.BackupTaken? <==>
                env.binary.Some? && !dryRun && Shim in old(disk).files && !Matches(old(disk)) && Backup in old(disk).files
    {
      var start := disk;
      var original := Original(disk);
      if env.binary.None? {
        return NoBinary;
      }
      if dryRun {
        return Planned;
      }
      var renamed := false;
      if Shim in disk.files {
        if Matches(disk) {
          if !force {
            return AlreadyInstalled;
          }
          Unlink(Shim);
        } else {
          if Backup in disk.files {
            return BackupTaken;
          }
          Rename(Shim, Backup);
          original := Some(Backup);
          renamed := true;
        }
      }
      WriteManifest(Manifest(original, None, false));
      if env.writeFails {
        if renamed && Backup in disk.files && Shim !in disk.files {
          Rename(Backup, Shim);
        }
        assert history == old(history) + InstallTrace(start, force, dryRun, env);
        return RolledBack;
      }
      var text := Rendered(TargetOf(original, env.binary.value), env.runner);
      WriteShim(text);
      WriteManifest(Manifest(original, Some(text), true));
      assert history == old(history) + InstallTrace(start, force, dryRun, env);
      result := Installed;
    }

    method Uninstall() returns (result: UninstallResult)
      modifies this
      ensures history == old(history) + UninstallTrace(old(disk))
      ensures disk == Apply(old(disk), Call.Uninstall(3))
      ensures result.Removed? <==> Shim in old(disk).files && UninstallTrace(old(disk)) != []
      ensures result.Removed? <==> !Unfinished(old(disk)) && Matches(old(disk))
      ensures result.Removed? ==> (result.restored <==> RestoredFrom(old(disk)) in old(disk).files - {Shim})
      ensures result.ManualRecovery? <==> Unfinished(old(disk))
      ensures result.NothingToRemove? <==> !Unfinished(old(disk)) && Shim !in old(disk).files
      ensures result.NotOurs? <==> !Unfinished(old(disk)) && Shim in old(disk).files && !Matches(old(disk))
    {
      var start := disk;
      if disk.record.Readable? && !disk.record.manifest.complete {
        return ManualRecovery;
      }
      result := NothingToRemove;
      if Shim in disk.files {
        if !Matches(disk) {
          return NotOurs;
        }
        var original := Original(disk);
        Unlink(Shim);
        result := Removed(false);
        var from := if original.Some? then original.value else Legacy;
        if from in disk.files {
          Rename(from, Shim);
          result := Removed(true);
        }
      }
      if !disk.record.Absent? {
        RemoveManifest();
      }
      assert history == old(history) + UninstallTrace(start);
    }
  }
}
