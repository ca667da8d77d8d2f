/**
 * `IntegrationUpdater` and `async_setup_auto_update`: the update gate of
 * `check_and_update`, the staged install of `_download_and_update` with its
 * failure and rollback paths, one pass of `_periodic_check`, and the
 * start-up sequence. The outcome of each install is first given as a
 * function on the four directories involved; the methods that change the
 * disk are proved to produce exactly that outcome.
 */
module Updater {
  import opened Wrappers
  import opened Text
  import opened Versions
  import opened Release
  import opened Schedule
  import opened FileTree
  import opened Install

  /** `AUTO_UPDATE_ENABLED` */
  const AutoUpdateEnabled := true
  /** The version assumed when the installed manifest has none. */
  const DefaultVersion := "1.0.0"

  /** What downloading and unpacking the archive gives. */
  datatype Fetch =
    | FetchFault                  // the download, the write of the zip or its extraction raised
    | Downloaded(status: int, archive: Tree, listing: seq<string>, extractDir: string)

  /** Which of the two renames of the swap raises, if any. */
  datatype SwapFault = NoFault | LiveRenameFails | StagingRenameFails

  /**
   * Everything an install observes from outside: the download, the swap,
   * the host during the reload, and whether posting a notification raises.
   */
  datatype InstallEnv = InstallEnv(fetch: Fetch, swap: SwapFault, host: HostView, notifyFails: bool)

  /** The value `_download_and_update` returns and the directories it leaves. */
  datatype InstallResult = InstallResult(ok: bool, dirs: Dirs)

  /**
   * The update gate of `check_and_update`: both versions parse and the
   * latest is strictly greater than the installed one.
   */
  function Newer(latest: string, current: string): (r: bool)
    ensures r <==> ParseVersion(latest).Some? && ParseVersion(current).Some?
                   && Less(ParseVersion(current).value, ParseVersion(latest).value)
  {
    var l := ParseVersion(latest);
    var c := ParseVersion(current);
    if l.None? || c.None? then false
    else
      NotAtMostIsGreater(l.value, c.value);
      !AtMost(l.value, c.value)
  }

  /** The installed version is never replaced by itself or by an equal version such as `1.0` for `1.0.0`. */
  lemma EqualVersionNotNewer(latest: string, current: string)
    requires ParseVersion(latest).Some? && ParseVersion(current).Some?
    requires Same(ParseVersion(latest).value, ParseVersion(current).value)
    ensures !Newer(latest, current)
  {
    VersionTrichotomy(ParseVersion(current).value, ParseVersion(latest).value);
  }

  /** Of two versions at most one is newer than the other, and the gate is transitive. */
  lemma NewerOrder(a: string, b: string, c: string)
    ensures !(Newer(a, b) && Newer(b, a))
    ensures Newer(a, b) && Newer(b, c) ==> Newer(a, c)
  {
    if ParseVersion(a).Some? && ParseVersion(b).Some? {
      VersionTrichotomy(ParseVersion(a).value, ParseVersion(b).value);
    }
    if Newer(a, b) && Newer(b, c) {
      LessTransitive(ParseVersion(c).value, ParseVersion(b).value, ParseVersion(a).value);
    }
  }

  /** The outer `except` of `_download_and_update`: the live directory is replaced by the backup, if there is one. */
  function Restored(d: Dirs): Dirs {
    if d.backup.Some? then d.(live := d.backup) else d
  }

  /** The rollback after a failed reload: from `.old` if it is there, else from the backup. */
  function RolledBack(d: Dirs): Dirs {
    if d.oldDir.Some? then d.(live := d.oldDir, oldDir := None) else Restored(d)
  }

  /**
   * Backup, staging copy, overlay, the two checks and the version rewrite.
   * `ok` says the staging directory is ready to be swapped in.
   */
  function StageOutcome(d: Dirs, archive: Tree, root: Path, extractDir: string, v: string): (r: InstallResult)
    ensures r.ok <==> d.live.Some? && r.dirs.staging.Some?
    ensures !r.ok ==> r.dirs.staging == (if d.live.None? then d.staging else None)
  {
    if d.live.None? then InstallResult(false, d.(backup := None))
    else
      var overlaid := Overlay(d.live.value, archive, root, extractDir);
      if !(RequiredFiles <= RequiredFound(archive, root, extractDir)) || !ManifestReadable(overlaid) then
        InstallResult(false, d.(backup := d.live, staging := None))
      else
        InstallResult(true, d.(backup := d.live, staging := Some(WithVersion(overlaid, v))))
  }

  /** The swap: the live directory becomes `.old` and staging becomes live; a failed rename restores the backup. */
  function SwapOutcome(d: Dirs, swap: SwapFault): InstallResult {
    if swap != NoFault then InstallResult(false, Restored(d.(staging := None, oldDir := None)))
    else InstallResult(true, d.(live := d.staging, staging := None, oldDir := d.live))
  }

  /**
   * Reload (or not), clean up `.old`, notify. After a reload, a notification
   * that raises triggers the rollback, whose own failure notices raise too,
   * so the outer `except` then restores the backup as well.
   */
  function FinishOutcome(d: Dirs, autoReload: bool, entryId: Option<string>, env: InstallEnv): InstallResult {
    if autoReload && Truthy(entryId) then
      var reloaded := ReloadIntegration(entryId, env.host);
      var cleaned := if reloaded then d.(oldDir := None) else d;
      if env.notifyFails then InstallResult(false, Restored(RolledBack(cleaned)))
      else InstallResult(reloaded, cleaned)
    else
      var cleaned := d.(oldDir := None);
      if env.notifyFails then InstallResult(false, Restored(cleaned))
      else InstallResult(!autoReload, cleaned)
  }

  /** `_download_and_update(download_url, v)` on the directories `d`, as one value. */
  function InstallOutcome(d: Dirs, v: string, autoReload: bool, entryId: Option<string>, env: InstallEnv): InstallResult {
    match env.fetch
    case FetchFault => InstallResult(false, Restored(d))
    case Downloaded(status, archive, listing, extractDir) =>
      if status != 200 then InstallResult(false, d)
      else
        var root := PayloadRoot(archive, listing);
        if root.None? then InstallResult(false, d)
        else
          var staged := StageOutcome(d, archive, root.value, extractDir, v);
          if !staged.ok then staged
          else
            var swapped := SwapOutcome(staged.dirs, env.swap);
            if !swapped.ok then swapped
            else FinishOutcome(swapped.dirs, autoReload, entryId, env)
  }

  /**
   * The archive passes every check of the install: downloaded with status
   * 200, a payload root found, a live directory to overlay, every required
   * file present and a staged manifest that passes the manifest check.
   */
  predicate Accepted(d: Dirs, fetch: Fetch) {
    && fetch.Downloaded? && fetch.status == 200 && d.live.Some?
    && PayloadRoot(fetch.archive, fetch.listing).Some?
    && var root := PayloadRoot(fetch.archive, fetch.listing).value;
       && RequiredFiles <= RequiredFound(fetch.archive, root, fetch.extractDir)
       && ManifestReadable(Overlay(d.live.value, fetch.archive, root, fetch.extractDir))
  }

  /** The tree an install puts live: the old tree with the payload overlaid and the version rewritten. */
  function NewTree(live: Tree, archive: Tree, listing: seq<string>, extractDir: string, v: string): Tree
    requires PayloadRoot(archive, listing).Some?
  {
    WithVersion(Overlay(live, archive, PayloadRoot(archive, listing).value, extractDir), v)
  }

  /**
   * An install reports success only when the archive was downloaded and
   * passed every check, the swap went through and the reload (when it was
   * attempted) succeeded; the new tree is then live, the old one is the
   * backup, and neither staging nor `.old` is left.
   */
  lemma InstallSuccess(d: Dirs, v: string, autoReload: bool, entryId: Option<string>, env: InstallEnv)
    requires InstallOutcome(d, v, autoReload, entryId, env).ok
    ensures env.fetch.Downloaded? && env.fetch.status == 200
    ensures d.live.Some? && PayloadRoot(env.fetch.archive, env.fetch.listing).Some?
    ensures Accepted(d, env.fetch)
    ensures env.swap == NoFault && !env.notifyFails
    ensures autoReload ==> ReloadIntegration(entryId, env.host)
    ensures InstallOutcome(d, v, autoReload, entryId, env).dirs
         == Dirs(Some(NewTree(d.live.value, env.fetch.archive, env.fetch.listing, env.fetch.extractDir, v)), d.live, None, None)
  {
  }

  /**
   * The converse of `InstallSuccess`: an accepted archive, a clean swap, no
   * failing notification and, when automatic reload is on, a reload that
   * goes through make the install report success.
   */
  lemma InstallSucceeds(d: Dirs, v: string, autoReload: bool, entryId: Option<string>, env: InstallEnv)
    requires Accepted(d, env.fetch) && env.swap == NoFault && !env.notifyFails
    requires autoReload ==> ReloadIntegration(entryId, env.host)
    ensures InstallOutcome(d, v, autoReload, entryId, env).ok
  {
  }

  /** A download that raises puts back the backup, if any; a non-200 answer or an archive without a payload changes nothing. */
  lemma InstallDownloadRejected(d: Dirs, v: string, autoReload: bool, entryId: Option<string>, env: InstallEnv)
    ensures env.fetch.FetchFault? ==> InstallOutcome(d, v, autoReload, entryId, env) == InstallResult(false, Restored(d))
    ensures env.fetch.Downloaded? && (env.fetch.status != 200 || PayloadRoot(env.fetch.archive, env.fetch.listing).None?)
            ==> InstallOutcome(d, v, autoReload, entryId, env) == InstallResult(false, d)
  {
  }

  /**
   * A payload that lacks a required file, or whose staged manifest fails
   * the check, fails the install: the backup has been taken, the staging
   * directory is removed and nothing else changes.
   */
  lemma InstallChecksFail(d: Dirs, v: string, autoReload: bool, entryId: Option<string>, env: InstallEnv)
    requires env.fetch.Downloaded? && env.fetch.status == 200 && d.live.Some?
    requires PayloadRoot(env.fetch.archive, env.fetch.listing).Some?
    requires var f := env.fetch; var root := PayloadRoot(f.archive, f.listing).value;
             || !(RequiredFiles <= RequiredFound(f.archive, root, f.extractDir))
             || !ManifestReadable(Overlay(d.live.value, f.archive, root, f.extractDir))
    ensures InstallOutcome(d, v, autoReload, entryId, env) == InstallResult(false, d.(backup := d.live, staging := None))
  {
  }

  /**
   * After an accepted archive, a rename of the swap that raises, or a
   * notification that raises, ends with the old tree live again (from the
   * backup, or from `.old` after a failed reload) and no `.old` or staging
   * directory.
   */
  lemma InstallRestoresOld(d: Dirs, v: string, autoReload: bool, entryId: Option<string>, env: InstallEnv)
    requires Accepted(d, env.fetch)
    requires env.swap != NoFault || env.notifyFails
    ensures InstallOutcome(d, v, autoReload, entryId, env) == InstallResult(false, Dirs(d.live, d.live, None, None))
  {
    if env.swap == NoFault {
      var f := env.fetch;
      var swapped := SwapOutcome(StageOutcome(d, f.archive, PayloadRoot(f.archive, f.listing).value, f.extractDir, v).dirs, NoFault);
      FinishNotifyFails(swapped.dirs, autoReload, entryId, env);
    }
  }

  /**
   * With automatic reload on, an install whose reload reports failure (or
   * that has no entry id to reload) reports failure with the new tree live
   * and no rollback; `.old` is kept exactly when a reload was attempted.
   */
  lemma InstallReloadFails(d: Dirs, v: string, autoReload: bool, entryId: Option<string>, env: InstallEnv)
    requires Accepted(d, env.fetch) && env.swap == NoFault && !env.notifyFails
    requires autoReload && !ReloadIntegration(entryId, env.host)
    ensures var f := env.fetch;
            InstallOutcome(d, v, autoReload, entryId, env)
            == InstallResult(false, Dirs(Some(NewTree(d.live.value, f.archive, f.listing, f.extractDir, v)), d.live, None,
                                         if Truthy(entryId) then d.live else None))
  {
  }

  /**
   * A successful install leaves the new version in the live manifest
   * whenever the overlaid tree has a top-level manifest that decodes.
   */
  lemma InstallWritesVersion(d: Dirs, v: string, autoReload: bool, entryId: Option<string>, env: InstallEnv)
    requires InstallOutcome(d, v, autoReload, entryId, env).ok
    ensures var live := InstallOutcome(d, v, autoReload, entryId, env).dirs.live.value;
            ManifestPath in live && live[ManifestPath].JsonObject? ==> live[ManifestPath].fields["version"] == v
  {
    InstallSuccess(d, v, autoReload, entryId, env);
    var f := env.fetch;
    WithVersionContents(Overlay(d.live.value, f.archive, PayloadRoot(f.archive, f.listing).value, f.extractDir), v);
  }

  /**
   * A failed install leaves the old tree live, with two exceptions: a
   * download or extraction error puts back a backup left by an earlier
   * install, and with automatic reload on, an install whose reload reports
   * failure, or that has no entry id to reload, reports failure with the
   * new tree live (and, when a reload was attempted, the old one in `.old`).
   */
  lemma InstallFailure(d: Dirs, v: string, autoReload: bool, entryId: Option<string>, env: InstallEnv)
    requires d.live.Some?
    requires !InstallOutcome(d, v, autoReload, entryId, env).ok
    ensures var r := InstallOutcome(d, v, autoReload, entryId, env).dirs;
            || r.live == d.live
            || (env.fetch.FetchFault? && d.backup.Some? && r.live == d.backup)
            || (&& env.fetch.Downloaded?
                && PayloadRoot(env.fetch.archive, env.fetch.listing).Some?
                && autoReload && !ReloadIntegration(entryId, env.host) && !env.notifyFails
                && r.live == Some(NewTree(d.live.value, env.fetch.archive, env.fetch.listing, env.fetch.extractDir, v))
                && (Truthy(entryId) ==> r.oldDir == d.live))
  {
    match env.fetch
    case FetchFault =>
    case Downloaded(status, archive, listing, extractDir) =>
      var root := PayloadRoot(archive, listing);
      if status == 200 && root.Some? {
        var staged := StageOutcome(d, archive, root.value, extractDir, v);
        if staged.ok {
          var swapped := SwapOutcome(staged.dirs, env.swap);
          if swapped.ok {
            assert swapped.dirs.live == Some(NewTree(d.live.value, archive, listing, extractDir, v));
            FinishFailure(swapped.dirs, autoReload, entryId, env);
          }
        }
      }
  }

  /**
   * After a swap (old tree in `.old` and in the backup), a failed finish
   * either comes from a notification that raised, and then the old tree is
   * live again with no `.old` left, or from a reload that reported failure
   * (or could not be attempted), and then the new tree stays live and `.old`
   * is kept exactly when a reload was attempted.
   */
  lemma FinishFailure(d: Dirs, autoReload: bool, entryId: Option<string>, env: InstallEnv)
    requires d.oldDir.Some? && d.backup == d.oldDir
    requires !FinishOutcome(d, autoReload, entryId, env).ok
    ensures var r := FinishOutcome(d, autoReload, entryId, env).dirs;
            || r.live == d.oldDir
            || (&& autoReload && !ReloadIntegration(entryId, env.host) && !env.notifyFails
                && r.live == d.live
                && (Truthy(entryId) ==> r.oldDir == d.oldDir))
    ensures env.notifyFails ==> FinishOutcome(d, autoReload, entryId, env).dirs == d.(live := d.oldDir, oldDir := None)
    ensures !env.notifyFails ==>
              && autoReload && !ReloadIntegration(entryId, env.host)
              && FinishOutcome(d, autoReload, entryId, env).dirs == d.(oldDir := if Truthy(entryId) then d.oldDir else None)
  {
    if env.notifyFails {
      FinishNotifyFails(d, autoReload, entryId, env);
    }
  }

  /** A notification that raises after a swap always ends with the old tree live again and no `.old`. */
  lemma FinishNotifyFails(d: Dirs, autoReload: bool, entryId: Option<string>, env: InstallEnv)
    requires d.oldDir.Some? && d.backup == d.oldDir && env.notifyFails
    ensures FinishOutcome(d, autoReload, entryId, env) == InstallResult(false, d.(live := d.oldDir, oldDir := None))
  {
  }

  /** A staging directory is never left behind: one that remains is the one that was there before, untouched. */
  lemma NoStagingLeft(d: Dirs, v: string, autoReload: bool, entryId: Option<string>, env: InstallEnv)
    ensures var r := InstallOutcome(d, v, autoReload, entryId, env).dirs;
            r.staging.Some? ==> r.staging == d.staging
  {
    match env.fetch
    case FetchFault =>
    case Downloaded(status, archive, listing, extractDir) =>
      var root := PayloadRoot(archive, listing);
      if status == 200 && root.Some? {
        var staged := StageOutcome(d, archive, root.value, extractDir, v);
        if staged.ok {
          var swapped := SwapOutcome(staged.dirs, env.swap);
          assert swapped.dirs.staging == None;
          FinishKeepsStaging(swapped.dirs, autoReload, entryId, env);
        }
      }
  }

  lemma FinishKeepsStaging(d: Dirs, autoReload: bool, entryId: Option<string>, env: InstallEnv)
    ensures FinishOutcome(d, autoReload, entryId, env).dirs.staging == d.staging
  {
  }

  /** The report of `check_and_update`, and the directories it leaves. */
  datatype CheckReport = CheckReport(outcome: CheckOutcome, dirs: Dirs)

  /** `check_and_update` on the directories `d` for the release answer `resp`. */
  function CheckAndUpdateOutcome(d: Dirs, current: string, autoReload: bool, entryId: Option<string>,
                                 resp: Response, env: InstallEnv): (r: CheckReport)
    ensures r.outcome.attempted.Some? <==>
              GetLatestVersion(resp).Some? && Newer(GetLatestVersion(resp).value.version, current)
    ensures r.outcome.attempted.Some? ==> r.outcome.attempted.value == GetLatestVersion(resp).value.version
    ensures r.outcome.success ==> r.outcome.attempted.Some?
    ensures r.outcome.attempted.None? ==> r.dirs == d
    ensures r.outcome.attempted.Some? ==>
              var i := InstallOutcome(d, r.outcome.attempted.value, autoReload, entryId, env);
              r.outcome.success == i.ok && r.dirs == i.dirs
  {
    var latest := GetLatestVersion(resp);
    if latest.None? || !Newer(latest.value.version, current) then CheckReport(CheckOutcome(false, None), d)
    else
      var res := InstallOutcome(d, latest.value.version, autoReload, entryId, env);
      CheckReport(CheckOutcome(res.ok, Some(latest.value.version)), res.dirs)
  }

  /** A version that `check_and_update` attempts is never empty, so a failed check always records it. */
  lemma AttemptedIsTruthy(d: Dirs, current: string, autoReload: bool, entryId: Option<string>,
                          resp: Response, env: InstallEnv)
    ensures var r := CheckAndUpdateOutcome(d, current, autoReload, entryId, resp, env);
            r.outcome.attempted.Some? ==> Truthy(r.outcome.attempted)
  {
  }

  /**
   * The version `async_setup_auto_update` reads from the installed
   * manifest: the default when the manifest is missing or has no version,
   * and none (set-up fails) when it does not decode to an object (`.get`
   * raises on anything else).
   */
  function InitialVersion(live: Tree): (r: Option<string>)
    ensures r.None? <==> ManifestPath in live && !live[ManifestPath].JsonObject?
    ensures ManifestPath !in live ==> r == Some(DefaultVersion)
    ensures ManifestPath in live && live[ManifestPath].JsonObject? ==>
              var fields := live[ManifestPath].fields;
              r.Some? && ("version" in fields ==> r.value == fields["version"])
                      && ("version" !in fields ==> r.value == DefaultVersion)
  {
    if ManifestPath !in live then Some(DefaultVersion)
    else match live[ManifestPath]
      case JsonObject(fields) => Some(if "version" in fields then fields["version"] else DefaultVersion)
      case _ => None
  }

  /** After an install rewrites the manifest, a restart reads back the version that was installed. */
  lemma VersionReadBack(t: Tree, v: string)
    requires ManifestPath in t && t[ManifestPath].JsonObject?
    ensures InitialVersion(WithVersion(t, v)) == Some(v)
  {
  }

  /** The outer `except` of `_download_and_update`. */
  method RestoreBackup(disk: Disk)
    modifies disk
    ensures disk.dirs == Restored(old(disk.dirs))
  {
    if disk.dirs.backup.Some? {
      if disk.dirs.live.Some? {
        disk.RemoveTree(Live);
      }
      disk.CopyTree(Backup, Live);
    }
  }

  /** Lines that build and check the staging directory, ending with the version rewrite. */
  method Stage(disk: Disk, archive: Tree, root: Path, extractDir: string, v: string) returns (ready: bool)
    modifies disk
    ensures InstallResult(ready, disk.dirs) == StageOutcome(old(disk.dirs), archive, root, extractDir, v)
  {
    if disk.dirs.backup.Some? {
      disk.RemoveTree(Backup);
    }
    if disk.dirs.live.None? {
      // `copytree` raises; the backup is gone, so there is nothing to restore.
      return false;
    }
    disk.CopyTree(Live, Backup);
    if disk.dirs.staging.Some? {
      disk.RemoveTree(Staging);
    }
    disk.CopyTree(Live, Staging);
    var found, fileCount := OverlayPayload(disk, archive, root, extractDir);
    if !(RequiredFiles <= found) {
      disk.RemoveTree(Staging);
      return false;
    }
    if !ManifestReadable(disk.dirs.staging.value) {
      disk.RemoveTree(Staging);
      return false;
    }
    UpdateVersionInfoInPath(disk, Staging, v);
    ready := true;
  }

  /** The two renames of the swap, after removing a stale `.old`. */
  method Swap(disk: Disk, swap: SwapFault) returns (swapped: bool)
    requires disk.dirs.live.Some? && disk.dirs.staging.Some?
    modifies disk
    ensures InstallResult(swapped, disk.dirs) == SwapOutcome(old(disk.dirs), swap)
  {
    if disk.dirs.oldDir.Some? {
      disk.RemoveTree(Old);
    }
    if swap == LiveRenameFails {
      disk.RemoveTree(Staging);
      RestoreBackup(disk);
      return false;
    }
    disk.Rename(Live, Old);
    if swap == StagingRenameFails {
      disk.Rename(Old, Live);
      disk.RemoveTree(Staging);
      RestoreBackup(disk);
      return false;
    }
    disk.Rename(Staging, Live);
    swapped := true;
  }

  /** The rollback block run when the reload step raises. */
  method RollBack(disk: Disk)
    modifies disk
    ensures disk.dirs == RolledBack(old(disk.dirs))
  {
    if disk.dirs.oldDir.Some? {
      if disk.dirs.live.Some? {
        disk.RemoveTree(Live);
      }
      disk.Rename(Old, Live);
    } else {
      RestoreBackup(disk);
    }
  }

  /** `async_setup_auto_update`: read the installed version, create the updater and start it. */
  method SetupAutoUpdate(disk: Disk, entryId: Option<string>, resp: Response, env: InstallEnv)
    returns (updater: Option<IntegrationUpdater>)
    requires disk.dirs.live.Some?
    modifies disk
    ensures var v := InitialVersion(old(disk.dirs).live.value);
            if v.None? then updater.None? && disk.dirs == old(disk.dirs)
            else
              && updater.Some? && fresh(updater.value)
              && updater.value.currentVersion == v.value
              && updater.value.entryId == entryId
              && updater.value.Scheduler() == Initial
              && updater.value.periodicTask
              && disk.dirs == CheckAndUpdateOutcome(old(disk.dirs), v.value, true, entryId, resp, env).dirs
  {
    var live := disk.dirs.live.value;
    var current := DefaultVersion;
    if ManifestPath in live {
      match live[ManifestPath]
      case JsonObject(fields) =>
        current := if "version" in fields then fields["version"] else DefaultVersion;
      case _ =>
        return None;
    }
    var u := new IntegrationUpdater(current, entryId);
    u.Start(disk, resp, env);
    updater := Some(u);
  }

  class IntegrationUpdater {
    var currentVersion: string
    var entryId: Option<string>
    var autoReload: bool
    var lastCheck: Option<int>
    var lastFailedVersion: Option<string>
    var retryCount: int
    /** Whether the periodic task has been created and not cancelled. */
    var periodicTask: bool

    /** The three fields the periodic loop reads and writes. */
    function Scheduler(): SchedulerState
      reads this
    {
      SchedulerState(lastCheck, lastFailedVersion, retryCount)
    }

    predicate Valid()
      reads this
    {
      Schedule.Valid(Scheduler())
    }

    constructor(currentVersion: string, entryId: Option<string>)
      ensures this.currentVersion == currentVersion && this.entryId == entryId
      ensures autoReload && !periodicTask
      ensures Scheduler() == Initial && Valid()
    {
      this.currentVersion := currentVersion;
      this.entryId := entryId;
      autoReload := true;
      lastCheck := None;
      lastFailedVersion := None;
      retryCount := 0;
      periodicTask := false;
    }

    /** `_download_and_update`: the staged install with every failure path. */
    method DownloadAndUpdate(disk: Disk, newVersion: string, env: InstallEnv) returns (ok: bool)
      modifies disk
      ensures InstallResult(ok, disk.dirs) == InstallOutcome(old(disk.dirs), newVersion, autoReload, entryId, env)
    {
      match env.fetch {
        case FetchFault =>
          RestoreBackup(disk);
          return false;
        case Downloaded(status, archive, listing, extractDir) =>
          if status != 200 {
            return false;
          }
          var root := FindPayloadRoot(archive, listing);
          if root.None? {
            return false;
          }
          var ready := Stage(disk, archive, root.value, extractDir, newVersion);
          if !ready {
            return false;
          }
          var swapped := Swap(disk, env.swap);
          if !swapped {
            return false;
          }
          ok := Finish(disk, env);
      }
    }

    /** The reload step and the clean-up of `.old` after a successful swap. */
    method Finish(disk: Disk, env: InstallEnv) returns (ok: bool)
      modifies disk
      ensures InstallResult(ok, disk.dirs) == FinishOutcome(old(disk.dirs), autoReload, entryId, env)
    {
      var reloaded := false;
      if autoReload && Truthy(entryId) {
        reloaded := ReloadIntegration(entryId, env.host);
        if reloaded && disk.dirs.oldDir.Some? {
          disk.RemoveTree(Old);
        }
        if env.notifyFails {
          RollBack(disk);
          RestoreBackup(disk);
          return false;
        }
      } else {
        if disk.dirs.oldDir.Some? {
          disk.RemoveTree(Old);
        }
        if env.notifyFails {
          RestoreBackup(disk);
          return false;
        }
      }
      ok := if autoReload then reloaded else true;
    }

    /** `check_and_update`: fetch the latest release, apply the gate, install. */
    method CheckAndUpdate(disk: Disk, resp: Response, env: InstallEnv) returns (success: bool, attempted: Option<string>)
      modifies disk
      ensures CheckReport(CheckOutcome(success, attempted), disk.dirs)
           == CheckAndUpdateOutcome(old(disk.dirs), currentVersion, autoReload, entryId, resp, env)
    {
      var latest := GetLatestVersion(resp);
      if latest.None? {
        return false, None;
      }
      if !Newer(latest.value.version, currentVersion) {
        return false, None;
      }
      var ok := DownloadAndUpdate(disk, latest.value.version, env);
      if ok {
        return true, Some(latest.value.version);
      }
      return false, Some(latest.value.version);
    }

    /** `start`: one check at start-up, whose result is ignored, then the periodic task. */
    method Start(disk: Disk, resp: Response, env: InstallEnv)
      modifies this, disk
      ensures disk.dirs == CheckAndUpdateOutcome(old(disk.dirs), currentVersion, autoReload, entryId, resp, env).dirs
      ensures Scheduler() == old(Scheduler()) && periodicTask
      ensures currentVersion == old(currentVersion) && entryId == old(entryId) && autoReload == old(autoReload)
    {
      var _, _ := CheckAndUpdate(disk, resp, env);
      periodicTask := true;
    }

    /**
     * One pass of `_periodic_check` at time `now`: the scheduler fields
     * move as `Next` says, with the outcome of the check the pass runs, and
     * the disk changes only when a check runs.
     */
    method PeriodicPass(disk: Disk, now: int, resp: Response, env: InstallEnv) returns (ran: bool)
      requires Valid()
      modifies this, disk
      ensures Valid()
      ensures var report := CheckAndUpdateOutcome(old(disk.dirs), currentVersion, autoReload, entryId, resp, env);
              var step := Next(old(Scheduler()), now, report.outcome);
              && ran == step.ran
              && Scheduler() == step.state
              && disk.dirs == (if ran then report.dirs else old(disk.dirs))
      ensures currentVersion == old(currentVersion) && entryId == old(entryId) && autoReload == old(autoReload)
      ensures periodicTask == old(periodicTask)
    {
      ghost var s := Scheduler();
      ghost var report := CheckAndUpdateOutcome(disk.dirs, currentVersion, autoReload, entryId, resp, env);
      NextKeepsValid(s, now, report.outcome);
      var shouldRetry, shouldCheck := DuePass(now);
      ran := shouldRetry || shouldCheck;
      if ran {
        var success, attempted := CheckAndUpdate(disk, resp, env);
        RecordOutcome(now, shouldRetry, shouldCheck, success, attempted);
      }
    }

    /** The second half of a pass that ran a check: fold its result into the scheduler fields. */
    method RecordOutcome(now: int, shouldRetry: bool, shouldCheck: bool, success: bool, attempted: Option<string>)
      modifies this
      ensures Scheduler() == Recorded(old(Scheduler()), now, shouldRetry, shouldCheck, CheckOutcome(success, attempted))
      ensures currentVersion == old(currentVersion) && entryId == old(entryId) && autoReload == old(autoReload)
      ensures periodicTask == old(periodicTask)
    {
      if success {
        lastFailedVersion := None;
        retryCount := 0;
        lastCheck := Some(now);
      } else if shouldRetry {
        retryCount := retryCount + 1;
        lastCheck := Some(now);
      } else if shouldCheck && Truthy(attempted) {
        lastFailedVersion := attempted;
        retryCount := 1;
        lastCheck := Some(now);
      }
    }

    /**
     * The first half of a pass: whether a retry and a regular check are due,
     * dropping the failure record once the retries are spent.
     */
    method DuePass(now: int) returns (shouldRetry: bool, shouldCheck: bool)
      modifies this
      ensures shouldRetry == RetryDue(old(Scheduler()), now)
      ensures shouldCheck == CheckDue(Prepared(old(Scheduler()), now), now)
      ensures Scheduler() == Prepared(old(Scheduler()), now)
      ensures currentVersion == old(currentVersion) && entryId == old(entryId) && autoReload == old(autoReload)
      ensures periodicTask == old(periodicTask)
    {
      shouldRetry := false;
      if RetryOnFailure && Truthy(lastFailedVersion) {
        if lastCheck.Some? && now - lastCheck.value >= RetryDelay {
          if retryCount < MaxRetryAttempts {
            shouldRetry := true;
          } else {
            lastFailedVersion := None;
            retryCount := 0;
          }
        }
      }
      shouldCheck := lastCheck.None? || now - lastCheck.value > CheckInterval;
    }

    /** `stop`: cancel the periodic task. */
    method Stop()
      modifies this
      ensures !periodicTask
      ensures Scheduler() == old(Scheduler()) && currentVersion == old(currentVersion)
      ensures entryId == old(entryId) && autoReload == old(autoReload)
    {
      periodicTask := false;
    }
  }
}
