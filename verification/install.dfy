/**
 * The steps of `IntegrationUpdater._download_and_update` that can be stated
 * on their own: finding the integration inside the extracted archive,
 * overlaying its files on the staging copy with the exclusion test and the
 * required-file count, rewriting the manifest version
 * (`_update_version_info_in_path`), and the decision of
 * `_reload_integration`.
 */
module Install {
  import opened Wrappers
  import opened Text
  import opened FileTree

  const Domain := "ct_ble_devices"
  const ManifestName := "manifest.json"
  const ManifestPath: Path := [ManifestName]
  /** The HACS layout `custom_components/ct_ble_devices`. */
  const StandardRoot: Path := ["custom_components", Domain]
  const RequiredFiles: set<string> := {"manifest.json", "__init__.py"}
  /** `exclude_files`, tested as plain substrings of the file's path string. */
  const ExcludePatterns: set<string> := {"__pycache__", ".git", "venv", ".backup", ".staging", "*.pyc", "*.pyo"}

  predicate HasManifest(t: Tree, root: Path) {
    PathExists(t, root + [ManifestName])
  }

  /** First way: `custom_components/ct_ble_devices` at the top of the archive. */
  predicate StandardLayout(t: Tree) {
    PathExists(t, StandardRoot) && HasManifest(t, StandardRoot)
  }

  /** Second way: a top-level directory named like the integration that holds the HACS layout. */
  predicate VersionedCandidate(t: Tree, name: string) {
    && IsDir(t, [name])
    && Contains(Lower(name), Domain)
    && PathExists(t, [name] + StandardRoot)
    && HasManifest(t, [name] + StandardRoot)
  }

  /** Third way: a top-level directory with the manifest, or with a `ct_ble_devices` directory that has it. */
  predicate LegacyCandidate(t: Tree, name: string) {
    IsDir(t, [name]) && (HasManifest(t, [name]) || (PathExists(t, [name, Domain]) && HasManifest(t, [name, Domain])))
  }

  /** The root the third way takes from a candidate: the directory itself when it has the manifest. */
  function LegacyRoot(t: Tree, name: string): Path {
    if HasManifest(t, [name]) then [name] else [name, Domain]
  }

  /** The second way over the top-level names from position `i` of the listing on. */
  function VersionedFrom(t: Tree, listing: seq<string>, i: nat): (r: Option<Path>)
    ensures r.Some? ==> HasManifest(t, r.value)
    ensures r.None? <==> forall j :: i <= j < |listing| ==> !VersionedCandidate(t, listing[j])
    decreases |listing| - i
  {
    if i >= |listing| then None
    else if VersionedCandidate(t, listing[i]) then Some([listing[i]] + StandardRoot)
    else VersionedFrom(t, listing, i + 1)
  }

  /** The third way over the top-level names from position `i` of the listing on. */
  function LegacyFrom(t: Tree, listing: seq<string>, i: nat): (r: Option<Path>)
    ensures r.Some? ==> HasManifest(t, r.value)
    ensures r.None? <==> forall j :: i <= j < |listing| ==> !LegacyCandidate(t, listing[j])
    decreases |listing| - i
  {
    if i >= |listing| then None
    else if LegacyCandidate(t, listing[i]) then Some(LegacyRoot(t, listing[i]))
    else LegacyFrom(t, listing, i + 1)
  }

  /** The payload root the three ways choose, in order, for the listing order `iterdir()` gave. */
  function PayloadRoot(t: Tree, listing: seq<string>): (r: Option<Path>)
    ensures r.Some? ==> HasManifest(t, r.value)
  {
    if StandardLayout(t) then Some(StandardRoot)
    else if VersionedFrom(t, listing, 0).Some? then VersionedFrom(t, listing, 0)
    else LegacyFrom(t, listing, 0)
  }

  /** `listing` is an order of the top-level entries of `t`. */
  predicate Lists(t: Tree, listing: seq<string>) {
    forall k :: k in t && |k| > 1 ==> k[0] in listing
  }

  /**
   * No payload root is found exactly when no way matches anywhere in the
   * archive: the standard layout is absent and no top-level directory is a
   * candidate of the second or third way.
   */
  lemma PayloadRootMissing(t: Tree, listing: seq<string>)
    requires Lists(t, listing)
    ensures PayloadRoot(t, listing).None? <==>
              && !StandardLayout(t)
              && forall k :: k in t && |k| > 1 ==> !VersionedCandidate(t, k[0]) && !LegacyCandidate(t, k[0])
  {
    if PayloadRoot(t, listing).None? {
      forall k | k in t && |k| > 1 ensures !VersionedCandidate(t, k[0]) && !LegacyCandidate(t, k[0]) {
        var j :| 0 <= j < |listing| && listing[j] == k[0];
      }
    } else if !StandardLayout(t) {
      if VersionedFrom(t, listing, 0).Some? {
        var j :| 0 <= j < |listing| && VersionedCandidate(t, listing[j]);
        var k :| k in t && [listing[j]] < k;
        assert k[0] == listing[j];
      } else {
        var j :| 0 <= j < |listing| && LegacyCandidate(t, listing[j]);
        var k :| k in t && [listing[j]] < k;
        assert k[0] == listing[j];
      }
    }
  }

  /** The ways are tried in order: the standard layout wins, then any second-way candidate. */
  lemma PayloadRootPriority(t: Tree, listing: seq<string>)
    ensures StandardLayout(t) ==> PayloadRoot(t, listing) == Some(StandardRoot)
    ensures !StandardLayout(t) && (exists j :: 0 <= j < |listing| && VersionedCandidate(t, listing[j])) ==>
              PayloadRoot(t, listing) == VersionedFrom(t, listing, 0)
  {
  }

  /** The payload-root search, with the loops and early exits of the original. */
  method FindPayloadRoot(t: Tree, listing: seq<string>) returns (root: Option<Path>)
    ensures root == PayloadRoot(t, listing)
    ensures root.Some? ==> HasManifest(t, root.value)
  {
    root := None;
    if PathExists(t, StandardRoot) && HasManifest(t, StandardRoot) {
      root := Some(StandardRoot);
    }
    if root.None? {
      var i := 0;
      while i < |listing|
        invariant 0 <= i <= |listing|
        invariant root.None?
        invariant VersionedFrom(t, listing, 0) == VersionedFrom(t, listing, i)
      {
        var item := listing[i];
        if IsDir(t, [item]) && Contains(Lower(item), Domain) {
          var versioned := [item] + StandardRoot;
          if PathExists(t, versioned) && HasManifest(t, versioned) {
            root := Some(versioned);
            break;
          }
        }
        i := i + 1;
      }
    }
    if root.None? {
      var i := 0;
      while i < |listing|
        invariant 0 <= i <= |listing|
        invariant root.None?
        invariant LegacyFrom(t, listing, 0) == LegacyFrom(t, listing, i)
      {
        var item := listing[i];
        if IsDir(t, [item]) {
          if HasManifest(t, [item]) {
            root := Some([item]);
            break;
          }
          var sub := [item, Domain];
          if PathExists(t, sub) && HasManifest(t, sub) {
            root := Some(sub);
            break;
          }
        }
        i := i + 1;
      }
    }
  }

  /** The files below `root`, by path relative to it: what `root.rglob('*')` yields as files. */
  function RelPaths(t: Tree, root: Path): set<Path> {
    set k | k in t && root < k :: k[|root|..]
  }

  lemma RelPathsMember(t: Tree, root: Path, p: Path)
    ensures p in RelPaths(t, root) <==> p != [] && Under(root, p) in t
  {
    if p != [] && root + p in t {
      assert (root + p)[|root|..] == p;
    }
    if p in RelPaths(t, root) {
      var k :| k in t && root < k && p == k[|root|..];
      assert root + p == k;
    }
  }

  /** The path of payload file `p` in the archive. */
  function Under(root: Path, p: Path): Path {
    root + p
  }

  /** `any(exclude in str(item) for exclude in exclude_files)`, on the full path string. */
  predicate Excluded(extractDir: string, path: Path) {
    exists e | e in ExcludePatterns :: Contains(PathString(extractDir, path), e)
  }

  /** The payload files among `among` that pass the exclusion test, by relative path. */
  function CopiedAmong(t: Tree, root: Path, extractDir: string, among: set<Path>): map<Path, Content> {
    map p | p in among && IsCopied(t, root, extractDir, p) :: t[Under(root, p)]
  }

  /** The payload files the overlay copies. */
  function Copied(t: Tree, root: Path, extractDir: string): map<Path, Content> {
    CopiedAmong(t, root, extractDir, RelPaths(t, root))
  }

  /** Whether the payload file at relative path `p` is copied. */
  predicate IsCopied(t: Tree, root: Path, extractDir: string, p: Path) {
    p != [] && Under(root, p) in t && !Excluded(extractDir, Under(root, p))
  }

  /** The staging tree after the overlay of the payload on `base`. */
  function Overlay(base: Tree, t: Tree, root: Path, extractDir: string): Tree {
    base + Copied(t, root, extractDir)
  }

  /**
   * The staging tree after the overlay holds every copied payload file at
   * its relative path, and every other file of `base` as it was.
   */
  lemma OverlayContents(base: Tree, t: Tree, root: Path, extractDir: string)
    ensures var r := Overlay(base, t, root, extractDir);
            && (forall p :: p in r <==> p in base || IsCopied(t, root, extractDir, p))
            && (forall p :: IsCopied(t, root, extractDir, p) ==> r[p] == t[Under(root, p)])
            && (forall p :: p in base && !IsCopied(t, root, extractDir, p) ==> r[p] == base[p])
  {
    forall p ensures p in Copied(t, root, extractDir) <==> IsCopied(t, root, extractDir, p) {
      RelPathsMember(t, root, p);
    }
  }

  /** The required names among the base names of the files of `m`. */
  function RequiredIn(m: map<Path, Content>): (found: set<string>)
    ensures found <= RequiredFiles
  {
    set p | p in m && p != [] && BaseName(p) in RequiredFiles :: BaseName(p)
  }

  /** `found_required_files`: required names that are the base name of some copied file. */
  function RequiredFound(t: Tree, root: Path, extractDir: string): (found: set<string>)
    ensures found <= RequiredFiles
  {
    RequiredIn(Copied(t, root, extractDir))
  }

  /**
   * The required-file test passes exactly when each required name is the
   * base name of some copied file, at any depth below the payload root.
   */
  lemma RequiredFoundMeaning(t: Tree, root: Path, extractDir: string)
    ensures RequiredFiles <= RequiredFound(t, root, extractDir) <==>
              forall n :: n in RequiredFiles ==> exists p :: IsCopied(t, root, extractDir, p) && BaseName(p) == n
  {
    forall p ensures p in Copied(t, root, extractDir) <==> IsCopied(t, root, extractDir, p) {
      RelPathsMember(t, root, p);
    }
  }

  lemma CopiedAmongStep(t: Tree, root: Path, extractDir: string, done: set<Path>, p: Path)
    requires p != [] && Under(root, p) in t
    ensures Excluded(extractDir, Under(root, p)) ==>
              CopiedAmong(t, root, extractDir, done + {p}) == CopiedAmong(t, root, extractDir, done)
    ensures !Excluded(extractDir, Under(root, p)) ==>
              CopiedAmong(t, root, extractDir, done + {p}) == CopiedAmong(t, root, extractDir, done)[p := t[Under(root, p)]]
  {
  }

  lemma RequiredInStep(m: map<Path, Content>, p: Path, c: Content)
    requires p != []
    ensures BaseName(p) in RequiredFiles ==> RequiredIn(m[p := c]) == RequiredIn(m) + {BaseName(p)}
    ensures BaseName(p) !in RequiredFiles ==> RequiredIn(m[p := c]) == RequiredIn(m)
  {
  }

  lemma UnionWrite(base: Tree, m: map<Path, Content>, p: Path, c: Content)
    ensures (base + m)[p := c] == base + m[p := c]
  {
  }

  /** The overlay loop over the payload files, in whatever order `rglob` yields them. */
  method OverlayPayload(disk: Disk, t: Tree, root: Path, extractDir: string) returns (found: set<string>, fileCount: nat)
    requires disk.dirs.staging.Some?
    modifies disk
    ensures disk.dirs == old(disk.dirs).(staging := Some(Overlay(old(disk.dirs).staging.value, t, root, extractDir)))
    ensures found == RequiredFound(t, root, extractDir)
    ensures fileCount == |RelPaths(t, root)|
  {
    var all := RelPaths(t, root);
    var remaining := all;
    ghost var done: set<Path> := {};
    ghost var start := disk.dirs;
    OverlayStart(start.staging.value, t, root, extractDir);
    found := {};
    fileCount := 0;
    while remaining != {}
      invariant remaining + done == all && remaining !! done
      invariant disk.dirs == OverlaidDisk(start, t, root, extractDir, done)
      invariant found == RequiredIn(CopiedAmong(t, root, extractDir, done))
      invariant fileCount == |done|
      decreases |remaining|
    {
      var p :| p in remaining;
      RelPathsMember(t, root, p);
      found := OverlayFile(disk, start, t, root, extractDir, done, p, found);
      remaining := remaining - {p};
      done := done + {p};
      fileCount := fileCount + 1;
    }
    OverlayDone(start, t, root, extractDir);
  }

  /** One turn of the overlay loop: payload file `p` is copied unless it is excluded. */
  method OverlayFile(disk: Disk, ghost start: Dirs, t: Tree, root: Path, extractDir: string, ghost done: set<Path>, p: Path, found: set<string>)
    returns (found': set<string>)
    requires start.staging.Some? && p != [] && Under(root, p) in t
    requires disk.dirs == OverlaidDisk(start, t, root, extractDir, done)
    requires found == RequiredIn(CopiedAmong(t, root, extractDir, done))
    modifies disk
    ensures disk.dirs == OverlaidDisk(start, t, root, extractDir, done + {p})
    ensures found' == RequiredIn(CopiedAmong(t, root, extractDir, done + {p}))
  {
    DiskStep(start, t, root, extractDir, done, p);
    FoundStep(t, root, extractDir, done, p);
    found' := found;
    if Excluded(extractDir, Under(root, p)) {
      return;
    }
    if BaseName(p) in RequiredFiles {
      found' := found + {BaseName(p)};
    }
    disk.WriteFile(Staging, p, t[Under(root, p)]);
  }

  /** The disk after the overlay has visited the payload files `done`. */
  ghost function OverlaidDisk(start: Dirs, t: Tree, root: Path, extractDir: string, done: set<Path>): Dirs
    requires start.staging.Some?
  {
    start.(staging := Some(start.staging.value + CopiedAmong(t, root, extractDir, done)))
  }

  lemma DiskStep(start: Dirs, t: Tree, root: Path, extractDir: string, done: set<Path>, p: Path)
    requires start.staging.Some?
    requires p != [] && Under(root, p) in t
    ensures Excluded(extractDir, Under(root, p)) ==>
              OverlaidDisk(start, t, root, extractDir, done + {p}) == OverlaidDisk(start, t, root, extractDir, done)
    ensures !Excluded(extractDir, Under(root, p)) ==>
              var d := OverlaidDisk(start, t, root, extractDir, done);
              OverlaidDisk(start, t, root, extractDir, done + {p}) == Set(d, Staging, Some(Get(d, Staging).value[p := t[Under(root, p)]]))
  {
    OverlayStep(start.staging.value, t, root, extractDir, done, p);
  }

  lemma FoundStep(t: Tree, root: Path, extractDir: string, done: set<Path>, p: Path)
    requires p != [] && Under(root, p) in t
    ensures Excluded(extractDir, Under(root, p)) || BaseName(p) !in RequiredFiles ==>
              RequiredIn(CopiedAmong(t, root, extractDir, done + {p})) == RequiredIn(CopiedAmong(t, root, extractDir, done))
    ensures !Excluded(extractDir, Under(root, p)) && BaseName(p) in RequiredFiles ==>
              RequiredIn(CopiedAmong(t, root, extractDir, done + {p})) == RequiredIn(CopiedAmong(t, root, extractDir, done)) + {BaseName(p)}
  {
    CopiedAmongStep(t, root, extractDir, done, p);
    if !Excluded(extractDir, Under(root, p)) {
      RequiredInStep(CopiedAmong(t, root, extractDir, done), p, t[Under(root, p)]);
    }
  }

  lemma OverlayDone(start: Dirs, t: Tree, root: Path, extractDir: string)
    requires start.staging.Some?
    ensures OverlaidDisk(start, t, root, extractDir, RelPaths(t, root)) == start.(staging := Some(Overlay(start.staging.value, t, root, extractDir)))
    ensures RequiredIn(CopiedAmong(t, root, extractDir, RelPaths(t, root))) == RequiredFound(t, root, extractDir)
  {
  }

  lemma OverlayStart(base: Tree, t: Tree, root: Path, extractDir: string)
    ensures base + CopiedAmong(t, root, extractDir, {}) == base
  {
    assert CopiedAmong(t, root, extractDir, {}) == map[];
  }

  lemma OverlayStep(base: Tree, t: Tree, root: Path, extractDir: string, done: set<Path>, p: Path)
    requires p != [] && Under(root, p) in t
    ensures Excluded(extractDir, Under(root, p)) ==>
              base + CopiedAmong(t, root, extractDir, done + {p}) == base + CopiedAmong(t, root, extractDir, done)
    ensures !Excluded(extractDir, Under(root, p)) ==>
              base + CopiedAmong(t, root, extractDir, done + {p}) == (base + CopiedAmong(t, root, extractDir, done))[p := t[Under(root, p)]]
  {
    CopiedAmongStep(t, root, extractDir, done, p);
    UnionWrite(base, CopiedAmong(t, root, extractDir, done), p, t[Under(root, p)]);
  }

  /** `_update_version_info_in_path` on one tree: the manifest's `version` field set to `v`. */
  function WithVersion(t: Tree, v: string): Tree {
    if ManifestPath in t && t[ManifestPath].JsonObject? then
      t[ManifestPath := JsonObject(t[ManifestPath].fields["version" := v])]
    else
      t
  }

  /**
   * The rewrite touches only the `version` field of a manifest that decodes
   * to an object; every other field and file, a manifest that does not
   * decode or decodes to something other than an object (item assignment
   * raises and the error is only logged), or a missing manifest is left as
   * it was.
   */
  lemma WithVersionContents(t: Tree, v: string)
    ensures var r := WithVersion(t, v);
            && r.Keys == t.Keys
            && (forall p :: p in t && p != ManifestPath ==> r[p] == t[p])
            && (ManifestPath in t && t[ManifestPath].JsonObject? ==>
                  && r[ManifestPath].JsonObject?
                  && r[ManifestPath].fields.Keys == t[ManifestPath].fields.Keys + {"version"}
                  && r[ManifestPath].fields["version"] == v
                  && forall f :: f in t[ManifestPath].fields && f != "version" ==>
                                   r[ManifestPath].fields[f] == t[ManifestPath].fields[f])
            && (ManifestPath in t && !t[ManifestPath].JsonObject? ==> r == t)
  {
  }

  /** `_update_version_info_in_path` on directory `d`; a missing directory has no manifest to rewrite. */
  method UpdateVersionInfoInPath(disk: Disk, d: Dir, v: string)
    modifies disk
    ensures var t := Get(old(disk.dirs), d);
            disk.dirs == if t.Some? then Set(old(disk.dirs), d, Some(WithVersion(t.value, v))) else old(disk.dirs)
  {
    if Get(disk.dirs, d).Some? {
      var t := Get(disk.dirs, d).value;
      if ManifestPath in t && t[ManifestPath].JsonObject? {
        var manifest := t[ManifestPath].fields;
        disk.WriteFile(d, ManifestPath, JsonObject(manifest["version" := v]));
      }
    }
  }

  /**
   * The staged manifest check: a manifest, when present, must decode and
   * `"version" not in manifest or manifest.get("version") != v` must not
   * raise. On an object it never does (a mismatch is only logged); on an
   * array or a string the membership test short-circuits when "version" is
   * not an element or a substring, and otherwise `.get` raises; on any other
   * scalar the membership test itself raises.
   */
  predicate ManifestReadable(t: Tree) {
    ManifestPath !in t ||
    match t[ManifestPath]
    case JsonObject(_) => true
    case JsonArray(strings) => "version" !in strings
    case JsonString(text) => !Contains(text, "version")
    case JsonScalar => false
    case Other(_) => false
  }

  /** The state of the config entry as `async_get_entry` reports it. */
  datatype EntryState = Loaded | SetupInProgress | OtherState

  /**
   * What the host answers during one reload: the entry (if found) before and
   * after the 10-second wait, and the result of `async_reload` (`None` when
   * it raised).
   */
  datatype HostView = HostView(entry: Option<EntryState>, entryAfterWait: Option<EntryState>, reloadResult: Option<bool>)

  /**
   * `_reload_integration`: true exactly when there is an entry id, the entry
   * is loaded (at once, or after waiting out its set-up) and the host's
   * reload reports success. It never raises.
   */
  function ReloadIntegration(entryId: Option<string>, host: HostView): (ok: bool)
    ensures ok <==>
              && Truthy(entryId)
              && host.reloadResult == Some(true)
              && (host.entry == Some(Loaded) || (host.entry == Some(SetupInProgress) && host.entryAfterWait == Some(Loaded)))
  {
    if !Truthy(entryId) then false
    else if host.entry.None? then false
    else if host.entry.value == SetupInProgress && host.entryAfterWait != Some(Loaded) then false
    else if host.entry.value != SetupInProgress && host.entry.value != Loaded then false
    else host.reloadResult == Some(true)
  }
}
