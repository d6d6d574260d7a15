// Checkpoint manifests, and what the agent makes of one.
module Manifests {
  import opened Text
  import opened CleanPath
  import opened Destinations

  const SCHEMA := "orbit.checkpoint.manifest.v2"
  const MANIFEST_SUFFIX := ".orbit.json"
  const STAGED := "staged"
  const COMMITTED := "committed"

  datatype Manifest = Manifest(
    schemaVersion: string, checkpointID: string, jobName: string, runID: string,
    framework: string, format: string, name: string, path: string, step: int, status: string,
    distributed: bool, worldSize: int, storageBackend: string, storagePath: string,
    stagingPath: string, sizeBytes: int, sha256: string, createdAt: string, committedAt: string,
    metadata: map<string, string>)

  /** The agent's settings. Both directories are absolute and clean. */
  datatype Config = Config(stagingDir: Path, finalDir: Path, storagePrefix: string, finalLayout: string, backend: bool)

  predicate HasSuffix(s: string, suffix: string)
  {
    |suffix| <= |s| && s[|s| - |suffix|..] == suffix
  }

  predicate IsManifestPath(p: Path)
  {
    p != [] && HasSuffix(p[|p| - 1], MANIFEST_SUFFIX)
  }

  /** The manifest's own name without the suffix. */
  function Stem(manifestPath: Path): string
    requires IsManifestPath(manifestPath)
  {
    var last := manifestPath[|manifestPath| - 1];
    last[..|last| - |MANIFEST_SUFFIX|]
  }

  /**
   * The checkpoint a manifest describes. Cutting off the suffix can leave a path that ends in a
   * slash, `.` or `..`: such a manifest describes a directory it lies in.
   */
  function SourceOf(manifestPath: Path): Path
    requires IsManifestPath(manifestPath)
  {
    var parent, stem := manifestPath[..|manifestPath| - 1], Stem(manifestPath);
    if stem == "" || stem == "." then parent
    else if stem == ".." then (if parent == [] then [] else parent[..|parent| - 1])
    else parent + [stem]
  }

  /** The text of that path: the manifest's own text without its suffix. */
  function SourceText(manifestPath: Path): string
    requires IsManifestPath(manifestPath)
  {
    RenderEndsWith(manifestPath);
    var text := Render(manifestPath);
    text[..|text| - |MANIFEST_SUFFIX|]
  }

  lemma {:induction false} RenderEndsWith(p: Path)
    requires p != []
    ensures |Render(p)| >= |p[|p| - 1]|
  {
    if |p| > 1 {
      JoinSnoc(p[..|p| - 1], p[|p| - 1], '/');
      assert p == p[..|p| - 1] + [p[|p| - 1]];
    }
  }

  /** filepath.Base. */
  function BaseName(p: Path): string
  {
    if p == [] then "/" else p[|p| - 1]
  }

  /** filepath.Base of the checkpoint's path, which keeps a final `.` or `..` as it stands. */
  function BaseOf(manifestPath: Path): string
    requires IsManifestPath(manifestPath)
  {
    var stem := Stem(manifestPath);
    if stem == "." || stem == ".." then stem else BaseName(SourceOf(manifestPath))
  }

  predicate Eligible(item: Manifest)
  {
    item.schemaVersion == SCHEMA && (item.status == STAGED || item.status == COMMITTED)
  }

  function DestinationOf(cfg: Config, manifestPath: Path, item: Manifest): Path
    requires IsManifestPath(manifestPath)
  {
    FinalPath(cfg.finalDir, cfg.finalLayout, item.jobName, item.name, BaseOf(manifestPath))
  }

  /** The storage path announced for a manifest whose own storage path is `s`. */
  function NextStorage(cfg: Config, dest: Path, s: string): string
  {
    FinalStoragePath(cfg.storagePrefix, cfg.finalDir, dest, s)
  }

  /** finalManifestForDestination; `now` is the clock's answer. */
  function FinalManifest(cfg: Config, manifestPath: Path, item: Manifest, now: string): Manifest
    requires IsManifestPath(manifestPath)
  {
    var dest := DestinationOf(cfg, manifestPath, item);
    item.(path := Render(dest),
          storagePath := NextStorage(cfg, dest, item.storagePath),
          stagingPath := SourceText(manifestPath),
          status := COMMITTED,
          committedAt := now,
          metadata := item.metadata["agentCopied" := "true"])
  }

  predicate InPlace(cfg: Config, manifestPath: Path, item: Manifest)
    requires IsManifestPath(manifestPath)
  {
    SourceOf(manifestPath) == DestinationOf(cfg, manifestPath, item)
  }

  /** The in-place branch's test. It does not look at the status. */
  predicate NeedsRewrite(cfg: Config, manifestPath: Path, item: Manifest)
    requires IsManifestPath(manifestPath)
  {
    var final := FinalManifest(cfg, manifestPath, item, "");
    item.path != final.path || item.storagePath != final.storagePath || item.stagingPath != final.stagingPath
  }

  // ----- What the final manifest says

  /** `left` describes the checkpoint that `item` describes: only what a commit sets may differ. */
  ghost predicate SameCheckpoint(item: Manifest, left: Manifest)
  {
    && left.(path := item.path, storagePath := item.storagePath, stagingPath := item.stagingPath,
             status := item.status, committedAt := item.committedAt, metadata := item.metadata) == item
    && forall k | k != "agentCopied" :: SameEntry(item.metadata, left.metadata, k)
  }

  predicate SameEntry(m: map<string, string>, m': map<string, string>, k: string)
  {
    (k in m <==> k in m') && (k in m ==> m[k] == m'[k])
  }

  /** ... and gives its destination, its storage path and the place it was staged at. */
  ghost predicate Describes(cfg: Config, manifestPath: Path, item: Manifest, left: Manifest)
    requires IsManifestPath(manifestPath)
  {
    var dest := DestinationOf(cfg, manifestPath, item);
    && SameCheckpoint(item, left)
    && left.path == Render(dest) && left.stagingPath + MANIFEST_SUFFIX == Render(manifestPath)
    && left.storagePath == FinalStoragePath(cfg.storagePrefix, cfg.finalDir, dest, item.storagePath)
  }

  /** It says that the agent has copied the checkpoint, and when. */
  predicate SaysCopied(left: Manifest, now: string)
  {
    left.status == "committed" && left.committedAt == now && "agentCopied" in left.metadata && left.metadata["agentCopied"] == "true"
  }

  /**
   * The final manifest describes the same checkpoint as the staged one, field by field, at its
   * destination: beside its paths, status and time a single metadata entry is set.
   */
  lemma FinalManifestTells(cfg: Config, manifestPath: Path, item: Manifest, now: string)
    requires IsManifestPath(manifestPath)
    ensures var final := FinalManifest(cfg, manifestPath, item, now);
            Describes(cfg, manifestPath, item, final) && SaysCopied(final, now)
  {
    hide DestinationOf, FinalStoragePath, Render;
    SourceTextIs(manifestPath);
  }

  /** A poll in place leaves a manifest of the same checkpoint, too. */
  lemma PolledTells(cfg: Config, manifestPath: Path, item: Manifest, now: string)
    requires IsManifestPath(manifestPath)
    ensures Describes(cfg, manifestPath, item, Polled(cfg, manifestPath, item, now))
  {
    hide DestinationOf, FinalStoragePath, Render;
    SourceTextIs(manifestPath);
  }

  lemma SourceTextIs(manifestPath: Path)
    requires IsManifestPath(manifestPath)
    ensures SourceText(manifestPath) + MANIFEST_SUFFIX == Render(manifestPath)
    ensures SourceText(manifestPath) == Render(manifestPath[..|manifestPath| - 1] + [Stem(manifestPath)])
  {
    hide MANIFEST_SUFFIX;
    var front, last := manifestPath[..|manifestPath| - 1], manifestPath[|manifestPath| - 1];
    RenderEndsWith(manifestPath);
    assert last == Stem(manifestPath) + MANIFEST_SUFFIX;
    assert manifestPath == front + [last];
    if front != [] {
      JoinSnoc(front, last, '/');
      JoinSnoc(front, Stem(manifestPath), '/');
    }
    var text := Render(manifestPath);
    assert text == Render(front + [Stem(manifestPath)]) + MANIFEST_SUFFIX;
    assert text[|text| - |MANIFEST_SUFFIX|..] == MANIFEST_SUFFIX;
  }

  /** The checkpoint lies where the manifest's text without its suffix leads, whatever is left of the name. */
  lemma SourceWalks(manifestPath: Path)
    requires IsManifestPath(manifestPath) && AllPlain(manifestPath)
    ensures SourceOf(manifestPath) == Walk([], Split(SourceText(manifestPath), '/'))
  {
    hide Split, MANIFEST_SUFFIX;
    var front, stem := manifestPath[..|manifestPath| - 1], Stem(manifestPath);
    SourceTextIs(manifestPath);
    assert Plain(manifestPath[|manifestPath| - 1]) && stem <= manifestPath[|manifestPath| - 1];
    var parts := front + [stem];
    forall part | part in parts ensures '/' !in part {
      if part != stem { assert part in manifestPath && Plain(part); }
    }
    SplitJoin(parts, '/');
    SplitAfter("", Join(parts, '/'), '/');
    assert "" + ['/'] + Join(parts, '/') == Render(parts);
    assert ([""] + parts)[1..] == parts;
    WalkConcat([], front, [stem]);
    WalkPlain([], front);
    assert [] + front == front && [stem][1..] == [];
  }

  /** The name of a checkpoint without one is that of its file or directory. */
  lemma DestinationWalks(cfg: Config, manifestPath: Path, item: Manifest)
    requires IsManifestPath(manifestPath) && AllPlain(cfg.finalDir)
    ensures var above, stem := manifestPath[..|manifestPath| - 1], Stem(manifestPath);
            var own := if stem != "" then stem else if above == [] then "/" else above[|above| - 1];
            var job, name := if item.jobName == "" then "unknown-job" else item.jobName, if item.name == "" then own else item.name;
            DestinationOf(cfg, manifestPath, item) ==
            Walk(if IsJobLayout(cfg.finalLayout) then Walk(cfg.finalDir, Split(job, '/')) else cfg.finalDir, Split(name, '/'))
  {
    hide FinalPath, IsJobLayout, Walk, Split, HasSuffix;
    FinalPathWalks(cfg.finalDir, cfg.finalLayout, item.jobName, item.name, BaseOf(manifestPath));
  }

  // ----- An in-place manifest is rewritten only finitely often

  /** Each rewrite reaches a fixpoint or lowers (length, backslashes) of the storage path. */
  lemma NextStorageSettles(cfg: Config, dest: Path, s: string)
    ensures var t := NextStorage(cfg, dest, s);
            || t == s
            || NextStorage(cfg, dest, t) == t
            || ((|t| < |s| || (|t| == |s| && 0 < Backslashes(s))) && Backslashes(t) == 0)
  {
    CleanRelativePathShrinks(s);
    NoBackslash(s);
    NoneCounted(CleanRelativePath(s));
    AbsoluteStaysOut(Render(dest));
  }

  lemma NoneCounted(s: string)
    requires '\\' !in s
    ensures Backslashes(s) == 0
  {
  }

  lemma AbsoluteStaysOut(s: string)
    requires IsAbs(s)
    ensures CleanRelativePath(s) == ""
  {
    var t := ReplaceBackslashes(s);
    assert t[0] == '/';
    assert TrimLeft(t) == t;
    TrimRightKeepsHead(t);
  }

  lemma {:induction false} TrimRightKeepsHead(s: string)
    requires s != "" && !IsSpace(s[0])
    ensures TrimRight(s) != "" && TrimRight(s)[0] == s[0]
  {
    if IsSpace(s[|s| - 1]) { TrimRightKeepsHead(s[..|s| - 1]); }
  }

  /** What a poll leaves of an in-place manifest. */
  function Polled(cfg: Config, manifestPath: Path, item: Manifest, now: string): Manifest
    requires IsManifestPath(manifestPath)
  {
    if NeedsRewrite(cfg, manifestPath, item) then FinalManifest(cfg, manifestPath, item, now) else item
  }

  /** The manifest after `n` polls, the i-th at time clock(i). */
  function PolledTimes(cfg: Config, manifestPath: Path, item: Manifest, clock: nat -> string, n: nat): Manifest
    requires IsManifestPath(manifestPath)
  {
    if n == 0 then item
    else Polled(cfg, manifestPath, PolledTimes(cfg, manifestPath, item, clock, n - 1), clock(n - 1))
  }

  /** After one rewrite only the storage path can still differ from what the next poll would write. */
  lemma OneRewriteFixesPaths(cfg: Config, manifestPath: Path, item: Manifest, now: string)
    requires IsManifestPath(manifestPath)
    ensures var next := FinalManifest(cfg, manifestPath, item, now);
            var dest := DestinationOf(cfg, manifestPath, item);
            && DestinationOf(cfg, manifestPath, next) == dest
            && next.storagePath == NextStorage(cfg, dest, item.storagePath)
            && (NeedsRewrite(cfg, manifestPath, next) <==> NextStorage(cfg, dest, next.storagePath) != next.storagePath)
  {
  }

  /** The storage path after `k` rewrites. */
  function StorageAfter(cfg: Config, dest: Path, s: string, k: nat): string
  {
    if k == 0 then s else NextStorage(cfg, dest, StorageAfter(cfg, dest, s, k - 1))
  }

  lemma {:induction false} StorageAfterFirst(cfg: Config, dest: Path, s: string, k: nat)
    ensures StorageAfter(cfg, dest, s, k + 1) == StorageAfter(cfg, dest, NextStorage(cfg, dest, s), k)
  {
    hide NextStorage;
    if k > 0 { StorageAfterFirst(cfg, dest, s, k - 1); }
  }

  lemma {:induction false} StorageReachesFixpoint(cfg: Config, dest: Path, s: string) returns (k: nat)
    ensures k <= |s| + 1 + (if Backslashes(s) > 0 then 1 else 0)
    ensures var end := StorageAfter(cfg, dest, s, k); NextStorage(cfg, dest, end) == end
    decreases |s|, Backslashes(s)
  {
    hide NextStorage;
    var t := NextStorage(cfg, dest, s);
    NextStorageSettles(cfg, dest, s);
    if t == s {
      k := 0;
    } else if NextStorage(cfg, dest, t) == t {
      k := 1;
      assert StorageAfter(cfg, dest, s, 0) == s;
    } else {
      var j := StorageReachesFixpoint(cfg, dest, t);
      StorageAfterFirst(cfg, dest, s, j);
      k := j + 1;
    }
  }

  /** While polls go on the storage path follows its rewrites, and nothing else moves the other two paths. */
  lemma {:induction false} PollsFollowStorage(cfg: Config, manifestPath: Path, item: Manifest, clock: nat -> string, k: nat)
    requires IsManifestPath(manifestPath) && NeedsRewrite(cfg, manifestPath, item)
    ensures var dest := DestinationOf(cfg, manifestPath, item);
            var after := PolledTimes(cfg, manifestPath, item, clock, k + 1);
            && DestinationOf(cfg, manifestPath, after) == dest
            && after.path == Render(dest) && after.stagingPath == SourceText(manifestPath)
            && after.storagePath == StorageAfter(cfg, dest, item.storagePath, k + 1)
  {
    hide NextStorage, FinalPath, SourceText, Render;
    if k == 0 {
      assert PolledTimes(cfg, manifestPath, item, clock, 0) == item;
      assert StorageAfter(cfg, DestinationOf(cfg, manifestPath, item), item.storagePath, 0) == item.storagePath;
    } else {
      PollsFollowStorage(cfg, manifestPath, item, clock, k - 1);
    }
  }

  lemma {:induction false} SettledStays(cfg: Config, manifestPath: Path, item: Manifest, clock: nat -> string, n: nat, m: nat)
    requires IsManifestPath(manifestPath) && n <= m
    requires !NeedsRewrite(cfg, manifestPath, PolledTimes(cfg, manifestPath, item, clock, n))
    ensures PolledTimes(cfg, manifestPath, item, clock, m) == PolledTimes(cfg, manifestPath, item, clock, n)
  {
    hide NeedsRewrite, FinalManifest;
    if n < m { SettledStays(cfg, manifestPath, item, clock, n, m - 1); }
  }

  lemma {:induction false} SettledStorageStays(cfg: Config, dest: Path, s: string, n: nat, m: nat)
    requires n <= m
    requires var end := StorageAfter(cfg, dest, s, n); NextStorage(cfg, dest, end) == end
    ensures StorageAfter(cfg, dest, s, m) == StorageAfter(cfg, dest, s, n)
  {
    hide NextStorage;
    if n < m { SettledStorageStays(cfg, dest, s, n, m - 1); }
  }

  /**
   * Whatever the manifest says and whatever the clock answers, an in-place manifest is rewritten
   * at most |storagePath| + 3 times: from poll `n` on it never changes again.
   */
  lemma RewritesEnd(cfg: Config, manifestPath: Path, item: Manifest, clock: nat -> string) returns (n: nat)
    requires IsManifestPath(manifestPath)
    ensures n <= |item.storagePath| + 3
    ensures forall m: nat | m >= n ::
              PolledTimes(cfg, manifestPath, item, clock, m) == PolledTimes(cfg, manifestPath, item, clock, n)
  {
    hide NextStorage, FinalPath, SourceText, Render;
    if !NeedsRewrite(cfg, manifestPath, item) {
      n := 0;
      assert PolledTimes(cfg, manifestPath, item, clock, 0) == item;
    } else {
      var dest := DestinationOf(cfg, manifestPath, item);
      var k := StorageReachesFixpoint(cfg, dest, item.storagePath);
      PollsFollowStorage(cfg, manifestPath, item, clock, k);
      SettledStorageStays(cfg, dest, item.storagePath, k, k + 1);
      n := k + 1;
    }
    forall m: nat | m >= n
      ensures PolledTimes(cfg, manifestPath, item, clock, m) == PolledTimes(cfg, manifestPath, item, clock, n)
    {
      SettledStays(cfg, manifestPath, item, clock, n, m);
    }
  }

  /**
   * The rewrite test ignores the status: a poll leaves an in-place manifest on disk as committed
   * exactly when it was already, or when one of its three paths still differed.
   */
  lemma PolledStatus(cfg: Config, manifestPath: Path, item: Manifest, now: string)
    requires IsManifestPath(manifestPath)
    ensures Polled(cfg, manifestPath, item, now).status == COMMITTED <==>
            item.status == COMMITTED || NeedsRewrite(cfg, manifestPath, item)
  {
  }

  /**
   * Wherever a checkpoint lies in place there is a staged manifest for it that no poll rewrites:
   * the one a finished rewriting leaves, marked as staged again.
   */
  lemma StagedStaysStaged(cfg: Config, manifestPath: Path, item: Manifest) returns (staged: Manifest)
    requires IsManifestPath(manifestPath) && item.schemaVersion == SCHEMA && InPlace(cfg, manifestPath, item)
    ensures Eligible(staged) && staged.status == STAGED && InPlace(cfg, manifestPath, staged)
    ensures staged.jobName == item.jobName && staged.name == item.name && staged.checkpointID == item.checkpointID
    ensures !NeedsRewrite(cfg, manifestPath, staged) && forall now :: Polled(cfg, manifestPath, staged, now) == staged
  {
    hide NextStorage, FinalPath, SourceText, Render;
    var dest := DestinationOf(cfg, manifestPath, item);
    var k := StorageReachesFixpoint(cfg, dest, item.storagePath);
    staged := FinalManifest(cfg, manifestPath, item, "").(storagePath := StorageAfter(cfg, dest, item.storagePath, k), status := STAGED);
  }

  /** And there are such checkpoints: here the staging directory is the final directory. */
  lemma InPlaceHere(cfg: Config, item: Manifest)
    requires cfg.stagingDir == cfg.finalDir == ["data"] && cfg.finalLayout == "flat" && item.name == "c"
    ensures var p := ["data", "c.orbit.json"]; IsManifestPath(p) && cfg.stagingDir < p && InPlace(cfg, p, item)
  {
    hide FinalPath, Plain, IsJobLayout, HasSuffix;
    assert HasSuffix("c.orbit.json", MANIFEST_SUFFIX) && Stem(["data", "c.orbit.json"]) == "c" by { StemHere(); }
    assert !IsJobLayout("flat") by { NotJobLayout(); }
    assert AllPlain(["data"]) && Plain("c") by { PlainHere(); }
    FlatPath(cfg.finalDir, cfg.finalLayout, item.jobName, "c", BaseOf(["data", "c.orbit.json"]));
  }

  lemma StemHere()
    ensures HasSuffix("c.orbit.json", MANIFEST_SUFFIX)
    ensures Stem(["data", "c.orbit.json"]) == "c"
  {
    var last := "c.orbit.json";
    assert last[|last| - |MANIFEST_SUFFIX|..] == MANIFEST_SUFFIX && last[..|last| - |MANIFEST_SUFFIX|] == "c";
  }

  lemma NotJobLayout()
    ensures !IsJobLayout("flat")
  {
    assert Trim("flat") == "flat";
  }

  lemma PlainHere()
    ensures AllPlain(["data"]) && Plain("c")
  {
    assert Plain("data");
  }

  /** In flat layout the job plays no part. */
  lemma FlatPath(finalDir: Path, layout: string, job: string, name: string, base: string)
    requires AllPlain(finalDir) && !IsJobLayout(layout) && Plain(EffectiveName(name, base))
    ensures FinalPath(finalDir, layout, job, name, base) == finalDir + [EffectiveName(name, base)]
  {
    assert Plain("job");
    FinalPathOfPlainNames(finalDir, layout, "job", name, base);
  }
}
