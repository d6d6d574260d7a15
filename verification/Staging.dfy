// The staging directory: which manifests lie in it, and what an attempt at one does to the others.
module Staging {
  import opened Text
  import opened CleanPath
  import opened Destinations
  import opened Manifests
  import opened Trees
  import opened Disks
  import opened Copying
  import opened Commits
  import opened Agents
  import opened Runs

  /** A test that puts p out of the agent's reach whatever its process id. */
  predicate ClearOf(p: Path, dest: Path)
  {
    && dest != [] && Apart(p, dest) && Apart(p, ManifestOf(dest)) && Apart(p, MarkerOf(dest, false))
    && !(|p| >= |dest| && Parent(dest) <= p && dest[|dest| - 1] + ".tmp." <= p[|dest| - 1])
  }

  lemma ClearIsOutOfReach(p: Path, dest: Path)
    requires ClearOf(p, dest)
    ensures OutOfReach(p, dest)
  {
    forall pid: nat ensures Apart(p, TmpOf(dest, pid)) {
      if TmpOf(dest, pid) <= p { UnderTmp(p, dest, pid); }
      if p <= TmpOf(dest, pid) { AboveTmp(p, dest, pid); }
    }
  }

  lemma UnderTmp(p: Path, dest: Path, pid: nat)
    requires dest != [] && TmpOf(dest, pid) <= p
    ensures |p| >= |dest| && Parent(dest) <= p && dest[|dest| - 1] + ".tmp." <= p[|dest| - 1]
  {
    var tmp := TmpOf(dest, pid);
    assert p[|dest| - 1] == tmp[|dest| - 1] == dest[|dest| - 1] + (".tmp." + Decimal(pid));
    assert Parent(dest) == tmp[..|dest| - 1] == p[..|dest| - 1];
  }

  lemma AboveTmp(p: Path, dest: Path, pid: nat)
    requires dest != [] && p <= TmpOf(dest, pid)
    ensures p == TmpOf(dest, pid) || p <= dest
  {
    var tmp := TmpOf(dest, pid);
    if p != tmp { assert p == tmp[..|p|] == dest[..|p|]; }
  }

  lemma BelowClear(top: Path, p: Path, dest: Path)
    requires OutOfReach(top, dest) && top <= p
    ensures OutOfReach(p, dest)
  {
    BelowApart(top, p, dest);
    BelowApart(top, p, ManifestOf(dest));
    BelowApart(top, p, MarkerOf(dest, false));
    forall pid: nat ensures Apart(p, TmpOf(dest, pid)) {
      BelowApart(top, p, TmpOf(dest, pid));
    }
  }

  lemma BelowApart(top: Path, p: Path, f: Path)
    requires top <= p && Apart(top, f)
    ensures Apart(p, f)
  {
    if f <= p { PrefixesMeet(top, f, p); }
    if p <= f { PrefixTrans(top, p, f); }
  }

  predicate InStaging(cfg: Config, p: Path)
  {
    cfg.stagingDir <= p && p != cfg.stagingDir
  }

  /**
   * Each staged manifest describes something staged, and is committed in place or to somewhere
   * clear of the staging directory.
   */
  predicate Tame(cfg: Config, t: Tree)
  {
    forall p | p in t && InStaging(cfg, p) && IsManifestPath(p) :: Stem(p) != ".." && TameAt(cfg, t, p)
  }

  predicate TameAt(cfg: Config, t: Tree, p: Path)
    requires IsManifestPath(p)
  {
    match Find(t, p)
    case Ready(item) => InPlace(cfg, p, item) || ClearOf(cfg.stagingDir, DestinationOf(cfg, p, item))
    case _ => true
  }

  /** Where the job is careful the marker is there whenever an eligible manifest is: it writes it first. */
  predicate MarkersFirst(cfg: Config, careful: Path -> bool, t: Tree)
  {
    forall p | p in t && InStaging(cfg, p) && IsManifestPath(p) && careful(p) :: MarkerFirstAt(t, p)
  }

  predicate MarkerFirstAt(t: Tree, p: Path)
    requires IsManifestPath(p)
  {
    IsFile(t, p) && t[p].content.Json? && Eligible(t[p].content.item) ==> !Find(t, p).Skipped?
  }

  /** What the job may make of the disk: anything, but below the staging directory only. */
  predicate JobMay(cfg: Config, careful: Path -> bool, t: Tree, t': Tree)
  {
    && WellFormed(t') && Tame(cfg, t') && MarkersFirst(cfg, careful, t')
    && (forall q | q in t && !InStaging(cfg, q) :: q in t' && t'[q] == t[q])
    && (forall q | q in t' && !InStaging(cfg, q) :: q in t)
  }

  ghost predicate SameVersion(t: Tree, m: map<Path, int>, t': Tree, m': map<Path, int>, p: Path)
  {
    SameNode(t, t', p) && TimeIn(m, p) == TimeIn(m', p)
  }

  /** The manifest's effective job and checkpoint names are single path components. */
  ghost predicate NamesPlain(manifestPath: Path, item: Manifest)
    requires IsManifestPath(manifestPath)
  {
    Plain(EffectiveJob(item.jobName)) && Plain(EffectiveName(item.name, BaseOf(manifestPath)))
  }

  /** Staging and final directory lie apart. */
  ghost predicate Separate(cfg: Config)
  {
    AllPlain(cfg.finalDir) && Apart(cfg.stagingDir, cfg.finalDir)
  }

  /** What lies properly below one of two separate directories stays clear of the other. */
  lemma ClearAcross(top: Path, other: Path, dest: Path)
    requires Apart(top, other) && other <= Parent(dest) && dest != []
    ensures ClearOf(top, dest)
  {
    hide Suffixed, Apart;
    Siblings(dest, 0);
    OtherSide(top, other, dest, dest);
    OtherSide(top, other, dest, ManifestOf(dest));
    OtherSide(top, other, dest, MarkerOf(dest, false));
    NotOver(top, other, Parent(dest));
  }

  lemma OtherSide(top: Path, other: Path, dest: Path, f: Path)
    requires Apart(top, other) && other <= Parent(dest) && f != [] && Parent(f) == Parent(dest)
    ensures Apart(top, f)
  {
    PrefixTrans(other, Parent(dest), f);
    BesideBelow(top, other, f);
  }

  lemma NotOver(top: Path, other: Path, up: Path)
    requires Apart(top, other) && other <= up
    ensures !(up <= top)
  {
    if up <= top { PrefixTrans(other, up, top); }
  }

  /**
   * With separate directories and single-component names nothing a commit writes comes near the
   * staging directory, whatever else the manifest says.
   */
  lemma SeparateIsClear(cfg: Config, p: Path, item: Manifest)
    requires IsManifestPath(p) && InStaging(cfg, p) && Stem(p) != ".." && Separate(cfg) && NamesPlain(p, item)
    ensures ClearOf(cfg.stagingDir, DestinationOf(cfg, p, item)) && !InPlace(cfg, p, item)
    ensures SourceOf(p) != Parent(p) ==> Remote(cfg, p, item)
  {
    hide OutOfReach, EffectiveJob, EffectiveName, IsJobLayout, FinalPath, ClearOf;
    var dest := DestinationOf(cfg, p, item);
    FinalPathOfPlainNames(cfg.finalDir, cfg.finalLayout, item.jobName, item.name, BaseOf(p));
    assert dest != [] && cfg.finalDir <= Parent(dest);
    ClearAcross(cfg.stagingDir, cfg.finalDir, dest);
    ClearIsOutOfReach(cfg.stagingDir, dest);
    SourceInStaging(cfg, p);
    BelowClear(cfg.stagingDir, p, dest);
    BelowClear(cfg.stagingDir, SourceOf(p), dest);
    if SourceOf(p) != Parent(p) { BelowClear(cfg.stagingDir, MarkerOf(SourceOf(p), false), dest); }
    assert !InPlace(cfg, p, item) by { NotItself(SourceOf(p), dest); }
  }

  lemma NotItself(p: Path, dest: Path)
    requires OutOfReach(p, dest)
    ensures p != dest
  {
  }

  /** So separate directories make every staging area tame whose manifests have such names. */
  lemma SeparateIsTame(cfg: Config, t: Tree)
    requires Separate(cfg)
    requires forall p | p in t && InStaging(cfg, p) && IsManifestPath(p) ::
               Stem(p) != ".." && (Find(t, p).Ready? ==> NamesPlain(p, Find(t, p).item))
    ensures Tame(cfg, t)
  {
    hide NamesPlain, InPlace, ClearOf, Find, IsManifestPath;
    forall p | p in t && InStaging(cfg, p) && IsManifestPath(p) ensures Stem(p) != ".." && TameAt(cfg, t, p) {
      if Find(t, p).Ready? { SeparateIsClear(cfg, p, Find(t, p).item); }
    }
  }

  /** A disk with one checkpoint that is ready and nothing in its way. */
  function ReadyDisk(item: Manifest): Tree
  {
    map[[] := Dir, ["staging"] := Dir, ["staging", "c"] := File(Raw("data")),
        ["staging", "c._SUCCESS"] := File(Raw("")), ["staging", "c.orbit.json"] := File(Json(item))]
  }

  /** What the results about copying, runs and polling ask for is met together. */
  lemma ReadyDiskIsTame(cfg: Config, item: Manifest)
    requires cfg.stagingDir == ["staging"] && cfg.finalDir == ["final"]
    requires Eligible(item) && item.jobName == "job" && item.name == "name"
    ensures var t, p := ReadyDisk(item), ["staging", "c.orbit.json"];
            && WellFormed(t) && IsManifestPath(p) && InStaging(cfg, p) && Find(t, p) == Ready(item)
            && Tame(cfg, t) && MarkersFirst(cfg, _ => true, t) && Remote(cfg, p, item) && !InPlace(cfg, p, item)
            && CanCommit(t, SourceOf(p), DestinationOf(cfg, p, item))
  {
    hide Remote, InPlace, ClearOf, CanCommit, DestinationOf;
    var t, p := ReadyDisk(item), ["staging", "c.orbit.json"];
    ReadyDiskPaths(item);
    assert Plain("job") && Plain("name");
    SeparateIsClear(cfg, p, item);
    SeparateIsTame(cfg, t);
    ReadyDiskCommits(cfg, item);
  }

  lemma ReadyDiskPaths(item: Manifest)
    ensures var p := ["staging", "c.orbit.json"]; IsManifestPath(p) && Stem(p) == "c" && SourceOf(p) == ["staging", "c"]
    ensures MarkerOf(["staging", "c"], false) == ["staging", "c._SUCCESS"]
    ensures WellFormed(ReadyDisk(item))
    ensures forall q | q in ReadyDisk(item) && IsManifestPath(q) :: q == ["staging", "c.orbit.json"]
  {
    var last := "c.orbit.json";
    assert last[|last| - |MANIFEST_SUFFIX|..] == MANIFEST_SUFFIX && last[..|last| - |MANIFEST_SUFFIX|] == "c";
    assert "c" + "._SUCCESS" == "c._SUCCESS";
    var t := ReadyDisk(item);
    assert Parent(["staging"]) == [] && Parent(["staging", "c"]) == Parent(["staging", "c._SUCCESS"]) == Parent(["staging", last]) == ["staging"];
    assert !HasSuffix("c._SUCCESS", MANIFEST_SUFFIX) by { assert "c._SUCCESS"[9] == 'S' && MANIFEST_SUFFIX[10] == 'n'; }
  }

  lemma ReadyDiskCommits(cfg: Config, item: Manifest)
    requires cfg.finalDir == ["final"] && item.jobName == "job" && item.name == "name"
    ensures var p := ["staging", "c.orbit.json"];
            IsManifestPath(p) && CanCommit(ReadyDisk(item), SourceOf(p), DestinationOf(cfg, p, item))
  {
    hide FinalPath, IsJobLayout, ReadyDisk, ManifestOf, MarkerOf, CanMkdir;
    var p := ["staging", "c.orbit.json"];
    ReadyDiskPaths(item);
    assert Plain("job") && Plain("name");
    FinalPathOfPlainNames(cfg.finalDir, cfg.finalLayout, item.jobName, item.name, BaseOf(p));
    FinalSideIsFree(item, DestinationOf(cfg, p, item));
    assert !IsDir(ReadyDisk(item), ["staging", "c"]) by { ReadyData(item); }
  }

  lemma FinalSideIsFree(item: Manifest, dest: Path)
    requires |dest| > 1 && dest[0] == "final"
    ensures CanMkdir(ReadyDisk(item), Parent(dest))
    ensures ManifestOf(dest) !in ReadyDisk(item) && MarkerOf(dest, false) !in ReadyDisk(item)
  {
    hide Suffixed;
    var t := ReadyDisk(item);
    assert "final"[0] != "staging"[0];
    forall k | k in Prefixes(Parent(dest)) && k in t ensures t[k].Dir? {
      assert k == [] || k[0] == dest[0];
    }
    StartsAlike(dest, MANIFEST_SUFFIX);
    StartsAlike(dest, "._SUCCESS");
  }

  lemma StartsAlike(dest: Path, suffix: string)
    requires |dest| > 1
    ensures Suffixed(dest, suffix) != [] && Suffixed(dest, suffix)[0] == dest[0]
  {
  }

  lemma ReadyData(item: Manifest)
    ensures IsFile(ReadyDisk(item), ["staging", "c"])
  {
  }

  lemma SourceInStaging(cfg: Config, p: Path)
    requires InStaging(cfg, p) && IsManifestPath(p) && Stem(p) != ".."
    ensures cfg.stagingDir <= SourceOf(p) && cfg.stagingDir <= MarkerOf(SourceOf(p), true)
    ensures SourceOf(p) != Parent(p) ==> cfg.stagingDir <= MarkerOf(SourceOf(p), false)
  {
    var s := SourceOf(p);
    assert cfg.stagingDir == Parent(p)[..|cfg.stagingDir|];
    PrefixTrans(cfg.stagingDir, Parent(p), s);
    if s != Parent(p) {
      assert Parent(MarkerOf(s, false)) == Parent(p);
    }
    PrefixTrans(cfg.stagingDir, s, s + ["_SUCCESS"]);
  }

  /** A manifest's directory is a directory. */
  lemma ParentIsDir(t: Tree, p: Path)
    requires WellFormed(t) && p in t && p != []
    ensures IsDir(t, Parent(p))
  {
  }

  // ----- What an attempt at one staged manifest does to the others

  /** The same nodes of the same kind at and below `top`, and the same content but at p. */
  ghost predicate SameButAt(t: Tree, t': Tree, top: Path, p: Path)
  {
    && (forall q | top <= q && q != p :: SameNode(t, t', q))
    && (p in t <==> p in t') && (IsDir(t, p) <==> IsDir(t', p))
  }

  lemma SameKind(t: Tree, t': Tree, top: Path, p: Path, q: Path)
    requires SameButAt(t, t', top, p) && top <= q
    ensures (q in t <==> q in t') && (IsDir(t, q) <==> IsDir(t', q))
  {
    if q != p { assert SameNode(t, t', q); }
  }

  /** What is found at a manifest depends on its own content, and on which of source and marker exist. */
  lemma FindSame(cfg: Config, t: Tree, t': Tree, p: Path, p': Path)
    requires SameButAt(t, t', cfg.stagingDir, p) && WellFormed(t) && WellFormed(t')
    requires InStaging(cfg, p') && IsManifestPath(p') && Stem(p') != ".." && SameNode(t, t', p')
    ensures Find(t', p') == Find(t, p')
  {
    hide SourceOf, SameButAt, MarkerOf;
    if p' in t {
      SourceAndMarkerStay(cfg, t, t', p, p');
    }
  }

  lemma SourceAndMarkerStay(cfg: Config, t: Tree, t': Tree, p: Path, p': Path)
    requires SameButAt(t, t', cfg.stagingDir, p) && WellFormed(t) && p' in t
    requires InStaging(cfg, p') && IsManifestPath(p') && Stem(p') != ".."
    ensures var s := SourceOf(p');
            && (s in t <==> s in t') && (IsDir(t, s) <==> IsDir(t', s))
            && (s in t ==> (MarkerOf(s, IsDir(t, s)) in t <==> MarkerOf(s, IsDir(t, s)) in t'))
  {
    hide SourceOf, SameButAt, MarkerOf;
    var s := SourceOf(p');
    SourceInStaging(cfg, p');
    ParentIsDir(t, p');
    SameKind(t, t', cfg.stagingDir, p, s);
    if s in t { SameKind(t, t', cfg.stagingDir, p, MarkerOf(s, IsDir(t, s))); }
  }

  lemma FindAfterRewrite(cfg: Config, t: Tree, t': Tree, p: Path, item: Manifest, final: Manifest)
    requires SameButAt(t, t', cfg.stagingDir, p) && WellFormed(t) && WellFormed(t')
    requires InStaging(cfg, p) && IsManifestPath(p) && Stem(p) != ".." && Find(t, p) == Ready(item)
    requires p in t' && t'[p] == File(Json(final)) && Eligible(final)
    ensures Find(t', p) == Ready(final)
  {
    hide SourceOf, SameButAt, MarkerOf;
    SourceAndMarkerStay(cfg, t, t', p, p);
  }

  lemma CopyStaysClear(cfg: Config, atomicRemoval: bool, p: Path, item: Manifest, pid: nat, t: Tree, t': Tree)
    requires IsManifestPath(p) && ClearOf(cfg.stagingDir, DestinationOf(cfg, p, item))
    requires AttemptLeaves(cfg, atomicRemoval, p, item, pid, t, t')
    ensures forall q | cfg.stagingDir <= q :: SameNode(t, t', q)
  {
    hide DestinationOf, SourceOf, Below, Framed, ManifestOf, TmpOf, OutOfReach;
    var dest := DestinationOf(cfg, p, item);
    var isDir := IsDir(t, SourceOf(p));
    ClearIsOutOfReach(cfg.stagingDir, dest);
    FootIsReach(dest, isDir, pid);
    forall q | cfg.stagingDir <= q ensures SameNode(t, t', q) {
      BelowClear(cfg.stagingDir, q, dest);
      FarNodeStays(t, t', q, dest, isDir, {pid});
    }
  }

  lemma FootIsReach(dest: Path, isDir: bool, pid: nat)
    ensures Foot(dest, isDir, pid) == Reach(dest, isDir, {pid})
  {
    assert Tmps(dest, {pid}) == {TmpOf(dest, pid)};
  }

  /**
   * An attempt at a staged manifest changes nothing else that is staged: it leaves its own
   * manifest as it is, or, in place, rewrites or tears it.
   */
  lemma OthersStay(cfg: Config, atomicRemoval: bool, p: Path, pid: nat, t: Tree, t': Tree)
    requires InStaging(cfg, p) && IsManifestPath(p) && p in t && TameAt(cfg, t, p)
    requires Leaves(cfg, atomicRemoval, p, pid, t, t')
    ensures SameButAt(t, t', cfg.stagingDir, p)
    ensures SameNode(t, t', p) ||
            (Find(t, p).Ready? && InPlace(cfg, p, Find(t, p).item) && IsFile(t', p) &&
             (t'[p].content.Raw? || ManifestWritten(cfg, p, Find(t, p).item, t', p)))
  {
    hide DestinationOf, SourceOf, AttemptLeaves, FinalManifest;
    match Find(t, p)
    case Ready(item) =>
      if !InPlace(cfg, p, item) { CopyStaysClear(cfg, atomicRemoval, p, item, pid, t, t'); assert SameNode(t, t', p); }
    case _ =>
  }

  lemma TameStays(cfg: Config, careful: Path -> bool, atomicRemoval: bool, p: Path, pid: nat, t: Tree, t': Tree)
    requires InStaging(cfg, p) && IsManifestPath(p) && p in t && Tame(cfg, t) && WellFormed(t) && WellFormed(t')
    requires Leaves(cfg, atomicRemoval, p, pid, t, t')
    ensures Tame(cfg, t')
    ensures MarkersFirst(cfg, careful, t) ==> MarkersFirst(cfg, careful, t')
  {
    hide Leaves, DestinationOf, SourceOf, FinalManifest, WellFormed, SameButAt, IsManifestPath;
    assert Stem(p) != ".." && TameAt(cfg, t, p);
    OthersStay(cfg, atomicRemoval, p, pid, t, t');
    forall p' | p' in t' && InStaging(cfg, p') && IsManifestPath(p')
      ensures Stem(p') != ".." && TameAt(cfg, t', p') && (MarkerFirstAt(t, p') ==> MarkerFirstAt(t', p'))
      ensures p' in t
    {
      if p' != p {
        ElsewhereSame(t, t', cfg.stagingDir, p, p');
        assert Stem(p') != ".." && TameAt(cfg, t, p');
        FindSame(cfg, t, t', p, p');
      } else {
        TameAtSelf(cfg, p, t, t');
      }
    }
  }

  lemma ElsewhereSame(t: Tree, t': Tree, top: Path, p: Path, q: Path)
    requires SameButAt(t, t', top, p) && top <= q && q != p
    ensures SameNode(t, t', q)
  {
  }

  lemma TameAtSelf(cfg: Config, p: Path, t: Tree, t': Tree)
    requires InStaging(cfg, p) && IsManifestPath(p) && Stem(p) != ".." && p in t && TameAt(cfg, t, p) && WellFormed(t) && WellFormed(t')
    requires SameButAt(t, t', cfg.stagingDir, p)
    requires SameNode(t, t', p) ||
             (Find(t, p).Ready? && InPlace(cfg, p, Find(t, p).item) && IsFile(t', p) &&
              (t'[p].content.Raw? || ManifestWritten(cfg, p, Find(t, p).item, t', p)))
    ensures TameAt(cfg, t', p) && (MarkerFirstAt(t, p) ==> MarkerFirstAt(t', p))
  {
    hide SourceOf, WellFormed, IsManifestPath, Render, FinalPath;
    if SameNode(t, t', p) {
      FindSame(cfg, t, t', p, p);
    } else if t'[p].content.Json? {
      var item := Find(t, p).item;
      var final := t'[p].content.item;
      OneRewriteFixesPaths(cfg, p, item, final.committedAt);
      FindAfterRewrite(cfg, t, t', p, item, final);
    }
  }
}
