// What one commit does to the disk, as functions and predicates on trees.
module Commits {
  import opened Text
  import opened CleanPath
  import opened Destinations
  import opened Manifests
  import opened Trees
  import opened Copying

  function ManifestOf(p: Path): Path
  {
    Suffixed(p, MANIFEST_SUFFIX)
  }

  /** successMarkerPath. */
  function MarkerOf(p: Path, isDir: bool): Path
  {
    if isDir then p + ["_SUCCESS"] else Suffixed(p, "._SUCCESS")
  }

  /** The files beside a checkpoint, by the text of their paths. */
  lemma NamesAsText(p: Path, pid: nat)
    requires p != []
    ensures Render(ManifestOf(p)) == Render(p) + ".orbit.json"
    ensures Render(MarkerOf(p, true)) == Render(p) + "/_SUCCESS" && Render(MarkerOf(p, false)) == Render(p) + "._SUCCESS"
    ensures Render(TmpOf(p, pid)) == Render(p) + ".tmp." + Decimal(pid) && ValueOf(Decimal(pid)) == pid
  {
    SuffixText(p, MANIFEST_SUFFIX);
    SuffixText(p, "._SUCCESS");
    SuffixText(p, ".tmp." + Decimal(pid));
    JoinSnoc(p, "_SUCCESS", '/');
    DecimalValue(pid);
  }

  lemma SuffixText(p: Path, suffix: string)
    ensures Render(Suffixed(p, suffix)) == Render(p) + suffix
  {
    if |p| > 1 {
      JoinSnoc(p[..|p| - 1], p[|p| - 1], '/');
      JoinSnoc(p[..|p| - 1], p[|p| - 1] + suffix, '/');
      assert p == p[..|p| - 1] + [p[|p| - 1]];
    }
  }

  lemma MarkerIsNoManifest(p: Path, isDir: bool)
    ensures !IsManifestPath(MarkerOf(p, isDir))
  {
    var marker := MarkerOf(p, isDir);
    var last := marker[|marker| - 1];
    assert last[|last| - 1] == 'S' && MANIFEST_SUFFIX[|MANIFEST_SUFFIX| - 1] == 'n';
  }

  /** What processManifest finds before it starts to do anything. */
  datatype Finding = Unreadable | Skipped | Ready(item: Manifest)

  function Find(t: Tree, manifestPath: Path): Finding
    requires IsManifestPath(manifestPath)
  {
    if !IsFile(t, manifestPath) || t[manifestPath].content.Raw? then Unreadable
    else
      var item := t[manifestPath].content.item;
      var source := SourceOf(manifestPath);
      if !Eligible(item) then Skipped
      else if source !in t then Unreadable
      else if MarkerOf(source, IsDir(t, source)) !in t then Skipped
      else Ready(item)
  }

  /** The source lies apart from everything an attempt by any process touches. */
  ghost predicate Separated(source: Path, dest: Path)
  {
    && Apart(source, dest) && Apart(source, ManifestOf(dest))
    && Apart(source, MarkerOf(dest, false))
    && forall pid: nat :: Apart(source, TmpOf(dest, pid))
  }

  /**
   * No temporary path meets the source. That is so unless the source lies above its own destination,
   * or in a temporary path itself.
   */
  ghost predicate Copyable(source: Path, dest: Path)
  {
    forall pid: nat :: Apart(source, TmpOf(dest, pid))
  }

  lemma SeparatedIsCopyable(source: Path, dest: Path)
    requires Separated(source, dest)
    ensures Copyable(source, dest)
  {
  }

  /** In particular a source below its own destination can be copied: the data takes its place. */
  lemma BelowIsCopyable(source: Path, dest: Path)
    requires dest != [] && dest <= source
    ensures Copyable(source, dest)
  {
    forall pid: nat ensures Apart(source, TmpOf(dest, pid)) {
      TmpApart(dest, pid);
      BesideBelow(TmpOf(dest, pid), dest, source);
    }
  }

  /** Where an attempt writes. */
  function Foot(dest: Path, isDir: bool, pid: nat): set<Path>
  {
    {dest, TmpOf(dest, pid), ManifestOf(dest), MarkerOf(dest, isDir)}
  }

  /** A checkpoint's data with the text of a directory's success marker left out of account. */
  function Data(isDir: bool, s: Tree): Tree
  {
    if isDir && IsFile(s, ["_SUCCESS"]) then s[["_SUCCESS"] := File(Raw(""))] else s
  }

  /** `now` is a complete copy of `full`. */
  predicate CompleteCopy(isDir: bool, full: Tree, now: Tree)
  {
    Data(isDir, now) == Data(isDir, full)
  }

  /**
   * Complete means: the same node at every place below the checkpoint. Only the text of a directory's
   * success marker may be another one.
   */
  lemma CompleteCopyMeans(isDir: bool, full: Tree, now: Tree)
    ensures CompleteCopy(isDir, full, now) <==>
            forall r :: SameNode(full, now, r) || (isDir && r == ["_SUCCESS"] && BothHoldText(full, now, r))
  {
    var a, b, m := Data(isDir, full), Data(isDir, now), ["_SUCCESS"];
    if CompleteCopy(isDir, full, now) {
      forall r ensures SameNode(full, now, r) || (isDir && r == m && BothHoldText(full, now, r)) {
        assert SameNode(b, a, r);
      }
    }
    if forall r :: SameNode(full, now, r) || (isDir && r == m && BothHoldText(full, now, r)) {
      forall r ensures NodeAt(a, r) == NodeAt(b, r) {
        assert SameNode(full, now, m) || (isDir && BothHoldText(full, now, m));
        assert SameNode(full, now, r) || (isDir && r == m && BothHoldText(full, now, r));
      }
      SameEverywhere(a, b);
    }
  }

  predicate BothHoldText(t: Tree, t': Tree, r: Path)
  {
    IsFile(t, r) && IsFile(t', r)
  }

  /** At a destination there is all of the new data, or what was there before. */
  ghost predicate NeverPartial(atomicRemoval: bool, isDir: bool, before: Tree, full: Tree, now: Tree)
  {
    && (CompleteCopy(isDir, full, now) || Part(now, before))
    && (atomicRemoval ==> CompleteCopy(isDir, full, now) || now == before || now == map[])
  }

  /** The node at p is untouched, or a file has been written where no directory was. */
  predicate OnlyRewritten(t: Tree, t': Tree, p: Path)
  {
    SameNode(t, t', p) || (!IsDir(t, p) && IsFile(t', p))
  }

  /** The final manifest of `item` is on disk next to the destination, at whatever time it was made. */
  predicate ManifestWritten(cfg: Config, manifestPath: Path, item: Manifest, t: Tree, at: Path)
    requires IsManifestPath(manifestPath)
  {
    && IsFile(t, at) && t[at].content.Json?
    && t[at].content.item == FinalManifest(cfg, manifestPath, item, t[at].content.item.committedAt)
  }

  /**
   * Every state a copying attempt can leave behind, whether it succeeded, failed or crashed:
   * nothing outside its own footprint changed, the destination is never partial, a changed
   * manifest implies complete data, and for a file a changed marker implies both.
   */
  ghost predicate AttemptLeaves(cfg: Config, atomicRemoval: bool, manifestPath: Path, item: Manifest, pid: nat, t0: Tree, t: Tree)
    requires IsManifestPath(manifestPath)
  {
    var source, dest := SourceOf(manifestPath), DestinationOf(cfg, manifestPath, item);
    var isDir := IsDir(t0, source);
    var full, now := Below(t0, source), Below(t, dest);
    && Framed(t0, t, Foot(dest, isDir, pid), Parent(dest))
    && NeverPartial(atomicRemoval, isDir, Below(t0, dest), full, now)
    && OnlyRewritten(t0, t, ManifestOf(dest)) && (!isDir ==> OnlyRewritten(t0, t, MarkerOf(dest, isDir)))
    && (!SameNode(t0, t, ManifestOf(dest)) ==> CompleteCopy(isDir, full, now))
    && (!isDir && !SameNode(t0, t, MarkerOf(dest, isDir)) ==>
          CompleteCopy(isDir, full, now) && ManifestWritten(cfg, manifestPath, item, t, ManifestOf(dest)))
  }

  /** The checkpoint can be restored from its destination: data, manifest and marker are all there. */
  ghost predicate Durable(cfg: Config, manifestPath: Path, item: Manifest, isDir: bool, full: Tree, t: Tree)
    requires IsManifestPath(manifestPath)
  {
    var dest := DestinationOf(cfg, manifestPath, item);
    && CompleteCopy(isDir, full, Below(t, dest))
    && ManifestWritten(cfg, manifestPath, item, t, ManifestOf(dest))
    && IsFile(t, MarkerOf(dest, isDir))
  }

  /**
   * What someone who reads only the destination may conclude from a marker that was not there
   * before, at whatever point an attempt stopped: a directory's marker arrives with its data, a
   * file's marker comes last.
   */
  lemma MarkerTells(cfg: Config, atomicRemoval: bool, manifestPath: Path, item: Manifest, pid: nat, t0: Tree, t: Tree)
    requires IsManifestPath(manifestPath) && AttemptLeaves(cfg, atomicRemoval, manifestPath, item, pid, t0, t)
    requires var marker := MarkerOf(DestinationOf(cfg, manifestPath, item), IsDir(t0, SourceOf(manifestPath)));
             marker in t && marker !in t0
    ensures var source, dest := SourceOf(manifestPath), DestinationOf(cfg, manifestPath, item);
            && CompleteCopy(IsDir(t0, source), Below(t0, source), Below(t, dest))
            && (!IsDir(t0, source) ==> Durable(cfg, manifestPath, item, false, Below(t0, source), t))
  {
    hide DestinationOf, SourceOf, CompleteCopy, FinalManifest, Suffixed, Framed;
    var dest := DestinationOf(cfg, manifestPath, item);
    if IsDir(t0, SourceOf(manifestPath)) {
      assert ["_SUCCESS"] in Below(t, dest) && ["_SUCCESS"] !in Below(t0, dest);
    }
  }

  /**
   * A file's old marker says nothing: removing the old data, as an attempt does before its rename,
   * leaves the marker alone at an empty destination.
   */
  lemma StaleMarker(cfg: Config, atomicRemoval: bool, manifestPath: Path, item: Manifest, pid: nat, t0: Tree)
    requires IsManifestPath(manifestPath) && SourceOf(manifestPath) in t0 && !IsDir(t0, SourceOf(manifestPath))
    requires var dest := DestinationOf(cfg, manifestPath, item); dest != [] && MarkerOf(dest, false) in t0
    ensures var dest := DestinationOf(cfg, manifestPath, item); var t := Without(t0, dest);
            && AttemptLeaves(cfg, atomicRemoval, manifestPath, item, pid, t0, t) && MarkerOf(dest, false) in t
            && Below(t, dest) == map[] && !CompleteCopy(false, Below(t0, SourceOf(manifestPath)), Below(t, dest))
  {
    hide DestinationOf, SourceOf, FinalManifest, Suffixed, ManifestWritten;
    var source, dest := SourceOf(manifestPath), DestinationOf(cfg, manifestPath, item);
    SuffixedApart(dest, MANIFEST_SUFFIX, "");
    SuffixedApart(dest, "._SUCCESS", "");
    assert [] in Below(t0, source) by { assert source + [] == source; }
    assert dest in Foot(dest, false, pid);
  }

  /** An attempt that stops before it does anything. */
  lemma AttemptLeavesNothing(cfg: Config, atomicRemoval: bool, manifestPath: Path, item: Manifest, pid: nat, t0: Tree)
    requires IsManifestPath(manifestPath)
    ensures AttemptLeaves(cfg, atomicRemoval, manifestPath, item, pid, t0, t0)
  {
    hide DestinationOf, SourceOf, FinalManifest, Below, CompleteCopy;
    FramedRefl(t0, Foot(DestinationOf(cfg, manifestPath, item), IsDir(t0, SourceOf(manifestPath)), pid),
               Parent(DestinationOf(cfg, manifestPath, item)));
    PartRefl(Below(t0, DestinationOf(cfg, manifestPath, item)));
  }

  /** Whatever an attempt can leave, a marker on it means that the data is complete. */
  ghost predicate MarkerIsProof(cfg: Config, atomicRemoval: bool, manifestPath: Path, item: Manifest, pid: nat, t0: Tree)
    requires IsManifestPath(manifestPath)
  {
    var source, dest := SourceOf(manifestPath), DestinationOf(cfg, manifestPath, item);
    var isDir := IsDir(t0, source);
    forall t | AttemptLeaves(cfg, atomicRemoval, manifestPath, item, pid, t0, t) && MarkerOf(dest, isDir) in t ::
      CompleteCopy(isDir, Below(t0, source), Below(t, dest))
  }

  /**
   * The marker proves the data exactly where there was none before. For a directory there is one
   * more case: the data it lies in was already the same, and is removed in one step.
   */
  lemma MarkerTellsExactly(cfg: Config, atomicRemoval: bool, manifestPath: Path, item: Manifest, pid: nat, t0: Tree)
    requires IsManifestPath(manifestPath) && SourceOf(manifestPath) in t0 && DestinationOf(cfg, manifestPath, item) != []
    ensures var source, dest := SourceOf(manifestPath), DestinationOf(cfg, manifestPath, item);
            && (!IsDir(t0, source) ==>
                  (MarkerIsProof(cfg, atomicRemoval, manifestPath, item, pid, t0) <==> MarkerOf(dest, false) !in t0))
            && (IsDir(t0, source) && atomicRemoval ==>
                  (MarkerIsProof(cfg, atomicRemoval, manifestPath, item, pid, t0) <==>
                   MarkerOf(dest, true) !in t0 || CompleteCopy(true, Below(t0, source), Below(t0, dest))))
  {
    hide DestinationOf, SourceOf, FinalManifest, CompleteCopy, Framed, MarkerOf, AttemptLeaves, Below, Without;
    var source, dest := SourceOf(manifestPath), DestinationOf(cfg, manifestPath, item);
    var isDir := IsDir(t0, source);
    forall t | AttemptLeaves(cfg, atomicRemoval, manifestPath, item, pid, t0, t) && MarkerOf(dest, isDir) in t && MarkerOf(dest, isDir) !in t0
      ensures CompleteCopy(isDir, Below(t0, source), Below(t, dest))
    {
      MarkerTells(cfg, atomicRemoval, manifestPath, item, pid, t0, t);
    }
    if MarkerOf(dest, isDir) in t0 {
      if isDir {
        AttemptLeavesNothing(cfg, atomicRemoval, manifestPath, item, pid, t0);
        forall t | atomicRemoval && CompleteCopy(true, Below(t0, source), Below(t0, dest)) &&
                   AttemptLeaves(cfg, atomicRemoval, manifestPath, item, pid, t0, t) && MarkerOf(dest, true) in t
          ensures CompleteCopy(true, Below(t0, source), Below(t, dest))
        {
          SameOrComplete(cfg, manifestPath, item, pid, t0, t);
        }
      } else {
        StaleMarker(cfg, atomicRemoval, manifestPath, item, pid, t0);
        var t := Without(t0, dest);
        assert AttemptLeaves(cfg, atomicRemoval, manifestPath, item, pid, t0, t);
      }
    }
  }

  lemma SameOrComplete(cfg: Config, manifestPath: Path, item: Manifest, pid: nat, t0: Tree, t: Tree)
    requires IsManifestPath(manifestPath) && AttemptLeaves(cfg, true, manifestPath, item, pid, t0, t) && IsDir(t0, SourceOf(manifestPath))
    requires MarkerOf(DestinationOf(cfg, manifestPath, item), true) in t
    requires CompleteCopy(true, Below(t0, SourceOf(manifestPath)), Below(t0, DestinationOf(cfg, manifestPath, item)))
    ensures CompleteCopy(true, Below(t0, SourceOf(manifestPath)), Below(t, DestinationOf(cfg, manifestPath, item)))
  {
    hide DestinationOf, SourceOf, FinalManifest, CompleteCopy, Framed;
    assert ["_SUCCESS"] in Below(t, DestinationOf(cfg, manifestPath, item));
  }

  /** However an attempt ends, the checkpoint it copies from is as it was. */
  lemma SourceUntouched(cfg: Config, atomicRemoval: bool, manifestPath: Path, item: Manifest, pid: nat, t0: Tree, t: Tree)
    requires IsManifestPath(manifestPath) && AttemptLeaves(cfg, atomicRemoval, manifestPath, item, pid, t0, t)
    requires var dest := DestinationOf(cfg, manifestPath, item); dest != [] && Separated(SourceOf(manifestPath), dest)
    ensures Below(t, SourceOf(manifestPath)) == Below(t0, SourceOf(manifestPath))
  {
    hide DestinationOf, SourceOf, Below, Framed, Separated, Foot, Parent, NeverPartial, OnlyRewritten, CompleteCopy, ManifestWritten;
    var source, dest := SourceOf(manifestPath), DestinationOf(cfg, manifestPath, item);
    var foot := Foot(dest, IsDir(t0, source), pid);
    FootApart(source, dest, IsDir(t0, source), pid);
    ApartStays(t0, t, source, foot, Parent(dest));
  }

  lemma FootApart(source: Path, dest: Path, isDir: bool, pid: nat)
    requires dest != [] && Separated(source, dest)
    ensures forall f | f in Foot(dest, isDir, pid) :: Apart(source, f)
    ensures !(source <= Parent(dest))
  {
    hide TmpOf, ManifestOf, Apart;
    BesideBelow(source, dest, dest + ["_SUCCESS"]);
    NotAbove(source, dest);
  }

  lemma NotAbove(p: Path, q: Path)
    requires Apart(p, q)
    ensures !(p <= Parent(q))
  {
    if p <= Parent(q) { PrefixTrans(p, Parent(q), q); }
  }

  lemma BesideBelow(p: Path, q: Path, f: Path)
    requires Apart(p, q) && q <= f
    ensures Apart(p, f)
  {
    if p <= f { PrefixesMeet(p, q, f); }
    if f <= p { PrefixTrans(q, f, p); }
  }

  /** A fault-free attempt goes through exactly when nothing of the wrong kind is in its way. */
  predicate CanCommit(t: Tree, source: Path, dest: Path)
  {
    && CanMkdir(t, Parent(dest)) && !IsDir(t, ManifestOf(dest))
    && (if IsDir(t, source) then !IsDir(t, MarkerOf(source, true)) else !IsDir(t, MarkerOf(dest, false)))
  }

  // ----- A commit that succeeds, as one function of the disk

  datatype Commit = Commit(source: Path, dest: Path, tmp: Path, isDir: bool, final: Manifest, stamp: string)

  function Apply(t: Tree, c: Commit): Tree
  {
    Moved(t, c.source, c.dest, c.tmp)
      [ManifestOf(c.dest) := File(Json(c.final))]
      [MarkerOf(c.dest, c.isDir) := File(Raw(c.stamp))]
  }

  function FootOf(c: Commit): set<Path>
  {
    {c.dest, c.tmp, ManifestOf(c.dest), MarkerOf(c.dest, c.isDir)}
  }

  ghost predicate Sound(c: Commit)
  {
    c.dest != [] && exists pid: nat :: c.tmp == TmpOf(c.dest, pid)
  }

  /** The node at q after a commit, told apart by where q lies. */
  function Outcome(t: Tree, c: Commit, q: Path): Option<Node>
  {
    if q == MarkerOf(c.dest, c.isDir) then Some(File(Raw(c.stamp)))
    else if q == ManifestOf(c.dest) then Some(File(Json(c.final)))
    else if c.dest <= q then
      (if c.source + q[|c.dest|..] in t then Some(t[c.source + q[|c.dest|..]]) else None)
    else if c.tmp <= q then None
    else if q in t then Some(t[q])
    else if q <= Parent(c.dest) then Some(Dir)
    else None
  }

  function NodeAt(t: Tree, q: Path): Option<Node>
  {
    if q in t then Some(t[q]) else None
  }

  lemma TmpNotAbove(c: Commit)
    requires Sound(c)
    ensures !(c.tmp <= Parent(c.dest))
  {
    var pid: nat :| c.tmp == TmpOf(c.dest, pid);
    TmpApart(c.dest, pid);
  }

  lemma ApplyOutcome(t: Tree, c: Commit, q: Path)
    requires Sound(c)
    ensures NodeAt(Apply(t, c), q) == Outcome(t, c, q)
  {
    hide Graft, Mkdirs, Below;
    if c.tmp <= q && q <= Parent(c.dest) {
      PrefixTrans(c.tmp, q, Parent(c.dest));
      TmpNotAbove(c);
    }
  }

  // ----- Two commits that do not meet can be done in either order

  ghost predicate Independent(a: Commit, b: Commit)
  {
    && (forall f, g | f in FootOf(a) && g in FootOf(b) :: Apart(f, g))
    && (forall f | f in FootOf(b) :: Apart(a.source, f))
    && (forall f | f in FootOf(a) :: Apart(b.source, f))
  }

  lemma OutsideFoot(c: Commit, q: Path)
    requires !Covered(FootOf(c), q)
    ensures !(c.dest <= q) && !(c.tmp <= q) && q != ManifestOf(c.dest) && q != MarkerOf(c.dest, c.isDir)
  {
    assert c.dest in FootOf(c) && c.tmp in FootOf(c);
    assert ManifestOf(c.dest) in FootOf(c) && MarkerOf(c.dest, c.isDir) in FootOf(c);
  }

  lemma ApplyFramed(t: Tree, c: Commit)
    requires Sound(c)
    ensures Framed(t, Apply(t, c), FootOf(c), Parent(c.dest))
  {
    hide Apply, Sound, FootOf, Covered;
    forall q | !Covered(FootOf(c), q)
      ensures NodeAt(Apply(t, c), q) == (if q in t then Some(t[q]) else if q <= Parent(c.dest) then Some(Dir) else None)
    {
      OutsideFoot(c, q);
      ApplyOutcome(t, c, q);
    }
  }

  lemma OtherSourceStays(t: Tree, a: Commit, b: Commit)
    requires Sound(a) && Sound(b) && Independent(a, b)
    ensures Below(Apply(t, a), b.source) == Below(t, b.source)
  {
    hide Apply, Below, Framed, Sound;
    ApplyFramed(t, a);
    assert a.dest in FootOf(a);
    if b.source <= Parent(a.dest) { PrefixTrans(b.source, Parent(a.dest), a.dest); }
    ApartStays(t, Apply(t, a), b.source, FootOf(a), Parent(a.dest));
  }

  /** Where a commit does not write, and what it leaves there. */
  lemma OutcomeOutside(t: Tree, c: Commit, q: Path)
    requires Sound(c) && !Covered(FootOf(c), q)
    ensures NodeAt(Apply(t, c), q) == if q in t then Some(t[q]) else if q <= Parent(c.dest) then Some(Dir) else None
  {
    hide Apply, FootOf, Covered;
    OutsideFoot(c, q);
    ApplyOutcome(t, c, q);
  }

  /** Where a commit writes, the outcome depends on its source only, and on what was there already. */
  lemma OutcomeInside(t: Tree, t': Tree, c: Commit, q: Path)
    requires Sound(c) && SameNode(t, t', q) && !(q <= Parent(c.dest))
    requires Below(t, c.source) == Below(t', c.source)
    ensures NodeAt(Apply(t, c), q) == NodeAt(Apply(t', c), q)
  {
    hide Apply, Sound, Below;
    ApplyOutcome(t, c, q);
    ApplyOutcome(t', c, q);
    if c.dest <= q {
      NodeBelow(t, c.source, q[|c.dest|..]);
      NodeBelow(t', c.source, q[|c.dest|..]);
    }
  }

  lemma NodeBelow(t: Tree, p: Path, r: Path)
    ensures NodeAt(Below(t, p), r) == NodeAt(t, p + r)
  {
  }

  lemma NotBoth(a: Commit, b: Commit, q: Path)
    requires Independent(a, b) && Covered(FootOf(a), q)
    ensures !Covered(FootOf(b), q) && !(q <= Parent(b.dest))
  {
    hide FootOf;
    var f :| f in FootOf(a) && f <= q;
    if Covered(FootOf(b), q) {
      var g :| g in FootOf(b) && g <= q;
      PrefixesMeet(f, g, q);
    }
    DestInFoot(b);
    if q <= Parent(b.dest) {
      PrefixTrans(f, q, Parent(b.dest));
      PrefixTrans(f, Parent(b.dest), b.dest);
    }
  }

  lemma NotOwnParent(c: Commit, q: Path)
    requires Sound(c) && Covered(FootOf(c), q)
    ensures !(q <= Parent(c.dest))
  {
    TmpNotAbove(c);
    SuffixedApart(c.dest, MANIFEST_SUFFIX, "");
    SuffixedApart(c.dest, "._SUCCESS", "");
    var f :| f in FootOf(c) && f <= q;
    if q <= Parent(c.dest) { PrefixTrans(f, q, Parent(c.dest)); }
  }

  lemma DestInFoot(c: Commit)
    ensures c.dest in FootOf(c)
  {
  }

  /** The node at q after both commits does not depend on which came first. */
  lemma CommuteAt(t: Tree, a: Commit, b: Commit, q: Path)
    requires Sound(a) && Sound(b) && Independent(a, b)
    ensures NodeAt(Apply(Apply(t, a), b), q) == NodeAt(Apply(Apply(t, b), a), q)
  {
    hide Apply, Below, Sound, FootOf, Covered, Independent;
    IndependentSwap(a, b);
    if Covered(FootOf(a), q) {
      CommuteInside(t, a, b, q);
    } else if Covered(FootOf(b), q) {
      CommuteInside(t, b, a, q);
    } else {
      OutcomeOutside(t, a, q);
      OutcomeOutside(t, b, q);
      OutcomeOutside(Apply(t, a), b, q);
      OutcomeOutside(Apply(t, b), a, q);
    }
  }

  lemma IndependentSwap(a: Commit, b: Commit)
    requires Independent(a, b)
    ensures Independent(b, a)
  {
    forall f, g | f in FootOf(b) && g in FootOf(a) ensures Apart(f, g) {
      assert Apart(g, f);
    }
  }

  lemma CommuteInside(t: Tree, a: Commit, b: Commit, q: Path)
    requires Sound(a) && Sound(b) && Independent(a, b) && Covered(FootOf(a), q)
    ensures NodeAt(Apply(Apply(t, a), b), q) == NodeAt(Apply(Apply(t, b), a), q)
  {
    hide Apply, Below, Sound, FootOf, Covered, Independent;
    IndependentSwap(a, b);
    NotBoth(a, b, q);
    NotOwnParent(a, q);
    OutcomeOutside(Apply(t, a), b, q);
    OutcomeOutside(t, b, q);
    OtherSourceStays(t, b, a);
    OutcomeInside(t, Apply(t, b), a, q);
  }

  /** Two commits that do not meet give the same disk in either order. */
  lemma Commute(t: Tree, a: Commit, b: Commit)
    requires Sound(a) && Sound(b) && Independent(a, b)
    ensures Apply(Apply(t, a), b) == Apply(Apply(t, b), a)
  {
    hide Apply, Sound, Independent;
    forall q ensures NodeAt(Apply(Apply(t, a), b), q) == NodeAt(Apply(Apply(t, b), a), q) {
      CommuteAt(t, a, b, q);
    }
    SameEverywhere(Apply(Apply(t, a), b), Apply(Apply(t, b), a));
  }

  lemma SameEverywhere(t: Tree, t': Tree)
    requires forall q :: NodeAt(t, q) == NodeAt(t', q)
    ensures t == t'
  {
    forall q ensures (q in t <==> q in t') && (q in t ==> t[q] == t'[q]) {
      assert NodeAt(t, q) == NodeAt(t', q);
    }
  }

  function ApplyAll(t: Tree, cs: seq<Commit>): Tree
    decreases |cs|
  {
    if cs == [] then t else ApplyAll(Apply(t, cs[0]), cs[1..])
  }

  ghost predicate AllIndependent(cs: seq<Commit>)
  {
    && (forall c | c in cs :: Sound(c))
    && forall i, j | 0 <= i < j < |cs| :: Independent(cs[i], cs[j])
  }

  /** A commit that meets none of the others can be done first. */
  lemma {:induction false} DoFirst(t: Tree, cs: seq<Commit>, k: nat)
    requires k < |cs| && AllIndependent(cs)
    ensures ApplyAll(t, cs) == ApplyAll(t, [cs[k]] + cs[..k] + cs[k + 1..])
    decreases k
  {
    hide Apply, Sound, Independent, AllIndependent;
    if k == 0 {
      assert [cs[0]] + cs[..0] + cs[1..] == cs;
    } else {
      var a, b, rest := cs[0], cs[k], cs[1..];
      RestIndependent(cs);
      DoFirst(Apply(t, a), rest, k - 1);
      var others := rest[..k - 1] + rest[k..];
      assert [rest[k - 1]] + rest[..k - 1] + rest[k..] == [b] + others;
      assert [b] + cs[..k] + cs[k + 1..] == [b, a] + others;
      Pair(cs, 0, k);
      Commute(t, a, b);
      TwoThenAll(t, b, a, others);
      OneThenAll(Apply(t, a), b, others);
    }
  }

  lemma Pair(cs: seq<Commit>, i: nat, j: nat)
    requires i < j < |cs| && AllIndependent(cs)
    ensures Sound(cs[i]) && Sound(cs[j]) && Independent(cs[i], cs[j])
  {
    hide Sound, Independent;
  }

  lemma OneThenAll(t: Tree, a: Commit, others: seq<Commit>)
    ensures ApplyAll(t, [a] + others) == ApplyAll(Apply(t, a), others)
  {
    hide Apply;
    assert ([a] + others)[1..] == others;
  }

  lemma TwoThenAll(t: Tree, a: Commit, b: Commit, others: seq<Commit>)
    ensures ApplyAll(t, [a, b] + others) == ApplyAll(Apply(Apply(t, a), b), others)
  {
    hide Apply;
    assert ([a, b] + others)[1..] == [b] + others;
    OneThenAll(Apply(t, a), b, others);
  }

  lemma RestIndependent(cs: seq<Commit>)
    requires cs != [] && AllIndependent(cs)
    ensures AllIndependent(cs[1..])
  {
    hide Sound, Independent;
    var rest := cs[1..];
    forall i, j | 0 <= i < j < |rest| ensures Independent(rest[i], rest[j]) {
      assert rest[i] == cs[i + 1] && rest[j] == cs[j + 1];
    }
  }

  /** A pass over pairwise independent checkpoints has the same outcome in whatever order it visits them. */
  lemma {:induction false} OrderDoesNotMatter(t: Tree, cs: seq<Commit>, cs': seq<Commit>)
    requires AllIndependent(cs) && multiset(cs) == multiset(cs')
    ensures ApplyAll(t, cs) == ApplyAll(t, cs')
    decreases |cs|
  {
    hide Apply, Sound, Independent;
    if cs' == [] {
      assert |multiset(cs)| == |cs|;
    } else {
      assert cs'[0] in multiset(cs);
      var k :| 0 <= k < |cs| && cs[k] == cs'[0];
      var others := cs[..k] + cs[k + 1..];
      DoFirst(t, cs, k);
      StillIndependent(cs, k);
      SameRest(cs, cs', k);
      OrderDoesNotMatter(Apply(t, cs'[0]), others, cs'[1..]);
      assert [cs[k]] + cs[..k] + cs[k + 1..] == [cs[k]] + others;
      OneThenAll(t, cs[k], others);
    }
  }

  lemma SameRest<T>(cs: seq<T>, cs': seq<T>, k: nat)
    requires multiset(cs) == multiset(cs') && k < |cs| && cs' != [] && cs[k] == cs'[0]
    ensures multiset(cs[..k] + cs[k + 1..]) == multiset(cs'[1..])
    ensures |cs[..k] + cs[k + 1..]| < |cs|
  {
    assert cs == cs[..k] + [cs[k]] + cs[k + 1..];
    assert cs' == [cs'[0]] + cs'[1..];
    assert multiset(cs) == multiset(cs[..k] + cs[k + 1..]) + multiset{cs[k]};
    assert multiset(cs[..k] + cs[k + 1..]) == multiset(cs) - multiset{cs[k]};
    assert multiset(cs'[1..]) == multiset(cs') - multiset{cs'[0]};
  }

  lemma StillIndependent(cs: seq<Commit>, k: nat)
    requires k < |cs| && AllIndependent(cs)
    ensures AllIndependent(cs[..k] + cs[k + 1..])
  {
    hide Sound, Independent;
    var others := cs[..k] + cs[k + 1..];
    forall i, j | 0 <= i < j < |others| ensures Independent(others[i], others[j]) {
      var i', j' := if i < k then i else i + 1, if j < k then j else j + 1;
      assert others[i] == cs[i'] && others[j] == cs[j'];
    }
  }
}
