// Runs of attempts at one checkpoint: crashes, failures and restarts, then success.
module Runs {
  import opened Text
  import opened CleanPath
  import opened Manifests
  import opened Trees
  import opened Disks
  import opened Copying
  import opened Commits
  import opened Agents

  /** Nothing the agent writes for this destination lies at, above or below p. */
  ghost predicate OutOfReach(p: Path, dest: Path)
  {
    && Apart(p, dest) && Apart(p, ManifestOf(dest)) && Apart(p, MarkerOf(dest, false))
    && forall pid: nat :: Apart(p, TmpOf(dest, pid))
  }

  /** A copying checkpoint whose source, manifest and marker are all out of the agent's reach. */
  ghost predicate Remote(cfg: Config, manifestPath: Path, item: Manifest)
    requires IsManifestPath(manifestPath)
  {
    var source, dest := SourceOf(manifestPath), DestinationOf(cfg, manifestPath, item);
    dest != [] && OutOfReach(source, dest) && OutOfReach(manifestPath, dest) && OutOfReach(MarkerOf(source, false), dest)
  }

  function Tmps(dest: Path, pids: set<nat>): set<Path>
  {
    set pid | pid in pids :: TmpOf(dest, pid)
  }

  /** Where attempts by these processes write. */
  function Reach(dest: Path, isDir: bool, pids: set<nat>): set<Path>
  {
    {dest, ManifestOf(dest), MarkerOf(dest, isDir)} + Tmps(dest, pids)
  }

  /**
   * What any sequence of attempts by the processes `pids` can have made of disk t0: the source is
   * untouched, nothing else changed but in the attempts' reach, and with removal in one step the
   * destination holds what it held at first, nothing, or a complete copy.
   */
  ghost predicate Wreck(cfg: Config, atomicRemoval: bool, manifestPath: Path, item: Manifest, pids: set<nat>, t0: Tree, t: Tree)
    requires IsManifestPath(manifestPath)
  {
    var source, dest := SourceOf(manifestPath), DestinationOf(cfg, manifestPath, item);
    var isDir := IsDir(t0, source);
    && Framed(t0, t, Reach(dest, isDir, pids), Parent(dest))
    && Find(t, manifestPath) == Ready(item) && Below(t, source) == Below(t0, source)
    && (atomicRemoval ==>
          CompleteCopy(isDir, Below(t0, source), Below(t, dest)) || Below(t, dest) == Below(t0, dest) || Below(t, dest) == map[])
    && OnlyRewritten(t0, t, ManifestOf(dest)) && (!isDir ==> OnlyRewritten(t0, t, MarkerOf(dest, isDir)))
  }

  lemma ReachApart(p: Path, dest: Path, isDir: bool, pids: set<nat>)
    requires OutOfReach(p, dest)
    ensures forall f | f in Reach(dest, isDir, pids) :: Apart(p, f)
  {
    forall f | f in Reach(dest, isDir, pids) ensures Apart(p, f) {
    }
  }

  lemma FootInReach(dest: Path, isDir: bool, pids: set<nat>, pid: nat)
    ensures Foot(dest, isDir, pid) + Reach(dest, isDir, pids) == Reach(dest, isDir, pids + {pid})
  {
    assert Tmps(dest, pids + {pid}) == Tmps(dest, pids) + {TmpOf(dest, pid)};
  }

  /** A location out of reach keeps its node. */
  lemma FarNodeStays(t0: Tree, t: Tree, p: Path, dest: Path, isDir: bool, pids: set<nat>)
    requires dest != [] && OutOfReach(p, dest) && Framed(t0, t, Reach(dest, isDir, pids), Parent(dest))
    ensures Below(t, p) == Below(t0, p) && SameNode(t0, t, p)
  {
    ReachApart(p, dest, isDir, pids);
    if p <= Parent(dest) { PrefixTrans(p, Parent(dest), dest); }
    ApartStays(t0, t, p, Reach(dest, isDir, pids), Parent(dest));
    BelowNodes(t, p, t0, p, []);
    assert p + [] == p;
  }

  /** What is found at the manifest depends only on the manifest, the source and its marker. */
  lemma FindStays(cfg: Config, manifestPath: Path, item: Manifest, t0: Tree, t: Tree, isDir: bool, pids: set<nat>)
    requires IsManifestPath(manifestPath) && Remote(cfg, manifestPath, item) && Find(t0, manifestPath) == Ready(item)
    requires var dest := DestinationOf(cfg, manifestPath, item);
             Framed(t0, t, Reach(dest, isDir, pids), Parent(dest))
    ensures Find(t, manifestPath) == Ready(item)
    ensures Below(t, SourceOf(manifestPath)) == Below(t0, SourceOf(manifestPath))
    ensures SameNode(t0, t, SourceOf(manifestPath))
  {
    hide DestinationOf, SourceOf, Framed, Below, Reach, OutOfReach;
    var source, dest := SourceOf(manifestPath), DestinationOf(cfg, manifestPath, item);
    FarNodeStays(t0, t, manifestPath, dest, isDir, pids);
    FarNodeStays(t0, t, source, dest, isDir, pids);
    FarNodeStays(t0, t, MarkerOf(source, false), dest, isDir, pids);
    BelowNodes(t, source, t0, source, ["_SUCCESS"]);
  }

  lemma WreckAtFirst(cfg: Config, atomicRemoval: bool, manifestPath: Path, item: Manifest, t0: Tree)
    requires IsManifestPath(manifestPath) && Find(t0, manifestPath) == Ready(item)
    ensures Wreck(cfg, atomicRemoval, manifestPath, item, {}, t0, t0)
  {
    var source, dest := SourceOf(manifestPath), DestinationOf(cfg, manifestPath, item);
    FramedRefl(t0, Reach(dest, IsDir(t0, source), {}), Parent(dest));
  }

  /** One more attempt, however it ends, leaves the same kind of disk. */
  lemma WreckGoesOn(cfg: Config, atomicRemoval: bool, manifestPath: Path, item: Manifest, pids: set<nat>, pid: nat, t0: Tree, t: Tree, t': Tree)
    requires IsManifestPath(manifestPath) && Remote(cfg, manifestPath, item) && Find(t0, manifestPath) == Ready(item)
    requires Wreck(cfg, atomicRemoval, manifestPath, item, pids, t0, t)
    requires AttemptLeaves(cfg, atomicRemoval, manifestPath, item, pid, t, t')
    ensures Wreck(cfg, atomicRemoval, manifestPath, item, pids + {pid}, t0, t')
  {
    hide DestinationOf, SourceOf, Framed, Below, Reach, Find, Foot, ManifestOf, FinalManifest;
    var source, dest := SourceOf(manifestPath), DestinationOf(cfg, manifestPath, item);
    var isDir := IsDir(t0, source);
    FindStays(cfg, manifestPath, item, t0, t, isDir, pids);
    FramedTrans(t0, t, t', Reach(dest, isDir, pids), Foot(dest, isDir, pid), Parent(dest));
    FootInReach(dest, isDir, pids, pid);
    assert Reach(dest, isDir, pids) + Foot(dest, isDir, pid) == Foot(dest, isDir, pid) + Reach(dest, isDir, pids);
    FindStays(cfg, manifestPath, item, t0, t', isDir, pids + {pid});
  }

  // ----- Convergence

  /** A fault-free attempt can go through after any wreck exactly when it could at first. */
  lemma CanCommitStays(cfg: Config, atomicRemoval: bool, manifestPath: Path, item: Manifest, pids: set<nat>, t0: Tree, t: Tree)
    requires IsManifestPath(manifestPath) && Remote(cfg, manifestPath, item) && Find(t0, manifestPath) == Ready(item)
    requires Wreck(cfg, atomicRemoval, manifestPath, item, pids, t0, t)
    ensures var source, dest := SourceOf(manifestPath), DestinationOf(cfg, manifestPath, item);
            CanCommit(t, source, dest) <==> CanCommit(t0, source, dest)
  {
    hide DestinationOf, SourceOf, Below, Reach, Find, ManifestOf, FinalManifest, Framed;
    var source, dest := SourceOf(manifestPath), DestinationOf(cfg, manifestPath, item);
    var isDir := IsDir(t0, source);
    FindStays(cfg, manifestPath, item, t0, t, isDir, pids);
    BelowNodes(t, source, t0, source, ["_SUCCESS"]);
    AncestorsStay(t0, t, dest, isDir, pids);
  }

  lemma AncestorsStay(t0: Tree, t: Tree, dest: Path, isDir: bool, pids: set<nat>)
    requires dest != [] && Framed(t0, t, Reach(dest, isDir, pids), Parent(dest))
    ensures CanMkdir(t, Parent(dest)) <==> CanMkdir(t0, Parent(dest))
  {
    forall k | k in Prefixes(Parent(dest)) ensures !Covered(Reach(dest, isDir, pids), k) {
      AboveReach(k, dest, isDir, pids);
    }
  }

  lemma AboveReach(k: Path, dest: Path, isDir: bool, pids: set<nat>)
    requires dest != [] && k <= Parent(dest)
    ensures !Covered(Reach(dest, isDir, pids), k)
  {
    forall f | f in Reach(dest, isDir, pids) ensures !(f <= k) {
      Siblings(dest, 0);
      if f in Tmps(dest, pids) {
        var pid :| pid in pids && f == TmpOf(dest, pid);
        Siblings(dest, pid);
      }
    }
  }

  /**
   * Whatever earlier attempts left, a successful one gives the same disk as the same attempt on
   * the untouched disk would have, but for orphaned temporary paths.
   */
  lemma Converges(cfg: Config, atomicRemoval: bool, manifestPath: Path, item: Manifest, pids: set<nat>, t0: Tree, t: Tree, c: Commit)
    requires IsManifestPath(manifestPath) && Remote(cfg, manifestPath, item) && Find(t0, manifestPath) == Ready(item)
    requires WellFormed(t0) && WellFormed(t) && Wreck(cfg, atomicRemoval, manifestPath, item, pids, t0, t)
    requires Sound(c) && c.source == SourceOf(manifestPath) && c.dest == DestinationOf(cfg, manifestPath, item)
    requires c.isDir == IsDir(t0, c.source) && CanCommit(t0, c.source, c.dest)
    ensures forall q | !Covered(Tmps(c.dest, pids), q) :: NodeAt(Apply(t, c), q) == NodeAt(Apply(t0, c), q)
  {
    hide DestinationOf, SourceOf, Framed, Below, Find, FinalManifest, Apply, Sound, CanMkdir, WellFormed, Remote;
    CanCommitStays(cfg, atomicRemoval, manifestPath, item, pids, t0, t);
    forall q | !Covered(Tmps(c.dest, pids), q) ensures NodeAt(Apply(t, c), q) == NodeAt(Apply(t0, c), q) {
      ConvergesAt(t0, t, c, pids, q);
    }
  }

  lemma ConvergesAt(t0: Tree, t: Tree, c: Commit, pids: set<nat>, q: Path)
    requires WellFormed(t0) && WellFormed(t) && Sound(c)
    requires Framed(t0, t, Reach(c.dest, c.isDir, pids), Parent(c.dest)) && Below(t, c.source) == Below(t0, c.source)
    requires c.isDir == IsDir(t0, c.source)
    requires !IsDir(t0, ManifestOf(c.dest)) && !IsDir(t, ManifestOf(c.dest))
    requires !c.isDir ==> !IsDir(t0, MarkerOf(c.dest, false)) && !IsDir(t, MarkerOf(c.dest, false))
    requires !Covered(Tmps(c.dest, pids), q)
    ensures NodeAt(Apply(t, c), q) == NodeAt(Apply(t0, c), q)
  {
    hide Framed, Below, Apply, Sound, WellFormed, ManifestOf, TmpOf;
    ApplyOutcome(t, c, q);
    ApplyOutcome(t0, c, q);
    var man, marker := ManifestOf(c.dest), MarkerOf(c.dest, c.isDir);
    if c.dest <= q {
      NodeBelow(t, c.source, q[|c.dest|..]);
      NodeBelow(t0, c.source, q[|c.dest|..]);
    } else if q != man && q != marker {
      if man <= q {
        NothingBelow(t0, man, q);
        NothingBelow(t, man, q);
      } else if marker <= q {
        MarkerNotAbove(c.dest, c.isDir, q);
        NothingBelow(t0, marker, q);
        NothingBelow(t, marker, q);
      } else {
        OutOfAll(c, pids, q);
        FramedAt(t0, t, Reach(c.dest, c.isDir, pids), Parent(c.dest), q);
      }
    }
  }

  lemma MarkerNotAbove(dest: Path, isDir: bool, q: Path)
    requires MarkerOf(dest, isDir) <= q && !(dest <= q)
    ensures !isDir
  {
    if isDir { PrefixTrans(dest, dest + ["_SUCCESS"], q); }
  }

  lemma OutOfAll(c: Commit, pids: set<nat>, q: Path)
    requires !Covered(Tmps(c.dest, pids), q) && !(c.dest <= q) && !(ManifestOf(c.dest) <= q) && !(MarkerOf(c.dest, c.isDir) <= q)
    ensures !Covered(Reach(c.dest, c.isDir, pids), q)
  {
  }

  lemma FramedAt(t: Tree, t': Tree, foot: set<Path>, made: Path, q: Path)
    requires Framed(t, t', foot, made) && !Covered(foot, q)
    ensures q in t ==> q in t' && t'[q] == t[q]
    ensures q in t' && q !in t ==> q <= made && t'[q].Dir?
  {
  }

  // ----- The run itself

  function Concat(parts: seq<seq<Post>>): seq<Post>
  {
    if parts == [] then [] else Concat(parts[..|parts| - 1]) + parts[|parts| - 1]
  }

  /** A successful attempt after a wreck, compared with the same attempt on the first disk. */
  ghost predicate Converged(cfg: Config, manifestPath: Path, item: Manifest, pids: set<nat>, t0: Tree, t: Tree)
    requires IsManifestPath(manifestPath)
  {
    var dest := DestinationOf(cfg, manifestPath, item);
    exists clean :: CleanAttempt(cfg, manifestPath, item, pids, t0, clean) &&
                    forall q | !Covered(Tmps(dest, pids), q) :: NodeAt(t, q) == NodeAt(clean, q)
  }

  /** `clean` is what one attempt by one of the processes makes of t0. */
  ghost predicate CleanAttempt(cfg: Config, manifestPath: Path, item: Manifest, pids: set<nat>, t0: Tree, clean: Tree)
    requires IsManifestPath(manifestPath)
  {
    exists pid | pid in pids :: Committed(cfg, manifestPath, item, pid, t0, clean)
  }

  lemma ConvergedIfCommitted(cfg: Config, atomicRemoval: bool, manifestPath: Path, item: Manifest, pids: set<nat>, pid: nat,
                             t0: Tree, t: Tree, t': Tree)
    requires IsManifestPath(manifestPath) && Remote(cfg, manifestPath, item) && Find(t0, manifestPath) == Ready(item)
    requires WellFormed(t0) && WellFormed(t) && Wreck(cfg, atomicRemoval, manifestPath, item, pids, t0, t)
    requires Committed(cfg, manifestPath, item, pid, t, t')
    requires CanCommit(t, SourceOf(manifestPath), DestinationOf(cfg, manifestPath, item))
    ensures Converged(cfg, manifestPath, item, pids + {pid}, t0, t')
  {
    hide Apply, Framed, Below, Find, Reach, FinalManifest, CanCommit, WellFormed, OnlyRewritten, CompleteCopy, DestinationOf, SourceOf;
    var source, dest := SourceOf(manifestPath), DestinationOf(cfg, manifestPath, item);
    CanCommitStays(cfg, atomicRemoval, manifestPath, item, pids, t0, t);
    FindStays(cfg, manifestPath, item, t0, t, IsDir(t0, source), pids);
    var now, stamp :| t' == Apply(t, Commit(source, dest, TmpOf(dest, pid), IsDir(t, source), FinalManifest(cfg, manifestPath, item, now), stamp));
    var c := Commit(source, dest, TmpOf(dest, pid), IsDir(t0, source), FinalManifest(cfg, manifestPath, item, now), stamp);
    Converges(cfg, atomicRemoval, manifestPath, item, pids, t0, t, c);
    var clean := Apply(t0, c);
    assert Committed(cfg, manifestPath, item, pid, t0, clean);
    assert CleanAttempt(cfg, manifestPath, item, pids + {pid}, t0, clean);
    forall q | !Covered(Tmps(dest, pids + {pid}), q) ensures NodeAt(t', q) == NodeAt(clean, q) {
      FewerTmps(dest, pids, pid, q);
    }
  }

  lemma FewerTmps(dest: Path, pids: set<nat>, pid: nat, q: Path)
    requires !Covered(Tmps(dest, pids + {pid}), q)
    ensures !Covered(Tmps(dest, pids), q)
  {
    assert Tmps(dest, pids) <= Tmps(dest, pids + {pid});
  }

  /**
   * Any number of attempts at one checkpoint, each by whatever process and with whatever faults
   * and crashes. Everything that holds of the disk between them holds of a run of any length. If
   * the last attempt succeeds the disk is what one clean attempt would have made; and if no fault
   * disturbs the last attempt, it succeeds exactly when nothing of the wrong kind was in its way
   * before the first one.
   */
  method Retry(agent: Agent, manifestPath: Path, item: Manifest, attempts: nat, calmAtLast: bool)
    returns (st: Status, ghost pids: set<nat>, ghost sents: seq<seq<Post>>)
    requires agent.disk.Valid() && IsManifestPath(manifestPath) && attempts > 0
    requires Find(agent.disk.tree, manifestPath) == Ready(item) && Remote(agent.cfg, manifestPath, item)
    requires !InPlace(agent.cfg, manifestPath, item)
    modifies agent, agent.disk
    ensures agent.disk.Valid()
    ensures Wreck(agent.cfg, agent.disk.atomicRemoval, manifestPath, item, pids, old(agent.disk.tree), agent.disk.tree)
    ensures st.Ok? && (agent.disk.statsReliable || !agent.disk.faulty) ==>
              Converged(agent.cfg, manifestPath, item, pids, old(agent.disk.tree), agent.disk.tree)
    ensures st.Ok? && (agent.disk.statsReliable || !agent.disk.faulty) && agent.cfg.backend ==>
              sents != [] && Delivered(sents[|sents| - 1])
    ensures calmAtLast ==>
              (st.Ok? <==> CanCommit(old(agent.disk.tree), SourceOf(manifestPath), DestinationOf(agent.cfg, manifestPath, item)))
    ensures agent.log == old(agent.log) + Concat(sents) && |sents| == attempts
    ensures forall sent | sent in sents :: AttemptLanguage(sent)
  {
    hide DestinationOf, SourceOf, Find, Wreck, Converged, CanCommit, WellFormed, Remote, InPlace, AttemptLanguage, IsManifestPath, Delivered;
    ghost var t0 := agent.disk.tree;
    pids, sents, st := {}, [], Err;
    WreckAtFirst(agent.cfg, agent.disk.atomicRemoval, manifestPath, item, t0);
    var i := 0;
    while i < attempts
      invariant 0 <= i == |sents| <= attempts && agent.disk.Valid()
      invariant Wreck(agent.cfg, agent.disk.atomicRemoval, manifestPath, item, pids, t0, agent.disk.tree)
      invariant i == attempts && st.Ok? && (agent.disk.statsReliable || !agent.disk.faulty) ==>
                  Converged(agent.cfg, manifestPath, item, pids, t0, agent.disk.tree) && (agent.cfg.backend ==> Delivered(sents[i - 1]))
      invariant i == attempts && calmAtLast ==>
                  (st.Ok? <==> CanCommit(t0, SourceOf(manifestPath), DestinationOf(agent.cfg, manifestPath, item)))
      invariant agent.log == old(agent.log) + Concat(sents)
      invariant forall sent | sent in sents :: AttemptLanguage(sent)
    {
      ghost var sent;
      st, sent := OneAttempt(agent, manifestPath, item, i == attempts - 1 && calmAtLast, pids, t0);
      pids := pids + {agent.pid};
      assert (sents + [sent])[..|sents|] == sents;
      sents := sents + [sent];
      i := i + 1;
    }
  }

  /** One attempt of such a run, by some process and with whatever faults, or calmly. */
  method OneAttempt(agent: Agent, manifestPath: Path, item: Manifest, calm: bool, ghost pids: set<nat>, ghost t0: Tree)
    returns (st: Status, ghost sent: seq<Post>)
    requires agent.disk.Valid() && IsManifestPath(manifestPath) && WellFormed(t0)
    requires Find(t0, manifestPath) == Ready(item) && Remote(agent.cfg, manifestPath, item) && !InPlace(agent.cfg, manifestPath, item)
    requires Wreck(agent.cfg, agent.disk.atomicRemoval, manifestPath, item, pids, t0, agent.disk.tree)
    modifies agent, agent.disk
    ensures agent.disk.Valid()
    ensures Wreck(agent.cfg, agent.disk.atomicRemoval, manifestPath, item, pids + {agent.pid}, t0, agent.disk.tree)
    ensures st.Ok? && (agent.disk.statsReliable || !agent.disk.faulty) ==>
              Converged(agent.cfg, manifestPath, item, pids + {agent.pid}, t0, agent.disk.tree) && (agent.cfg.backend ==> Delivered(sent))
    ensures calm ==> (st.Ok? <==> CanCommit(t0, SourceOf(manifestPath), DestinationOf(agent.cfg, manifestPath, item)))
    ensures agent.log == old(agent.log) + sent && AttemptLanguage(sent)
  {
    hide DestinationOf, SourceOf, Find, FinalManifest, Wreck, Converged, CanCommit, WellFormed, Remote, Committed, AttemptLeaves,
         AnnouncedHolds, About, InPlace, AttemptLanguage, IsManifestPath, MayTouch, Covers;
    var pid: int := *;
    agent.pid := if pid < 0 then 0 else pid;
    agent.disk.faulty := *;
    if calm {
      agent.disk.faulty := false;
    }
    ghost var t := agent.disk.tree;
    BeforeAttempt(agent.cfg, agent.disk.atomicRemoval, manifestPath, item, pids, t0, t);
    st, sent := agent.ProcessManifest(manifestPath);
    WreckGoesOn(agent.cfg, agent.disk.atomicRemoval, manifestPath, item, pids, agent.pid, t0, t, agent.disk.tree);
    if st.Ok? && (agent.disk.statsReliable || !agent.disk.faulty) {
      ConvergedIfCommitted(agent.cfg, agent.disk.atomicRemoval, manifestPath, item, pids, agent.pid, t0, t, agent.disk.tree);
    }
  }

  lemma BeforeAttempt(cfg: Config, atomicRemoval: bool, manifestPath: Path, item: Manifest, pids: set<nat>, t0: Tree, t: Tree)
    requires IsManifestPath(manifestPath) && Remote(cfg, manifestPath, item) && !InPlace(cfg, manifestPath, item)
    requires Find(t0, manifestPath) == Ready(item) && Wreck(cfg, atomicRemoval, manifestPath, item, pids, t0, t)
    ensures Find(t, manifestPath) == Ready(item) && Covers(cfg, t, manifestPath)
    ensures GoesThrough(cfg, t, manifestPath) <==> CanCommit(t0, SourceOf(manifestPath), DestinationOf(cfg, manifestPath, item))
    ensures GoesThrough(cfg, t, manifestPath) <==> CanCommit(t, SourceOf(manifestPath), DestinationOf(cfg, manifestPath, item))
  {
    hide DestinationOf, SourceOf, Find, FinalManifest, CanCommit;
    CanCommitStays(cfg, atomicRemoval, manifestPath, item, pids, t0, t);
  }
}
