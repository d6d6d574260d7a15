// How long an announced checkpoint can be restored from its destination.
module Durability {
  import opened Text
  import opened CleanPath
  import opened Manifests
  import opened Trees
  import opened Disks
  import opened Copying
  import opened Commits
  import opened Agents
  import opened Runs

  /** Nothing in `foot` meets p, and p is no directory that had to be made. */
  ghost predicate OutOfWay(p: Path, foot: set<Path>, made: Path)
  {
    (forall f | f in foot :: Apart(p, f)) && !(p <= made)
  }

  /** Whatever happens elsewhere, say to other checkpoints, an announced checkpoint stays as it is. */
  lemma OthersKeepDurable(cfg: Config, manifestPath: Path, item: Manifest, isDir: bool, full: Tree, t: Tree, t': Tree, foot: set<Path>, made: Path)
    requires IsManifestPath(manifestPath) && Durable(cfg, manifestPath, item, isDir, full, t) && Framed(t, t', foot, made)
    requires var dest := DestinationOf(cfg, manifestPath, item);
             OutOfWay(dest, foot, made) && OutOfWay(ManifestOf(dest), foot, made) && OutOfWay(MarkerOf(dest, isDir), foot, made)
    ensures Durable(cfg, manifestPath, item, isDir, full, t')
  {
    hide DestinationOf, FinalManifest, Framed, Suffixed, CompleteCopy;
    var dest := DestinationOf(cfg, manifestPath, item);
    ApartStays(t, t', dest, foot, made);
    NodeStays(t, t', ManifestOf(dest), foot, made);
    NodeStays(t, t', MarkerOf(dest, isDir), foot, made);
  }

  lemma NodeStays(t: Tree, t': Tree, p: Path, foot: set<Path>, made: Path)
    requires Framed(t, t', foot, made) && OutOfWay(p, foot, made)
    ensures SameNode(t, t', p)
  {
    ApartStays(t, t', p, foot, made);
    BelowNodes(t, p, t', p, []);
    assert p + [] == p;
  }

  /**
   * After a restart the agent commits the same manifest again. However many such attempts are
   * broken off, and wherever, an announced checkpoint can still be restored exactly while there is
   * something at its destination and its manifest is whole.
   */
  lemma RecommitKeepsDurable(cfg: Config, manifestPath: Path, item: Manifest, pids: set<nat>, t0: Tree, t: Tree)
    requires IsManifestPath(manifestPath) && Find(t0, manifestPath) == Ready(item)
    requires Wreck(cfg, true, manifestPath, item, pids, t0, t)
    requires Durable(cfg, manifestPath, item, IsDir(t0, SourceOf(manifestPath)), Below(t0, SourceOf(manifestPath)), t0)
    ensures var dest := DestinationOf(cfg, manifestPath, item);
            Durable(cfg, manifestPath, item, IsDir(t0, SourceOf(manifestPath)), Below(t0, SourceOf(manifestPath)), t) <==>
            dest in t && ManifestWritten(cfg, manifestPath, item, t, ManifestOf(dest))
  {
    hide DestinationOf, SourceOf, FinalManifest, Framed, Find, Suffixed, ManifestWritten;
    var source, dest := SourceOf(manifestPath), DestinationOf(cfg, manifestPath, item);
    var isDir := IsDir(t0, source);
    FoundSource(t0, manifestPath, item);
    SourceTop(t0, source);
    CopyHasTop(isDir, Below(t0, source), Below(t, dest));
    assert [] in Below(t, dest) <==> dest in t by { assert dest + [] == dest; }
    if isDir {
      MarkerInCopy(Below(t0, source), Below(t0, dest), Below(t, dest), t0, t, dest);
    }
  }

  lemma CopyHasTop(isDir: bool, full: Tree, now: Tree)
    requires [] in full
    ensures CompleteCopy(isDir, full, now) ==> [] in now
  {
    assert [] in Data(isDir, full);
  }

  /** Complete copies of one directory agree on whether its marker is a file. */
  lemma MarkerInCopy(full: Tree, before: Tree, now: Tree, t0: Tree, t: Tree, dest: Path)
    requires before == Below(t0, dest) && now == Below(t, dest) && CompleteCopy(true, full, before) && IsFile(t0, dest + ["_SUCCESS"])
    ensures CompleteCopy(true, full, now) ==> IsFile(t, dest + ["_SUCCESS"])
  {
    if CompleteCopy(true, full, now) {
      assert ["_SUCCESS"] in before && IsFile(before, ["_SUCCESS"]);
      assert Data(true, before)[["_SUCCESS"]] == Data(true, now)[["_SUCCESS"]];
      assert ["_SUCCESS"] in now;
    }
  }

  /** The checkpoint that was ready on disk t0 can be restored from disk t. */
  ghost predicate Restorable(cfg: Config, manifestPath: Path, item: Manifest, t0: Tree, t: Tree)
    requires IsManifestPath(manifestPath)
  {
    Durable(cfg, manifestPath, item, IsDir(t0, SourceOf(manifestPath)), Below(t0, SourceOf(manifestPath)), t)
  }

  /** Its destination is empty, although beside a file the marker still stands. */
  ghost predicate Lost(cfg: Config, manifestPath: Path, item: Manifest, t0: Tree, t: Tree)
    requires IsManifestPath(manifestPath)
  {
    var dest := DestinationOf(cfg, manifestPath, item);
    && Below(t, dest) == map[] && !Restorable(cfg, manifestPath, item, t0, t)
    && (!IsDir(t0, SourceOf(manifestPath)) ==> MarkerOf(dest, false) in t)
  }

  /** A checkpoint of the copying kind that was ready on t0, with nothing in its way. */
  ghost predicate Good(cfg: Config, manifestPath: Path, item: Manifest, t0: Tree)
    requires IsManifestPath(manifestPath)
  {
    && Find(t0, manifestPath) == Ready(item) && Remote(cfg, manifestPath, item) && !InPlace(cfg, manifestPath, item)
    && CanCommit(t0, SourceOf(manifestPath), DestinationOf(cfg, manifestPath, item))
  }

  /** An attempt without faults, after whatever attempts before. */
  method CommitCalmly(agent: Agent, manifestPath: Path, item: Manifest, ghost pids: set<nat>, ghost t0: Tree) returns (ghost sent: seq<Post>)
    requires agent.disk.Valid() && !agent.disk.faulty && agent.cfg.backend && IsManifestPath(manifestPath)
    requires Good(agent.cfg, manifestPath, item, t0)
    requires Wreck(agent.cfg, agent.disk.atomicRemoval, manifestPath, item, pids, t0, agent.disk.tree)
    modifies agent`log, agent.disk`tree, agent.disk`mtime, agent.disk`clock
    ensures agent.disk.Valid() && agent.log == old(agent.log) + sent && Delivered(sent)
    ensures Restorable(agent.cfg, manifestPath, item, t0, agent.disk.tree)
    ensures AttemptLeaves(agent.cfg, agent.disk.atomicRemoval, manifestPath, item, agent.pid, old(agent.disk.tree), agent.disk.tree)
    ensures Wreck(agent.cfg, agent.disk.atomicRemoval, manifestPath, item, pids + {agent.pid}, t0, agent.disk.tree)
  {
    hide DestinationOf, SourceOf, FinalManifest, Find, Wreck, CanCommit, WellFormed, Remote, Committed, AttemptLeaves, Durable,
         About, InPlace, IsManifestPath, MayTouch, Covers, Below, AttemptLanguage;
    ghost var t := agent.disk.tree;
    BeforeAttempt(agent.cfg, agent.disk.atomicRemoval, manifestPath, item, pids, t0, t);
    SameFull(agent.cfg, agent.disk.atomicRemoval, manifestPath, item, pids, t0, t);
    var st;
    st, sent := agent.ProcessManifest(manifestPath);
    WreckGoesOn(agent.cfg, agent.disk.atomicRemoval, manifestPath, item, pids, agent.pid, t0, t, agent.disk.tree);
  }

  /**
   * An attempt that dies after it has removed the old data and before its rename. It has announced
   * that it is uploading by then.
   */
  method DieBeforeRename(agent: Agent, manifestPath: Path, item: Manifest, ghost pids: set<nat>, ghost t0: Tree) returns (ghost sent: seq<Post>)
    requires agent.disk.Valid() && !agent.disk.faulty && agent.cfg.backend && IsManifestPath(manifestPath) && Good(agent.cfg, manifestPath, item, t0)
    requires Wreck(agent.cfg, agent.disk.atomicRemoval, manifestPath, item, pids, t0, agent.disk.tree)
    requires Restorable(agent.cfg, manifestPath, item, t0, agent.disk.tree)
    modifies agent`log, agent.disk`tree
    ensures agent.log == old(agent.log) + sent && |sent| == 1 && sent[0].accepted && sent[0].event.status == UPLOADING
    ensures About(agent.cfg, manifestPath, item, sent[0].event)
    ensures agent.disk.Valid() && Lost(agent.cfg, manifestPath, item, t0, agent.disk.tree)
    ensures AttemptLeaves(agent.cfg, agent.disk.atomicRemoval, manifestPath, item, agent.pid, old(agent.disk.tree), agent.disk.tree)
    ensures Wreck(agent.cfg, agent.disk.atomicRemoval, manifestPath, item, pids + {agent.pid}, t0, agent.disk.tree)
  {
    hide DestinationOf, SourceOf, FinalManifest, Find, Wreck, CanCommit, WellFormed, Remote, AttemptLeaves, Durable,
         InPlace, IsManifestPath, Below, CanMkdir, Framed, TmpOf, MarkerOf, DataAt, About;
    ghost var t := agent.disk.tree;
    var now: string := *;
    EventsAnnounce(agent.cfg, manifestPath, item, now);
    var st;
    st, sent := agent.PostEvent(EventFor(item, FinalManifest(agent.cfg, manifestPath, item, now), UPLOADING, map["checkpointID" := item.checkpointID]));
    AgainPossible(agent.cfg, agent.disk.atomicRemoval, manifestPath, item, pids, agent.pid, t0, t);
    SameFull(agent.cfg, agent.disk.atomicRemoval, manifestPath, item, pids, t0, t);
    CopyAndDie(agent.disk, SourceOf(manifestPath), DestinationOf(agent.cfg, manifestPath, item), agent.pid);
    AfterCopy(agent.cfg, agent.disk.atomicRemoval, manifestPath, item, agent.pid, t, agent.disk.tree);
    LostByRecommit(agent.cfg, agent.disk.atomicRemoval, manifestPath, item, agent.pid, t0, t, agent.disk.tree);
    WreckGoesOn(agent.cfg, agent.disk.atomicRemoval, manifestPath, item, pids, agent.pid, t0, t, agent.disk.tree);
  }

  /**
   * A run that loses an announced checkpoint and finds it again. The first process commits and
   * announces it. The second has an empty memory, starts over and dies half-way. The third puts
   * everything back.
   */
  method AnnounceLoseRecover(agent: Agent, manifestPath: Path, item: Manifest, second: nat, third: nat)
    returns (ghost announced: Tree, ghost lost: Tree, ghost sents: seq<seq<Post>>)
    requires agent.disk.Valid() && !agent.disk.faulty && agent.cfg.backend && IsManifestPath(manifestPath)
    requires Good(agent.cfg, manifestPath, item, agent.disk.tree)
    modifies agent, agent.disk
    ensures agent.log == old(agent.log) + Concat(sents) && |sents| == 3
    ensures Delivered(sents[0]) && !Announced(sents[1]) && Delivered(sents[2])
    ensures AttemptLeaves(agent.cfg, agent.disk.atomicRemoval, manifestPath, item, old(agent.pid), old(agent.disk.tree), announced)
    ensures Restorable(agent.cfg, manifestPath, item, old(agent.disk.tree), announced)
    ensures AttemptLeaves(agent.cfg, agent.disk.atomicRemoval, manifestPath, item, second, announced, lost)
    ensures Lost(agent.cfg, manifestPath, item, old(agent.disk.tree), lost)
    ensures AttemptLeaves(agent.cfg, agent.disk.atomicRemoval, manifestPath, item, third, lost, agent.disk.tree)
    ensures Restorable(agent.cfg, manifestPath, item, old(agent.disk.tree), agent.disk.tree)
  {
    hide Good, About, Wreck, Restorable, Lost, AttemptLeaves, IsManifestPath, WellFormed;
    ghost var t0 := agent.disk.tree;
    assert Find(t0, manifestPath) == Ready(item) by { GoodIsReady(agent.cfg, manifestPath, item, t0); }
    WreckAtFirst(agent.cfg, agent.disk.atomicRemoval, manifestPath, item, t0);
    ghost var pids: set<nat> := {};
    ghost var first := CommitCalmly(agent, manifestPath, item, pids, t0);
    announced := agent.disk.tree;
    pids := pids + {agent.pid};
    agent.pid := second;
    ghost var broken := DieBeforeRename(agent, manifestPath, item, pids, t0);
    lost := agent.disk.tree;
    pids := pids + {second};
    agent.pid := third;
    ghost var again := CommitCalmly(agent, manifestPath, item, pids, t0);
    sents := [first, broken, again];
    ThreeConcat(first, broken, again);
  }

  lemma ThreeConcat(a: seq<Post>, b: seq<Post>, c: seq<Post>)
    ensures Concat([a, b, c]) == a + b + c
  {
    assert [a, b, c][..2] == [a, b] && [a, b][..1] == [a] && [a][..0] == [];
    assert Concat([]) == [];
    assert Concat([a]) == [] + a == a;
  }

  lemma GoodIsReady(cfg: Config, manifestPath: Path, item: Manifest, t0: Tree)
    requires IsManifestPath(manifestPath) && Good(cfg, manifestPath, item, t0)
    ensures Find(t0, manifestPath) == Ready(item)
  {
  }

  /** What the second process relies on. */
  lemma AgainPossible(cfg: Config, atomicRemoval: bool, manifestPath: Path, item: Manifest, pids: set<nat>, pid: nat, t0: Tree, t: Tree)
    requires IsManifestPath(manifestPath) && Remote(cfg, manifestPath, item) && !InPlace(cfg, manifestPath, item)
    requires Find(t0, manifestPath) == Ready(item) && Wreck(cfg, atomicRemoval, manifestPath, item, pids, t0, t) && WellFormed(t)
    requires CanCommit(t0, SourceOf(manifestPath), DestinationOf(cfg, manifestPath, item))
    ensures var source, dest := SourceOf(manifestPath), DestinationOf(cfg, manifestPath, item);
            && CopyAttempt(cfg, manifestPath, item, t) && dest != [] && Apart(source, TmpOf(dest, pid))
            && source in t && CanMkdir(t, Parent(dest))
  {
    hide DestinationOf, SourceOf, Find, CanMkdir, Wreck;
    BeforeAttempt(cfg, atomicRemoval, manifestPath, item, pids, t0, t);
    CanCommitStays(cfg, atomicRemoval, manifestPath, item, pids, t0, t);
    CoversApart(cfg, manifestPath, item, pid, t);
    FoundSource(t, manifestPath, item);
  }

  /** The source is the same kind of thing, with the same content, as at first. */
  lemma SameFull(cfg: Config, atomicRemoval: bool, manifestPath: Path, item: Manifest, pids: set<nat>, t0: Tree, t: Tree)
    requires IsManifestPath(manifestPath) && Remote(cfg, manifestPath, item) && Find(t0, manifestPath) == Ready(item)
    requires Wreck(cfg, atomicRemoval, manifestPath, item, pids, t0, t)
    ensures var source := SourceOf(manifestPath); IsDir(t, source) == IsDir(t0, source) && Below(t, source) == Below(t0, source)
  {
    hide DestinationOf, SourceOf, Find, Below, Framed, Reach;
    FindStays(cfg, manifestPath, item, t0, t, IsDir(t0, SourceOf(manifestPath)), pids);
  }

  lemma LostByRecommit(cfg: Config, atomicRemoval: bool, manifestPath: Path, item: Manifest, pid: nat, t0: Tree, announced: Tree, lost: Tree)
    requires IsManifestPath(manifestPath) && Find(t0, manifestPath) == Ready(item)
    requires AttemptLeaves(cfg, atomicRemoval, manifestPath, item, pid, announced, lost)
    requires IsDir(announced, SourceOf(manifestPath)) == IsDir(t0, SourceOf(manifestPath))
    requires Durable(cfg, manifestPath, item, IsDir(t0, SourceOf(manifestPath)), Below(t0, SourceOf(manifestPath)), announced)
    requires Below(lost, DestinationOf(cfg, manifestPath, item)) == map[]
    ensures var source, dest := SourceOf(manifestPath), DestinationOf(cfg, manifestPath, item);
            && !Durable(cfg, manifestPath, item, IsDir(t0, source), Below(t0, source), lost)
            && (!IsDir(t0, source) ==> MarkerOf(dest, false) in lost)
  {
    hide DestinationOf, SourceOf, FinalManifest, Framed, Find, Suffixed, ManifestWritten;
    var source, dest := SourceOf(manifestPath), DestinationOf(cfg, manifestPath, item);
    FoundSource(t0, manifestPath, item);
    SourceTop(t0, source);
    CopyHasTop(IsDir(t0, source), Below(t0, source), Below(lost, dest));
  }
}
