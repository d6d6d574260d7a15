// Repeated visits to a checkpoint that lies in place.
module Rewriting {
  import opened CleanPath
  import opened Destinations
  import opened Manifests
  import opened Trees
  import opened Disks
  import opened Commits
  import opened Agents

  /** The manifest after polls at these times. */
  function PolledAlong(cfg: Config, manifestPath: Path, item: Manifest, times: seq<string>): Manifest
    requires IsManifestPath(manifestPath)
  {
    if times == [] then item
    else Polled(cfg, manifestPath, PolledAlong(cfg, manifestPath, item, times[..|times| - 1]), times[|times| - 1])
  }

  function ClockOf(times: seq<string>): nat -> string
  {
    (n: nat) => if n < |times| then times[n] else ""
  }

  lemma {:induction false} AlongIsTimes(cfg: Config, manifestPath: Path, item: Manifest, times: seq<string>, k: nat)
    requires IsManifestPath(manifestPath) && k <= |times|
    ensures PolledAlong(cfg, manifestPath, item, times[..k]) == PolledTimes(cfg, manifestPath, item, ClockOf(times), k)
    decreases k
  {
    hide Polled;
    if k > 0 {
      AlongIsTimes(cfg, manifestPath, item, times, k - 1);
      assert times[..k][..k - 1] == times[..k - 1];
    }
  }

  /** A poll leaves a checkpoint in place ready, and in place. */
  lemma StillReady(cfg: Config, manifestPath: Path, item: Manifest, t: Tree, now: string)
    requires IsManifestPath(manifestPath) && WellFormed(t) && Find(t, manifestPath) == Ready(item) && InPlace(cfg, manifestPath, item)
    ensures var left := Polled(cfg, manifestPath, item, now);
            Find(t[manifestPath := File(Json(left))], manifestPath) == Ready(left) && InPlace(cfg, manifestPath, left)
  {
    hide SourceOf, MarkerOf, NextStorage, Render, FinalPath, SourceText;
    var source := SourceOf(manifestPath);
    MarkerIsNoManifest(source, IsDir(t, source));
    NotOwnSource(manifestPath);
    assert DestinationOf(cfg, manifestPath, Polled(cfg, manifestPath, item, now)) == DestinationOf(cfg, manifestPath, item);
  }

  lemma NotOwnSource(manifestPath: Path)
    requires IsManifestPath(manifestPath)
    ensures SourceOf(manifestPath) != manifestPath
  {
    assert |Stem(manifestPath)| < |manifestPath[|manifestPath| - 1]|;
  }

  /** The disk after each of some visits, the first entry being the disk before them. */
  ghost predicate Polls(cfg: Config, manifestPath: Path, item: Manifest, times: seq<string>, trees: seq<Tree>)
    requires IsManifestPath(manifestPath)
  {
    && |trees| == |times| + 1
    && forall k | 0 <= k <= |times| ::
         trees[k] == trees[0][manifestPath := File(Json(PolledAlong(cfg, manifestPath, item, times[..k])))]
  }

  /** The visits after the first (length of the storage path + 3) change nothing any more. */
  lemma PollsSettle(cfg: Config, manifestPath: Path, item: Manifest, times: seq<string>, trees: seq<Tree>, i: nat, j: nat)
    requires IsManifestPath(manifestPath) && Polls(cfg, manifestPath, item, times, trees)
    requires |item.storagePath| + 3 <= i <= j <= |times|
    ensures trees[j] == trees[i]
  {
    hide PolledAlong, PolledTimes;
    var n := RewritesEnd(cfg, manifestPath, item, ClockOf(times));
    AlongIsTimes(cfg, manifestPath, item, times, i);
    AlongIsTimes(cfg, manifestPath, item, times, j);
  }

  /**
   * Undisturbed visits to a checkpoint in place. Each of them rewrites the manifest or leaves it,
   * and nothing else on the disk ever changes; after the first (length of its storage path + 3)
   * visits the manifest does not either.
   */
  method VisitRepeatedly(agent: Agent, manifestPath: Path, item: Manifest, visits: nat) returns (ghost times: seq<string>, ghost trees: seq<Tree>)
    requires agent.disk.Valid() && !agent.disk.faulty && IsManifestPath(manifestPath)
    requires Find(agent.disk.tree, manifestPath) == Ready(item) && InPlace(agent.cfg, manifestPath, item)
    modifies agent`log, agent.disk`tree, agent.disk`mtime, agent.disk`clock
    ensures agent.disk.Valid() && |times| == visits && Polls(agent.cfg, manifestPath, item, times, trees)
    ensures trees[0] == old(agent.disk.tree) && trees[visits] == agent.disk.tree
    ensures forall i, j | |item.storagePath| + 3 <= i <= j <= visits :: trees[i] == trees[j]
  {
    hide SourceOf, DestinationOf, Find, Polled, PolledAlong, InPlace, NeedsRewrite, About, WellFormed, IsManifestPath;
    times, trees := [], [agent.disk.tree];
    FirstPoll(agent.cfg, manifestPath, item, agent.disk.tree);
    var n := 0;
    while n < visits
      invariant 0 <= n <= visits && n == |times| && agent.disk.Valid()
      invariant Polls(agent.cfg, manifestPath, item, times, trees) && trees[0] == old(agent.disk.tree) && trees[n] == agent.disk.tree
      invariant Find(agent.disk.tree, manifestPath) == Ready(PolledAlong(agent.cfg, manifestPath, item, times))
      invariant InPlace(agent.cfg, manifestPath, PolledAlong(agent.cfg, manifestPath, item, times))
    {
      ghost var t, present := agent.disk.tree, PolledAlong(agent.cfg, manifestPath, item, times);
      ghost var st, sent;
      st, sent := agent.ProcessManifest(manifestPath);
      ghost var now: string :| agent.disk.tree == t[manifestPath := File(Json(Polled(agent.cfg, manifestPath, present, now)))];
      StillReady(agent.cfg, manifestPath, present, t, now);
      OneMorePoll(agent.cfg, manifestPath, item, times, trees, t, now, agent.disk.tree);
      times, trees := times + [now], trees + [agent.disk.tree];
      n := n + 1;
    }
    forall i: nat, j: nat | |item.storagePath| + 3 <= i <= j <= visits ensures trees[i] == trees[j] {
      PollsSettle(agent.cfg, manifestPath, item, times, trees, i, j);
    }
  }

  lemma FirstPoll(cfg: Config, manifestPath: Path, item: Manifest, t: Tree)
    requires IsManifestPath(manifestPath) && Find(t, manifestPath) == Ready(item)
    ensures Polls(cfg, manifestPath, item, [], [t]) && PolledAlong(cfg, manifestPath, item, []) == item
  {
    hide SourceOf, Polled;
    assert t == t[manifestPath := File(Json(item))];
  }

  lemma OneMorePoll(cfg: Config, manifestPath: Path, item: Manifest, times: seq<string>, trees: seq<Tree>, t: Tree, now: string, t': Tree)
    requires IsManifestPath(manifestPath) && Polls(cfg, manifestPath, item, times, trees) && t == trees[|times|]
    requires t' == t[manifestPath := File(Json(Polled(cfg, manifestPath, PolledAlong(cfg, manifestPath, item, times), now)))]
    ensures Polls(cfg, manifestPath, item, times + [now], trees + [t'])
    ensures PolledAlong(cfg, manifestPath, item, times + [now]) == Polled(cfg, manifestPath, PolledAlong(cfg, manifestPath, item, times), now)
  {
    hide Polled;
    var more := times + [now];
    assert more[..|times|] == times && more[..|more|] == more;
    forall k | 0 <= k <= |more|
      ensures (trees + [t'])[k] == trees[0][manifestPath := File(Json(PolledAlong(cfg, manifestPath, item, more[..k])))]
    {
      if k <= |times| {
        assert more[..k] == times[..k];
      } else {
        assert trees[|times|] == trees[0][manifestPath := File(Json(PolledAlong(cfg, manifestPath, item, times[..|times|])))];
      }
    }
  }
}
