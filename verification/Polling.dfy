// processStaging and the polling loop: which manifest versions are handled, and which are skipped.
module Polling {
  import opened Text
  import opened CleanPath
  import opened Destinations
  import opened Manifests
  import opened Trees
  import opened Disks
  import opened Copying
  import opened Commits
  import opened Agents
  import opened Runs
  import opened Staging
  import opened Walks

  // ----- The polling loop

  /** The backend has accepted a `committed` event for this manifest. */
  ghost predicate DeliveredIn(cfg: Config, log: seq<Post>, p: Path, item: Manifest)
    requires IsManifestPath(p)
  {
    exists i :: 0 <= i < |log| && log[i].accepted && log[i].event.status == COMMITTED && About(cfg, p, item, log[i].event)
  }

  lemma DeliveredLater(cfg: Config, log: seq<Post>, sent: seq<Post>, p: Path, item: Manifest)
    requires IsManifestPath(p) && DeliveredIn(cfg, log, p, item)
    ensures DeliveredIn(cfg, log + sent, p, item)
  {
    var i :| 0 <= i < |log| && log[i].accepted && log[i].event.status == COMMITTED && About(cfg, p, item, log[i].event);
    assert (log + sent)[i] == log[i];
  }

  lemma DeliveredNow(cfg: Config, log: seq<Post>, sent: seq<Post>, p: Path, item: Manifest)
    requires IsManifestPath(p) && Delivered(sent) && (forall post | post in sent :: About(cfg, p, item, post.event))
    ensures DeliveredIn(cfg, log + sent, p, item)
  {
    assert (log + sent)[|log| + 1] == sent[1];
  }

  /**
   * The version of a manifest that was read when it was last recorded, what was found then, and
   * whether a fault kept the agent from seeing the marker of a checkpoint that was ready.
   */
  datatype Version = Version(mtime: int, content: Content, found: Finding, missed: bool)

  /**
   * The record of p made at stat time `at` holds of the present disk and log: the version that was
   * read is no older than the record; if the file is still that version its content is what was
   * read; a version found ready has its commit delivered, unless its marker was missed; and a
   * version that was skipped, where the job is careful, is one that is not eligible.
   */
  ghost predicate TrueRecord(cfg: Config, careful: bool, reliable: bool, t: Tree, mtime: int, log: seq<Post>, p: Path, at: int, v: Version)
  {
    && InStaging(cfg, p) && IsManifestPath(p)
    && at <= v.mtime <= mtime
    && (IsFile(t, p) && mtime == v.mtime ==> t[p].content == v.content)
    && (match v.found
        case Unreadable => false
        case Skipped => v.content.Json? && (careful ==> !Eligible(v.content.item))
        case Ready(item) => v.content == Json(item) && (if v.missed then !reliable else cfg.backend ==> DeliveredIn(cfg, log, p, item)))
  }

  /** How the attempt went that was recorded as version v of p. */
  ghost predicate HandledAs(cfg: Config, pid: nat, p: Path, v: Version, sent: seq<Post>, t: Tree, t': Tree)
    requires IsManifestPath(p)
  {
    match v.found
    case Unreadable => false
    case Skipped => sent == [] && t' == t
    case Ready(item) =>
      if v.missed then sent == [] && t' == t
      else Succeeded(cfg, p, item, pid, sent, t, t') && forall post | post in sent :: About(cfg, p, item, post.event)
  }

  lemma RecordKept(cfg: Config, careful: bool, reliable: bool, t: Tree, t': Tree, mtime: int, mtime': int, log: seq<Post>, sent: seq<Post>,
                   p: Path, at: int, v: Version)
    requires TrueRecord(cfg, careful, reliable, t, mtime, log, p, at, v)
    requires mtime <= mtime' && (mtime == mtime' ==> SameNode(t, t', p))
    ensures TrueRecord(cfg, careful, reliable, t', mtime', log + sent, p, at, v)
  {
    match v.found
    case Ready(item) => if cfg.backend && !v.missed { DeliveredLater(cfg, log, sent, p, item); }
    case _ =>
  }

  /** What the job writes gets a later time, so a record of an earlier version stays true. */
  lemma WrittenLater(cfg: Config, careful: bool, reliable: bool, t: Tree, t': Tree, touched: set<Path>, changed: set<Path>,
                     mtime: int, mtime': int, clock: int, log: seq<Post>, p: Path, at: int, v: Version)
    requires TrueRecord(cfg, careful, reliable, t, mtime, log, p, at, v) && mtime < clock
    requires changed == set q | q in t' && InStaging(cfg, q) && (q in touched || q !in t || t'[q] != t[q])
    requires mtime' == if p in changed then clock else mtime
    ensures TrueRecord(cfg, careful, reliable, t', mtime', log, p, at, v)
  {
  }

  /** The record of an attempt that has just succeeded says what was found and what was done. */
  lemma RecordMade(cfg: Config, careful: Path -> bool, reliable: bool, faulty: bool, pid: nat, t: Tree, t': Tree,
                   mtime: int, mtime': int, log: seq<Post>, sent: seq<Post>, p: Path, at: int) returns (v: Version)
    requires InStaging(cfg, p) && IsManifestPath(p) && at <= mtime <= mtime' && (mtime == mtime' ==> SameNode(t, t', p))
    requires MarkersFirst(cfg, careful, t)
    requires match Find(t, p)
             case Unreadable => false
             case Skipped => sent == [] && t' == t
             case Ready(item) =>
               && (forall post | post in sent :: About(cfg, p, item, post.event))
               && (Succeeded(cfg, p, item, pid, sent, t, t') || (faulty && !reliable && MarkerMissed(sent, t, t')))
    ensures IsFile(t, p) && v.mtime == mtime && v.content == t[p].content && v.found == Find(t, p)
    ensures v.missed ==> faulty && !reliable
    ensures HandledAs(cfg, pid, p, v, sent, t, t')
    ensures TrueRecord(cfg, careful(p), reliable, t', mtime', log + sent, p, at, v)
  {
    hide AnnouncedHolds, Committed, GoesThrough, About, InPlace;
    var found := Find(t, p);
    v := Version(mtime, t[p].content, found, false);
    if found.Ready? {
      if !Succeeded(cfg, p, found.item, pid, sent, t, t') {
        v := v.(missed := true);
      } else if cfg.backend {
        DeliveredNow(cfg, log, sent, p, found.item);
      }
    } else if careful(p) {
      assert MarkerFirstAt(t, p);
    }
  }

  // ----- What a pass without error has done

  /** The same version of q, and the same found at it. */
  ghost predicate Unmoved(t: Tree, m: map<Path, int>, t': Tree, m': map<Path, int>, q: Path)
  {
    && SameVersion(t, m, t', m', q)
    && (IsManifestPath(q) && q in t ==> Find(t', q) == Find(t, q) && IsDir(t', SourceOf(q)) == IsDir(t, SourceOf(q)))
  }

  /** The disk when a visit looks at its entry, when it reads it, and when it is over. */
  datatype View = View(statTree: Tree, statTimes: map<Path, int>, readTree: Tree, readTimes: map<Path, int>,
                       endTree: Tree, endTimes: map<Path, int>)

  /** What the job does to the disk: nothing, or writes that get later times. */
  ghost predicate JobStep(cfg: Config, careful: Path -> bool, t: Tree, m: map<Path, int>, t': Tree, m': map<Path, int>)
  {
    || (t' == t && m' == m)
    || (JobMay(cfg, careful, t, t') && forall q: Path ::
          TimeIn(m, q) <= TimeIn(m', q) && (q in t' && InStaging(cfg, q) && TimeIn(m', q) == TimeIn(m, q) ==> SameNode(t, t', q)))
  }

  /** Times only grow, and while the time of q stays so does q. */
  ghost predicate Kept(t: Tree, m: map<Path, int>, t': Tree, m': map<Path, int>, q: Path)
  {
    TimeIn(m, q) <= TimeIn(m', q) && (q in t' && TimeIn(m', q) == TimeIn(m, q) ==> SameNode(t, t', q))
  }

  /**
   * A visit to p that begins on disk t: the job may write before the visit looks and before it reads;
   * nothing else staged moves after that; and an entry that is not due, or turns out not to be
   * ready, is left alone.
   */
  ghost predicate Follows(cfg: Config, careful: Path -> bool, before: map<Path, int>, t: Tree, m: map<Path, int>, p: Path, view: View)
  {
    && JobStep(cfg, careful, t, m, view.statTree, view.statTimes)
    && JobStep(cfg, careful, view.statTree, view.statTimes, view.readTree, view.readTimes)
    && (forall q | InStaging(cfg, q) && q != p :: Unmoved(view.readTree, view.readTimes, view.endTree, view.endTimes, q))
    && Kept(view.readTree, view.readTimes, view.endTree, view.endTimes, p)
    && (!Due(before, view.statTimes, view.statTree, p) ==>
          view.endTree == view.readTree == view.statTree && view.endTimes == view.readTimes == view.statTimes)
    && (IsManifestPath(p) && !Find(view.readTree, p).Ready? ==>
          view.endTree == view.readTree && TimeIn(view.endTimes, p) == TimeIn(view.readTimes, p))
  }

  function EndTree(t: Tree, views: seq<View>): Tree
  {
    if views == [] then t else views[|views| - 1].endTree
  }

  function EndTimes(m: map<Path, int>, views: seq<View>): map<Path, int>
  {
    if views == [] then m else views[|views| - 1].endTimes
  }

  /** The visits of a walk that begins on disk t, each on the disk that the one before it left. */
  ghost predicate Chain(cfg: Config, careful: Path -> bool, before: map<Path, int>, t: Tree, m: map<Path, int>, walk: seq<Path>, views: seq<View>)
  {
    |views| <= |walk| && forall i | 0 <= i < |views| ::
      Follows(cfg, careful, before, EndTree(t, views[..i]), EndTimes(m, views[..i]), walk[i], views[i])
  }

  /** The job wrote nothing before or during any of them. */
  ghost predicate Still(t: Tree, m: map<Path, int>, views: seq<View>)
  {
    forall i | 0 <= i < |views| ::
      && views[i].statTree == views[i].readTree == EndTree(t, views[..i])
      && views[i].statTimes == views[i].readTimes == EndTimes(m, views[..i])
  }

  /**
   * What an entry of a walk has come to, told on the disks of its own visit: one that was due when
   * it was looked at is recorded at the version it had when it was read, with what was found at it
   * then and was done with it; for any other nothing was sent, and the version it had is on record
   * already.
   */
  ghost predicate EntryDone(cfg: Config, pid: nat, before: map<Path, int>, view: View,
                            after: map<Path, int>, handled: map<Path, Version>, p: Path, sent: seq<Post>)
  {
    if Due(before, view.statTimes, view.statTree, p) then
      && p in after && after[p] == TimeIn(view.statTimes, p) <= TimeIn(view.readTimes, p) && p in handled && IsFile(view.readTree, p)
      && handled[p] == Version(TimeIn(view.readTimes, p), view.readTree[p].content, Find(view.readTree, p), false)
      && HandledAs(cfg, pid, p, handled[p], sent, view.readTree, view.endTree)
    else
      && sent == []
      && (IsFile(view.statTree, p) && IsManifestPath(p) ==>
            p in after && p in handled && handled[p].content == view.statTree[p].content && handled[p].mtime == TimeIn(view.statTimes, p))
  }

  /** All of the entries in `done`, with what was sent for each. */
  ghost predicate AllHandled(cfg: Config, pid: nat, before: map<Path, int>, after: map<Path, int>, handled: map<Path, Version>,
                             done: seq<Path>, views: seq<View>, sents: seq<seq<Post>>)
  {
    |done| == |views| == |sents| && forall i | 0 <= i < |done| :: EntryDone(cfg, pid, before, views[i], after, handled, done[i], sents[i])
  }

  /** Nothing was in the way of the entries in `done` that were due. */
  ghost predicate AllGoThrough(cfg: Config, before: map<Path, int>, done: seq<Path>, views: seq<View>)
  {
    |done| == |views| && forall i | 0 <= i < |done| && Due(before, views[i].statTimes, views[i].statTree, done[i]) ::
      GoesThrough(cfg, views[i].readTree, done[i])
  }

  /** The success marker is there, in the directory or beside the file. */
  predicate MarkerThere(t: Tree, p: Path)
    requires IsManifestPath(p)
  {
    MarkerOf(SourceOf(p), IsDir(t, SourceOf(p))) in t
  }

  /**
   * Per manifest, whatever this and other jobs write meanwhile: after a pass without error a
   * manifest that was due, and eligible when it was read, has had its `committed` event accepted if
   * and only if its marker was there when it was read.
   */
  lemma CommittedIffMarked(cfg: Config, pid: nat, before: map<Path, int>, after: map<Path, int>, handled: map<Path, Version>,
                           walk: seq<Path>, views: seq<View>, sents: seq<seq<Post>>, i: nat, item: Manifest)
    requires AllHandled(cfg, pid, before, after, handled, walk, views, sents) && i < |walk| && cfg.backend
    requires Due(before, views[i].statTimes, views[i].statTree, walk[i])
    requires walk[i] in views[i].readTree && views[i].readTree[walk[i]] == File(Json(item)) && Eligible(item)
    ensures Delivered(sents[i]) <==> MarkerThere(views[i].readTree, walk[i])
    ensures MarkerThere(views[i].readTree, walk[i]) ==> forall post | post in sents[i] :: About(cfg, walk[i], item, post.event)
    ensures !MarkerThere(views[i].readTree, walk[i]) ==> sents[i] == [] && handled[walk[i]].found == Skipped
  {
    hide About, SourceOf, MarkerOf, AnnouncedHolds, GoesThrough, Committed, PolledOn;
    assert EntryDone(cfg, pid, before, views[i], after, handled, walk[i], sents[i]);
  }

  // ----- From the disk at the beginning of a pass to the disks of its visits

  lemma KeptTrans(t: Tree, m: map<Path, int>, t1: Tree, m1: map<Path, int>, t2: Tree, m2: map<Path, int>, q: Path)
    requires Kept(t, m, t1, m1, q) && Kept(t1, m1, t2, m2, q)
    ensures Kept(t, m, t2, m2, q)
  {
    hide TimeIn;
  }

  lemma JobKeeps(cfg: Config, careful: Path -> bool, t: Tree, m: map<Path, int>, t': Tree, m': map<Path, int>, q: Path)
    requires JobStep(cfg, careful, t, m, t', m') && InStaging(cfg, q)
    ensures Kept(t, m, t', m', q)
  {
    hide JobMay, TimeIn, InStaging;
  }

  /** Whatever the jobs and the other visits do, an entry is kept until its own visit reads it. */
  lemma {:induction false} KeptUntilRead(cfg: Config, careful: Path -> bool, before: map<Path, int>, t: Tree, m: map<Path, int>,
                                         walk: seq<Path>, views: seq<View>, i: nat, q: Path)
    requires Chain(cfg, careful, before, t, m, walk, views) && i <= |views| && InStaging(cfg, q) && q !in walk[..i]
    ensures Kept(t, m, EndTree(t, views[..i]), EndTimes(m, views[..i]), q)
    decreases i
  {
    hide InStaging, Unmoved, JobStep, Due, Find, TimeIn, IsManifestPath;
    if i > 0 {
      var k := i - 1;
      assert walk[..i] == walk[..k] + [walk[k]];
      KeptUntilRead(cfg, careful, before, t, m, walk, views, k, q);
      var from, fromTimes, view := EndTree(t, views[..k]), EndTimes(m, views[..k]), views[k];
      assert Follows(cfg, careful, before, from, fromTimes, walk[k], view);
      JobKeeps(cfg, careful, from, fromTimes, view.statTree, view.statTimes, q);
      JobKeeps(cfg, careful, view.statTree, view.statTimes, view.readTree, view.readTimes, q);
      UnmovedKept(view.readTree, view.readTimes, view.endTree, view.endTimes, q);
      KeptTrans(t, m, from, fromTimes, view.statTree, view.statTimes, q);
      KeptTrans(t, m, view.statTree, view.statTimes, view.readTree, view.readTimes, q);
      KeptTrans(t, m, view.readTree, view.readTimes, view.endTree, view.endTimes, q);
      assert views[..i][|views[..i]| - 1] == view;
    } else {
      assert views[..0] == [];
    }
  }

  lemma UnmovedKept(t: Tree, m: map<Path, int>, t': Tree, m': map<Path, int>, q: Path)
    requires Unmoved(t, m, t', m', q)
    ensures Kept(t, m, t', m', q)
  {
    hide Find, SourceOf, TimeIn, IsManifestPath;
  }

  /**
   * A manifest that was due when the pass began, and has still the same time when its own visit reads
   * it, was due when that visit looked at it, and is read with the content it had when the pass began.
   */
  lemma DueStaysDue(cfg: Config, careful: Path -> bool, before: map<Path, int>, t: Tree, m: map<Path, int>,
                    walk: seq<Path>, views: seq<View>, i: nat)
    requires Chain(cfg, careful, before, t, m, walk, views) && Distinct(walk) && i < |views| <= |walk| && InStaging(cfg, walk[i])
    requires Due(before, m, t, walk[i]) && walk[i] in views[i].readTree && TimeIn(views[i].readTimes, walk[i]) == TimeIn(m, walk[i])
    ensures Due(before, views[i].statTimes, views[i].statTree, walk[i])
    ensures views[i].readTree[walk[i]] == t[walk[i]]
  {
    hide InStaging, Unmoved, JobStep, Find, TimeIn, IsManifestPath, Chain;
    var p, view := walk[i], views[i];
    forall k | 0 <= k < i ensures walk[k] != p { }
    KeptUntilRead(cfg, careful, before, t, m, walk, views, i, p);
    FollowsAt(cfg, careful, before, t, m, walk, views, i);
    JobKeeps(cfg, careful, EndTree(t, views[..i]), EndTimes(m, views[..i]), view.statTree, view.statTimes, p);
    JobKeeps(cfg, careful, view.statTree, view.statTimes, view.readTree, view.readTimes, p);
    KeptTrans(t, m, EndTree(t, views[..i]), EndTimes(m, views[..i]), view.statTree, view.statTimes, p);
  }

  lemma FollowsAt(cfg: Config, careful: Path -> bool, before: map<Path, int>, t: Tree, m: map<Path, int>,
                  walk: seq<Path>, views: seq<View>, i: nat)
    requires Chain(cfg, careful, before, t, m, walk, views) && i < |views|
    ensures Follows(cfg, careful, before, EndTree(t, views[..i]), EndTimes(m, views[..i]), walk[i], views[i])
  {
    hide Follows;
  }

  /**
   * So after a pass without error an eligible manifest that was due when the pass began has had its
   * `committed` event accepted if and only if its marker was there when it was read, provided only
   * that nobody rewrote this one manifest before that. All else may have been written.
   */
  lemma CommittedIfUnchanged(cfg: Config, careful: Path -> bool, pid: nat, before: map<Path, int>, t: Tree, m: map<Path, int>,
                             after: map<Path, int>, handled: map<Path, Version>,
                             walk: seq<Path>, views: seq<View>, sents: seq<seq<Post>>, i: nat, item: Manifest)
    requires Chain(cfg, careful, before, t, m, walk, views) && AllHandled(cfg, pid, before, after, handled, walk, views, sents)
    requires Distinct(walk) && i < |walk| == |views| == |sents| && InStaging(cfg, walk[i]) && cfg.backend
    requires Due(before, m, t, walk[i]) && t[walk[i]].content == Json(item) && Eligible(item)
    requires walk[i] in views[i].readTree && TimeIn(views[i].readTimes, walk[i]) == TimeIn(m, walk[i])
    ensures Delivered(sents[i]) <==> MarkerThere(views[i].readTree, walk[i])
    ensures walk[i] in handled && handled[walk[i]].content == Json(item) && handled[walk[i]].mtime == TimeIn(m, walk[i])
  {
    hide InStaging, Chain, AllHandled, EntryDone, MarkerThere, Due, Distinct, Find, TimeIn, HandledAs, Delivered;
    DueIsFile(before, m, t, walk[i]);
    DueStaysDue(cfg, careful, before, t, m, walk, views, i);
    CommittedIffMarked(cfg, pid, before, after, handled, walk, views, sents, i, item);
    RecordOf(cfg, pid, before, after, handled, walk, views, sents, i);
  }

  /** Whoever finds the manifest at the end of the pass with the time it had when the pass began knows that. */
  lemma UnchangedWasRead(cfg: Config, careful: Path -> bool, before: map<Path, int>, t: Tree, m: map<Path, int>,
                         walk: seq<Path>, views: seq<View>, i: nat)
    requires Chain(cfg, careful, before, t, m, walk, views) && Distinct(walk) && i < |views| <= |walk| && InStaging(cfg, walk[i])
    requires walk[i] in EndTree(t, views) && TimeIn(EndTimes(m, views), walk[i]) == TimeIn(m, walk[i])
    ensures walk[i] in views[i].readTree && TimeIn(views[i].readTimes, walk[i]) == TimeIn(m, walk[i])
  {
    hide InStaging, Unmoved, JobStep, Find, IsManifestPath, Chain, EndTree, EndTimes;
    var p, view := walk[i], views[i];
    forall k | 0 <= k < i ensures walk[k] != p { }
    KeptUntilRead(cfg, careful, before, t, m, walk, views, i, p);
    FollowsAt(cfg, careful, before, t, m, walk, views, i);
    JobKeeps(cfg, careful, EndTree(t, views[..i]), EndTimes(m, views[..i]), view.statTree, view.statTimes, p);
    JobKeeps(cfg, careful, view.statTree, view.statTimes, view.readTree, view.readTimes, p);
    KeptTrans(t, m, EndTree(t, views[..i]), EndTimes(m, views[..i]), view.statTree, view.statTimes, p);
    KeptTrans(t, m, view.statTree, view.statTimes, view.readTree, view.readTimes, p);
    KeptAfterRead(cfg, careful, before, t, m, walk, views, i, |views|);
    assert views[..|views|] == views;
  }

  lemma {:induction false} KeptAfterRead(cfg: Config, careful: Path -> bool, before: map<Path, int>, t: Tree, m: map<Path, int>,
                                         walk: seq<Path>, views: seq<View>, i: nat, n: nat)
    requires Chain(cfg, careful, before, t, m, walk, views) && Distinct(walk) && i < n <= |views| <= |walk| && InStaging(cfg, walk[i])
    ensures Kept(views[i].readTree, views[i].readTimes, EndTree(t, views[..n]), EndTimes(m, views[..n]), walk[i])
    decreases n
  {
    hide InStaging, Unmoved, JobStep, Due, Find, TimeIn, IsManifestPath, Chain;
    var k, q, read, readTimes := n - 1, walk[i], views[i].readTree, views[i].readTimes;
    FollowsAt(cfg, careful, before, t, m, walk, views, k);
    assert views[..n][|views[..n]| - 1] == views[k];
    if k > i {
      KeptAfterRead(cfg, careful, before, t, m, walk, views, i, k);
      var from, fromTimes, view := EndTree(t, views[..k]), EndTimes(m, views[..k]), views[k];
      JobKeeps(cfg, careful, from, fromTimes, view.statTree, view.statTimes, q);
      JobKeeps(cfg, careful, view.statTree, view.statTimes, view.readTree, view.readTimes, q);
      UnmovedKept(view.readTree, view.readTimes, view.endTree, view.endTimes, q);
      KeptTrans(read, readTimes, from, fromTimes, view.statTree, view.statTimes, q);
      KeptTrans(read, readTimes, view.statTree, view.statTimes, view.readTree, view.readTimes, q);
      KeptTrans(read, readTimes, view.readTree, view.readTimes, view.endTree, view.endTimes, q);
    }
  }

  lemma RecordOf(cfg: Config, pid: nat, before: map<Path, int>, after: map<Path, int>, handled: map<Path, Version>,
                 walk: seq<Path>, views: seq<View>, sents: seq<seq<Post>>, i: nat)
    requires AllHandled(cfg, pid, before, after, handled, walk, views, sents) && i < |walk|
    requires Due(before, views[i].statTimes, views[i].statTree, walk[i])
    ensures walk[i] in handled && IsFile(views[i].readTree, walk[i])
    ensures handled[walk[i]] == Version(TimeIn(views[i].readTimes, walk[i]), views[i].readTree[walk[i]].content, Find(views[i].readTree, walk[i]), false)
  {
    hide Find, HandledAs, TimeIn, Due;
    assert EntryDone(cfg, pid, before, views[i], after, handled, walk[i], sents[i]);
  }

  // ----- Passes during which the job is quiet

  /** While the job is quiet each entry is seen as it was when the pass began. */
  ghost predicate SeenAsAtFirst(t: Tree, m: map<Path, int>, walk: seq<Path>, views: seq<View>)
  {
    |walk| == |views| && forall i | 0 <= i < |walk| ::
      Unmoved(t, m, views[i].statTree, views[i].statTimes, walk[i]) && Unmoved(t, m, views[i].readTree, views[i].readTimes, walk[i])
  }

  /** Then all of this can be told on the disk at the beginning. */
  lemma QuietCommittedIffMarked(cfg: Config, pid: nat, before: map<Path, int>, t: Tree, m: map<Path, int>, after: map<Path, int>,
                                handled: map<Path, Version>, walk: seq<Path>, views: seq<View>, sents: seq<seq<Post>>, i: nat, item: Manifest)
    requires AllHandled(cfg, pid, before, after, handled, walk, views, sents) && i < |walk| && cfg.backend
    requires SeenAsAtFirst(t, m, walk, views)
    requires Due(before, m, t, walk[i]) && t[walk[i]].content == Json(item) && Eligible(item)
    ensures Delivered(sents[i]) <==> MarkerThere(t, walk[i])
    ensures handled[walk[i]] == Version(TimeIn(m, walk[i]), Json(item), Find(t, walk[i]), false)
  {
    hide About, SourceOf, MarkerOf, AnnouncedHolds, GoesThrough, Committed, PolledOn;
    assert EntryDone(cfg, pid, before, views[i], after, handled, walk[i], sents[i]);
    assert Unmoved(t, m, views[i].statTree, views[i].statTimes, walk[i]) && Unmoved(t, m, views[i].readTree, views[i].readTimes, walk[i]);
  }

  /** The disk after the entries in `done`: the deeds they asked for, one after the other. */
  ghost predicate DiskIs(cfg: Config, pid: nat, before: map<Path, int>, t: Tree, m: map<Path, int>, done: seq<Path>, deeds: seq<Deed>, t': Tree)
  {
    t' == DoAll(t, deeds) && AllAlikeDeeds(deeds, Plans(cfg, pid, before, m, t, done))
  }

  /** Two passes over the same entries in different orders leave the same disk but for commit times. */
  lemma PassOrder(cfg: Config, pid: nat, before: map<Path, int>, t: Tree, m: map<Path, int>, walk: seq<Path>, walk': seq<Path>,
                  ds: seq<Deed>, ds': seq<Deed>, end: Tree, end': Tree)
    requires DiskIs(cfg, pid, before, t, m, walk, ds, end) && DiskIs(cfg, pid, before, t, m, walk', ds', end')
    requires multiset(walk) == multiset(walk') && Apartness(Plans(cfg, pid, before, m, t, walk))
    ensures AgreeButStamps(Plans(cfg, pid, before, m, t, walk), end, end')
  {
    hide Apartness, AgreeButStamps, Plans, AllAlikeDeeds, DoAll;
    WalkOrder(cfg, pid, before, m, t, walk, walk', ds, ds');
  }

  /** While the job is quiet an entry stays as it is until its own visit. */
  lemma {:induction false} UnmovedUntilRead(cfg: Config, careful: Path -> bool, before: map<Path, int>, t: Tree, m: map<Path, int>,
                                            walk: seq<Path>, views: seq<View>, i: nat, q: Path)
    requires Chain(cfg, careful, before, t, m, walk, views) && Still(t, m, views)
    requires i <= |views| && InStaging(cfg, q) && q !in walk[..i]
    ensures Unmoved(t, m, EndTree(t, views[..i]), EndTimes(m, views[..i]), q)
    decreases i
  {
    hide InStaging, Unmoved, JobStep, Due, Find, TimeIn, IsManifestPath, Follows;
    if i > 0 {
      var k := i - 1;
      assert walk[..i] == walk[..k] + [walk[k]];
      UnmovedUntilRead(cfg, careful, before, t, m, walk, views, k, q);
      FollowsAt(cfg, careful, before, t, m, walk, views, k);
      AsideUnmoved(cfg, careful, before, EndTree(t, views[..k]), EndTimes(m, views[..k]), walk[k], views[k], q);
      assert views[..i][|views[..i]| - 1] == views[k];
      UnmovedTrans(t, m, views[k].readTree, views[k].readTimes, views[k].endTree, views[k].endTimes, q);
    } else {
      assert views[..0] == [];
      NothingChanged(t, m);
    }
  }

  lemma AsideUnmoved(cfg: Config, careful: Path -> bool, before: map<Path, int>, t: Tree, m: map<Path, int>, p: Path, view: View, q: Path)
    requires Follows(cfg, careful, before, t, m, p, view) && InStaging(cfg, q) && q != p
    ensures Unmoved(view.readTree, view.readTimes, view.endTree, view.endTimes, q)
  {
    hide Unmoved, JobStep, InStaging, Due, Find, TimeIn, IsManifestPath;
  }

  lemma QuietSeen(cfg: Config, careful: Path -> bool, before: map<Path, int>, t: Tree, m: map<Path, int>, walk: seq<Path>, views: seq<View>)
    requires Chain(cfg, careful, before, t, m, walk, views) && Still(t, m, views) && |views| == |walk|
    requires Distinct(walk) && forall p | p in walk :: InStaging(cfg, p)
    ensures SeenAsAtFirst(t, m, walk, views)
  {
    hide InStaging, Unmoved, Chain, Follows;
    forall i | 0 <= i < |walk|
      ensures Unmoved(t, m, views[i].statTree, views[i].statTimes, walk[i]) && Unmoved(t, m, views[i].readTree, views[i].readTimes, walk[i])
    {
      UnmovedUntilRead(cfg, careful, before, t, m, walk, views, i, walk[i]);
    }
  }

  /** And the disk after i of its visits is that of the deeds they were asked for. */
  lemma {:induction false} QuietDisk(cfg: Config, careful: Path -> bool, pid: nat, before: map<Path, int>, t: Tree, m: map<Path, int>,
                                     after: map<Path, int>, handled: map<Path, Version>,
                                     walk: seq<Path>, views: seq<View>, sents: seq<seq<Post>>, i: nat) returns (deeds: seq<Deed>)
    requires Chain(cfg, careful, before, t, m, walk, views) && Still(t, m, views)
    requires AllHandled(cfg, pid, before, after, handled, walk, views, sents) && i <= |walk| == |views| == |sents|
    requires Distinct(walk) && forall p | p in walk :: InStaging(cfg, p)
    ensures DiskIs(cfg, pid, before, t, m, walk[..i], deeds, EndTree(t, views[..i]))
    decreases i
  {
    hide InStaging, Unmoved, Chain, Follows, AllHandled, Still, Distinct, DiskIs, Due, Find, HandledAs, SeenAsAtFirst;
    if i == 0 {
      assert views[..0] == [] && walk[..0] == [];
      deeds := [];
      NothingDone(cfg, pid, before, t, m);
    } else {
      var k := i - 1;
      deeds := QuietDisk(cfg, careful, pid, before, t, m, after, handled, walk, views, sents, k);
      QuietAt(cfg, careful, pid, before, t, m, after, handled, walk, views, sents, k);
      assert views[..i][|views[..i]| - 1] == views[k];
      deeds := DiskStep(cfg, pid, walk, k, before, t, m, handled, views[k].readTree, views[k].readTimes, views[k].endTree, sents[k], deeds);
    }
  }

  lemma NothingDone(cfg: Config, pid: nat, before: map<Path, int>, t: Tree, m: map<Path, int>)
    ensures DiskIs(cfg, pid, before, t, m, [], [], t)
  {
  }

  lemma QuietAt(cfg: Config, careful: Path -> bool, pid: nat, before: map<Path, int>, t: Tree, m: map<Path, int>,
                after: map<Path, int>, handled: map<Path, Version>, walk: seq<Path>, views: seq<View>, sents: seq<seq<Post>>, i: nat)
    requires Chain(cfg, careful, before, t, m, walk, views) && Still(t, m, views)
    requires AllHandled(cfg, pid, before, after, handled, walk, views, sents) && i < |walk|
    requires Distinct(walk) && forall p | p in walk :: InStaging(cfg, p)
    ensures var p, view := walk[i], views[i];
            && view.readTree == EndTree(t, views[..i]) && Unmoved(t, m, view.readTree, view.readTimes, p)
            && (Due(before, view.readTimes, view.readTree, p) ==>
                  p in handled && IsFile(view.readTree, p) &&
                  handled[p] == Version(TimeIn(view.readTimes, p), view.readTree[p].content, Find(view.readTree, p), false) &&
                  HandledAs(cfg, pid, p, handled[p], sents[i], view.readTree, view.endTree))
            && (!Due(before, view.readTimes, view.readTree, p) ==> view.endTree == view.readTree)
  {
    hide InStaging, Unmoved, Chain, Due, Find, HandledAs, JobStep, TimeIn;
    forall k | 0 <= k < i ensures walk[k] != walk[i] { }
    UnmovedUntilRead(cfg, careful, before, t, m, walk, views, i, walk[i]);
    FollowsAt(cfg, careful, before, t, m, walk, views, i);
    assert EntryDone(cfg, pid, before, views[i], after, handled, walk[i], sents[i]);
  }

  class Poller {
    const agent: Agent
    /** The manifests whose job writes the marker first. */
    const careful: Path -> bool
    /** While set, the job writes nothing. */
    var quiet: bool
    /** The agent's memory: the modification time seen when each manifest was last handled. */
    var processed: map<Path, int>
    /** Which version that was. */
    ghost var handled: map<Path, Version>

    constructor (agent: Agent, careful: Path -> bool, quiet: bool)
      requires agent.disk.Valid() && Tame(agent.cfg, agent.disk.tree) && MarkersFirst(agent.cfg, careful, agent.disk.tree)
      ensures Valid() && processed == map[] && this.agent == agent && this.careful == careful && this.quiet == quiet
    {
      this.agent, this.careful, this.quiet := agent, careful, quiet;
      processed, handled := map[], map[];
    }

    /** What stands in the memory for p is true: that version was handled, and none since was lost. */
    ghost predicate Recorded(p: Path)
      requires p in processed
      reads this, agent, agent.disk
    {
      && p in handled
      && TrueRecord(agent.cfg, careful(p), agent.disk.statsReliable, agent.disk.tree, agent.disk.MTime(p), agent.log, p,
                    processed[p], handled[p])
    }

    ghost predicate Valid()
      reads this, agent, agent.disk
    {
      && agent.disk.Valid() && Tame(agent.cfg, agent.disk.tree)
      && MarkersFirst(agent.cfg, careful, agent.disk.tree)
      && forall p | p in processed :: Recorded(p)
    }

    /** The job may write below the staging directory; what it writes gets a later modification time. */
    method JobWrites()
      requires Valid()
      modifies agent.disk`tree, agent.disk`mtime, agent.disk`clock
      ensures Valid()
      ensures quiet ==> agent.disk.tree == old(agent.disk.tree) && agent.disk.mtime == old(agent.disk.mtime)
      ensures JobStep(agent.cfg, careful, old(agent.disk.tree), old(agent.disk.mtime), agent.disk.tree, agent.disk.mtime)
      ensures forall p: Path :: old(agent.disk.MTime(p)) <= agent.disk.MTime(p)
    {
      hide Tame, MarkersFirst, WellFormed, IsManifestPath, TrueRecord, InStaging;
      if quiet { return; }
      var t: Tree := *;
      var touched: set<Path> := *;
      var disk := agent.disk;
      ghost var t0, log := disk.tree, agent.log;
      assert log + [] == log;
      if JobMay(agent.cfg, careful, disk.tree, t) {
        var changed := set q | q in t && InStaging(agent.cfg, q) && (q in touched || q !in disk.tree || t[q] != disk.tree[q]);
        disk.clock := disk.clock + 1;
        disk.mtime := disk.mtime + map q | q in changed :: disk.clock;
        disk.tree := t;
        forall p | p in processed ensures Recorded(p) {
          WrittenLater(agent.cfg, careful(p), disk.statsReliable, t0, t, touched, changed, old(disk.MTime(p)), disk.MTime(p), disk.clock, log,
                       p, processed[p], handled[p]);
        }
      }
    }

    /** An entry that is not due has its present version on record. */
    lemma NotDueIsCurrent(p: Path)
      requires Valid()
      ensures IsFile(agent.disk.tree, p) && IsManifestPath(p) && !Due(processed, agent.disk.mtime, agent.disk.tree, p) ==>
                p in processed && p in handled &&
                handled[p].content == agent.disk.tree[p].content && handled[p].mtime == agent.disk.MTime(p)
    {
      hide Tame, MarkersFirst, WellFormed, IsManifestPath, TrueRecord;
      if IsFile(agent.disk.tree, p) && IsManifestPath(p) && !Due(processed, agent.disk.mtime, agent.disk.tree, p) {
        assert Recorded(p);
        RecordIsCurrent(agent.cfg, careful(p), agent.disk.statsReliable, agent.disk.tree, agent.disk.MTime(p), agent.log, p,
                        processed[p], handled[p]);
      }
    }

    /** One entry of the walk. The job may write before it and between the stat and the read. */
    method Visit(p: Path) returns (st: Status, ghost sent: seq<Post>, ghost view: View)
      requires Valid() && InStaging(agent.cfg, p)
      modifies this`processed, this`handled, agent`log, agent.disk`tree, agent.disk`mtime, agent.disk`clock
      ensures Valid()
      ensures agent.log == old(agent.log) + sent && AttemptLanguage(sent)
      ensures (processed == old(processed) && handled == old(handled)) ||
              (st.Ok? && p in processed && processed == old(processed)[p := processed[p]] &&
               p in handled && handled == old(handled)[p := handled[p]] &&
               (p in old(processed) ==> old(processed)[p] < processed[p]))
      ensures view.endTree == agent.disk.tree && view.endTimes == agent.disk.mtime
      ensures Follows(agent.cfg, careful, old(processed), old(agent.disk.tree), old(agent.disk.mtime), p, view)
      ensures quiet ==> view.statTree == view.readTree == old(agent.disk.tree) && view.statTimes == view.readTimes == old(agent.disk.mtime)
      ensures !Due(old(processed), view.statTimes, view.statTree, p) ==>
                st.Ok? && sent == [] && processed == old(processed) && handled == old(handled) &&
                agent.disk.tree == view.statTree && agent.disk.mtime == view.statTimes
      ensures st.Ok? && (agent.disk.statsReliable || !agent.disk.faulty) && Due(old(processed), view.statTimes, view.statTree, p) ==>
                p in processed && processed[p] == TimeIn(view.statTimes, p) <= TimeIn(view.readTimes, p) && p in handled &&
                IsFile(view.readTree, p) &&
                handled[p] == Version(TimeIn(view.readTimes, p), view.readTree[p].content, Find(view.readTree, p), false) &&
                HandledAs(agent.cfg, agent.pid, p, handled[p], sent, view.readTree, agent.disk.tree)
      ensures !agent.disk.faulty && Due(old(processed), view.statTimes, view.statTree, p) ==>
                (st.Ok? <==> GoesThrough(agent.cfg, view.readTree, p))
      ensures IsManifestPath(p) && !Find(view.readTree, p).Ready? ==> sent == []
    {
      hide Tame, MarkersFirst, WellFormed, IsManifestPath, AttemptLanguage, InStaging, TrueRecord, Find, Unmoved, HandledAs, JobStep, GoesThrough;
      NothingSent();
      NothingChanged(agent.disk.tree, agent.disk.mtime);
      sent := [];
      JobWrites();
      view := View(agent.disk.tree, agent.disk.mtime, agent.disk.tree, agent.disk.mtime, agent.disk.tree, agent.disk.mtime);
      NothingChanged(agent.disk.tree, agent.disk.mtime);
      NoStep(agent.cfg, careful, agent.disk.tree, agent.disk.mtime);
      var there := agent.disk.Exists(p);
      if !there || !IsFile(agent.disk.tree, p) || !IsManifestPath(p) {
        return Ok, [], view;
      }
      var seen := agent.disk.MTime(p);
      if p in processed && seen <= processed[p] {
        return Ok, [], view;
      }
      JobWrites();
      view := view.(readTree := agent.disk.tree, readTimes := agent.disk.mtime);
      st, sent := Handle(p, seen);
      view := view.(endTree := agent.disk.tree, endTimes := agent.disk.mtime);
    }

    /** processManifest on an entry that is due, and its record if it succeeds. */
    method Handle(p: Path, seen: int) returns (st: Status, ghost sent: seq<Post>)
      requires Valid() && InStaging(agent.cfg, p) && IsManifestPath(p) && seen <= agent.disk.MTime(p)
      requires p in processed ==> processed[p] < seen
      modifies this`processed, this`handled, agent`log, agent.disk`tree, agent.disk`mtime, agent.disk`clock
      ensures Valid()
      ensures agent.log == old(agent.log) + sent && AttemptLanguage(sent)
      ensures !st.Ok? ==> processed == old(processed) && handled == old(handled)
      ensures st.Ok? ==> processed == old(processed)[p := seen] && p in handled && handled == old(handled)[p := handled[p]] &&
                         IsFile(old(agent.disk.tree), p) &&
                         handled[p].content == old(agent.disk.tree)[p].content && handled[p].mtime == old(agent.disk.MTime(p)) &&
                         handled[p].found == Find(old(agent.disk.tree), p) &&
                         (handled[p].missed ==> agent.disk.faulty && !agent.disk.statsReliable) &&
                         HandledAs(agent.cfg, agent.pid, p, handled[p], sent, old(agent.disk.tree), agent.disk.tree)
      ensures !Find(old(agent.disk.tree), p).Ready? ==>
                sent == [] && agent.disk.tree == old(agent.disk.tree) && agent.disk.MTime(p) == old(agent.disk.MTime(p))
      ensures !agent.disk.faulty ==> (st.Ok? <==> GoesThrough(agent.cfg, old(agent.disk.tree), p))
      ensures Kept(old(agent.disk.tree), old(agent.disk.mtime), agent.disk.tree, agent.disk.mtime, p)
      ensures forall q | InStaging(agent.cfg, q) && q != p :: Unmoved(old(agent.disk.tree), old(agent.disk.mtime), agent.disk.tree, agent.disk.mtime, q)
    {
      hide Tame, MarkersFirst, WellFormed, Leaves, Succeeded, HandledAs, Unmoved, SameButAt, Find, About, InPlace, GoesThrough, MayTouch, IsManifestPath, TrueRecord,
           AttemptLanguage;
      ghost var t, readAt, log := agent.disk.tree, agent.disk.MTime(p), agent.log;
      CoversStaged(agent.cfg, t, p);
      SkippedDoesNothing(agent.cfg, agent.disk.atomicRemoval, p, agent.pid, t);
      st, sent := agent.ProcessManifest(p);
      ghost var t' := agent.disk.tree;
      AfterAttempt(agent.cfg, careful, agent.disk.atomicRemoval, p, agent.pid, t, t');
      assert AttemptLanguage([]) by { NothingSent(); }
      forall q | q in processed ensures Recorded(q) {
        OthersSame(agent.cfg, careful(q), agent.disk.statsReliable, t, t', p, q, old(agent.disk.MTime(q)), log, processed[q], handled[q]);
        RecordKept(agent.cfg, careful(q), agent.disk.statsReliable, t, t', old(agent.disk.MTime(q)), agent.disk.MTime(q), log, sent,
                   q, processed[q], handled[q]);
      }
      forall q | InStaging(agent.cfg, q) && q != p
        ensures Unmoved(t, old(agent.disk.mtime), t', agent.disk.mtime, q)
      {
        NotTouched(agent.cfg, t, t', p, q);
        assert agent.disk.MTime(q) == old(agent.disk.MTime(q));
        IsUnmoved(agent.cfg, t, old(agent.disk.mtime), t', agent.disk.mtime, p, q);
      }
      if st.Ok? {
        ghost var v := RecordMade(agent.cfg, careful, agent.disk.statsReliable, agent.disk.faulty, agent.pid, t, t',
                                  readAt, agent.disk.MTime(p), log, sent, p, seen);
        handled := handled[p := v];
        processed := processed[p := seen];
      }
    }

    /**
     * One walk over the staging directory: a chain of visits from the disk at the beginning to the
     * disk at the end. An error or a crash ends it; `visited` entries were gone through without error
     * before that, and nothing is recorded for any other. Without faults that happens exactly at the
     * first entry that is due and cannot go through. While markers are not missed, every visited entry
     * is handled as its visit saw it, whatever jobs write meanwhile. While they are quiet that is as it
     * was at the beginning, and the disk is that of the deeds the walk asked for.
     */
    method Pass(walk: seq<Path>)
      returns (st: Status, ghost visited: nat, ghost views: seq<View>, ghost sents: seq<seq<Post>>, ghost deeds: seq<Deed>)
      requires Valid() && (forall p | p in walk :: InStaging(agent.cfg, p)) && Distinct(walk)
      modifies this`processed, this`handled, agent`log, agent.disk`tree, agent.disk`mtime, agent.disk`clock
      ensures Valid()
      ensures visited <= |walk| && (st.Ok? <==> visited == |walk|)
      ensures |views| == |sents| == (if st.Ok? then visited else visited + 1)
      ensures Chain(agent.cfg, careful, old(processed), old(agent.disk.tree), old(agent.disk.mtime), walk, views)
      ensures agent.disk.tree == EndTree(old(agent.disk.tree), views) && agent.disk.mtime == EndTimes(old(agent.disk.mtime), views)
      ensures Grown(old(processed), processed, walk[..visited])
      ensures agent.log == old(agent.log) + Concat(sents) && forall sent | sent in sents :: AttemptLanguage(sent)
      ensures agent.disk.statsReliable || !agent.disk.faulty ==>
                AllHandled(agent.cfg, agent.pid, old(processed), processed, handled, walk[..visited], views[..visited], sents[..visited])
      ensures !agent.disk.faulty ==> AllGoThrough(agent.cfg, old(processed), walk[..visited], views[..visited])
      ensures !agent.disk.faulty && !st.Ok? ==>
                Due(old(processed), views[visited].statTimes, views[visited].statTree, walk[visited]) &&
                !GoesThrough(agent.cfg, views[visited].readTree, walk[visited])
      ensures quiet ==> Still(old(agent.disk.tree), old(agent.disk.mtime), views)
      ensures quiet && st.Ok? ==> SeenAsAtFirst(old(agent.disk.tree), old(agent.disk.mtime), walk, views)
      ensures quiet && st.Ok? && (agent.disk.statsReliable || !agent.disk.faulty) ==>
                DiskIs(agent.cfg, agent.pid, old(processed), old(agent.disk.tree), old(agent.disk.mtime), walk, deeds, agent.disk.tree)
    {
      hide Tame, MarkersFirst, WellFormed, IsManifestPath, TrueRecord, AttemptLanguage, InStaging, Unmoved, Grown, AllHandled, Distinct,
           SeenAsAtFirst, HandledAs, Due, DiskIs, SameNode, TimeIn, Concat, Find, JobStep, GoesThrough, Chain, Still, Follows, AllGoThrough,
           Progress, EndTree, EndTimes;
      ghost var t, m, before, pid := agent.disk.tree, agent.disk.mtime, processed, agent.pid;
      visited, views, sents, deeds, st := 0, [], [], [], Ok;
      ghost var sure := agent.disk.statsReliable || !agent.disk.faulty;
      var i := 0;
      AtFirst(agent.cfg, careful, pid, sure, !agent.disk.faulty, quiet, walk, processed, handled, t, m);
      NothingConcat();
      EndAtFirst(t, m);
      while i < |walk|
        invariant 0 <= i == visited == |views| == |sents| <= |walk| && Valid() && st.Ok?
        invariant Progress(agent.cfg, careful, pid, sure, !agent.disk.faulty, quiet, before, t, m, processed, handled, walk, views, sents)
        invariant agent.disk.tree == EndTree(t, views) && agent.disk.mtime == EndTimes(m, views)
        invariant agent.log == old(agent.log) + Concat(sents) && forall sent | sent in sents :: AttemptLanguage(sent)
      {
        ghost var processed1, handled1 := processed, handled;
        ghost var sent, view;
        st, sent, view := Visit(walk[i]);
        NotDueIsCurrent(walk[i]);
        ProgressStep(agent.cfg, careful, pid, sure, !agent.disk.faulty, quiet, before, t, m, processed1, processed, handled1, handled,
                     walk, views, sents, st, view, sent);
        EndStep(t, m, views, view);
        views, sents := views + [view], sents + [sent];
        Front(sents[..i], sent, i);
        ConcatLast(sents, sent);
        if !st.Ok? {
          return;
        }
        i := i + 1;
        visited := i;
      }
      ProgressEnd(agent.cfg, careful, pid, sure, !agent.disk.faulty, quiet, before, t, m, processed, handled, walk, views, sents);
      if quiet {
        QuietSeen(agent.cfg, careful, before, t, m, walk, views);
        if sure {
          deeds := QuietDisk(agent.cfg, careful, pid, before, t, m, processed, handled, walk, views, sents, |walk|);
        }
      }
    }

    /**
     * The polling loop over any number of passes, with writes by the job, faults, crashes and
     * restarts between and inside them. A restart forgets everything; the disk and what the
     * backend has accepted remain. The memory is true throughout.
     */
    method Serve(passes: nat, walks: nat -> seq<Path>) returns (ghost sents: seq<seq<Post>>)
      requires Valid()
      requires forall n: nat :: Distinct(walks(n)) && forall p | p in walks(n) :: InStaging(agent.cfg, p)
      modifies this, agent, agent.disk
      ensures Valid()
      ensures agent.log == old(agent.log) + Concat(sents) && forall sent | sent in sents :: AttemptLanguage(sent)
    {
      hide Tame, MarkersFirst, WellFormed, TrueRecord, AttemptLanguage, InStaging, Distinct, AllHandled, Grown, SeenAsAtFirst, DiskIs, Concat,
           TimeIn, Chain, Still, AllGoThrough, EndTree, EndTimes, Due, GoesThrough, Find, IsManifestPath;
      NothingConcat();
      sents := [];
      for n := 0 to passes
        invariant Valid()
        invariant agent.log == old(agent.log) + Concat(sents) && forall sent | sent in sents :: AttemptLanguage(sent)
      {
        agent.disk.faulty := *;
        quiet := *;
        ghost var visited, views, more, deeds;
        var st;
        st, visited, views, more, deeds := Pass(walks(n));
        ConcatBoth(sents, more);
        sents := sents + more;
        if st.Crashed? {
          processed := map[];
          var pid: int := *;
          agent.pid := if pid < 0 then 0 else pid;
        }
      }
    }

    /**
     * An error keeps all that is behind it waiting: while a manifest that is due cannot be read, or
     * its checkpoint is missing, no pass gets beyond it. `stops` tells how far each pass got. What is
     * listed behind it is not recorded, not moved, and, since every event is sent by a visit, not
     * announced.
     */
    method StuckBehind(walk: seq<Path>, k: nat, passes: nat) returns (ghost stops: seq<nat>, ghost sents: seq<seq<seq<Post>>>)
      requires Valid() && quiet && !agent.disk.faulty && Distinct(walk) && (forall p | p in walk :: InStaging(agent.cfg, p)) && k < |walk|
      requires IsManifestPath(walk[k]) && Due(processed, agent.disk.mtime, agent.disk.tree, walk[k]) && Find(agent.disk.tree, walk[k]).Unreadable?
      modifies this, agent, agent.disk
      ensures Valid()
      ensures |stops| == |sents| == passes && forall n | 0 <= n < passes :: stops[n] <= k && |sents[n]| == stops[n] + 1
      ensures agent.log == old(agent.log) + Concat(Flat(sents))
      ensures MemoryAsBefore(old(processed), processed, walk[k..])
      ensures forall p | p in walk[k..] :: Unmoved(old(agent.disk.tree), old(agent.disk.mtime), agent.disk.tree, agent.disk.mtime, p)
    {
      hide Tame, MarkersFirst, WellFormed, IsManifestPath, TrueRecord, AttemptLanguage, InStaging, Unmoved, Grown, AllHandled, Distinct,
           SeenAsAtFirst, Due, DiskIs, TimeIn, Concat, Find, Chain, Still, AllGoThrough, MemoryAsBefore, GoesThrough, EndTree, EndTimes;
      ghost var t, m, before := agent.disk.tree, agent.disk.mtime, processed;
      stops, sents := [], [];
      StuckAtFirst(before, t, m, walk, k);
      NothingConcat();
      for n := 0 to passes
        invariant Valid() && quiet && !agent.disk.faulty && |stops| == |sents| == n
        invariant forall n' | 0 <= n' < n :: stops[n'] <= k && |sents[n']| == stops[n'] + 1
        invariant agent.log == old(agent.log) + Concat(Flat(sents))
        invariant Due(processed, agent.disk.mtime, agent.disk.tree, walk[k]) && Find(agent.disk.tree, walk[k]).Unreadable?
        invariant MemoryAsBefore(before, processed, walk[k..])
        invariant forall p | p in walk[k..] :: Unmoved(t, m, agent.disk.tree, agent.disk.mtime, p)
      {
        ghost var t1, m1, processed1 := agent.disk.tree, agent.disk.mtime, processed;
        ghost var visited, views, more, deeds;
        var st;
        st, visited, views, more, deeds := Pass(walk);
        StuckPass(agent.cfg, careful, processed1, processed, t1, m1, walk, views, visited, k, st);
        StuckStep(before, processed1, processed, t, m, t1, m1, agent.disk.tree, agent.disk.mtime, walk, k);
        FlatLast(sents, more);
        ConcatBoth(Flat(sents), more);
        stops, sents := stops + [visited], sents + [more];
      }
    }

    /**
     * A marker that arrives after its manifest has been looked at is never seen: however often this
     * process comes by, and with whatever faults, nothing is announced, although the checkpoint, a
     * file or a directory, has become ready.
     */
    method LateMarker(p: Path, item: Manifest, visits: nat) returns (st: Status)
      requires Valid() && quiet && InStaging(agent.cfg, p) && IsManifestPath(p)
      requires Due(processed, agent.disk.mtime, agent.disk.tree, p) && agent.disk.tree[p].content == Json(item) && Eligible(item)
      requires SourceOf(p) in agent.disk.tree && !MarkerThere(agent.disk.tree, p) && (agent.disk.statsReliable || !agent.disk.faulty)
      requires JobMay(agent.cfg, careful, agent.disk.tree, Marked(agent.disk.tree, p))
      modifies this, agent, agent.disk
      ensures Valid() && quiet && agent.log == old(agent.log) && (!old(agent.disk.faulty) ==> st.Ok?)
      ensures st.Ok? ==> agent.disk.tree == Marked(old(agent.disk.tree), p) && Find(agent.disk.tree, p) == Ready(item)
    {
      hide Tame, MarkersFirst, WellFormed, InStaging, IsManifestPath, SourceOf, MarkerOf, Find, TrueRecord, HandledAs, JobMay, MarkerThere;
      MarkedReady(agent.disk.tree, p, item);
      ghost var t := agent.disk.tree;
      ghost var sent, view;
      st, sent, view := Visit(p);
      if !st.Ok? { return; }
      AddMarker(p);
      VisitAgain(p, visits);
    }

    /** The job adds the marker of p's checkpoint, and touches nothing else. */
    method AddMarker(p: Path)
      requires Valid() && IsManifestPath(p) && JobMay(agent.cfg, careful, agent.disk.tree, Marked(agent.disk.tree, p))
      modifies agent.disk`tree
      ensures Valid() && agent.disk.tree == Marked(old(agent.disk.tree), p)
    {
      hide Tame, MarkersFirst, WellFormed, InStaging, IsManifestPath, SourceOf, MarkerOf, Find;
      MarkerIsNoManifest(SourceOf(p), IsDir(agent.disk.tree, SourceOf(p)));
      ghost var t := agent.disk.tree;
      agent.disk.tree := Marked(agent.disk.tree, p);
      forall q | q in processed ensures Recorded(q) {
        assert q != MarkerOf(SourceOf(p), IsDir(t, SourceOf(p)));
      }
    }

    /** An entry that is not due is left alone, however often and with whatever faults. */
    method VisitAgain(p: Path, visits: nat)
      requires Valid() && quiet && InStaging(agent.cfg, p) && p in processed && agent.disk.MTime(p) <= processed[p]
      modifies this, agent, agent.disk
      ensures Valid() && quiet && agent.log == old(agent.log) && agent.disk.tree == old(agent.disk.tree)
    {
      hide Tame, MarkersFirst, WellFormed, InStaging, IsManifestPath, TrueRecord, HandledAs, Find;
      for i := 0 to visits
        invariant Valid() && quiet && p in processed && agent.disk.MTime(p) <= processed[p]
        invariant agent.log == old(agent.log) && agent.disk.tree == old(agent.disk.tree)
      {
        agent.disk.faulty := *;
        ghost var sent, view;
        var st;
        st, sent, view := Visit(p);
      }
    }

    /** A restart makes up for it: a process with an empty memory announces the checkpoint. */
    method LateMarkerThenRestart(p: Path, item: Manifest, visits: nat) returns (st: Status, again: Status, ghost sent: seq<Post>)
      requires Valid() && quiet && InStaging(agent.cfg, p) && IsManifestPath(p)
      requires Due(processed, agent.disk.mtime, agent.disk.tree, p) && agent.disk.tree[p].content == Json(item) && Eligible(item)
      requires SourceOf(p) in agent.disk.tree && !MarkerThere(agent.disk.tree, p) && (agent.disk.statsReliable || !agent.disk.faulty)
      requires JobMay(agent.cfg, careful, agent.disk.tree, Marked(agent.disk.tree, p))
      requires GoesThrough(agent.cfg, Marked(agent.disk.tree, p), p) && agent.cfg.backend
      modifies this, agent, agent.disk
      ensures st.Ok? ==> again.Ok? && agent.log == old(agent.log) + sent && Delivered(sent)
    {
      hide Tame, MarkersFirst, WellFormed, InStaging, IsManifestPath, SourceOf, MarkerOf, Find, TrueRecord, JobMay, MarkerThere, JobStep,
           GoesThrough, About;
      ghost var t, log := Marked(agent.disk.tree, p), agent.log;
      st := LateMarker(p, item, visits);
      again, sent := st, [];
      if !st.Ok? { return; }
      processed, handled := map[], map[];
      agent.disk.faulty := false;
      ghost var view;
      again, sent, view := Visit(p);
    }
  }

  function Flat<T>(parts: seq<seq<T>>): seq<T>
  {
    if parts == [] then [] else Flat(parts[..|parts| - 1]) + parts[|parts| - 1]
  }

  lemma FlatLast<T>(parts: seq<seq<T>>, part: seq<T>)
    ensures Flat(parts + [part]) == Flat(parts) + part
  {
    assert (parts + [part])[..|parts|] == parts;
  }

  lemma StuckAtFirst(before: map<Path, int>, t: Tree, m: map<Path, int>, walk: seq<Path>, k: nat)
    requires k < |walk|
    ensures MemoryAsBefore(before, before, walk[k..]) && forall p | p in walk[k..] :: Unmoved(t, m, t, m, p)
  {
    hide Unmoved;
    NothingChanged(t, m);
  }

  /** A pass ends at such an entry at the latest, and leaves it and all behind it alone. */
  lemma StuckPass(cfg: Config, careful: Path -> bool, before: map<Path, int>, after: map<Path, int>, t: Tree, m: map<Path, int>,
                  walk: seq<Path>, views: seq<View>, visited: nat, k: nat, st: Status)
    requires k < |walk| && visited <= |walk| && (st.Ok? <==> visited == |walk|) && |views| == (if st.Ok? then visited else visited + 1)
    requires Distinct(walk) && forall p | p in walk :: InStaging(cfg, p)
    requires Chain(cfg, careful, before, t, m, walk, views) && Still(t, m, views)
    requires AllGoThrough(cfg, before, walk[..visited], views[..visited]) && Grown(before, after, walk[..visited])
    requires Due(before, m, t, walk[k]) && Find(t, walk[k]).Unreadable?
    ensures visited <= k && MemoryAsBefore(before, after, walk[k..])
    ensures forall p | p in walk[k..] :: Unmoved(t, m, EndTree(t, views), EndTimes(m, views), p)
  {
    hide InStaging, Unmoved, JobStep, Due, Find, TimeIn, IsManifestPath, Chain, Follows, EndTree, EndTimes, Grown;
    DueIsFile(before, m, t, walk[k]);
    if visited > k {
      NotAmong(walk, k, k);
      UnmovedUntilRead(cfg, careful, before, t, m, walk, views, k, walk[k]);
      SameDue(before, t, m, before, views[k].statTree, views[k].statTimes, walk[k]);
      assert Due(before, views[..visited][k].statTimes, views[..visited][k].statTree, walk[..visited][k]);
      UnreadableFails(cfg, views[k].readTree, walk[k]);
      assert false;
    }
    KeptBehind(before, after, walk, visited, k);
    forall p | p in walk[k..] ensures Unmoved(t, m, EndTree(t, views), EndTimes(m, views), p) {
      var j :| k <= j < |walk| && walk[j] == p;
      StuckAt(cfg, careful, before, t, m, walk, views, visited, k, j);
    }
  }

  lemma StuckAt(cfg: Config, careful: Path -> bool, before: map<Path, int>, t: Tree, m: map<Path, int>,
                walk: seq<Path>, views: seq<View>, visited: nat, k: nat, j: nat)
    requires visited <= k <= j < |walk| && |views| == visited + 1
    requires Distinct(walk) && forall p | p in walk :: InStaging(cfg, p)
    requires Chain(cfg, careful, before, t, m, walk, views) && Still(t, m, views)
    requires IsFile(t, walk[k]) && IsManifestPath(walk[k]) && Find(t, walk[k]).Unreadable?
    ensures Unmoved(t, m, EndTree(t, views), EndTimes(m, views), walk[j])
  {
    hide InStaging, Unmoved, JobStep, Due, Find, TimeIn, IsManifestPath, Chain, Follows;
    if j > visited {
      NotAmong(walk, visited + 1, j);
      assert views[..|views|] == views;
      UnmovedUntilRead(cfg, careful, before, t, m, walk, views, |views|, walk[j]);
    } else {
      NotAmong(walk, k, k);
      UnmovedUntilRead(cfg, careful, before, t, m, walk, views, k, walk[k]);
      FollowsAt(cfg, careful, before, t, m, walk, views, k);
      LeftAlone(cfg, careful, before, EndTree(t, views[..k]), EndTimes(m, views[..k]), t, m, walk[k], views[k]);
    }
  }

  /** An entry that is not ready is left alone by its own visit too. */
  lemma LeftAlone(cfg: Config, careful: Path -> bool, before: map<Path, int>, from: Tree, fromTimes: map<Path, int>,
                  t: Tree, m: map<Path, int>, p: Path, view: View)
    requires Follows(cfg, careful, before, from, fromTimes, p, view) && IsFile(t, p) && IsManifestPath(p) && !Find(t, p).Ready?
    requires Unmoved(t, m, view.readTree, view.readTimes, p)
    ensures Unmoved(t, m, view.endTree, view.endTimes, p)
  {
    hide InStaging, JobStep, Due, Find, TimeIn, IsManifestPath, SourceOf;
  }

  lemma UnreadableFails(cfg: Config, t: Tree, p: Path)
    requires IsManifestPath(p) && Find(t, p).Unreadable?
    ensures !GoesThrough(cfg, t, p)
  {
  }

  lemma NotAmong(walk: seq<Path>, n: nat, j: nat)
    requires Distinct(walk) && n <= j < |walk|
    ensures walk[j] !in walk[..n]
  {
  }

  lemma KeptBehind(before: map<Path, int>, after: map<Path, int>, walk: seq<Path>, visited: nat, k: nat)
    requires Distinct(walk) && visited <= k < |walk| && Grown(before, after, walk[..visited])
    ensures MemoryAsBefore(before, after, walk[k..])
  {
    forall p | p in walk[k..] ensures p !in walk[..visited] {
      var j :| k <= j < |walk| && walk[j] == p;
      NotAmong(walk, visited, j);
    }
  }

  lemma StuckStep(before: map<Path, int>, processed: map<Path, int>, processed': map<Path, int>, t: Tree, m: map<Path, int>,
                  t1: Tree, m1: map<Path, int>, t2: Tree, m2: map<Path, int>, walk: seq<Path>, k: nat)
    requires k < |walk| && MemoryAsBefore(before, processed, walk[k..]) && MemoryAsBefore(processed, processed', walk[k..])
    requires forall p | p in walk[k..] :: Unmoved(t, m, t1, m1, p)
    requires forall p | p in walk[k..] :: Unmoved(t1, m1, t2, m2, p)
    requires Due(processed, m1, t1, walk[k]) && Find(t1, walk[k]).Unreadable?
    ensures MemoryAsBefore(before, processed', walk[k..])
    ensures forall p | p in walk[k..] :: Unmoved(t, m, t2, m2, p)
    ensures Due(processed', m2, t2, walk[k]) && Find(t2, walk[k]).Unreadable?
  {
    hide Unmoved, Due, Find;
    forall p | p in walk[k..] ensures Unmoved(t, m, t2, m2, p) {
      UnmovedTrans(t, m, t1, m1, t2, m2, p);
    }
    assert walk[k..][0] == walk[k];
    DueIsFile(processed, m1, t1, walk[k]);
    SameDue(processed, t1, m1, processed', t2, m2, walk[k]);
  }

  /** The disk once the job has added the marker of p's checkpoint. */
  function Marked(t: Tree, p: Path): Tree
    requires IsManifestPath(p)
  {
    t[MarkerOf(SourceOf(p), IsDir(t, SourceOf(p))) := File(Raw(""))]
  }

  lemma MarkedReady(t: Tree, p: Path, item: Manifest)
    requires IsManifestPath(p) && IsFile(t, p) && t[p].content == Json(item) && Eligible(item)
    requires SourceOf(p) in t && !MarkerThere(t, p)
    ensures Find(t, p).Skipped?
    ensures Find(Marked(t, p), p) == Ready(item) && Marked(t, p)[p] == t[p]
  {
    hide SourceOf, MarkerOf;
  }

  predicate Distinct(walk: seq<Path>)
  {
    forall i, j | 0 <= i < j < |walk| :: walk[i] != walk[j]
  }

  /** Recorded times only grow, and only entries in `done` are recorded anew. */
  ghost predicate Grown(before: map<Path, int>, after: map<Path, int>, done: seq<Path>)
  {
    && (forall p | p in after :: p in done || (p in before && after[p] == before[p]))
    && (forall p | p in before :: p in after && before[p] <= after[p])
  }

  /** The entries still to come are remembered as before. */
  ghost predicate MemoryAsBefore(before: map<Path, int>, processed: map<Path, int>, rest: seq<Path>)
  {
    forall p | p in rest :: (p in before <==> p in processed) && (p in before ==> processed[p] == before[p])
  }

  lemma EndAtFirst(t: Tree, m: map<Path, int>)
    ensures EndTree(t, []) == t && EndTimes(m, []) == m
  {
  }

  lemma EndStep(t: Tree, m: map<Path, int>, views: seq<View>, view: View)
    ensures EndTree(t, views + [view]) == view.endTree && EndTimes(m, views + [view]) == view.endTimes
  {
  }

  /** How far a walk has got: all that is known of its visits while there has been no error. */
  ghost predicate Progress(cfg: Config, careful: Path -> bool, pid: nat, sure: bool, calm: bool, quiet: bool,
                           before: map<Path, int>, t: Tree, m: map<Path, int>, processed: map<Path, int>, handled: map<Path, Version>,
                           walk: seq<Path>, views: seq<View>, sents: seq<seq<Post>>)
  {
    var i := |views|;
    && i == |sents| <= |walk|
    && Chain(cfg, careful, before, t, m, walk, views) && (quiet ==> Still(t, m, views))
    && Grown(before, processed, walk[..i]) && MemoryAsBefore(before, processed, walk[i..])
    && (sure ==> AllHandled(cfg, pid, before, processed, handled, walk[..i], views, sents))
    && (calm ==> AllGoThrough(cfg, before, walk[..i], views))
  }

  lemma AtFirst(cfg: Config, careful: Path -> bool, pid: nat, sure: bool, calm: bool, quiet: bool, walk: seq<Path>,
                processed: map<Path, int>, handled: map<Path, Version>, t: Tree, m: map<Path, int>)
    ensures Progress(cfg, careful, pid, sure, calm, quiet, processed, t, m, processed, handled, walk, [], [])
  {
  }

  /** One more visit, with or without error. */
  lemma ProgressStep(cfg: Config, careful: Path -> bool, pid: nat, sure: bool, calm: bool, quiet: bool,
                     before: map<Path, int>, t: Tree, m: map<Path, int>, processed: map<Path, int>, processed': map<Path, int>,
                     handled: map<Path, Version>, handled': map<Path, Version>, walk: seq<Path>, views: seq<View>, sents: seq<seq<Post>>,
                     st: Status, view: View, sent: seq<Post>)
    requires Progress(cfg, careful, pid, sure, calm, quiet, before, t, m, processed, handled, walk, views, sents)
    requires |views| == |sents| < |walk| && Distinct(walk)
    requires var p := walk[|views|];
             && Follows(cfg, careful, processed, EndTree(t, views), EndTimes(m, views), p, view)
             && (quiet ==> view.statTree == view.readTree == EndTree(t, views) && view.statTimes == view.readTimes == EndTimes(m, views))
             && ((processed' == processed && handled' == handled) ||
                 (st.Ok? && p in processed' && processed' == processed[p := processed'[p]] && p in handled' && handled' == handled[p := handled'[p]] &&
                  (p in processed ==> processed[p] < processed'[p])))
             && (!Due(processed, view.statTimes, view.statTree, p) ==> st.Ok? && sent == [])
             && (IsFile(view.statTree, p) && IsManifestPath(p) && !Due(processed, view.statTimes, view.statTree, p) ==>
                   p in processed' && p in handled' &&
                   handled'[p].content == view.statTree[p].content && handled'[p].mtime == TimeIn(view.statTimes, p))
             && (st.Ok? && sure && Due(processed, view.statTimes, view.statTree, p) ==>
                   p in processed' && processed'[p] == TimeIn(view.statTimes, p) <= TimeIn(view.readTimes, p) && p in handled' &&
                   IsFile(view.readTree, p) &&
                   handled'[p] == Version(TimeIn(view.readTimes, p), view.readTree[p].content, Find(view.readTree, p), false) &&
                   HandledAs(cfg, pid, p, handled'[p], sent, view.readTree, view.endTree))
             && (calm && Due(processed, view.statTimes, view.statTree, p) ==> (st.Ok? <==> GoesThrough(cfg, view.readTree, p)))
    ensures st.Ok? ==> Progress(cfg, careful, pid, sure, calm, quiet, before, t, m, processed', handled', walk, views + [view], sents + [sent])
    ensures !st.Ok? ==> var i := |views|;
              && Chain(cfg, careful, before, t, m, walk, views + [view]) && (quiet ==> Still(t, m, views + [view]))
              && Grown(before, processed', walk[..i]) && (views + [view])[..i] == views && (sents + [sent])[..i] == sents
              && (sure ==> AllHandled(cfg, pid, before, processed', handled', walk[..i], views, sents))
              && (calm ==> AllGoThrough(cfg, before, walk[..i], views))
              && (calm ==> Due(before, view.statTimes, view.statTree, walk[i]) && !GoesThrough(cfg, view.readTree, walk[i]))
  {
    hide Follows, Due, TimeIn, IsManifestPath, Find, HandledAs, GoesThrough, Chain, Still, Grown, MemoryAsBefore, AllHandled, AllGoThrough, Distinct,
         EndTree, EndTimes;
    var i := |views|;
    MemoryStep(walk, i, before, processed, processed');
    SameMemory(before, processed, view.statTree, view.statTimes, walk[i]);
    ChainStep(cfg, careful, before, processed, t, m, walk, views, view);
    if quiet { StillStep(t, m, views, view); }
    if st.Ok? {
      if sure { HandledStep(cfg, pid, walk, i, before, processed, processed', handled, handled', views, sents, view, sent); }
      ThroughStep(cfg, before, processed, walk, i, views, view, calm);
    }
  }

  lemma ProgressEnd(cfg: Config, careful: Path -> bool, pid: nat, sure: bool, calm: bool, quiet: bool,
                    before: map<Path, int>, t: Tree, m: map<Path, int>, processed: map<Path, int>, handled: map<Path, Version>,
                    walk: seq<Path>, views: seq<View>, sents: seq<seq<Post>>)
    requires Progress(cfg, careful, pid, sure, calm, quiet, before, t, m, processed, handled, walk, views, sents)
    requires |views| == |sents| == |walk|
    ensures walk[..|walk|] == walk && views[..|walk|] == views && sents[..|walk|] == sents
    ensures Chain(cfg, careful, before, t, m, walk, views) && (quiet ==> Still(t, m, views))
    ensures Grown(before, processed, walk)
    ensures sure ==> AllHandled(cfg, pid, before, processed, handled, walk, views, sents)
    ensures calm ==> AllGoThrough(cfg, before, walk, views)
  {
    hide Chain, Still, Grown, MemoryAsBefore, AllHandled, AllGoThrough;
    assert walk[..|walk|] == walk;
  }

  /** One more visit. The memory it works with is that of the beginning as far as its entry goes. */
  lemma ChainStep(cfg: Config, careful: Path -> bool, before: map<Path, int>, processed: map<Path, int>, t: Tree, m: map<Path, int>,
                  walk: seq<Path>, views: seq<View>, view: View)
    requires |views| < |walk| && Chain(cfg, careful, before, t, m, walk, views)
    requires var p := walk[|views|]; (p in before <==> p in processed) && (p in before ==> processed[p] == before[p])
    requires Follows(cfg, careful, processed, EndTree(t, views), EndTimes(m, views), walk[|views|], view)
    ensures Chain(cfg, careful, before, t, m, walk, views + [view])
  {
    hide Follows, EndTree, EndTimes;
    var n, more := |views|, views + [view];
    FollowsSame(cfg, careful, before, processed, EndTree(t, views), EndTimes(m, views), walk[n], view);
    forall i | 0 <= i < |more| ensures Follows(cfg, careful, before, EndTree(t, more[..i]), EndTimes(m, more[..i]), walk[i], more[i]) {
      Front(views, view, i);
      if i < n { FollowsAt(cfg, careful, before, t, m, walk, views, i); }
    }
  }

  lemma Front<T>(xs: seq<T>, x: T, i: nat)
    requires i <= |xs|
    ensures (xs + [x])[..i] == xs[..i] && (i == |xs| ==> xs[..i] == xs)
    ensures (xs + [x])[i] == if i < |xs| then xs[i] else x
  {
  }

  lemma StillStep(t: Tree, m: map<Path, int>, views: seq<View>, view: View)
    requires Still(t, m, views)
    requires view.statTree == view.readTree == EndTree(t, views) && view.statTimes == view.readTimes == EndTimes(m, views)
    ensures Still(t, m, views + [view])
  {
    hide EndTree, EndTimes;
    var more := views + [view];
    forall i | 0 <= i < |more|
      ensures more[i].statTree == more[i].readTree == EndTree(t, more[..i]) && more[i].statTimes == more[i].readTimes == EndTimes(m, more[..i])
    {
      Front(views, view, i);
    }
  }

  lemma FollowsSame(cfg: Config, careful: Path -> bool, before: map<Path, int>, processed: map<Path, int>, t: Tree, m: map<Path, int>, p: Path, view: View)
    requires (p in before <==> p in processed) && (p in before ==> processed[p] == before[p])
    requires Follows(cfg, careful, processed, t, m, p, view)
    ensures Follows(cfg, careful, before, t, m, p, view)
  {
    hide JobStep, Unmoved, InStaging, Find, IsManifestPath, TimeIn, Due;
    SameMemory(before, processed, view.statTree, view.statTimes, p);
  }

  lemma SameMemory(before: map<Path, int>, processed: map<Path, int>, t: Tree, m: map<Path, int>, p: Path)
    requires (p in before <==> p in processed) && (p in before ==> processed[p] == before[p])
    ensures Due(before, m, t, p) <==> Due(processed, m, t, p)
  {
  }

  lemma ThroughStep(cfg: Config, before: map<Path, int>, processed: map<Path, int>, walk: seq<Path>, i: nat, views: seq<View>, view: View, calm: bool)
    requires i < |walk| && (calm ==> AllGoThrough(cfg, before, walk[..i], views))
    requires Due(before, view.statTimes, view.statTree, walk[i]) <==> Due(processed, view.statTimes, view.statTree, walk[i])
    requires calm && Due(processed, view.statTimes, view.statTree, walk[i]) ==> GoesThrough(cfg, view.readTree, walk[i])
    ensures calm ==> AllGoThrough(cfg, before, walk[..i + 1], views + [view])
  {
    hide GoesThrough;
    if calm {
      assert walk[..i + 1] == walk[..i] + [walk[i]];
    }
  }

  lemma NoStep(cfg: Config, careful: Path -> bool, t: Tree, m: map<Path, int>)
    ensures JobStep(cfg, careful, t, m, t, m)
  {
    hide JobMay, InStaging;
  }

  lemma Regroup<T>(a: seq<T>, b: seq<T>, c: seq<T>)
    ensures a + (b + c) == (a + b) + c
  {
  }

  lemma {:induction false} ConcatBoth(a: seq<seq<Post>>, b: seq<seq<Post>>)
    ensures Concat(a + b) == Concat(a) + Concat(b)
    decreases |b|
  {
    if b == [] {
      assert a + b == a;
    } else {
      var most, last := b[..|b| - 1], b[|b| - 1];
      ConcatBoth(a, most);
      assert (a + b)[..|a + b| - 1] == a + most && (a + b)[|a + b| - 1] == last;
      Regroup(Concat(a), Concat(most), last);
    }
  }

  /**
   * A manifest that the memory lets the agent skip has been handled as it stands: its present
   * content is the content that was read, and its commit was delivered or it was not ready then.
   */
  lemma SkippedIsHandled(poller: Poller, p: Path)
    requires poller.Valid() && p in poller.processed && IsFile(poller.agent.disk.tree, p)
    requires poller.agent.disk.MTime(p) <= poller.processed[p]
    ensures p in poller.handled && IsManifestPath(p)
    ensures poller.handled[p].content == poller.agent.disk.tree[p].content
    ensures match poller.handled[p].found
            case Unreadable => false
            case Skipped => poller.handled[p].content.Json?
            case Ready(item) =>
              if poller.handled[p].missed then !poller.agent.disk.statsReliable
              else poller.agent.cfg.backend ==> DeliveredIn(poller.agent.cfg, poller.agent.log, p, item)
  {
    assert poller.Recorded(p);
  }

  /**
   * A job that writes the marker of p first gets every commit of p, whatever other jobs do: once an
   * eligible version of p is one the agent skips, its `committed` event has been accepted.
   */
  lemma MarkersFirstDeliver(poller: Poller, p: Path, item: Manifest)
    requires poller.Valid() && poller.careful(p) && poller.agent.disk.statsReliable && poller.agent.cfg.backend
    requires p in poller.processed && poller.agent.disk.MTime(p) <= poller.processed[p]
    requires IsFile(poller.agent.disk.tree, p) && poller.agent.disk.tree[p].content == Json(item) && Eligible(item)
    ensures IsManifestPath(p) && DeliveredIn(poller.agent.cfg, poller.agent.log, p, item)
  {
    hide DeliveredIn;
    assert poller.Recorded(p);
  }

  lemma NothingConcat()
    ensures Concat([]) == []
  {
  }

  lemma ConcatLast(sents: seq<seq<Post>>, sent: seq<Post>)
    requires sents != [] && sents[|sents| - 1] == sent
    ensures Concat(sents) == Concat(sents[..|sents| - 1]) + sent
  {
  }

  lemma GrownStep(first: map<Path, int>, before: map<Path, int>, after: map<Path, int>, walk: seq<Path>, i: nat)
    requires i < |walk| && Grown(first, before, walk[..i])
    requires after == before || (walk[i] in after && after == before[walk[i] := after[walk[i]]] &&
                                 (walk[i] in before ==> before[walk[i]] < after[walk[i]]))
    ensures Grown(first, after, walk[..i + 1])
    ensures after == before ==> Grown(first, after, walk[..i])
  {
    assert walk[..i + 1] == walk[..i] + [walk[i]];
  }

  lemma SameDue(before: map<Path, int>, t: Tree, m: map<Path, int>, processed: map<Path, int>, t': Tree, m': map<Path, int>, p: Path)
    requires Unmoved(t, m, t', m', p) && (p in before <==> p in processed) && (p in before ==> processed[p] == before[p])
    ensures Due(before, m, t, p) <==> Due(processed, m', t', p)
    ensures IsFile(t, p) <==> IsFile(t', p)
    ensures IsFile(t, p) && IsManifestPath(p) ==> t'[p] == t[p] && Find(t', p) == Find(t, p) && TimeIn(m', p) == TimeIn(m, p)
    ensures IsFile(t, p) && IsManifestPath(p) ==> IsDir(t', SourceOf(p)) == IsDir(t, SourceOf(p))
  {
    hide Find, SourceOf, IsManifestPath;
  }

  lemma HeadRemembered(before: map<Path, int>, processed: map<Path, int>, walk: seq<Path>, i: nat)
    requires i < |walk| && MemoryAsBefore(before, processed, walk[i..])
    ensures var p := walk[i]; (p in before <==> p in processed) && (p in before ==> processed[p] == before[p])
  {
    assert walk[i..][0] == walk[i];
  }

  /** What one visit adds for its own entry. */
  lemma EntryStep(cfg: Config, pid: nat, p: Path, before: map<Path, int>, processed: map<Path, int>, processed': map<Path, int>,
                  handled: map<Path, Version>, handled': map<Path, Version>, view: View, sent: seq<Post>)
    requires (p in before <==> p in processed) && (p in before ==> processed[p] == before[p])
    requires Due(processed, view.statTimes, view.statTree, p) ==>
               p in processed' && processed'[p] == TimeIn(view.statTimes, p) <= TimeIn(view.readTimes, p) && p in handled' &&
               IsFile(view.readTree, p) &&
               handled'[p] == Version(TimeIn(view.readTimes, p), view.readTree[p].content, Find(view.readTree, p), false) &&
               HandledAs(cfg, pid, p, handled'[p], sent, view.readTree, view.endTree)
    requires !Due(processed, view.statTimes, view.statTree, p) ==> sent == []
    requires IsFile(view.statTree, p) && IsManifestPath(p) && !Due(processed, view.statTimes, view.statTree, p) ==>
               p in processed' && p in handled' &&
               handled'[p].content == view.statTree[p].content && handled'[p].mtime == TimeIn(view.statTimes, p)
    ensures EntryDone(cfg, pid, before, view, processed', handled', p, sent)
  {
    hide Find, IsManifestPath, HandledAs, TimeIn;
    assert Due(before, view.statTimes, view.statTree, p) <==> Due(processed, view.statTimes, view.statTree, p);
  }

  lemma DueIsFile(processed: map<Path, int>, m: map<Path, int>, t: Tree, p: Path)
    ensures Due(processed, m, t, p) ==> IsFile(t, p) && IsManifestPath(p)
  {
  }

  lemma HandledStep(cfg: Config, pid: nat, walk: seq<Path>, i: nat, before: map<Path, int>, processed: map<Path, int>,
                    processed': map<Path, int>, handled: map<Path, Version>, handled': map<Path, Version>,
                    views: seq<View>, sents: seq<seq<Post>>, view: View, sent: seq<Post>)
    requires i < |walk| && Distinct(walk) && AllHandled(cfg, pid, before, processed, handled, walk[..i], views, sents)
    requires var p := walk[i];
             && (p in before <==> p in processed) && (p in before ==> processed[p] == before[p])
             && (Due(processed, view.statTimes, view.statTree, p) ==>
                   p in processed' && processed'[p] == TimeIn(view.statTimes, p) <= TimeIn(view.readTimes, p) && p in handled' &&
                   IsFile(view.readTree, p) &&
                   handled'[p] == Version(TimeIn(view.readTimes, p), view.readTree[p].content, Find(view.readTree, p), false) &&
                   HandledAs(cfg, pid, p, handled'[p], sent, view.readTree, view.endTree))
             && (!Due(processed, view.statTimes, view.statTree, p) ==> sent == [])
             && (IsFile(view.statTree, p) && IsManifestPath(p) && !Due(processed, view.statTimes, view.statTree, p) ==>
                   p in processed' && p in handled' &&
                   handled'[p].content == view.statTree[p].content && handled'[p].mtime == TimeIn(view.statTimes, p))
    requires (processed' == processed && handled' == handled) ||
             (walk[i] in processed' && processed' == processed[walk[i] := processed'[walk[i]]] &&
              walk[i] in handled' && handled' == handled[walk[i] := handled'[walk[i]]])
    ensures AllHandled(cfg, pid, before, processed', handled', walk[..i + 1], views + [view], sents + [sent])
  {
    hide Find, IsManifestPath, TimeIn, Due, HandledAs, AllHandled, Distinct, EntryDone;
    EntryStep(cfg, pid, walk[i], before, processed, processed', handled, handled', view, sent);
    OneMoreHandled(cfg, pid, walk, i, before, processed, processed', handled, handled', views, sents, view, sent);
  }

  lemma OneMoreHandled(cfg: Config, pid: nat, walk: seq<Path>, i: nat, before: map<Path, int>, processed: map<Path, int>, processed': map<Path, int>,
                       handled: map<Path, Version>, handled': map<Path, Version>, views: seq<View>, sents: seq<seq<Post>>,
                       view: View, sent: seq<Post>)
    requires i < |walk| && Distinct(walk)
    requires AllHandled(cfg, pid, before, processed, handled, walk[..i], views, sents)
    requires EntryDone(cfg, pid, before, view, processed', handled', walk[i], sent)
    requires (processed' == processed && handled' == handled) ||
             (walk[i] in processed' && processed' == processed[walk[i] := processed'[walk[i]]] &&
              walk[i] in handled' && handled' == handled[walk[i] := handled'[walk[i]]])
    ensures AllHandled(cfg, pid, before, processed', handled', walk[..i + 1], views + [view], sents + [sent])
  {
    hide EntryDone;
    forall k | 0 <= k < i ensures EntryDone(cfg, pid, before, views[k], processed', handled', walk[k], sents[k]) {
      assert walk[..i][k] == walk[k];
      EntryElsewhere(cfg, pid, before, views[k], processed, processed', handled, handled', walk[k], sents[k]);
    }
  }

  /** What one visit means for the memory. */
  lemma MemoryStep(walk: seq<Path>, i: nat, before: map<Path, int>, processed: map<Path, int>, processed': map<Path, int>)
    requires i < |walk| && Distinct(walk) && MemoryAsBefore(before, processed, walk[i..]) && Grown(before, processed, walk[..i])
    requires processed' == processed || (walk[i] in processed' && processed' == processed[walk[i] := processed'[walk[i]]] &&
                                         (walk[i] in processed ==> processed[walk[i]] < processed'[walk[i]]))
    ensures MemoryAsBefore(before, processed', walk[i + 1..]) && Grown(before, processed', walk[..i + 1])
    ensures processed' == processed ==> Grown(before, processed', walk[..i])
    ensures var p := walk[i]; (p in before <==> p in processed) && (p in before ==> processed[p] == before[p])
  {
    hide Grown;
    GrownStep(before, processed, processed', walk, i);
    HeadRemembered(before, processed, walk, i);
    assert walk[i..] == [walk[i]] + walk[i + 1..];
    forall p | p in walk[i + 1..] ensures (p in before <==> p in processed') && (p in before ==> processed'[p] == before[p]) {
      var j :| i + 1 <= j < |walk| && walk[j] == p;
    }
  }

  lemma EntryElsewhere(cfg: Config, pid: nat, before: map<Path, int>, view: View, processed: map<Path, int>, processed': map<Path, int>,
                       handled: map<Path, Version>, handled': map<Path, Version>, p: Path, sent: seq<Post>)
    requires EntryDone(cfg, pid, before, view, processed, handled, p, sent)
    requires (p in processed <==> p in processed') && (p in processed ==> processed'[p] == processed[p])
    requires (p in handled <==> p in handled') && (p in handled ==> handled'[p] == handled[p])
    ensures EntryDone(cfg, pid, before, view, processed', handled', p, sent)
  {
    hide Due, Find, TimeIn, IsManifestPath, HandledAs;
  }

  lemma UnmovedTrans(t: Tree, m: map<Path, int>, t1: Tree, m1: map<Path, int>, t2: Tree, m2: map<Path, int>, q: Path)
    requires Unmoved(t, m, t1, m1, q) && Unmoved(t1, m1, t2, m2, q)
    ensures Unmoved(t, m, t2, m2, q)
  {
    hide Find, SourceOf, IsManifestPath;
  }

  /** One visit does what its entry asks for, or nothing. */
  lemma DiskStep(cfg: Config, pid: nat, walk: seq<Path>, i: nat, before: map<Path, int>, t: Tree, m: map<Path, int>,
                 handled': map<Path, Version>, t1: Tree, m1: map<Path, int>, t2: Tree, sent: seq<Post>,
                 deeds: seq<Deed>) returns (deeds': seq<Deed>)
    requires i < |walk| && DiskIs(cfg, pid, before, t, m, walk[..i], deeds, t1)
    requires Unmoved(t, m, t1, m1, walk[i])
    requires Due(before, m1, t1, walk[i]) ==>
               walk[i] in handled' && handled'[walk[i]] == Version(TimeIn(m1, walk[i]), t1[walk[i]].content, Find(t1, walk[i]), false) &&
               HandledAs(cfg, pid, walk[i], handled'[walk[i]], sent, t1, t2)
    requires !Due(before, m1, t1, walk[i]) ==> t2 == t1
    ensures DiskIs(cfg, pid, before, t, m, walk[..i + 1], deeds', t2)
  {
    hide Find, SourceOf, IsManifestPath, Unmoved, Due, About, TimeIn, Plans, PlanOf, DoAll, AlikeDeed, HandledAs, DiskIs;
    var p := walk[i];
    SameDue(before, t, m, before, t1, m1, p);
    DueIsFile(before, m, t, p);
    if Due(before, m, t, p) && Find(t, p).Ready? {
      var d := DeedOf(cfg, pid, p, handled'[p], sent, t, t1, t2);
      deeds' := deeds + [d];
      DiskMore(cfg, pid, walk, i, before, t, m, deeds, t1, d, t2);
    } else {
      deeds' := deeds;
      if Due(before, m, t, p) { SkipsNothing(cfg, pid, p, handled'[p], sent, t1, t2); }
      DiskSame(cfg, pid, walk, i, before, t, m, deeds, t1);
    }
  }

  lemma SkipsNothing(cfg: Config, pid: nat, p: Path, v: Version, sent: seq<Post>, t: Tree, t': Tree)
    requires IsManifestPath(p) && !v.found.Ready? && HandledAs(cfg, pid, p, v, sent, t, t')
    ensures t' == t
  {
  }

  lemma DeedOf(cfg: Config, pid: nat, p: Path, v: Version, sent: seq<Post>, t0: Tree, t: Tree, t': Tree) returns (d: Deed)
    requires IsManifestPath(p) && v.found == Find(t0, p) && v.found.Ready? && !v.missed && HandledAs(cfg, pid, p, v, sent, t, t')
    requires IsDir(t, SourceOf(p)) == IsDir(t0, SourceOf(p))
    ensures t' == Do(t, d) && AlikeDeed(d, PlanOf(cfg, pid, t0, p, v.found.item))
  {
    hide Find, SourceOf, Do, PlanOf, AlikeDeed, Committed, PolledOn, About, AnnouncedHolds, GoesThrough, InPlace;
    d := DeedDone(cfg, pid, p, v.found.item, t0, t, t');
  }

  lemma DiskMore(cfg: Config, pid: nat, walk: seq<Path>, i: nat, before: map<Path, int>, t: Tree, m: map<Path, int>,
                 deeds: seq<Deed>, t1: Tree, d: Deed, t2: Tree)
    requires i < |walk| && DiskIs(cfg, pid, before, t, m, walk[..i], deeds, t1) && t2 == Do(t1, d)
    requires Due(before, m, t, walk[i]) && Find(t, walk[i]).Ready? && AlikeDeed(d, PlanOf(cfg, pid, t, walk[i], Find(t, walk[i]).item))
    ensures DiskIs(cfg, pid, before, t, m, walk[..i + 1], deeds + [d], t2)
  {
    hide Find, Due, Plans, PlanOf, Do, AlikeDeed;
    PlansLast(cfg, pid, before, m, t, walk, i);
    assert (deeds + [d])[..|deeds|] == deeds;
  }

  lemma DiskSame(cfg: Config, pid: nat, walk: seq<Path>, i: nat, before: map<Path, int>, t: Tree, m: map<Path, int>,
                 deeds: seq<Deed>, t1: Tree)
    requires i < |walk| && DiskIs(cfg, pid, before, t, m, walk[..i], deeds, t1)
    requires Due(before, m, t, walk[i]) ==> !Find(t, walk[i]).Ready?
    ensures DiskIs(cfg, pid, before, t, m, walk[..i + 1], deeds, t1)
  {
    hide Find, Due, Plans, PlanOf, DoAll, AlikeDeed;
    PlansLast(cfg, pid, before, m, t, walk, i);
    assert PlanAt(cfg, pid, before, m, t, walk[i]) == [];
  }

  /** An attempt at p does not move the modification time of another staged file. */
  lemma NotTouched(cfg: Config, t: Tree, t': Tree, p: Path, q: Path)
    requires InStaging(cfg, p) && IsManifestPath(p) && Tame(cfg, t) && InStaging(cfg, q) && q != p
    requires SameButAt(t, t', cfg.stagingDir, p)
    ensures !MayTouch(cfg, p, t, q) && SameNode(t, t', q)
  {
    match Find(t, p)
    case Ready(item) =>
      var dest := DestinationOf(cfg, p, item);
      assert TameAt(cfg, t, p);
      if !InPlace(cfg, p, item) {
        ClearIsOutOfReach(cfg.stagingDir, dest);
        BelowClear(cfg.stagingDir, q, dest);
        var isDir := IsDir(t, SourceOf(p));
        assert dest <= MarkerOf(dest, true);
      }
    case _ =>
  }

  lemma NothingChanged(t: Tree, m: map<Path, int>)
    ensures forall q: Path :: Unmoved(t, m, t, m, q)
  {
    hide Find, SourceOf;
  }

  /** A record that is not older than the file is a record of the file as it is. */
  lemma RecordIsCurrent(cfg: Config, careful: bool, reliable: bool, t: Tree, mtime: int, log: seq<Post>, p: Path, at: int, v: Version)
    requires TrueRecord(cfg, careful, reliable, t, mtime, log, p, at, v) && mtime <= at && IsFile(t, p)
    ensures at == v.mtime == mtime && v.content == t[p].content
  {
  }

  lemma NothingSent()
    ensures AttemptLanguage([])
  {
  }

  lemma CoversStaged(cfg: Config, t: Tree, p: Path)
    requires InStaging(cfg, p) && IsManifestPath(p) && Tame(cfg, t)
    ensures Covers(cfg, t, p)
  {
    match Find(t, p)
    case Ready(item) =>
      var dest := DestinationOf(cfg, p, item);
      assert TameAt(cfg, t, p);
      if !InPlace(cfg, p, item) {
        ClearIsOutOfReach(cfg.stagingDir, dest);
        SourceInStaging(cfg, p);
        BelowClear(cfg.stagingDir, SourceOf(p), dest);
      }
    case _ =>
  }

  /** An attempt keeps the staging area in order. */
  lemma AfterAttempt(cfg: Config, careful: Path -> bool, atomicRemoval: bool, p: Path, pid: nat, t: Tree, t': Tree)
    requires InStaging(cfg, p) && IsManifestPath(p) && Tame(cfg, t) && WellFormed(t) && WellFormed(t')
    requires Leaves(cfg, atomicRemoval, p, pid, t, t')
    ensures Tame(cfg, t') && (MarkersFirst(cfg, careful, t) ==> MarkersFirst(cfg, careful, t'))
    ensures SameButAt(t, t', cfg.stagingDir, p)
    ensures SameNode(t, t', p) || (Find(t, p).Ready? && InPlace(cfg, p, Find(t, p).item))
  {
    hide Tame, MarkersFirst, AttemptLeaves, WellFormed, SourceOf, DestinationOf;
    if p in t {
      AtEntry(cfg, t, p);
      TameStays(cfg, careful, atomicRemoval, p, pid, t, t');
      OthersStay(cfg, atomicRemoval, p, pid, t, t');
    }
  }

  lemma IsUnmoved(cfg: Config, t: Tree, m: map<Path, int>, t': Tree, m': map<Path, int>, p: Path, q: Path)
    requires SameButAt(t, t', cfg.stagingDir, p) && SameNode(t, t', q) && TimeIn(m', q) == TimeIn(m, q)
    requires InStaging(cfg, q) && WellFormed(t) && WellFormed(t') && Tame(cfg, t)
    ensures Unmoved(t, m, t', m', q)
  {
    hide SameButAt, WellFormed, Find, SourceOf, TameAt;
    if IsManifestPath(q) && q in t {
      assert Stem(q) != "..";
      FindSame(cfg, t, t', p, q);
      SourceAndMarkerStay(cfg, t, t', p, q);
    }
  }

  lemma AtEntry(cfg: Config, t: Tree, p: Path)
    requires Tame(cfg, t) && InStaging(cfg, p) && IsManifestPath(p) && p in t
    ensures Stem(p) != ".." && TameAt(cfg, t, p)
  {
  }

  lemma SkippedDoesNothing(cfg: Config, atomicRemoval: bool, p: Path, pid: nat, t: Tree)
    requires IsManifestPath(p)
    ensures !Find(t, p).Ready? ==> !MayTouch(cfg, p, t, p) && forall t' | Leaves(cfg, atomicRemoval, p, pid, t, t') :: t' == t
  {
  }

  lemma OthersSame(cfg: Config, careful: bool, reliable: bool, t: Tree, t': Tree, p: Path, q: Path, mtime: int, log: seq<Post>, at: int, v: Version)
    requires SameButAt(t, t', cfg.stagingDir, p) && TrueRecord(cfg, careful, reliable, t, mtime, log, q, at, v)
    ensures q != p ==> SameNode(t, t', q)
  {
  }
}
