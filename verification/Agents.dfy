// processManifest: one attempt at one manifest, with its events.
module Agents {
  import opened Text
  import opened CleanPath
  import opened Destinations
  import opened Manifests
  import opened Trees
  import opened Disks
  import opened Copying
  import opened Commits

  const UPLOADING := "uploading"
  const FAILED := "failed"

  datatype Event = Event(
    jobName: string, runID: string, path: string, storagePath: string, status: string,
    step: int, sizeBytes: int, framework: string, format: string, metadata: map<string, string>)

  /** A request that was sent, and whether the agent saw the backend accept it. */
  datatype Post = Post(event: Event, accepted: bool)

  function EventFor(item: Manifest, final: Manifest, status: string, metadata: map<string, string>): Event
  {
    Event(item.jobName, item.runID, final.path, final.storagePath, status, item.step, item.sizeBytes,
          item.framework, item.format, metadata)
  }

  /** Every event carries the checkpoint's id; only `committed` claims a copy and only `failed` gives an error. */
  predicate Labelled(item: Manifest, status: string, metadata: map<string, string>)
  {
    && "checkpointID" in metadata && metadata["checkpointID"] == item.checkpointID
    && ("agentCopied" in metadata <==> status == COMMITTED)
    && ("error" in metadata <==> status == FAILED)
  }

  /** The event announces this manifest's checkpoint at this destination. */
  ghost predicate About(cfg: Config, manifestPath: Path, item: Manifest, e: Event)
    requires IsManifestPath(manifestPath)
  {
    var final := FinalManifest(cfg, manifestPath, item, "");
    && e.jobName == item.jobName && e.runID == item.runID && e.step == item.step && e.sizeBytes == item.sizeBytes
    && e.framework == item.framework && e.format == item.format
    && e.path == final.path && e.storagePath == final.storagePath
    && Labelled(item, e.status, e.metadata)
  }

  /** The events of one attempt: a prefix of uploading-committed or of uploading-failed. */
  ghost predicate AttemptLanguage(sent: seq<Post>)
  {
    || sent == []
    || (|sent| == 1 && sent[0].event.status == UPLOADING)
    || (|sent| == 2 && sent[0].event.status == UPLOADING && sent[0].accepted &&
        (sent[1].event.status == COMMITTED || sent[1].event.status == FAILED))
  }

  /** Some `committed` event was sent, accepted or not. */
  ghost predicate Announced(sent: seq<Post>)
  {
    |sent| == 2 && sent[1].event.status == COMMITTED
  }

  /** The attempt's `committed` event was sent and accepted. */
  ghost predicate Delivered(sent: seq<Post>)
  {
    Announced(sent) && sent[1].accepted
  }

  /** An in-place attempt changes at most its own manifest; cut short, it can leave that one torn. */
  ghost predicate InPlaceLeaves(cfg: Config, manifestPath: Path, item: Manifest, t0: Tree, t: Tree)
    requires IsManifestPath(manifestPath)
  {
    || t == t0
    || (NeedsRewrite(cfg, manifestPath, item) && IsFile(t, manifestPath) && t == t0[manifestPath := t[manifestPath]] &&
        (t[manifestPath].content.Raw? || ManifestWritten(cfg, manifestPath, item, t, manifestPath)))
  }

  /** What an announced commit means for the disk. */
  ghost predicate AnnouncedHolds(cfg: Config, manifestPath: Path, item: Manifest, t0: Tree, t: Tree)
    requires IsManifestPath(manifestPath)
  {
    if InPlace(cfg, manifestPath, item) then
      && IsFile(t, manifestPath) && t[manifestPath].content.Json?
      && Polled(cfg, manifestPath, item, t[manifestPath].content.item.committedAt) == t[manifestPath].content.item
    else
      var isDir := IsDir(t0, SourceOf(manifestPath));
      Durable(cfg, manifestPath, item, isDir, Below(t0, SourceOf(manifestPath)), t)
  }

  /** The disk after a successful attempt in place: what a poll leaves of the manifest, at some time. */
  ghost predicate PolledOn(cfg: Config, manifestPath: Path, item: Manifest, t0: Tree, t: Tree)
    requires IsManifestPath(manifestPath)
  {
    exists now: string :: t == t0[manifestPath := File(Json(Polled(cfg, manifestPath, item, now)))]
  }

  /**
   * What a successful attempt leaves beside the data, told without the final manifest: a manifest
   * of this checkpoint, with all its fields, at its destination.
   */
  ghost predicate ToldOn(cfg: Config, manifestPath: Path, item: Manifest, t: Tree)
    requires IsManifestPath(manifestPath)
  {
    var at := if InPlace(cfg, manifestPath, item) then manifestPath else ManifestOf(DestinationOf(cfg, manifestPath, item));
    && IsFile(t, at) && t[at].content.Json? && Describes(cfg, manifestPath, item, t[at].content.item)
    && (!InPlace(cfg, manifestPath, item) ==> SaysCopied(t[at].content.item, t[at].content.item.committedAt))
  }

  /** In particular every announced commit has its manifest on disk. */
  lemma AnnouncedIsTold(cfg: Config, manifestPath: Path, item: Manifest, t0: Tree, t: Tree)
    requires IsManifestPath(manifestPath) && AnnouncedHolds(cfg, manifestPath, item, t0, t)
    ensures ToldOn(cfg, manifestPath, item, t)
  {
    hide FinalManifest, Polled, Describes, SaysCopied, CompleteCopy, Below, InPlace, SourceOf, DestinationOf, ManifestOf, MarkerOf;
    if InPlace(cfg, manifestPath, item) {
      PolledTells(cfg, manifestPath, item, t[manifestPath].content.item.committedAt);
    } else {
      var left := t[ManifestOf(DestinationOf(cfg, manifestPath, item))].content.item;
      FinalManifestTells(cfg, manifestPath, item, left.committedAt);
    }
  }

  /** So has every durable checkpoint, whatever processes have made it so. */
  lemma DurableIsTold(cfg: Config, manifestPath: Path, item: Manifest, isDir: bool, full: Tree, t: Tree)
    requires IsManifestPath(manifestPath) && Durable(cfg, manifestPath, item, isDir, full, t)
    ensures var at := ManifestOf(DestinationOf(cfg, manifestPath, item));
            && IsFile(t, at) && t[at].content.Json? && Describes(cfg, manifestPath, item, t[at].content.item)
            && SaysCopied(t[at].content.item, t[at].content.item.committedAt)
  {
    hide FinalManifest, Describes, SaysCopied, CompleteCopy, Below, SourceOf, DestinationOf, ManifestOf, MarkerOf;
    FinalManifestTells(cfg, manifestPath, item, t[ManifestOf(DestinationOf(cfg, manifestPath, item))].content.item.committedAt);
  }

  lemma InPlaceIsPolled(cfg: Config, manifestPath: Path, item: Manifest, t0: Tree, t: Tree)
    requires IsManifestPath(manifestPath) && InPlace(cfg, manifestPath, item) && Find(t0, manifestPath) == Ready(item)
    requires InPlaceLeaves(cfg, manifestPath, item, t0, t) && AnnouncedHolds(cfg, manifestPath, item, t0, t)
    ensures PolledOn(cfg, manifestPath, item, t0, t)
  {
    hide Polled, SourceOf, InPlace, NeedsRewrite, ManifestWritten;
    var left := t[manifestPath].content.item;
    assert t == t0[manifestPath := File(Json(Polled(cfg, manifestPath, item, left.committedAt)))];
  }

  /** The disk after a successful copying attempt, given the clock readings found on it. */
  ghost predicate Committed(cfg: Config, manifestPath: Path, item: Manifest, pid: nat, t0: Tree, t: Tree)
    requires IsManifestPath(manifestPath)
  {
    var source, dest := SourceOf(manifestPath), DestinationOf(cfg, manifestPath, item);
    exists now: string, stamp: string ::
      t == Apply(t0, Commit(source, dest, TmpOf(dest, pid), IsDir(t0, source), FinalManifest(cfg, manifestPath, item, now), stamp))
  }

  /** The attempts the model covers: in place, or with temporary paths that stay out of the source. */
  ghost predicate Covers(cfg: Config, t: Tree, manifestPath: Path)
    requires IsManifestPath(manifestPath)
  {
    match Find(t, manifestPath)
    case Ready(item) =>
      var dest := DestinationOf(cfg, manifestPath, item);
      InPlace(cfg, manifestPath, item) || (dest != [] && Copyable(SourceOf(manifestPath), dest))
    case _ => true
  }

  /** Whether an attempt free of faults goes through. */
  ghost predicate GoesThrough(cfg: Config, t: Tree, manifestPath: Path)
    requires IsManifestPath(manifestPath)
  {
    match Find(t, manifestPath)
    case Unreadable => false
    case Skipped => true
    case Ready(item) =>
      InPlace(cfg, manifestPath, item) || CanCommit(t, SourceOf(manifestPath), DestinationOf(cfg, manifestPath, item))
  }

  /** What is guaranteed about the events of an attempt at a manifest that was found ready. */
  ghost predicate Reports(cfg: Config, manifestPath: Path, item: Manifest, st: Status, sent: seq<Post>, t0: Tree, t: Tree)
    requires IsManifestPath(manifestPath)
  {
    && AttemptLanguage(sent)
    && (forall post | post in sent :: About(cfg, manifestPath, item, post.event))
    && (!cfg.backend ==> sent == [])
    && (Announced(sent) ==> AnnouncedHolds(cfg, manifestPath, item, t0, t))
    && (Delivered(sent) ==> !st.Err?)
  }

  /** What success means for a manifest that was found ready: committed, announced and delivered. */
  ghost predicate Succeeded(cfg: Config, manifestPath: Path, item: Manifest, pid: nat, sent: seq<Post>, t0: Tree, t: Tree)
    requires IsManifestPath(manifestPath)
  {
    && GoesThrough(cfg, t0, manifestPath) && AnnouncedHolds(cfg, manifestPath, item, t0, t) && ToldOn(cfg, manifestPath, item, t)
    && (if InPlace(cfg, manifestPath, item) then PolledOn(cfg, manifestPath, item, t0, t)
        else Committed(cfg, manifestPath, item, pid, t0, t))
    && (cfg.backend ==> Delivered(sent))
  }

  /** A fault in looking for the marker made the attempt a skip. */
  ghost predicate MarkerMissed(sent: seq<Post>, t0: Tree, t: Tree)
  {
    sent == [] && t == t0
  }

  /** Everything an attempt guarantees about the disk, however it ends. */
  ghost predicate Leaves(cfg: Config, atomicRemoval: bool, manifestPath: Path, pid: nat, t0: Tree, t: Tree)
    requires IsManifestPath(manifestPath)
  {
    match Find(t0, manifestPath)
    case Ready(item) =>
      if InPlace(cfg, manifestPath, item) then InPlaceLeaves(cfg, manifestPath, item, t0, t)
      else AttemptLeaves(cfg, atomicRemoval, manifestPath, item, pid, t0, t)
    case _ => t == t0
  }

  /** A file can be stored at p once its directory has been made. */
  predicate CanStore(t: Tree, p: Path)
  {
    CanMkdir(t, Parent(p)) && CanWrite(Mkdirs(t, Parent(p)), p)
  }

  /** Nothing but missing directories up to p was made. */
  ghost predicate DirsMade(t: Tree, t': Tree, p: Path)
  {
    Part(t, t') && Part(t', Mkdirs(t, p))
  }

  /** What storing a file can leave: directories only, or all of them and the file, whole or torn. */
  ghost predicate WriteLeaves(t: Tree, t': Tree, p: Path, c: Content)
  {
    || DirsMade(t, t', Parent(p))
    || (CanStore(t, p) && IsFile(t', p) && (t'[p].content == c || t'[p].content.Raw?) && t' == Mkdirs(t, Parent(p))[p := t'[p]])
  }

  lemma DirsAllMade(t: Tree, p: Path)
    requires WellFormed(t)
    ensures DirsMade(t, t, p) && DirsMade(t, Mkdirs(t, p), p)
  {
  }

  /** Into a directory that exists only the file itself is written. */
  lemma InDirectory(t: Tree, t': Tree, p: Path, c: Content)
    requires WellFormed(t) && IsDir(t, Parent(p))
    ensures Mkdirs(t, Parent(p)) == t && (CanStore(t, p) <==> CanWrite(t, p))
    ensures WriteLeaves(t, t', p, c) ==>
              t' == t || (CanWrite(t, p) && IsFile(t', p) && (t'[p].content == c || t'[p].content.Raw?) && t' == t[p := t'[p]])
    ensures DirsMade(t, t', Parent(p)) ==> t' == t
  {
    MkdirsNothing(t, Parent(p));
    if DirsMade(t, t', Parent(p)) { PartBoth(t, t'); }
  }

  class Agent {
    const cfg: Config
    const disk: Disk
    var pid: nat
    var log: seq<Post>

    constructor (cfg: Config, disk: Disk)
      ensures this.cfg == cfg && this.disk == disk && log == []
    {
      this.cfg, this.disk := cfg, disk;
      pid, log := 0, [];
    }

    /** Sends one event. `sent` is what was sent: nothing, or the event with the agent's view of its fate. */
    method PostEvent(e: Event) returns (st: Status, ghost sent: seq<Post>)
      modifies this`log
      ensures log == old(log) + sent
      ensures sent == [] || sent == [Post(e, true)] || sent == [Post(e, false)]
      ensures st.Ok? ==> sent == [Post(e, true)]
      ensures st.Err? ==> sent != [Post(e, true)]
      ensures !disk.faulty ==> st.Ok?
    {
      st := disk.Fate();
      sent := [];
      if !st.Ok? {
        if * { return; }
      }
      var seen := st.Ok?;
      if st.Crashed? {
        if * { seen := true; }
      }
      log := log + [Post(e, seen)];
      sent := [Post(e, seen)];
    }

    /** postFailedEvent: its own error is dropped, and the attempt still fails with the first one. */
    method PostFailed(item: Manifest, final: Manifest) returns (st: Status, ghost sent: seq<Post>)
      modifies this`log
      ensures !st.Ok? && log == old(log) + sent
      ensures !cfg.backend ==> sent == []
      ensures sent == [] || (|sent| == 1 && sent[0].event == EventFor(item, final, FAILED, sent[0].event.metadata) &&
                             Labelled(item, FAILED, sent[0].event.metadata))
    {
      sent := [];
      if !cfg.backend {
        return Err, [];
      }
      var cause: string := *;
      StatusesDiffer();
      st, sent := PostEvent(EventFor(item, final, FAILED, map["checkpointID" := item.checkpointID, "error" := cause]));
      if st.Ok? { st := Err; }
    }

    /** writeManifest: the directory it goes to is made if it is missing. */
    method WriteManifest(path: Path, item: Manifest) returns (st: Status)
      requires disk.Valid()
      modifies disk`tree, disk`mtime, disk`clock
      ensures disk.Valid()
      ensures WriteLeaves(old(disk.tree), disk.tree, path, Json(item))
      ensures st.Ok? ==> CanStore(old(disk.tree), path) && disk.tree == Mkdirs(old(disk.tree), Parent(path))[path := File(Json(item))]
      ensures !disk.faulty ==> (st.Ok? <==> CanStore(old(disk.tree), path))
      ensures forall q: Path | q != path :: disk.MTime(q) == old(disk.MTime(q))
      ensures old(disk.MTime(path)) <= disk.MTime(path)
      ensures disk.MTime(path) == old(disk.MTime(path)) ==> DirsMade(old(disk.tree), disk.tree, Parent(path))
    {
      hide WellFormed, Mkdirs, CanMkdir, Part;
      st := disk.MkdirAll(Parent(path));
      if !st.Ok? { return; }
      DirsAllMade(old(disk.tree), Parent(path));
      st := disk.WriteFile(path, Json(item));
    }

    /** writeSuccessMarker, likewise. */
    method WriteSuccessMarker(path: Path, isDir: bool) returns (st: Status)
      requires disk.Valid()
      modifies disk`tree, disk`mtime, disk`clock
      ensures disk.Valid()
      ensures var m := MarkerOf(path, isDir); var t := Mkdirs(old(disk.tree), Parent(m));
              && WriteLeaves(old(disk.tree), disk.tree, m, Raw(""))
              && (st.Ok? ==> CanStore(old(disk.tree), m) && IsFile(disk.tree, m) && disk.tree[m].content.Raw? &&
                             disk.tree == t[m := disk.tree[m]])
              && (!disk.faulty ==> (st.Ok? <==> CanStore(old(disk.tree), m)))
              && (forall q: Path | q != m :: disk.MTime(q) == old(disk.MTime(q)))
              && old(disk.MTime(m)) <= disk.MTime(m)
    {
      hide WellFormed, Mkdirs, CanMkdir, Part, Suffixed;
      var marker := MarkerOf(path, isDir);
      st := disk.MkdirAll(Parent(marker));
      if !st.Ok? { return; }
      DirsAllMade(old(disk.tree), Parent(marker));
      var stamp: string := *;
      st := disk.WriteFile(marker, Raw(stamp));
    }

    /** The three steps of the copying branch: data, manifest, marker. */
    method Store(manifestPath: Path, item: Manifest, final: Manifest) returns (st: Status)
      requires disk.Valid() && IsManifestPath(manifestPath)
      requires Find(disk.tree, manifestPath) == Ready(item) && Covers(cfg, disk.tree, manifestPath)
      requires !InPlace(cfg, manifestPath, item)
      requires final == FinalManifest(cfg, manifestPath, item, final.committedAt)
      modifies disk`tree, disk`mtime, disk`clock
      ensures disk.Valid()
      ensures AttemptLeaves(cfg, disk.atomicRemoval, manifestPath, item, pid, old(disk.tree), disk.tree)
      ensures st.Ok? ==> Committed(cfg, manifestPath, item, pid, old(disk.tree), disk.tree)
      ensures st.Ok? ==> AnnouncedHolds(cfg, manifestPath, item, old(disk.tree), disk.tree)
      ensures st.Ok? ==> CanCommit(old(disk.tree), SourceOf(manifestPath), DestinationOf(cfg, manifestPath, item))
      ensures !disk.faulty ==> (st.Ok? <==> CanCommit(old(disk.tree), SourceOf(manifestPath), DestinationOf(cfg, manifestPath, item)))
      ensures var dest := DestinationOf(cfg, manifestPath, item);
              forall q: Path | q != ManifestOf(dest) && q != MarkerOf(dest, IsDir(old(disk.tree), SourceOf(manifestPath))) ::
                disk.MTime(q) == old(disk.MTime(q))
      ensures forall q: Path :: old(disk.MTime(q)) <= disk.MTime(q)
    {
      hide FinalManifest, DestinationOf, SourceOf, AttemptLeaves, Committed, Below, Framed, WellFormed, CanMkdir, ManifestOf, Find,
           Covers, TmpOf, MarkerOf, InPlace, DataAt, AnnouncedHolds, Moved, Without, Graft, Mkdirs, Suffixed, Copyable;
      var source, dest := SourceOf(manifestPath), DestinationOf(cfg, manifestPath, item);
      ghost var t0 := disk.tree;
      CoversApart(cfg, manifestPath, item, pid, t0);
      FoundSource(t0, manifestPath, item);
      var isDir := IsDir(disk.tree, source);
      st := CopyPathAtomically(disk, source, dest, pid);
      AfterCopy(cfg, disk.atomicRemoval, manifestPath, item, pid, t0, disk.tree);
      if !st.Ok? { return; }
      st := Certify(manifestPath, item, final, isDir, t0);
    }

    /** The manifest and the marker, once the data of disk t0 has been moved into place. */
    method Certify(manifestPath: Path, item: Manifest, final: Manifest, isDir: bool, ghost t0: Tree) returns (st: Status)
      requires disk.Valid() && IsManifestPath(manifestPath) && CopyAttempt(cfg, manifestPath, item, t0)
      requires final == FinalManifest(cfg, manifestPath, item, final.committedAt) && isDir == IsDir(t0, SourceOf(manifestPath))
      requires var dest := DestinationOf(cfg, manifestPath, item);
               CanMkdir(t0, Parent(dest)) && disk.tree == Moved(t0, SourceOf(manifestPath), dest, TmpOf(dest, pid))
      modifies disk`tree, disk`mtime, disk`clock
      ensures disk.Valid()
      ensures AttemptLeaves(cfg, disk.atomicRemoval, manifestPath, item, pid, t0, disk.tree)
      ensures st.Ok? ==> Committed(cfg, manifestPath, item, pid, t0, disk.tree)
      ensures st.Ok? ==> AnnouncedHolds(cfg, manifestPath, item, t0, disk.tree)
      ensures st.Ok? ==> CanCommit(t0, SourceOf(manifestPath), DestinationOf(cfg, manifestPath, item))
      ensures !disk.faulty ==> (st.Ok? <==> CanCommit(t0, SourceOf(manifestPath), DestinationOf(cfg, manifestPath, item)))
      ensures var dest := DestinationOf(cfg, manifestPath, item);
              forall q: Path | q != ManifestOf(dest) && q != MarkerOf(dest, isDir) :: disk.MTime(q) == old(disk.MTime(q))
      ensures forall q: Path :: old(disk.MTime(q)) <= disk.MTime(q)
    {
      hide FinalManifest, DestinationOf, SourceOf, AttemptLeaves, Durable, Committed, Apply, Moved, Below, Framed,
           WellFormed, CanMkdir, Graft, Mkdirs, Without, ManifestWritten, ManifestOf, Find, Covers, Copyable, TmpOf, MarkerOf,
           Suffixed, InPlace, DataAt, WriteLeaves, CanStore;
      var source, dest := SourceOf(manifestPath), DestinationOf(cfg, manifestPath, item);
      ghost var t1 := disk.tree;
      CoversApart(cfg, manifestPath, item, pid, t0);
      FoundSource(t0, manifestPath, item);
      Siblings(dest, pid);
      MovedIntoPlace(t0, source, dest, pid);
      st := WriteManifest(ManifestOf(dest), final);
      ghost var t2 := disk.tree;
      InDirectory(t1, t2, ManifestOf(dest), Json(final));
      AfterManifest(cfg, disk.atomicRemoval, manifestPath, item, pid, t0, t1, t2, final);
      if !st.Ok? { return; }
      MarkerWritable(manifestPath, item, t0, t1, t2, dest, pid, File(Json(final)));
      st := WriteSuccessMarker(dest, isDir);
      ghost var t3 := disk.tree;
      InDirectory(t2, t3, MarkerOf(dest, isDir), Raw(""));
      AfterMarker(cfg, disk.atomicRemoval, manifestPath, item, pid, t0, t1, t2, t3, final);
      if st.Ok? {
        StepsAreCommit(cfg, manifestPath, item, pid, t0, t3, final, t3[MarkerOf(dest, isDir)]);
      }
    }

    /** The work between the two events: the copying branch, or the rewrite in place. */
    method Perform(manifestPath: Path, item: Manifest, final: Manifest) returns (st: Status)
      requires disk.Valid() && IsManifestPath(manifestPath)
      requires Find(disk.tree, manifestPath) == Ready(item) && Covers(cfg, disk.tree, manifestPath)
      requires final == FinalManifest(cfg, manifestPath, item, final.committedAt)
      modifies disk`tree, disk`mtime, disk`clock
      ensures disk.Valid()
      ensures Leaves(cfg, disk.atomicRemoval, manifestPath, pid, old(disk.tree), disk.tree)
      ensures st.Ok? ==> AnnouncedHolds(cfg, manifestPath, item, old(disk.tree), disk.tree)
      ensures st.Ok? ==> if InPlace(cfg, manifestPath, item) then PolledOn(cfg, manifestPath, item, old(disk.tree), disk.tree)
                         else Committed(cfg, manifestPath, item, pid, old(disk.tree), disk.tree)
      ensures st.Ok? ==> GoesThrough(cfg, old(disk.tree), manifestPath)
      ensures !disk.faulty ==> (st.Ok? <==> GoesThrough(cfg, old(disk.tree), manifestPath))
      ensures forall q: Path :: old(disk.MTime(q)) <= disk.MTime(q)
      ensures forall q: Path | !MayTouch(cfg, manifestPath, old(disk.tree), q) :: disk.MTime(q) == old(disk.MTime(q))
      ensures InPlace(cfg, manifestPath, item) && disk.MTime(manifestPath) == old(disk.MTime(manifestPath)) ==> disk.tree == old(disk.tree)
    {
      hide FinalManifest, DestinationOf, SourceOf, AttemptLeaves, Durable, Committed, Below, WellFormed, CanCommit, Covers, ManifestOf, MarkerOf,
           PolledOn;
      if !InPlace(cfg, manifestPath, item) {
        st := Store(manifestPath, item, final);
      } else if item.path != final.path || item.storagePath != final.storagePath || item.stagingPath != final.stagingPath {
        RewriteNeeded(cfg, manifestPath, item, final);
        FoundInDir(disk.tree, manifestPath, item);
        ghost var t := disk.tree;
        st := WriteManifest(manifestPath, final);
        InDirectory(t, disk.tree, manifestPath, Json(final));
        FinalIsWritten(cfg, manifestPath, item, final);
      } else {
        RewriteNeeded(cfg, manifestPath, item, final);
        FoundInDir(disk.tree, manifestPath, item);
        st := Ok;
      }
      if st.Ok? && InPlace(cfg, manifestPath, item) {
        InPlaceIsPolled(cfg, manifestPath, item, old(disk.tree), disk.tree);
      }
    }

    /** An attempt at a manifest that was found ready: its events around its work. */
    method Attempt(manifestPath: Path, item: Manifest, now: string) returns (st: Status, ghost sent: seq<Post>)
      requires disk.Valid() && IsManifestPath(manifestPath) && Covers(cfg, disk.tree, manifestPath)
      requires Find(disk.tree, manifestPath) == Ready(item)
      modifies this`log, disk`tree, disk`mtime, disk`clock
      ensures disk.Valid()
      ensures Leaves(cfg, disk.atomicRemoval, manifestPath, pid, old(disk.tree), disk.tree)
      ensures !disk.faulty ==> (st.Ok? <==> GoesThrough(cfg, old(disk.tree), manifestPath))
      ensures log == old(log) + sent
      ensures Reports(cfg, manifestPath, item, st, sent, old(disk.tree), disk.tree)
      ensures st.Ok? ==> Succeeded(cfg, manifestPath, item, pid, sent, old(disk.tree), disk.tree)
      ensures forall q: Path :: old(disk.MTime(q)) <= disk.MTime(q)
      ensures forall q: Path | !MayTouch(cfg, manifestPath, old(disk.tree), q) :: disk.MTime(q) == old(disk.MTime(q))
      ensures InPlace(cfg, manifestPath, item) && disk.MTime(manifestPath) == old(disk.MTime(manifestPath)) ==> disk.tree == old(disk.tree)
    {
      hide FinalManifest, DestinationOf, SourceOf, Leaves, Committed, PolledOn, AnnouncedHolds, WellFormed, GoesThrough, Covers, MayTouch, About,
           InPlace, Find, IsManifestPath, Labelled, ToldOn;
      NothingLeft(cfg, disk.atomicRemoval, manifestPath, pid, disk.tree);
      var final := FinalManifest(cfg, manifestPath, item, now);
      EventsAnnounce(cfg, manifestPath, item, now);
      sent := [];
      if cfg.backend {
        st, sent := PostEvent(EventFor(item, final, UPLOADING, map["checkpointID" := item.checkpointID]));
        if !st.Ok? { return; }
      }
      st := Perform(manifestPath, item, final);
      ghost var last: seq<Post> := [];
      if !st.Ok? {
        if st.Err? { st, last := PostFailed(item, final); sent := sent + last; }
        return;
      }
      AnnouncedIsTold(cfg, manifestPath, item, old(disk.tree), disk.tree);
      if cfg.backend {
        st, last := PostEvent(EventFor(item, final, COMMITTED, map["checkpointID" := item.checkpointID, "agentCopied" := "true"]));
        sent := sent + last;
      }
    }

    /** processManifest. */
    method ProcessManifest(manifestPath: Path) returns (st: Status, ghost sent: seq<Post>)
      requires disk.Valid() && IsManifestPath(manifestPath) && Covers(cfg, disk.tree, manifestPath)
      modifies this`log, disk`tree, disk`mtime, disk`clock
      ensures disk.Valid()
      ensures Leaves(cfg, disk.atomicRemoval, manifestPath, pid, old(disk.tree), disk.tree)
      ensures !disk.faulty ==> (st.Ok? <==> GoesThrough(cfg, old(disk.tree), manifestPath))
      ensures log == old(log) + sent
      ensures match Find(old(disk.tree), manifestPath)
              case Unreadable => sent == [] && !st.Ok?
              case Skipped => sent == []
              case Ready(item) =>
                && Reports(cfg, manifestPath, item, st, sent, old(disk.tree), disk.tree)
                && (st.Ok? ==> Succeeded(cfg, manifestPath, item, pid, sent, old(disk.tree), disk.tree) ||
                               (disk.faulty && !disk.statsReliable && MarkerMissed(sent, old(disk.tree), disk.tree)))
      ensures forall q: Path :: old(disk.MTime(q)) <= disk.MTime(q)
      ensures forall q: Path | !MayTouch(cfg, manifestPath, old(disk.tree), q) :: disk.MTime(q) == old(disk.MTime(q))
      ensures match Find(old(disk.tree), manifestPath)
              case Ready(item) => InPlace(cfg, manifestPath, item) && disk.MTime(manifestPath) == old(disk.MTime(manifestPath)) ==>
                                    disk.tree == old(disk.tree)
              case _ => true
    {
      hide FinalManifest, DestinationOf, SourceOf, Leaves, Succeeded, AnnouncedHolds, WellFormed, GoesThrough, Covers, MayTouch, About, InPlace;
      NothingLeft(cfg, disk.atomicRemoval, manifestPath, pid, disk.tree);
      WithoutFinding(cfg, manifestPath, disk.tree);
      sent := [];
      st := disk.Fate();
      if !st.Ok? { return; }
      if !IsFile(disk.tree, manifestPath) || disk.tree[manifestPath].content.Raw? {
        return Err, [];
      }
      var item := disk.tree[manifestPath].content.item;
      if item.schemaVersion != SCHEMA || (item.status != STAGED && item.status != COMMITTED) {
        return Ok, [];
      }
      var source := SourceOf(manifestPath);
      if source !in disk.tree {
        return Err, [];
      }
      var seen := disk.Exists(MarkerOf(source, IsDir(disk.tree, source)));
      if !seen {
        return Ok, [];
      }
      var now: string := *;
      st, sent := Attempt(manifestPath, item, now);
    }
  }

  /**
   * What an undisturbed attempt makes of a checkpoint that lies in place: its commit is announced
   * in any case, but the manifest on disk says so exactly if it did already or had a wrong path.
   */
  method AnnounceInPlace(agent: Agent, manifestPath: Path, item: Manifest) returns (ghost sent: seq<Post>)
    requires agent.disk.Valid() && !agent.disk.faulty && agent.cfg.backend && IsManifestPath(manifestPath)
    requires Find(agent.disk.tree, manifestPath) == Ready(item) && InPlace(agent.cfg, manifestPath, item)
    modifies agent`log, agent.disk`tree, agent.disk`mtime, agent.disk`clock
    ensures agent.log == old(agent.log) + sent && Delivered(sent)
    ensures forall post | post in sent :: About(agent.cfg, manifestPath, item, post.event)
    ensures IsFile(agent.disk.tree, manifestPath) && agent.disk.tree[manifestPath].content.Json?
    ensures agent.disk.tree[manifestPath].content.item.status == COMMITTED <==>
            item.status == COMMITTED || NeedsRewrite(agent.cfg, manifestPath, item)
    ensures !NeedsRewrite(agent.cfg, manifestPath, item) ==> agent.disk.tree == old(agent.disk.tree)
  {
    hide FinalManifest, DestinationOf, SourceOf, About, Find;
    var st;
    st, sent := agent.ProcessManifest(manifestPath);
    StatusOnDisk(agent.cfg, manifestPath, item, agent.disk.tree[manifestPath].content.item);
  }

  lemma StatusOnDisk(cfg: Config, manifestPath: Path, item: Manifest, left: Manifest)
    requires IsManifestPath(manifestPath) && left == Polled(cfg, manifestPath, item, left.committedAt)
    ensures left.status == COMMITTED <==> item.status == COMMITTED || NeedsRewrite(cfg, manifestPath, item)
  {
    PolledStatus(cfg, manifestPath, item, left.committedAt);
  }

  /** The files whose modification time an attempt can move. */
  predicate MayTouch(cfg: Config, manifestPath: Path, t0: Tree, q: Path)
    requires IsManifestPath(manifestPath)
  {
    match Find(t0, manifestPath)
    case Ready(item) =>
      var dest := DestinationOf(cfg, manifestPath, item);
      if InPlace(cfg, manifestPath, item) then q == manifestPath
      else q == ManifestOf(dest) || q == MarkerOf(dest, IsDir(t0, SourceOf(manifestPath)))
    case _ => false
  }

  lemma RewriteNeeded(cfg: Config, manifestPath: Path, item: Manifest, final: Manifest)
    requires IsManifestPath(manifestPath) && final == FinalManifest(cfg, manifestPath, item, final.committedAt)
    ensures NeedsRewrite(cfg, manifestPath, item) <==>
            item.path != final.path || item.storagePath != final.storagePath || item.stagingPath != final.stagingPath
    ensures NeedsRewrite(cfg, manifestPath, item) ==> Polled(cfg, manifestPath, item, final.committedAt) == final
    ensures !NeedsRewrite(cfg, manifestPath, item) ==> forall now :: Polled(cfg, manifestPath, item, now) == item
  {
  }

  lemma FoundInDir(t: Tree, manifestPath: Path, item: Manifest)
    requires WellFormed(t) && IsManifestPath(manifestPath) && Find(t, manifestPath) == Ready(item)
    ensures CanWrite(t, manifestPath) && t[manifestPath] == File(Json(item))
  {
  }

  lemma FinalIsWritten(cfg: Config, manifestPath: Path, item: Manifest, final: Manifest)
    requires IsManifestPath(manifestPath) && final == FinalManifest(cfg, manifestPath, item, final.committedAt)
    ensures forall t: Tree | IsFile(t, manifestPath) && t[manifestPath].content == Json(final) ::
              ManifestWritten(cfg, manifestPath, item, t, manifestPath)
  {
  }

  /** The three events of an attempt all announce its checkpoint. */
  lemma EventsAnnounce(cfg: Config, manifestPath: Path, item: Manifest, now: string)
    requires IsManifestPath(manifestPath)
    ensures var final := FinalManifest(cfg, manifestPath, item, now);
            && final == FinalManifest(cfg, manifestPath, item, final.committedAt)
            && About(cfg, manifestPath, item, EventFor(item, final, UPLOADING, map["checkpointID" := item.checkpointID]))
            && About(cfg, manifestPath, item,
                     EventFor(item, final, COMMITTED, map["checkpointID" := item.checkpointID, "agentCopied" := "true"]))
            && forall metadata | Labelled(item, FAILED, metadata) ::
                 About(cfg, manifestPath, item, EventFor(item, final, FAILED, metadata))
    ensures UPLOADING != COMMITTED && FAILED != COMMITTED
  {
    StatusesDiffer();
  }

  lemma StatusesDiffer()
    ensures UPLOADING != COMMITTED && UPLOADING != FAILED && COMMITTED != FAILED
  {
    assert UPLOADING[0] == 'u' && COMMITTED[0] == 'c';
  }

  lemma WithoutFinding(cfg: Config, manifestPath: Path, t: Tree)
    requires IsManifestPath(manifestPath)
    ensures Find(t, manifestPath).Unreadable? ==> !GoesThrough(cfg, t, manifestPath)
    ensures Find(t, manifestPath).Skipped? ==> GoesThrough(cfg, t, manifestPath)
  {
  }

  /** An attempt that does nothing leaves an admissible disk. */
  lemma NothingLeft(cfg: Config, atomicRemoval: bool, manifestPath: Path, pid: nat, t0: Tree)
    requires IsManifestPath(manifestPath)
    ensures Leaves(cfg, atomicRemoval, manifestPath, pid, t0, t0)
  {
    match Find(t0, manifestPath)
    case Ready(item) =>
      FramedRefl(t0, Foot(DestinationOf(cfg, manifestPath, item), IsDir(t0, SourceOf(manifestPath)), pid),
                 Parent(DestinationOf(cfg, manifestPath, item)));
      PartRefl(Below(t0, DestinationOf(cfg, manifestPath, item)));
    case _ =>
  }

  // ----- The steps of a copying attempt, one lemma each

  ghost predicate CopyAttempt(cfg: Config, manifestPath: Path, item: Manifest, t0: Tree)
    requires IsManifestPath(manifestPath)
  {
    && WellFormed(t0) && Find(t0, manifestPath) == Ready(item) && Covers(cfg, t0, manifestPath)
    && !InPlace(cfg, manifestPath, item)
  }

  lemma CoversApart(cfg: Config, manifestPath: Path, item: Manifest, pid: nat, t0: Tree)
    requires IsManifestPath(manifestPath) && CopyAttempt(cfg, manifestPath, item, t0)
    ensures var source, dest := SourceOf(manifestPath), DestinationOf(cfg, manifestPath, item);
            dest != [] && Apart(source, TmpOf(dest, pid))
  {
    hide DestinationOf, SourceOf;
  }

  lemma AfterCopy(cfg: Config, atomicRemoval: bool, manifestPath: Path, item: Manifest, pid: nat, t0: Tree, t1: Tree)
    requires IsManifestPath(manifestPath) && CopyAttempt(cfg, manifestPath, item, t0)
    requires var dest := DestinationOf(cfg, manifestPath, item);
             && Framed(t0, t1, {dest, TmpOf(dest, pid)}, Parent(dest))
             && DataAt(atomicRemoval, Below(t0, dest), Below(t0, SourceOf(manifestPath)), Below(t1, dest))
    ensures AttemptLeaves(cfg, atomicRemoval, manifestPath, item, pid, t0, t1)
  {
    hide FinalManifest, DestinationOf, SourceOf, Below, Find, Framed, WellFormed, TmpOf, ManifestOf, Covers, ManifestWritten;
    CoversApart(cfg, manifestPath, item, pid, t0);
    var source, dest := SourceOf(manifestPath), DestinationOf(cfg, manifestPath, item);
    var isDir := IsDir(t0, source);
    var foot := Foot(dest, isDir, pid);
    FramedMore(t0, t1, {dest, TmpOf(dest, pid)}, foot, Parent(dest));
    Siblings(dest, pid);
    OutsideStays(t0, t1, dest, TmpOf(dest, pid), ManifestOf(dest));
    if !isDir { OutsideStays(t0, t1, dest, TmpOf(dest, pid), MarkerOf(dest, false)); }
  }

  /** dest, its temporary path, its manifest and its file marker are four siblings. */
  lemma Siblings(dest: Path, pid: nat)
    requires dest != []
    ensures var tmp, man, marker := TmpOf(dest, pid), ManifestOf(dest), MarkerOf(dest, false);
            && Apart(tmp, dest) && Apart(man, dest) && Apart(marker, dest)
            && Apart(man, tmp) && Apart(marker, tmp) && Apart(marker, man)
            && Parent(tmp) == Parent(man) == Parent(marker) == Parent(dest)
            && tmp != [] && man != [] && marker != []
  {
    var a, b, c := ".tmp." + Decimal(pid), MANIFEST_SUFFIX, "._SUCCESS";
    assert a[1] == 't' && b[1] == 'o' && c[1] == '_';
    SuffixedApart(dest, a, "");
    SuffixedApart(dest, b, "");
    SuffixedApart(dest, c, "");
    SuffixedApart(dest, b, a);
    SuffixedApart(dest, c, a);
    SuffixedApart(dest, c, b);
  }

  lemma FramedMore(t: Tree, t': Tree, foot: set<Path>, foot': set<Path>, made: Path)
    requires Framed(t, t', foot, made) && foot <= foot'
    ensures Framed(t, t', foot', made)
  {
    forall q | !Covered(foot', q) ensures !Covered(foot, q) { }
  }

  lemma OutsideStays(t: Tree, t': Tree, dest: Path, tmp: Path, p: Path)
    requires Framed(t, t', {dest, tmp}, Parent(dest))
    requires dest != [] && Apart(p, dest) && Apart(p, tmp) && Parent(p) == Parent(dest) && p != []
    ensures SameNode(t, t', p)
  {
    assert !Covered({dest, tmp}, p);
  }

  /** What the later steps find once the data is in place. */
  lemma MovedIntoPlace(t0: Tree, source: Path, dest: Path, pid: nat)
    requires WellFormed(t0) && dest != [] && CanMkdir(t0, Parent(dest)) && source in t0
    ensures var tmp := TmpOf(dest, pid); var t1 := Moved(t0, source, dest, tmp); var isDir := IsDir(t0, source);
            && IsDir(t1, Parent(dest)) && dest in t1 && t1[dest] == t0[source]
            && Below(t1, dest) == Below(t0, source)
            && (CanWrite(t1, ManifestOf(dest)) <==> !IsDir(t0, ManifestOf(dest)))
            && SameNode(t0, t1, ManifestOf(dest)) && SameNode(t0, t1, MarkerOf(dest, false))
            && SameNodes(t0, source + ["_SUCCESS"], t1, dest + ["_SUCCESS"])
  {
    hide Mkdirs, Graft, Below, CanMkdir, WellFormed, Moved, Framed;
    var tmp := TmpOf(dest, pid);
    var t1 := Moved(t0, source, dest, tmp);
    Siblings(dest, pid);
    MovedFacts(t0, source, dest, tmp);
    OutsideStays(t0, t1, dest, tmp, ManifestOf(dest));
    OutsideStays(t0, t1, dest, tmp, MarkerOf(dest, false));
    MovedParent(t0, source, dest, tmp);
    BelowNodes(t0, source, t1, dest, []);
    BelowNodes(t0, source, t1, dest, ["_SUCCESS"]);
    assert source + [] == source && dest + [] == dest;
  }

  predicate SameNodes(t: Tree, p: Path, t': Tree, p': Path)
  {
    (p in t <==> p' in t') && (p in t ==> t[p] == t'[p'])
  }

  lemma BelowNodes(t: Tree, p: Path, t': Tree, p': Path, r: Path)
    requires Below(t, p) == Below(t', p')
    ensures SameNodes(t, p + r, t', p' + r)
  {
    assert r in Below(t, p) <==> p + r in t;
    assert r in Below(t', p') <==> p' + r in t';
  }

  lemma MovedParent(t0: Tree, source: Path, dest: Path, tmp: Path)
    requires dest != [] && tmp != [] && Parent(tmp) == Parent(dest) && CanMkdir(t0, Parent(dest))
    ensures IsDir(Moved(t0, source, dest, tmp), Parent(dest))
  {
    assert Parent(dest) in Prefixes(Parent(dest));
    assert !(tmp <= Parent(dest)) && !(dest <= Parent(dest));
  }

  lemma PutAside(t: Tree, p: Path, n: Node, dest: Path)
    requires Apart(p, dest)
    ensures Below(t[p := n], dest) == Below(t, dest)
  {
    hide Below;
    assert forall r: Path :: p != dest + r;
  }

  lemma PutInside(t: Tree, dest: Path, r: Path, n: Node)
    ensures Below(t[dest + r := n], dest) == Below(t, dest)[r := n]
  {
    hide Below;
    forall r': Path ensures dest + r' == dest + r <==> r' == r {
      assert (dest + r')[|dest|..] == r' && (dest + r)[|dest|..] == r;
    }
  }

  lemma PutFramed(t0: Tree, t: Tree, p: Path, n: Node, foot: set<Path>, made: Path)
    requires Framed(t0, t, foot, made) && p in foot
    ensures Framed(t0, t[p := n], foot, made)
  {
    forall q | !Covered(foot, q) ensures q != p { }
  }

  lemma AfterManifest(cfg: Config, atomicRemoval: bool, manifestPath: Path, item: Manifest, pid: nat,
                      t0: Tree, t1: Tree, t2: Tree, final: Manifest)
    requires IsManifestPath(manifestPath) && CopyAttempt(cfg, manifestPath, item, t0)
    requires final == FinalManifest(cfg, manifestPath, item, final.committedAt)
    requires var dest := DestinationOf(cfg, manifestPath, item); var man := ManifestOf(dest);
             && CanMkdir(t0, Parent(dest))
             && t1 == Moved(t0, SourceOf(manifestPath), dest, TmpOf(dest, pid))
             && (t2 == t1 || (CanWrite(t1, man) && IsFile(t2, man) && t2 == t1[man := t2[man]]))
    ensures AttemptLeaves(cfg, atomicRemoval, manifestPath, item, pid, t0, t2)
    ensures var dest := DestinationOf(cfg, manifestPath, item);
            && Below(t2, dest) == Below(t0, SourceOf(manifestPath))
            && IsDir(t2, Parent(dest)) && (IsDir(t0, SourceOf(manifestPath)) ==> IsDir(t2, dest))
            && SameNode(t0, t2, MarkerOf(dest, false))
  {
    hide FinalManifest, DestinationOf, SourceOf, Find, Below, CanMkdir, Moved, Framed, WellFormed, TmpOf, ManifestOf;
    var source, dest := SourceOf(manifestPath), DestinationOf(cfg, manifestPath, item);
    var isDir := IsDir(t0, source);
    var foot, tmp, man := Foot(dest, isDir, pid), TmpOf(dest, pid), ManifestOf(dest);
    assert source in t0 by { FoundSource(t0, manifestPath, item); }
    Siblings(dest, pid);
    MovedIntoPlace(t0, source, dest, pid);
    MovedFacts(t0, source, dest, tmp);
    FramedMore(t0, t1, {dest, tmp}, foot, Parent(dest));
    NotItsOwnParent(man);
    if t2 != t1 {
      PutAside(t1, man, t2[man], dest);
      PutFramed(t0, t1, man, t2[man], foot, Parent(dest));
    }
  }

  lemma NotItsOwnParent(p: Path)
    requires p != []
    ensures Parent(p) != p
  {
  }

  lemma FoundSource(t: Tree, manifestPath: Path, item: Manifest)
    requires IsManifestPath(manifestPath) && Find(t, manifestPath) == Ready(item)
    ensures SourceOf(manifestPath) in t && MarkerOf(SourceOf(manifestPath), IsDir(t, SourceOf(manifestPath))) in t
  {
  }

  lemma AfterMarker(cfg: Config, atomicRemoval: bool, manifestPath: Path, item: Manifest, pid: nat,
                    t0: Tree, t1: Tree, t2: Tree, t3: Tree, final: Manifest)
    requires IsManifestPath(manifestPath) && CopyAttempt(cfg, manifestPath, item, t0)
    requires final == FinalManifest(cfg, manifestPath, item, final.committedAt)
    requires var source, dest := SourceOf(manifestPath), DestinationOf(cfg, manifestPath, item);
             var isDir := IsDir(t0, source); var marker := MarkerOf(dest, isDir);
             && CanMkdir(t0, Parent(dest))
             && t1 == Moved(t0, source, dest, TmpOf(dest, pid))
             && CanWrite(t1, ManifestOf(dest)) && t2 == t1[ManifestOf(dest) := File(Json(final))]
             && (t3 == t2 || (CanWrite(t2, marker) && IsFile(t3, marker) && t3[marker].content.Raw? && t3 == t2[marker := t3[marker]]))
    ensures AttemptLeaves(cfg, atomicRemoval, manifestPath, item, pid, t0, t3)
    ensures IsFile(t3, MarkerOf(DestinationOf(cfg, manifestPath, item), IsDir(t0, SourceOf(manifestPath)))) ==>
              Durable(cfg, manifestPath, item, IsDir(t0, SourceOf(manifestPath)), Below(t0, SourceOf(manifestPath)), t3)
  {
    hide FinalManifest, DestinationOf, SourceOf, Find, Below, CanMkdir, Moved, Framed, WellFormed, TmpOf, ManifestOf, Suffixed,
         Covers, CompleteCopy;
    var source, dest := SourceOf(manifestPath), DestinationOf(cfg, manifestPath, item);
    var isDir := IsDir(t0, source);
    AfterManifest(cfg, atomicRemoval, manifestPath, item, pid, t0, t1, t2, final);
    CoversApart(cfg, manifestPath, item, pid, t0);
    Siblings(dest, pid);
    if t3 != t2 {
      PutFramed(t0, t2, MarkerOf(dest, isDir), t3[MarkerOf(dest, isDir)], Foot(dest, isDir, pid), Parent(dest));
      MarkerKeepsData(manifestPath, item, t0, t1, t2, dest, pid, File(Json(final)), t3[MarkerOf(dest, isDir)]);
    } else {
      CopyOfItself(isDir, Below(t0, source));
    }
  }

  lemma CopyOfItself(isDir: bool, s: Tree)
    ensures CompleteCopy(isDir, s, s)
  {
  }

  /** Writing the marker leaves the data complete and the manifest as it is. */
  lemma MarkerKeepsData(manifestPath: Path, item: Manifest, t0: Tree, t1: Tree, t2: Tree, dest: Path, pid: nat, final: Node, n: Node)
    requires IsManifestPath(manifestPath) && WellFormed(t0) && Find(t0, manifestPath) == Ready(item)
    requires dest != [] && CanMkdir(t0, Parent(dest)) && n.File?
    requires t1 == Moved(t0, SourceOf(manifestPath), dest, TmpOf(dest, pid)) && t2 == t1[ManifestOf(dest) := final]
    requires Below(t2, dest) == Below(t0, SourceOf(manifestPath))
    requires CanWrite(t2, MarkerOf(dest, IsDir(t0, SourceOf(manifestPath))))
    ensures var isDir := IsDir(t0, SourceOf(manifestPath)); var marker := MarkerOf(dest, isDir);
            && CompleteCopy(isDir, Below(t0, SourceOf(manifestPath)), Below(t2[marker := n], dest))
            && marker != ManifestOf(dest)
            && (!isDir ==> !IsDir(t0, marker))
  {
    hide SourceOf, Find, Below, CanMkdir, Moved, WellFormed, TmpOf, ManifestOf, Suffixed;
    var source := SourceOf(manifestPath);
    Siblings(dest, pid);
    MarkerWritable(manifestPath, item, t0, t1, t2, dest, pid, final);
    if IsDir(t0, source) {
      PutInside(t2, dest, ["_SUCCESS"], n);
      BelowNode(t0, source, ["_SUCCESS"]);
      MarkerText(Below(t0, source), n);
      assert dest <= dest + ["_SUCCESS"];
    } else {
      PutAside(t2, MarkerOf(dest, false), n, dest);
    }
  }

  /** The marker can be written unless a directory is in its way. */
  lemma MarkerWritable(manifestPath: Path, item: Manifest, t0: Tree, t1: Tree, t2: Tree, dest: Path, pid: nat, final: Node)
    requires IsManifestPath(manifestPath) && WellFormed(t0) && Find(t0, manifestPath) == Ready(item)
    requires dest != [] && CanMkdir(t0, Parent(dest))
    requires t1 == Moved(t0, SourceOf(manifestPath), dest, TmpOf(dest, pid)) && t2 == t1[ManifestOf(dest) := final]
    ensures var source := SourceOf(manifestPath); var isDir := IsDir(t0, source); var marker := MarkerOf(dest, isDir);
            && marker != [] && IsDir(t2, Parent(marker))
            && (CanWrite(t2, marker) <==> !IsDir(t0, if isDir then MarkerOf(source, true) else marker))
            && (isDir ==> source + ["_SUCCESS"] in t0)
  {
    hide SourceOf, Find, Below, CanMkdir, Moved, WellFormed, TmpOf, ManifestOf, Suffixed, Apart;
    var source := SourceOf(manifestPath);
    FoundSource(t0, manifestPath, item);
    MovedIntoPlace(t0, source, dest, pid);
    Siblings(dest, pid);
    NotItsOwnParent(ManifestOf(dest));
    if IsDir(t0, source) {
      assert Parent(dest + ["_SUCCESS"]) == dest;
      assert dest <= dest + ["_SUCCESS"];
    }
  }

  /** The three steps together are one commit. */
  lemma StepsAreCommit(cfg: Config, manifestPath: Path, item: Manifest, pid: nat, t0: Tree, t: Tree, final: Manifest, marker: Node)
    requires IsManifestPath(manifestPath) && final == FinalManifest(cfg, manifestPath, item, final.committedAt)
    requires marker.File? && marker.content.Raw?
    requires var source, dest := SourceOf(manifestPath), DestinationOf(cfg, manifestPath, item);
             t == Moved(t0, source, dest, TmpOf(dest, pid))[ManifestOf(dest) := File(Json(final))]
                  [MarkerOf(dest, IsDir(t0, source)) := marker]
    ensures Committed(cfg, manifestPath, item, pid, t0, t)
  {
    hide FinalManifest, DestinationOf, SourceOf, Moved, TmpOf, ManifestOf;
    var source, dest := SourceOf(manifestPath), DestinationOf(cfg, manifestPath, item);
    assert t == Apply(t0, Commit(source, dest, TmpOf(dest, pid), IsDir(t0, source),
                                 FinalManifest(cfg, manifestPath, item, final.committedAt), marker.content.text));
  }

  lemma BelowNode(t: Tree, p: Path, r: Path)
    ensures SameNodes(Below(t, p), r, t, p + r)
  {
  }

  /** Rewriting the text of a directory's marker leaves its data as it is. */
  lemma MarkerText(s: Tree, marker: Node)
    requires IsFile(s, ["_SUCCESS"]) && marker.File?
    ensures CompleteCopy(true, s, s[["_SUCCESS"] := marker])
  {
  }
}
