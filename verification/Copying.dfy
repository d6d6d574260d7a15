// copyFile, copyDir, copyPath and copyPathAtomically.
module Copying {
  import opened Text
  import opened CleanPath
  import opened Manifests
  import opened Trees
  import opened Disks

  function TmpOf(dest: Path, pid: nat): Path
  {
    Suffixed(dest, ".tmp." + Decimal(pid))
  }

  // ----- What a copy leaves behind

  lemma OnlyBelowTrans(t0: Tree, t1: Tree, t2: Tree, p: Path, made: Path)
    requires OnlyBelow(t0, t1, p, made) && OnlyBelow(t1, t2, p, made)
    ensures OnlyBelow(t0, t2, p, made)
  {
  }

  method CopyFile(disk: Disk, source: Path, dest: Path) returns (st: Status)
    requires disk.Valid() && dest != []
    modifies disk`tree
    ensures disk.Valid()
    ensures OnlyBelow(old(disk.tree), disk.tree, dest, Parent(dest))
    ensures st.Ok? ==> IsFile(old(disk.tree), source) && CanMkdir(old(disk.tree), Parent(dest)) && !IsDir(old(disk.tree), dest)
    ensures st.Ok? ==> disk.tree == Mkdirs(old(disk.tree), Parent(dest))[dest := old(disk.tree)[source]]
    ensures !disk.faulty ==> !st.Crashed?
    ensures !disk.faulty ==>
              (st.Ok? <==> CanMkdir(old(disk.tree), Parent(dest)) && IsFile(old(disk.tree), source) && !IsDir(old(disk.tree), dest))
  {
    st := disk.MkdirAll(Parent(dest));
    if !st.Ok? { return; }
    assert IsDir(disk.tree, Parent(dest)) by { MkdirsMakes(old(disk.tree), Parent(dest)); }
    st := disk.CreateFrom(source, dest);
  }

  lemma MkdirsMakes(t: Tree, p: Path)
    requires CanMkdir(t, p)
    ensures IsDir(Mkdirs(t, p), p)
  {
    assert p in Prefixes(p);
  }

  /** The part of `s` that is copied while `todo` is still to be visited. */
  function Done(s: Tree, todo: set<Path>): Tree
  {
    map r | r in s && (r == [] || r !in todo) :: s[r]
  }

  /** The tree with `s` laid over what is at dest. */
  function Over(t: Tree, dest: Path, s: Tree): (o: Tree)
    ensures forall q :: q in o <==> q in t || (dest <= q && q[|dest|..] in s)
    ensures forall q | q in o :: o[q] == if dest <= q && q[|dest|..] in s then s[q[|dest|..]] else t[q]
  {
    t + Placed(dest, s)
  }

  /** `s` can be laid over what is at dest: where both have something it is of the same kind. */
  predicate Fits(t: Tree, dest: Path, s: Tree)
  {
    forall r | r in s && dest + r in t :: t[dest + r].Dir? == s[r].Dir?
  }

  lemma DoneStep(base: Tree, dest: Path, s: Tree, todo: set<Path>, rel: Path)
    requires rel in todo && rel in s && todo <= s.Keys
    ensures Over(base, dest, Done(s, todo))[dest + rel := s[rel]] == Over(base, dest, Done(s, todo - {rel}))
    ensures Done(s, todo - {rel}) == Done(s, todo)[rel := s[rel]]
  {
    assert Done(s, todo)[rel := s[rel]] == Done(s, todo - {rel});
    OverPut(base, dest, Done(s, todo), rel, s[rel]);
  }

  lemma OverPut(base: Tree, dest: Path, m: Tree, rel: Path, n: Node)
    ensures Over(base, dest, m)[dest + rel := n] == Over(base, dest, m[rel := n])
  {
    hide Over;
    var g, g' := Over(base, dest, m)[dest + rel := n], Over(base, dest, m[rel := n]);
    forall q ensures q in g <==> q in g' {
      SameRel(dest, rel, q);
    }
    forall q | q in g ensures g[q] == g'[q] {
      SameRel(dest, rel, q);
    }
  }

  /** Where there is nothing yet, laying over is putting in place, and everything fits. */
  lemma OverFresh(t: Tree, dest: Path, s: Tree)
    requires WellFormed(t) && dest != [] && dest !in t
    ensures Over(Mkdirs(t, Parent(dest)), dest, s) == Graft(Mkdirs(t, Parent(dest)), dest, s)
    ensures Fits(t, dest, s)
  {
    hide Mkdirs, WellFormed, Over, Graft;
    var base := Mkdirs(t, Parent(dest));
    forall q | dest <= q ensures q !in t && q !in base {
      if q != dest { NothingBelow(t, dest, q); }
    }
    OverNothing(base, dest, s);
  }

  lemma OverNothing(t: Tree, dest: Path, s: Tree)
    requires forall q | dest <= q :: q !in t
    ensures Over(t, dest, s) == Graft(t, dest, s)
  {
    hide Over, Graft;
    assert Over(t, dest, s).Keys == Graft(t, dest, s).Keys;
  }

  lemma SameRel(dest: Path, rel: Path, q: Path)
    ensures q == dest + rel <==> dest <= q && q[|dest|..] == rel
  {
  }

  /** The copied part holds the directory the next entry goes to. */
  lemma DoneHasParent(base: Tree, dest: Path, s: Tree, todo: set<Path>, rel: Path)
    requires WellRooted(s) && IsDir(s, []) && rel in s && rel != [] && Parent(rel) !in todo
    ensures IsDir(Over(base, dest, Done(s, todo)), Parent(dest + rel))
  {
    assert Parent(dest + rel) == dest + Parent(rel);
    assert (dest + Parent(rel))[|dest|..] == Parent(rel);
  }

  /** Copying into dest leaves the source tree, which lies elsewhere, as it is. */
  lemma SourceStays(t: Tree, t': Tree, source: Path, dest: Path)
    requires Apart(source, dest) && dest != [] && OnlyBelow(t, t', dest, Parent(dest))
    ensures Below(t', source) == Below(t, source)
  {
    OnlyBelowFramed(t, t', dest, Parent(dest), {dest});
    if source <= Parent(dest) { PrefixTrans(source, Parent(dest), dest); }
    ApartStays(t, t', source, {dest}, Parent(dest));
  }

  lemma OverTop(t: Tree, dest: Path, top: Node)
    ensures t[dest := top] == Over(t, dest, map[[] := top])
  {
    forall q | dest <= q ensures q[|dest|..] == [] <==> q == dest {
    }
  }

  lemma PrefixesTop(dest: Path)
    requires dest != []
    ensures Prefixes(dest) == Prefixes(Parent(dest)) + {dest}
  {
    forall q ensures q in Prefixes(dest) <==> q in Prefixes(Parent(dest)) || q == dest {
      if q <= dest && q != dest { assert q == dest[..|q|] == Parent(dest)[..|q|]; }
    }
  }

  lemma MkdirsTop(t: Tree, dest: Path)
    requires dest != []
    ensures Mkdirs(t, dest) == if dest in t then Mkdirs(t, Parent(dest)) else Mkdirs(t, Parent(dest))[dest := Dir]
    ensures CanMkdir(t, dest) <==> CanMkdir(t, Parent(dest)) && (dest in t ==> t[dest].Dir?)
  {
    hide Prefixes, Parent;
    PrefixesTop(dest);
    assert dest in Prefixes(dest);
  }

  lemma MkdirsNothing(t: Tree, p: Path)
    requires WellFormed(t) && IsDir(t, p)
    ensures CanMkdir(t, p) && Mkdirs(t, p) == t
    ensures forall k | k <= p :: IsDir(t, k)
  {
    forall k | k <= p ensures IsDir(t, k) {
      if k != p { AncestorsAreDirs(t, p, k); }
    }
    forall k | k in Prefixes(p) ensures k in t && t[k].Dir? {
      assert IsDir(t, k);
    }
  }

  lemma OnlyBelowNarrow(t: Tree, t': Tree, target: Path, dest: Path)
    requires WellFormed(t) && dest <= target && IsDir(t, Parent(target))
    requires OnlyBelow(t, t', target, Parent(target))
    ensures OnlyBelow(t, t', dest, Parent(dest))
  {
    MkdirsNothing(t, Parent(target));
  }

  /** One step of copyDir's walk. */
  method CopyEntry(disk: Disk, source: Path, dest: Path, rel: Path) returns (st: Status)
    requires disk.Valid() && dest != [] && source + rel in disk.tree
    requires IsDir(disk.tree, Parent(dest + rel))
    modifies disk`tree
    ensures disk.Valid()
    ensures OnlyBelow(old(disk.tree), disk.tree, dest, Parent(dest))
    ensures st.Ok? ==> disk.tree == old(disk.tree)[dest + rel := old(disk.tree)[source + rel]]
    ensures st.Ok? ==> KindFits(old(disk.tree), dest + rel, old(disk.tree)[source + rel])
    ensures !disk.faulty ==> (st.Ok? <==> KindFits(old(disk.tree), dest + rel, old(disk.tree)[source + rel])) && !st.Crashed?
  {
    ghost var t := disk.tree;
    var target := dest + rel;
    if IsDir(disk.tree, source + rel) {
      MkdirsStep(t, target);
      st := disk.MkdirAll(target);
    } else {
      MkdirsNothing(t, Parent(target));
      st := CopyFile(disk, source + rel, target);
      OnlyBelowNarrow(t, disk.tree, target, dest);
    }
  }

  /** What is at p, if anything, is of the kind of n. */
  predicate KindFits(t: Tree, p: Path, n: Node)
  {
    p in t ==> t[p].Dir? == n.Dir?
  }

  /**
   * copyDir. The walk visits every node of the source once and a directory before what it holds;
   * any such order is covered. An existing target is kept where the source has nothing.
   */
  method CopyDir(disk: Disk, source: Path, dest: Path) returns (st: Status)
    requires disk.Valid() && dest != [] && Apart(source, dest) && IsDir(disk.tree, source)
    modifies disk`tree
    ensures disk.Valid()
    ensures OnlyBelow(old(disk.tree), disk.tree, dest, Parent(dest))
    ensures st.Ok? ==> CanMkdir(old(disk.tree), Parent(dest)) && Fits(old(disk.tree), dest, Below(old(disk.tree), source))
    ensures st.Ok? ==> disk.tree == Over(Mkdirs(old(disk.tree), Parent(dest)), dest, Below(old(disk.tree), source))
    ensures !disk.faulty ==> !st.Crashed?
    ensures !disk.faulty ==>
              (st.Ok? <==> CanMkdir(old(disk.tree), Parent(dest)) && Fits(old(disk.tree), dest, Below(old(disk.tree), source)))
  {
    hide Below, Over, OnlyBelow, WellFormed, CanMkdir, Mkdirs, Done, Prefixes, Fits;
    ghost var t0 := disk.tree;
    ghost var base := Mkdirs(t0, Parent(dest));
    ghost var s := Below(disk.tree, source);
    SourceTop(t0, source);
    BelowWellRooted(t0, source);
    TopMade(t0, dest, s);
    st := disk.MkdirAll(dest);
    MadeOnlyBelow(t0, disk.tree, dest);
    if !st.Ok? { return; }
    var todo := Below(disk.tree, source).Keys;
    SourceStays(t0, disk.tree, source, dest);
    DoneAtFirst(s);
    while todo != {}
      invariant disk.Valid() && todo <= s.Keys
      invariant disk.tree == Over(base, dest, Done(s, todo)) && Fits(t0, dest, Done(s, todo))
      invariant OnlyBelow(t0, disk.tree, dest, Parent(dest)) && st.Ok?
      decreases |todo|
    {
      ghost var top := TopMost(todo);
      var rel :| rel in todo && (rel == [] || Parent(rel) !in todo);
      ghost var t := disk.tree;
      DoneStep(base, dest, s, todo, rel);
      Entry(t0, t, base, dest, s, todo, rel);
      SourceStays(t0, t, source, dest);
      SourceNode(t, source, s, rel);
      st := CopyEntry(disk, source, dest, rel);
      OnlyBelowTrans(t0, t, disk.tree, dest, Parent(dest));
      if !st.Ok? { return; }
      todo := todo - {rel};
    }
    DoneAtLast(s);
  }

  /** After the first directory has been made. */
  lemma TopMade(t: Tree, dest: Path, s: Tree)
    requires dest != [] && IsDir(s, [])
    ensures CanMkdir(t, dest) ==> CanMkdir(t, Parent(dest)) && Fits(t, dest, map[[] := s[[]]]) &&
                                  Mkdirs(t, dest) == Over(Mkdirs(t, Parent(dest)), dest, map[[] := s[[]]])
    ensures !CanMkdir(t, dest) ==> !CanMkdir(t, Parent(dest)) || !Fits(t, dest, s)
  {
    hide CanMkdir, Prefixes;
    MkdirsTop(t, dest);
    OverTop(Mkdirs(t, Parent(dest)), dest, Dir);
    assert dest + [] == dest;
    if dest in t && t[dest].Dir? {
      assert Mkdirs(t, Parent(dest))[dest := Dir] == Mkdirs(t, Parent(dest));
    }
  }

  lemma SourceTop(t: Tree, source: Path)
    requires source in t
    ensures [] in Below(t, source) && Below(t, source)[[]] == t[source]
  {
    assert source + [] == source;
  }

  lemma DoneAtFirst(s: Tree)
    requires [] in s
    ensures Done(s, s.Keys) == map[[] := s[[]]]
  {
  }

  lemma DoneAtLast(s: Tree)
    ensures Done(s, {}) == s
  {
  }

  lemma MadeOnlyBelow(t: Tree, t': Tree, dest: Path)
    requires dest != [] && Part(t, t') && Part(t', Mkdirs(t, dest))
    ensures OnlyBelow(t, t', dest, Parent(dest))
  {
    MkdirsTop(t, dest);
  }

  lemma SourceNode(t: Tree, source: Path, s: Tree, rel: Path)
    requires Below(t, source) == s && rel in s
    ensures source + rel in t && t[source + rel] == s[rel]
  {
  }

  /** Where the next entry goes: its directory is there, and what is at its own place was there at first. */
  lemma Entry(t0: Tree, t: Tree, base: Tree, dest: Path, s: Tree, todo: set<Path>, rel: Path)
    requires WellFormed(t0) && WellFormed(t) && dest != [] && base == Mkdirs(t0, Parent(dest))
    requires t == Over(base, dest, Done(s, todo)) && WellRooted(s) && IsDir(s, []) && Fits(t0, dest, Done(s, todo))
    requires rel in todo && rel in s && (rel == [] || Parent(rel) !in todo)
    ensures dest + rel != [] && dest <= dest + rel && IsDir(t, Parent(dest + rel))
    ensures KindFits(t, dest + rel, s[rel]) ==> Fits(t0, dest, Done(s, todo)[rel := s[rel]])
    ensures !KindFits(t, dest + rel, s[rel]) ==> !Fits(t0, dest, s)
  {
    assert (dest + rel)[|dest|..] == rel;
    if rel == [] {
      assert dest + rel == dest;
    } else {
      DoneHasParent(base, dest, s, todo, rel);
      assert !(dest + rel <= Parent(dest));
      assert SameNode(t, t0, dest + rel);
    }
  }

  method CopyPath(disk: Disk, source: Path, dest: Path) returns (st: Status)
    requires disk.Valid() && dest != [] && Apart(source, dest)
    modifies disk`tree
    ensures disk.Valid()
    ensures OnlyBelow(old(disk.tree), disk.tree, dest, Parent(dest))
    ensures st.Ok? ==> source in old(disk.tree) && CanMkdir(old(disk.tree), Parent(dest)) && Fits(old(disk.tree), dest, Below(old(disk.tree), source))
    ensures st.Ok? ==> disk.tree == Over(Mkdirs(old(disk.tree), Parent(dest)), dest, Below(old(disk.tree), source))
    ensures !disk.faulty ==> !st.Crashed?
    ensures !disk.faulty ==>
              (st.Ok? <==> source in old(disk.tree) && CanMkdir(old(disk.tree), Parent(dest)) &&
                           Fits(old(disk.tree), dest, Below(old(disk.tree), source)))
  {
    hide Over, CanMkdir, Mkdirs;
    if source !in disk.tree {
      return Err;
    }
    if disk.tree[source].Dir? {
      st := CopyDir(disk, source, dest);
    } else {
      FileAlone(disk.tree, source);
      OverTop(Mkdirs(disk.tree, Parent(dest)), dest, disk.tree[source]);
      assert dest + [] == dest;
      st := CopyFile(disk, source, dest);
    }
  }

  /** What may be found at a destination: all of the new data, or what was there before. */
  ghost predicate DataAt(atomicRemoval: bool, before: Tree, full: Tree, now: Tree)
  {
    && (now == full || Part(now, before))
    && (atomicRemoval ==> now == full || now == before || now == map[])
  }

  /** The disk after the data has been moved into place. */
  function Moved(t: Tree, source: Path, dest: Path, tmp: Path): Tree
  {
    Graft(Mkdirs(Without(t, tmp), Parent(dest)), dest, Below(t, source))
  }

  // ----- The steps of copyPathAtomically, one lemma each

  /** Working at the temporary path does not reach the destination. */
  lemma TmpStep(t0: Tree, t: Tree, t': Tree, dest: Path, tmp: Path)
    requires dest != [] && tmp != [] && Apart(dest, tmp) && Parent(tmp) == Parent(dest)
    requires Framed(t0, t, {dest, tmp}, Parent(dest)) && OnlyBelow(t, t', tmp, Parent(dest))
    ensures Framed(t0, t', {dest, tmp}, Parent(dest))
    ensures Below(t', dest) == Below(t, dest)
  {
    OnlyBelowFramed(t, t', tmp, Parent(dest), {dest, tmp});
    FramedTrans(t0, t, t', {dest, tmp}, {dest, tmp}, Parent(dest));
    assert {dest, tmp} + {dest, tmp} == {dest, tmp};
    SourceStays(t, t', dest, tmp);
  }

  lemma RemoveTmp(t0: Tree, t: Tree, t': Tree, dest: Path, tmp: Path)
    requires dest != [] && tmp != [] && Apart(dest, tmp) && Parent(tmp) == Parent(dest)
    requires Framed(t0, t, {dest, tmp}, Parent(dest)) && Part(Without(t, tmp), t') && Part(t', t)
    ensures Framed(t0, t', {dest, tmp}, Parent(dest))
    ensures Below(t', dest) == Below(t, dest)
  {
    RemovedOnlyBelow(t, t', tmp, Parent(dest));
    TmpStep(t0, t, t', dest, tmp);
  }

  lemma RemoveDest(t0: Tree, t: Tree, t': Tree, dest: Path, tmp: Path)
    requires Framed(t0, t, {dest, tmp}, Parent(dest)) && Part(Without(t, dest), t') && Part(t', t)
    ensures Framed(t0, t', {dest, tmp}, Parent(dest))
    ensures Part(Below(t', dest), Below(t, dest))
    ensures t' == Without(t, dest) ==> Below(t', dest) == map[]
  {
    RemovedOnlyBelow(t, t', dest, Parent(dest));
    OnlyBelowFramed(t, t', dest, Parent(dest), {dest, tmp});
    FramedTrans(t0, t, t', {dest, tmp}, {dest, tmp}, Parent(dest));
    assert {dest, tmp} + {dest, tmp} == {dest, tmp};
  }

  lemma FramedRefl(t: Tree, foot: set<Path>, made: Path)
    ensures Framed(t, t, foot, made)
  {
  }

  /** What each step makes of the disk when none of them fails. */
  lemma AllSteps(t0: Tree, t1: Tree, t2: Tree, t3: Tree, source: Path, dest: Path, tmp: Path)
    requires WellFormed(t0) && WellFormed(t2) && WellFormed(t3)
    requires dest != [] && tmp != [] && Apart(dest, tmp) && Apart(source, tmp) && Parent(tmp) == Parent(dest)
    requires t1 == Without(t0, tmp) && source in t0 && CanMkdir(t1, Parent(dest))
    requires t2 == Graft(Mkdirs(t1, Parent(dest)), tmp, Below(t1, source))
    requires t3 == Without(t2, dest)
    ensures CanMkdir(t3, Parent(dest)) && Mkdirs(t3, Parent(dest)) == t3
    ensures CanRename(t3, tmp, dest)
    ensures Renamed(t3, tmp, dest) == Moved(t0, source, dest, tmp)
  {
    hide Graft, Below, Mkdirs, OnlyBelow;
    var up := Parent(dest);
    var base, s := Mkdirs(t1, up), Below(t0, source);
    assert Below(t1, source) == s by { RemovedOnlyBelow(t0, t1, tmp, up); SourceStays(t0, t1, source, tmp); }
    assert IsDir(t3, up) by {
      MkdirsMakes(t1, up);
      assert !(tmp <= up) && !(dest <= up);
    }
    MkdirsNothing(t3, up);
    assert Below(t3, tmp) == s by {
      BelowGraft(base, tmp, s);
      RemovedOnlyBelow(t2, t3, dest, up);
      SourceStays(t2, t3, tmp, dest);
    }
    SourceTop(t0, source);
    assert [] in Below(t3, tmp) && tmp + [] == tmp;
    SameAside(t1, base, s, dest, tmp);
  }

  lemma SameAside(t1: Tree, base: Tree, s: Tree, dest: Path, tmp: Path)
    requires base == Mkdirs(t1, Parent(dest)) && Apart(dest, tmp) && dest != [] && Parent(tmp) == Parent(dest) && tmp != []
    requires forall q | q in t1 :: !(tmp <= q)
    ensures Graft(Without(Without(Graft(base, tmp, s), dest), tmp), dest, s) == Graft(base, dest, s)
  {
    hide Graft, Mkdirs;
    forall q | q in Prefixes(Parent(tmp)) ensures !(tmp <= q) { }
    forall q | q in base ensures !(tmp <= q) { }
    var u := Without(Without(Graft(base, tmp, s), dest), tmp);
    GraftAgree(u, base, dest, s);
  }

  /** What was at the destination does not matter. */
  lemma GraftAgree(t: Tree, t': Tree, dest: Path, s: Tree)
    requires forall q | !(dest <= q) && q in t :: q in t' && t'[q] == t[q]
    requires forall q | !(dest <= q) && q in t' :: q in t
    ensures Graft(t, dest, s) == Graft(t', dest, s)
  {
    hide Graft;
    var g, g' := Graft(t, dest, s), Graft(t', dest, s);
    assert g.Keys == g'.Keys;
  }

  /** The first half of copyPathAtomically: the copy is made at the temporary path. */
  method CopyAside(disk: Disk, source: Path, dest: Path, tmp: Path) returns (st: Status)
    requires disk.Valid() && dest != [] && tmp != [] && Apart(dest, tmp) && Apart(source, tmp) && Parent(tmp) == Parent(dest)
    modifies disk`tree
    ensures disk.Valid()
    ensures Framed(old(disk.tree), disk.tree, {dest, tmp}, Parent(dest)) && Below(disk.tree, dest) == Below(old(disk.tree), dest)
    ensures st.Ok? ==> source in old(disk.tree) && CanMkdir(old(disk.tree), Parent(dest))
    ensures st.Ok? ==> var t1 := Without(old(disk.tree), tmp);
                       CanMkdir(t1, Parent(dest)) && disk.tree == Graft(Mkdirs(t1, Parent(dest)), tmp, Below(t1, source))
    ensures !disk.faulty ==> (st.Ok? <==> source in old(disk.tree) && CanMkdir(old(disk.tree), Parent(dest)))
    ensures !disk.faulty && !st.Ok? ==> Below(disk.tree, tmp) == map[]
  {
    hide Below, Graft, Framed, OnlyBelow, Mkdirs, CanMkdir, Without, Part, WellFormed, Over, Fits;
    ghost var t0, up := disk.tree, Parent(dest);
    FramedRefl(t0, {dest, tmp}, up);
    st := disk.RemoveAll(tmp);
    RemoveTmp(t0, t0, disk.tree, dest, tmp);
    if !st.Ok? { return; }
    ghost var t1 := disk.tree;
    WithoutFacts(t0, tmp, source, up);
    OverFresh(t1, tmp, Below(t1, source));
    st := CopyPath(disk, source, tmp);
    TmpStep(t0, t1, disk.tree, dest, tmp);
    if st.Err? {
      ghost var t2 := disk.tree;
      st := CleanUp(disk, tmp);
      RemoveTmp(t0, t2, disk.tree, dest, tmp);
      NothingLeftBelow(t2, tmp);
    }
  }

  /**
   * copyPathAtomically. Without a fault a call that fails has lost nothing: the old data is still at
   * the destination and the temporary path is gone again.
   */
  method CopyPathAtomically(disk: Disk, source: Path, dest: Path, pid: nat) returns (st: Status)
    requires disk.Valid() && dest != [] && Apart(source, TmpOf(dest, pid))
    modifies disk`tree
    ensures disk.Valid()
    ensures Framed(old(disk.tree), disk.tree, {dest, TmpOf(dest, pid)}, Parent(dest))
    ensures DataAt(disk.atomicRemoval, Below(old(disk.tree), dest), Below(old(disk.tree), source), Below(disk.tree, dest))
    ensures st.Ok? ==> source in old(disk.tree) && CanMkdir(old(disk.tree), Parent(dest))
    ensures st.Ok? ==> disk.tree == Moved(old(disk.tree), source, dest, TmpOf(dest, pid))
    ensures !disk.faulty ==> (st.Ok? <==> source in old(disk.tree) && CanMkdir(old(disk.tree), Parent(dest)))
    ensures !disk.faulty && !st.Ok? ==>
              Below(disk.tree, dest) == Below(old(disk.tree), dest) && Below(disk.tree, TmpOf(dest, pid)) == map[]
  {
    hide Below, Graft, Framed, OnlyBelow, Mkdirs, CanMkdir, Without, CanRename, Part, WellFormed, Moved, Renamed;
    var tmp := TmpOf(dest, pid);
    TmpApart(dest, pid);
    ghost var t0, t1, up := disk.tree, Without(disk.tree, tmp), Parent(dest);
    PartRefl(Below(t0, dest));

    st := CopyAside(disk, source, dest, tmp);
    ghost var t2 := disk.tree;
    if !st.Ok? { return; }

    st := disk.RemoveAll(dest);
    RemoveDest(t0, t2, disk.tree, dest, tmp);
    ghost var t3 := disk.tree;
    if !st.Ok? {
      if st.Err? { st := CleanUp(disk, tmp); RemoveTmp(t0, t3, disk.tree, dest, tmp); }
      return;
    }
    AllSteps(t0, t1, t2, t3, source, dest, tmp);
    NothingIsPart(Below(t0, dest));

    st := disk.MkdirAll(Parent(dest));
    PartBoth(t3, disk.tree);
    if !st.Ok? {
      if st.Err? { st := CleanUp(disk, tmp); RemoveTmp(t0, t3, disk.tree, dest, tmp); }
      return;
    }

    st := disk.Rename(tmp, dest);
    MovedFacts(t0, source, dest, tmp);
    if st.Err? {
      ghost var t4 := disk.tree;
      st := CleanUp(disk, tmp);
      RemoveTmp(t0, t4, disk.tree, dest, tmp);
    }
  }

  /**
   * The same up to the removal of the old data, by a process that dies there: the new data stands
   * aside in the temporary path, and at the destination there is nothing.
   */
  method CopyAndDie(disk: Disk, source: Path, dest: Path, pid: nat)
    requires disk.Valid() && !disk.faulty && dest != [] && Apart(source, TmpOf(dest, pid))
    requires source in disk.tree && CanMkdir(disk.tree, Parent(dest))
    modifies disk`tree
    ensures disk.Valid()
    ensures Framed(old(disk.tree), disk.tree, {dest, TmpOf(dest, pid)}, Parent(dest))
    ensures DataAt(disk.atomicRemoval, Below(old(disk.tree), dest), Below(old(disk.tree), source), Below(disk.tree, dest))
    ensures Below(disk.tree, dest) == map[]
  {
    hide Below, Graft, Framed, OnlyBelow, Mkdirs, CanMkdir, Without, Part, WellFormed;
    var tmp := TmpOf(dest, pid);
    TmpApart(dest, pid);
    ghost var t0 := disk.tree;
    var st := CopyAside(disk, source, dest, tmp);
    ghost var t2 := disk.tree;
    st := disk.RemoveAll(dest);
    RemoveDest(t0, t2, disk.tree, dest, tmp);
    NothingIsPart(Below(t0, dest));
  }

  lemma TmpApart(dest: Path, pid: nat)
    requires dest != []
    ensures var tmp := TmpOf(dest, pid); tmp != [] && Apart(dest, tmp) && Parent(tmp) == Parent(dest)
  {
    SuffixedApart(dest, ".tmp." + Decimal(pid), "");
  }

  lemma NothingLeftBelow(t: Tree, p: Path)
    ensures Below(Without(t, p), p) == map[]
  {
  }

  lemma PartRefl(a: Tree)
    ensures Part(a, a)
  {
  }

  lemma NothingIsPart(a: Tree)
    ensures Part(map[], a)
  {
  }

  lemma PartBoth(a: Tree, b: Tree)
    requires Part(a, b) && Part(b, a)
    ensures a == b
  {
  }

  lemma WithoutFacts(t: Tree, tmp: Path, source: Path, up: Path)
    requires Apart(source, tmp) && tmp != [] && Parent(tmp) == up
    ensures source in Without(t, tmp) <==> source in t
    ensures CanMkdir(Without(t, tmp), up) <==> CanMkdir(t, up)
    ensures tmp !in Without(t, tmp)
  {
    forall k | k in Prefixes(up) ensures !(tmp <= k) { }
  }

  lemma MovedFacts(t: Tree, source: Path, dest: Path, tmp: Path)
    requires dest != [] && tmp != [] && Apart(dest, tmp)
    ensures Framed(t, Moved(t, source, dest, tmp), {dest, tmp}, Parent(dest))
    ensures Below(Moved(t, source, dest, tmp), dest) == Below(t, source)
  {
    BelowGraft(Mkdirs(Without(t, tmp), Parent(dest)), dest, Below(t, source));
    var t' := Moved(t, source, dest, tmp);
    forall q | !Covered({dest, tmp}, q) ensures !(dest <= q) && !(tmp <= q) {
      assert dest in {dest, tmp} && tmp in {dest, tmp};
    }
  }

  /** Removing the temporary path after an error; its own error is dropped, a crash is not. */
  method CleanUp(disk: Disk, tmp: Path) returns (st: Status)
    requires disk.Valid() && tmp != []
    modifies disk`tree
    ensures disk.Valid() && !st.Ok?
    ensures !disk.faulty ==> disk.tree == Without(old(disk.tree), tmp)
    ensures Part(Without(old(disk.tree), tmp), disk.tree) && Part(disk.tree, old(disk.tree))
  {
    st := disk.RemoveAll(tmp);
    if st.Ok? { st := Err; }
  }
}
