// The disk: every primitive the agent calls may fail or be cut short by a crash, and leaves
// the disk in whatever state it had reached.
module Disks {
  import opened CleanPath
  import opened Trees

  /** How a call ends. After Crashed the process is gone and nothing more is executed. */
  datatype Status = Ok | Err | Crashed

  function TimeIn(mtime: map<Path, int>, p: Path): int
  {
    if p in mtime then mtime[p] else -1
  }

  /** However far MkdirAll gets. */
  lemma MkdirsSteps(t: Tree, p: Path)
    requires WellFormed(t)
    ensures Part(t, t) && Part(t, Mkdirs(t, p))
    ensures CanMkdir(t, p) ==> forall k: nat | k <= |p| ::
              var m := Mkdirs(t, p[..k]); WellFormed(m) && Part(t, m) && Part(m, Mkdirs(t, p))
  {
    hide WellFormed;
    if CanMkdir(t, p) {
      forall k: nat | k <= |p|
        ensures var m := Mkdirs(t, p[..k]); WellFormed(m) && Part(t, m) && Part(m, Mkdirs(t, p))
      {
        assert Prefixes(p[..k]) <= Prefixes(p);
        MkdirsWellFormed(t, p[..k]);
      }
    }
  }

  class Disk {
    /** Whether removing a tree happens in one step; if not, a crash can leave a part of it. */
    const atomicRemoval: bool
    /** Whether asking for a file that exists always finds it; if not, a fault can look like absence. */
    const statsReliable: bool
    /** Whether calls may fail or crash for reasons that are not on the disk. */
    var faulty: bool
    var tree: Tree
    /** When each file was last written by WriteFile or by the job; the agent reads it for manifests only. */
    var mtime: map<Path, int>
    var clock: int

    ghost predicate Valid()
      reads this
    {
      WellFormed(tree) && clock >= 0 && forall p | p in mtime :: mtime[p] <= clock
    }

    constructor (atomicRemoval: bool, statsReliable: bool, faulty: bool)
      ensures Valid() && tree == map[[] := Dir] && mtime == map[]
      ensures this.atomicRemoval == atomicRemoval && this.statsReliable == statsReliable && this.faulty == faulty
    {
      this.atomicRemoval, this.statsReliable := atomicRemoval, statsReliable;
      this.faulty := faulty;
      tree, mtime, clock := map[[] := Dir], map[], 0;
    }

    function MTime(p: Path): int
      reads this
    {
      TimeIn(mtime, p)
    }

    /** The fate of a call as far as it does not depend on the disk. */
    method Fate() returns (st: Status)
      ensures !faulty ==> st.Ok?
    {
      st := Ok;
      if faulty {
        st := *;
      }
    }

    /** os.Stat used as an existence test: every error counts as absence. */
    method Exists(p: Path) returns (seen: bool)
      ensures seen ==> p in tree
      ensures statsReliable || !faulty ==> (seen <==> p in tree)
    {
      seen := p in tree;
      if faulty && !statsReliable {
        if * { seen := false; }
      }
    }

    method RemoveAll(p: Path) returns (st: Status)
      requires Valid()
      modifies this`tree
      ensures Valid()
      ensures st.Ok? ==> tree == Without(old(tree), p)
      ensures Part(Without(old(tree), p), tree) && Part(tree, old(tree))
      ensures atomicRemoval ==> tree == old(tree) || tree == Without(old(tree), p)
      ensures !faulty ==> (st.Ok? <==> p != [])
    {
      if p == [] {
        return Err;
      }
      st := Fate();
      WithoutWellFormed(tree, p);
      if st.Ok? {
        tree := Without(tree, p);
      } else if * {
        tree := Without(tree, p);
      } else {
        var left: set<Path> := *;
        var rest := map q | q in tree && (!(p <= q) || q in left) :: tree[q];
        if !atomicRemoval && (forall q | q in rest && q != [] :: Parent(q) in rest) {
          tree := rest;
        }
      }
    }

    method MkdirAll(p: Path) returns (st: Status)
      requires Valid()
      modifies this`tree
      ensures Valid()
      ensures st.Ok? ==> CanMkdir(old(tree), p) && tree == Mkdirs(old(tree), p)
      ensures Part(old(tree), tree) && Part(tree, Mkdirs(old(tree), p))
      ensures !faulty ==> (st.Ok? <==> CanMkdir(old(tree), p)) && !st.Crashed?
    {
      hide WellFormed, CanMkdir, Mkdirs, Part;
      MkdirsSteps(tree, p);
      st := Fate();
      if !CanMkdir(tree, p) {
        st := if st.Ok? then Err else st;
        return;
      }
      var reached := |p|;
      if !st.Ok? {
        var k: int := *;
        reached := if 0 <= k <= |p| then k else 0;
      }
      assert p[..|p|] == p;
      tree := Mkdirs(tree, p[..reached]);
    }

    /** os.WriteFile and os.Create with io.Copy: a call cut short can leave a torn file behind. */
    method WriteFile(p: Path, c: Content) returns (st: Status)
      requires Valid()
      modifies this`tree, this`mtime, this`clock
      ensures Valid()
      ensures st.Ok? ==> CanWrite(old(tree), p) && tree == old(tree)[p := File(c)]
      ensures tree == old(tree) ||
              (CanWrite(old(tree), p) && IsFile(tree, p) && tree == old(tree)[p := tree[p]] &&
               (tree[p].content == c || tree[p].content.Raw?))
      ensures !faulty ==> (st.Ok? <==> CanWrite(old(tree), p))
      ensures forall q: Path | q != p :: MTime(q) == old(MTime(q))
      ensures old(MTime(p)) <= MTime(p) && old(clock) <= clock
      ensures MTime(p) == old(MTime(p)) ==> tree == old(tree)
    {
      st := Fate();
      if !CanWrite(tree, p) {
        st := if st.Ok? then Err else st;
        return;
      }
      var written := c;
      if !st.Ok? {
        if * { return; }
        var text: string := *;
        if * { written := Raw(text); }
      }
      WriteWellFormed(tree, p, written);
      tree := tree[p := File(written)];
      clock := clock + 1;
      mtime := mtime[p := clock];
    }

    /** os.Open, os.Create and io.Copy in turn; cut short, it leaves a file with some other text. */
    method CreateFrom(source: Path, dest: Path) returns (st: Status)
      requires Valid()
      modifies this`tree
      ensures Valid()
      ensures st.Ok? ==> IsFile(old(tree), source) && CanWrite(old(tree), dest) && tree == old(tree)[dest := old(tree)[source]]
      ensures tree == old(tree) || (CanWrite(old(tree), dest) && IsFile(tree, dest) && tree == old(tree)[dest := tree[dest]])
      ensures !faulty ==> (st.Ok? <==> IsFile(old(tree), source) && CanWrite(old(tree), dest)) && !st.Crashed?
    {
      st := Fate();
      if !IsFile(tree, source) || !CanWrite(tree, dest) {
        st := if st.Ok? then Err else st;
        return;
      }
      var written := tree[source].content;
      if !st.Ok? {
        if * { return; }
        var text: string := *;
        if * { written := Raw(text); }
      }
      WriteWellFormed(tree, dest, written);
      tree := tree[dest := File(written)];
    }

    method Rename(a: Path, b: Path) returns (st: Status)
      requires Valid()
      modifies this`tree
      ensures Valid()
      ensures st.Ok? ==> CanRename(old(tree), a, b) && tree == Renamed(old(tree), a, b)
      ensures tree == old(tree) || (CanRename(old(tree), a, b) && tree == Renamed(old(tree), a, b))
      ensures !faulty ==> (st.Ok? <==> CanRename(old(tree), a, b))
    {
      st := Fate();
      if !CanRename(tree, a, b) {
        st := if st.Ok? then Err else st;
        return;
      }
      if !st.Ok? {
        if * { return; }
      }
      RenamedWellFormed(tree, a, b);
      tree := Renamed(tree, a, b);
    }
  }
}
