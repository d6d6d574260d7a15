// File trees: a map from absolute location to node, and the operations a checkpoint commit
// is made of. All sizes, permissions and links are left aside.
module Trees {
  import opened CleanPath
  import opened Manifests

  /** A file's content. A manifest is kept as the value its JSON text decodes to. */
  datatype Content = Raw(text: string) | Json(item: Manifest)

  datatype Node = Dir | File(content: Content)

  type Tree = map<Path, Node>

  function Parent(p: Path): Path
  {
    if p == [] then [] else p[..|p| - 1]
  }

  /** The location whose text is p's text followed by `suffix`. */
  function Suffixed(p: Path, suffix: string): Path
  {
    if p == [] then [suffix] else p[..|p| - 1] + [p[|p| - 1] + suffix]
  }

  /** Neither location is the other or lies below it. */
  predicate Apart(p: Path, q: Path)
  {
    !(p <= q) && !(q <= p)
  }

  /** The root is a directory and every other node sits in a directory. */
  predicate WellFormed(t: Tree)
  {
    && [] in t && t[[]].Dir?
    && forall q | q in t && q != [] :: Parent(q) in t && t[Parent(q)].Dir?
  }

  predicate IsDir(t: Tree, p: Path)
  {
    p in t && t[p].Dir?
  }

  predicate IsFile(t: Tree, p: Path)
  {
    p in t && t[p].File?
  }

  predicate SameNode(t: Tree, t': Tree, p: Path)
  {
    (p in t <==> p in t') && (p in t ==> t[p] == t'[p])
  }

  /** The tree after os.RemoveAll(p). */
  function Without(t: Tree, p: Path): Tree
  {
    map q | q in t && !(p <= q) :: t[q]
  }

  function RelPaths(t: Tree, p: Path): set<Path>
  {
    set q | q in t && p <= q :: q[|p|..]
  }

  lemma RelPathsAt(t: Tree, p: Path, r: Path)
    ensures r in RelPaths(t, p) <==> p + r in t
  {
    if p + r in t { assert p <= p + r && (p + r)[|p|..] == r; }
    if r in RelPaths(t, p) {
      var q :| q in t && p <= q && q[|p|..] == r;
      assert q == p + r;
    }
  }

  /** What lies at p and below it, by location relative to p. */
  function Below(t: Tree, p: Path): (b: Tree)
    ensures forall r :: r in b <==> p + r in t
    ensures forall r | r in b :: b[r] == t[p + r]
  {
    assert forall r :: r in RelPaths(t, p) <==> p + r in t by {
      forall r { RelPathsAt(t, p, r); }
    }
    map r | r in RelPaths(t, p) :: t[p + r]
  }

  /** `s` placed at p, by absolute location. */
  function Placed(p: Path, s: Tree): (a: Tree)
    ensures forall q :: q in a <==> p <= q && q[|p|..] in s
    ensures forall q | q in a :: a[q] == s[q[|p|..]]
  {
    assert forall q :: q in (set r | r in s :: p + r) <==> p <= q && q[|p|..] in s by {
      forall q: Path { PlacedKeys(p, s, q); }
    }
    map q | q in (set r | r in s :: p + r) :: s[q[|p|..]]
  }

  lemma PlacedKeys(p: Path, s: Tree, q: Path)
    ensures q in (set r | r in s :: p + r) <==> p <= q && q[|p|..] in s
  {
    if p <= q && q[|p|..] in s { assert p + q[|p|..] == q; }
  }

  /** The tree with whatever was at p replaced by `s`. */
  function Graft(t: Tree, p: Path, s: Tree): (g: Tree)
    ensures forall q :: q in g <==> if p <= q then q[|p|..] in s else q in t
    ensures forall q | q in g :: g[q] == if p <= q then s[q[|p|..]] else t[q]
  {
    Without(t, p) + Placed(p, s)
  }

  function Prefixes(p: Path): (ks: set<Path>)
    ensures forall k :: k in ks <==> k <= p
  {
    assert forall k: Path :: k <= p ==> k == p[..|k|];
    set i | 0 <= i <= |p| :: p[..i]
  }

  /** The tree after os.MkdirAll(p) succeeded. */
  function Mkdirs(t: Tree, p: Path): (m: Tree)
    ensures forall q :: q in m <==> q in t || q <= p
    ensures forall q | q in m :: m[q] == if q in t then t[q] else Dir
  {
    t + map k | k in Prefixes(p) && k !in t :: Dir
  }

  /** os.MkdirAll(p) meets no file on its way. */
  predicate CanMkdir(t: Tree, p: Path)
  {
    forall k | k in Prefixes(p) && k in t :: t[k].Dir?
  }

  /** A file can be written at p: its directory exists and p itself is no directory. */
  predicate CanWrite(t: Tree, p: Path)
  {
    p != [] && IsDir(t, Parent(p)) && !IsDir(t, p)
  }

  /** rename(2) can move a to b: b is free, or both are files, or both directories and b is empty. */
  predicate CanRename(t: Tree, a: Path, b: Path)
  {
    && a in t && !(a <= b) && b != [] && IsDir(t, Parent(b))
    && (b in t ==> (t[a].File? && t[b].File?) || (t[a].Dir? && t[b].Dir? && |Below(t, b)| == 1))
  }

  function Renamed(t: Tree, a: Path, b: Path): Tree
  {
    Graft(Without(t, a), b, Below(t, a))
  }

  /** Every node of `a` is in `b`, with the same content. */
  ghost predicate Part(a: Tree, b: Tree)
  {
    forall q | q in a :: q in b && a[q] == b[q]
  }

  /** Nothing changed but at and below p, and directories that were missing up to `made`. */
  ghost predicate OnlyBelow(t: Tree, t': Tree, p: Path, made: Path)
  {
    forall q | !(p <= q) ::
      && (q in t ==> q in t' && t'[q] == t[q])
      && (q in t' && q !in t ==> q <= made && t'[q].Dir?)
  }

  predicate Covered(foot: set<Path>, q: Path)
  {
    exists f | f in foot :: f <= q
  }

  /** The same for several places at once. */
  ghost predicate Framed(t: Tree, t': Tree, foot: set<Path>, made: Path)
  {
    forall q | !Covered(foot, q) ::
      && (q in t ==> q in t' && t'[q] == t[q])
      && (q in t' && q !in t ==> q <= made && t'[q].Dir?)
  }

  // ----- Facts used by every commit proof

  lemma BelowGraft(t: Tree, p: Path, s: Tree)
    ensures Below(Graft(t, p, s), p) == s
  {
    var g := Graft(t, p, s);
    forall r ensures r in Below(g, p) <==> r in s {
      assert (p + r)[|p|..] == r;
    }
    forall r | r in s ensures Below(g, p)[r] == s[r] {
      assert (p + r)[|p|..] == r;
    }
  }

  lemma WithoutWellFormed(t: Tree, p: Path)
    requires WellFormed(t) && p != []
    ensures WellFormed(Without(t, p))
  {
  }

  lemma MkdirsWellFormed(t: Tree, p: Path)
    requires WellFormed(t) && CanMkdir(t, p)
    ensures WellFormed(Mkdirs(t, p))
  {
  }

  lemma GraftWellFormed(t: Tree, p: Path, s: Tree)
    requires WellFormed(t) && p != [] && IsDir(t, Parent(p)) && WellRooted(s)
    ensures WellFormed(Graft(t, p, s))
  {
    var g := Graft(t, p, s);
    forall q | q in g && q != [] ensures Parent(q) in g && g[Parent(q)].Dir? {
      if p <= q && q != p {
        var r := q[|p|..];
        assert Parent(q)[|p|..] == Parent(r);
      }
    }
  }

  /** A cut-out tree: every node but the top sits in a directory. */
  ghost predicate WellRooted(s: Tree)
  {
    forall r | r in s && r != [] :: Parent(r) in s && s[Parent(r)].Dir?
  }

  lemma BelowWellRooted(t: Tree, p: Path)
    requires WellFormed(t)
    ensures WellRooted(Below(t, p))
  {
    var b := Below(t, p);
    forall r | r in b && r != [] ensures Parent(r) in b && b[Parent(r)].Dir? {
      assert Parent(p + r) == p + Parent(r);
    }
  }

  /** Below a file, or below nothing, there is nothing. */
  lemma {:induction false} NothingBelow(t: Tree, p: Path, q: Path)
    requires WellFormed(t) && !IsDir(t, p) && p <= q && p != q
    ensures q !in t
    decreases |q|
  {
    if q in t && Parent(q) != p {
      assert p <= Parent(q);
      NothingBelow(t, p, Parent(q));
    }
  }

  lemma FileAlone(t: Tree, p: Path)
    requires WellFormed(t) && IsFile(t, p)
    ensures Below(t, p) == map[[] := t[p]]
  {
    forall r ensures r in Below(t, p) <==> r == [] {
      assert p + [] == p;
      if r != [] { NothingBelow(t, p, p + r); }
    }
  }

  lemma WriteWellFormed(t: Tree, p: Path, c: Content)
    requires WellFormed(t) && CanWrite(t, p)
    ensures WellFormed(t[p := File(c)])
  {
  }

  lemma {:induction false} AncestorsAreDirs(t: Tree, p: Path, k: Path)
    requires WellFormed(t) && p in t && k <= p && k != p
    ensures IsDir(t, k)
    decreases |p|
  {
    if k != Parent(p) { AncestorsAreDirs(t, Parent(p), k); }
  }

  /** In a directory that exists, MkdirAll makes at most one new node. */
  lemma MkdirsStep(t: Tree, p: Path)
    requires WellFormed(t) && IsDir(t, Parent(p)) && p != []
    ensures CanMkdir(t, p) <==> (p in t ==> IsDir(t, p))
    ensures Mkdirs(t, p) == if p in t then t else t[p := Dir]
  {
    forall k | k <= p && k != p ensures IsDir(t, k) {
      assert k == p[..|k|] == Parent(p)[..|k|];
      if k != Parent(p) { AncestorsAreDirs(t, Parent(p), k); }
    }
    forall q ensures q in Mkdirs(t, p) <==> q in t || q == p {
      if q <= p && q != p { assert IsDir(t, q); }
    }
    assert p in Prefixes(p);
    forall k | k in Prefixes(p) && k in t && (p in t ==> IsDir(t, p)) ensures t[k].Dir? {
      assert k != p ==> IsDir(t, k);
    }
  }

  lemma RenamedWellFormed(t: Tree, a: Path, b: Path)
    requires WellFormed(t) && CanRename(t, a, b)
    ensures WellFormed(Renamed(t, a, b))
  {
    WithoutWellFormed(t, a);
    BelowWellRooted(t, a);
    GraftWellFormed(Without(t, a), b, Below(t, a));
  }

  /** A non-empty set of locations has one whose parent is not among them. */
  lemma {:induction false} TopMost(todo: set<Path>) returns (r: Path)
    requires todo != {}
    ensures r in todo && (r == [] || Parent(r) !in todo)
    decreases |todo|
  {
    r :| r in todo;
    if r != [] && Parent(r) in todo {
      r := Shortest(todo);
    }
  }

  lemma {:induction false} Shortest(todo: set<Path>) returns (r: Path)
    requires todo != {}
    ensures r in todo && forall q | q in todo :: |r| <= |q|
    decreases |todo|
  {
    r :| r in todo;
    var rest := todo - {r};
    if rest != {} {
      var s := Shortest(rest);
      if |s| < |r| { r := s; }
    }
  }

  lemma OnlyBelowFramed(t: Tree, t': Tree, p: Path, made: Path, foot: set<Path>)
    requires OnlyBelow(t, t', p, made) && p in foot
    ensures Framed(t, t', foot, made)
  {
  }

  lemma FramedTrans(t0: Tree, t1: Tree, t2: Tree, foot: set<Path>, foot': set<Path>, made: Path)
    requires Framed(t0, t1, foot, made) && Framed(t1, t2, foot', made)
    ensures Framed(t0, t2, foot + foot', made)
  {
    forall q | !Covered(foot + foot', q) ensures !Covered(foot, q) && !Covered(foot', q) {
    }
  }

  /** A tree that lies apart from everything touched is as it was. */
  lemma ApartStays(t: Tree, t': Tree, source: Path, foot: set<Path>, made: Path)
    requires Framed(t, t', foot, made) && (forall f | f in foot :: Apart(source, f)) && !(source <= made)
    ensures Below(t', source) == Below(t, source)
  {
    forall r ensures (source + r in t' <==> source + r in t) && (source + r in t ==> t'[source + r] == t[source + r]) {
      var q := source + r;
      if Covered(foot, q) {
        var f :| f in foot && f <= q;
        PrefixesMeet(f, source, q);
      }
      if q <= made { PrefixTrans(source, q, made); }
    }
  }

  lemma PrefixesMeet(p: Path, q: Path, whole: Path)
    requires p <= whole && q <= whole
    ensures p <= q || q <= p
  {
  }

  lemma PrefixTrans(a: Path, b: Path, c: Path)
    requires a <= b && b <= c
    ensures a <= c
  {
  }

  lemma RemovedOnlyBelow(t: Tree, t': Tree, p: Path, made: Path)
    requires Part(Without(t, p), t') && Part(t', t)
    ensures OnlyBelow(t, t', p, made) && Part(Below(t', p), Below(t, p))
  {
  }

  /** Suffixes give siblings: with different suffixes, neither lies below the other. */
  lemma SuffixedApart(p: Path, a: string, b: string)
    requires p != [] && a != b
    ensures Apart(Suffixed(p, a), Suffixed(p, b))
    ensures Suffixed(p, "") == p
    ensures Suffixed(p, a) != [] && Parent(Suffixed(p, a)) == Parent(p)
  {
    var x, y := Suffixed(p, a), Suffixed(p, b);
    var last := p[|p| - 1];
    assert x[|p| - 1] == last + a && y[|p| - 1] == last + b;
    assert (last + a)[|last|..] == a && (last + b)[|last|..] == b;
    assert last + "" == last;
  }
}
