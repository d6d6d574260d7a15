// What a walk over the staging directory commits, and why its order does not matter.
module Walks {
  import opened Text
  import opened CleanPath
  import opened Manifests
  import opened Trees
  import opened Disks
  import opened Copying
  import opened Commits
  import opened Agents

  /** A manifest that the memory does not let the agent skip. */
  predicate Due(processed: map<Path, int>, m: map<Path, int>, t: Tree, p: Path)
  {
    IsFile(t, p) && IsManifestPath(p) && (p in processed ==> processed[p] < TimeIn(m, p))
  }

  /** What one attempt does to the disk when it succeeds: a commit, or a poll of a manifest in place. */
  datatype Deed = Copied(commit: Commit) | Rewritten(at: Path, left: Manifest)

  function Do(t: Tree, d: Deed): Tree
  {
    match d
    case Copied(c) => Apply(t, c)
    case Rewritten(p, left) => t[p := File(Json(left))]
  }

  function DoAll(t: Tree, ds: seq<Deed>): Tree
  {
    if ds == [] then t else Do(DoAll(t, ds[..|ds| - 1]), ds[|ds| - 1])
  }

  /** The deed that p asks for, but for the clock. */
  function PlanOf(cfg: Config, pid: nat, t: Tree, p: Path, item: Manifest): Deed
    requires IsManifestPath(p)
  {
    var source, dest := SourceOf(p), DestinationOf(cfg, p, item);
    if InPlace(cfg, p, item) then Rewritten(p, Polled(cfg, p, item, ""))
    else Copied(Commit(source, dest, TmpOf(dest, pid), IsDir(t, source), FinalManifest(cfg, p, item, ""), ""))
  }

  function PlanAt(cfg: Config, pid: nat, processed: map<Path, int>, m: map<Path, int>, t: Tree, p: Path): seq<Deed>
  {
    if Due(processed, m, t, p) && Find(t, p).Ready? then [PlanOf(cfg, pid, t, p, Find(t, p).item)] else []
  }

  /** The deeds that a walk asks for on disk t, in its order. */
  function Plans(cfg: Config, pid: nat, processed: map<Path, int>, m: map<Path, int>, t: Tree, walk: seq<Path>): seq<Deed>
  {
    if walk == [] then []
    else Plans(cfg, pid, processed, m, t, walk[..|walk| - 1]) + PlanAt(cfg, pid, processed, m, t, walk[|walk| - 1])
  }

  // ----- The same commits at other times

  /** The same commit but for what the clock said. */
  predicate Alike(c: Commit, d: Commit)
  {
    c == d.(final := d.final.(committedAt := c.final.committedAt), stamp := c.stamp)
  }

  predicate AllAlike(cs: seq<Commit>, ds: seq<Commit>)
  {
    |cs| == |ds| && forall i | 0 <= i < |cs| :: Alike(cs[i], ds[i])
  }

  /** Two manifests that differ in their commit time only, or two markers. */
  predicate SameButTime(n: Node, n': Node)
  {
    && n.File? && n'.File?
    && match (n.content, n'.content)
       case (Json(item), Json(item')) => item' == item.(committedAt := item'.committedAt)
       case (Raw(_), Raw(_)) => true
       case _ => false
  }

  /** Where commits write the time. */
  predicate Stamped(cs: seq<Commit>, q: Path)
  {
    exists i | 0 <= i < |cs| :: q == ManifestOf(cs[i].dest) || q == MarkerOf(cs[i].dest, cs[i].isDir)
  }

  /** The same disk but for the commit times in the manifests and markers of these commits. */
  ghost predicate AgreeButTimes(cs: seq<Commit>, t: Tree, t': Tree)
  {
    forall q :: NodeAt(t, q) == NodeAt(t', q) || (Stamped(cs, q) && q in t && q in t' && SameButTime(t[q], t'[q]))
  }

  lemma AgreeRefl(cs: seq<Commit>, t: Tree)
    ensures AgreeButTimes(cs, t, t)
  {
  }

  lemma AgreeSym(cs: seq<Commit>, t: Tree, t': Tree)
    requires AgreeButTimes(cs, t, t')
    ensures AgreeButTimes(cs, t', t)
  {
    hide Stamped;
    forall q ensures NodeAt(t', q) == NodeAt(t, q) || (Stamped(cs, q) && q in t' && q in t && SameButTime(t'[q], t[q])) {
      assert NodeAt(t, q) == NodeAt(t', q) || (Stamped(cs, q) && SameButTime(t[q], t'[q]));
    }
  }

  lemma AgreeTrans(cs: seq<Commit>, a: Tree, b: Tree, c: Tree)
    requires AgreeButTimes(cs, a, b) && AgreeButTimes(cs, b, c)
    ensures AgreeButTimes(cs, a, c)
  {
    hide Stamped;
    forall q ensures NodeAt(a, q) == NodeAt(c, q) || (Stamped(cs, q) && q in a && q in c && SameButTime(a[q], c[q])) {
      assert NodeAt(a, q) == NodeAt(b, q) || (Stamped(cs, q) && SameButTime(a[q], b[q]));
      assert NodeAt(b, q) == NodeAt(c, q) || (Stamped(cs, q) && SameButTime(b[q], c[q]));
    }
  }

  lemma AlikeSame(c: Commit, d: Commit)
    requires Alike(c, d)
    ensures FootOf(c) == FootOf(d) && (Sound(c) <==> Sound(d))
    ensures c.source == d.source && c.dest == d.dest && c.isDir == d.isDir
  {
  }

  /** One commit at two times, on two disks that agree but for times. */
  lemma AgreeAfter(all: seq<Commit>, t: Tree, t': Tree, c: Commit, d: Commit)
    requires AgreeButTimes(all, t, t') && Alike(c, d) && Sound(d) && Below(t, d.source) == Below(t', d.source)
    requires Stamped(all, ManifestOf(d.dest)) && Stamped(all, MarkerOf(d.dest, d.isDir))
    ensures AgreeButTimes(all, Apply(t, c), Apply(t', d))
  {
    hide Apply, Sound, Stamped, Below, FootOf;
    AlikeSame(c, d);
    forall q
      ensures var u, u' := Apply(t, c), Apply(t', d);
              NodeAt(u, q) == NodeAt(u', q) || (Stamped(all, q) && q in u && q in u' && SameButTime(u[q], u'[q]))
    {
      ApplyOutcome(t, c, q);
      ApplyOutcome(t', d, q);
      if d.dest <= q {
        NodeBelow(t, d.source, q[|d.dest|..]);
        NodeBelow(t', d.source, q[|d.dest|..]);
      }
      assert NodeAt(t, q) == NodeAt(t', q) || (Stamped(all, q) && SameButTime(t[q], t'[q]));
    }
  }

  ghost predicate SameSources(cs: seq<Commit>, t: Tree, t': Tree)
  {
    forall c | c in cs :: Below(t, c.source) == Below(t', c.source)
  }

  /** Running commits at other times gives the same disk but for times. */
  lemma {:induction false} OtherTimes(all: seq<Commit>, t: Tree, t': Tree, cs: seq<Commit>, ds: seq<Commit>)
    requires AgreeButTimes(all, t, t') && AllAlike(cs, ds) && AllIndependent(ds) && SameSources(ds, t, t')
    requires forall d | d in ds :: Stamped(all, ManifestOf(d.dest)) && Stamped(all, MarkerOf(d.dest, d.isDir))
    ensures AgreeButTimes(all, ApplyAll(t, cs), ApplyAll(t', ds))
    decreases |ds|
  {
    hide Apply, Sound, Independent, AllIndependent, AgreeButTimes, Stamped, Below;
    if ds != [] {
      var c, d := cs[0], ds[0];
      FirstSound(ds);
      AlikeSame(c, d);
      AgreeAfter(all, t, t', c, d);
      SourcesStaySame(t, t', c, ds);
      RestIndependent(ds);
      OtherTimes(all, Apply(t, c), Apply(t', d), cs[1..], ds[1..]);
    }
  }

  lemma FirstSound(ds: seq<Commit>)
    requires ds != [] && AllIndependent(ds)
    ensures Sound(ds[0])
  {
    hide Sound, Independent;
  }

  lemma SourcesStaySame(t: Tree, t': Tree, c: Commit, ds: seq<Commit>)
    requires ds != [] && AllIndependent(ds) && SameSources(ds, t, t') && Alike(c, ds[0])
    ensures SameSources(ds[1..], Apply(t, c), Apply(t', ds[0]))
  {
    hide Apply, Sound, Independent, Below, AllIndependent;
    forall e | e in ds[1..] ensures Below(Apply(t, c), e.source) == Below(Apply(t', ds[0]), e.source) {
      var j :| 0 <= j < |ds[1..]| && ds[1..][j] == e;
      Pair(ds, 0, j + 1);
      AlikeIndependent(c, ds[0], e);
      OtherSourceStays(t, c, e);
      OtherSourceStays(t', ds[0], e);
      assert e in ds;
    }
  }

  lemma AlikeIndependent(c: Commit, d: Commit, e: Commit)
    requires Alike(c, d) && Sound(d) && Independent(d, e)
    ensures Sound(c) && Independent(c, e)
  {
    AlikeSame(c, d);
  }

  // ----- Another order

  lemma {:induction false} PermutedIndependent(cs: seq<Commit>, ds: seq<Commit>)
    requires AllIndependent(cs) && multiset(cs) == multiset(ds)
    ensures AllIndependent(ds)
    decreases |ds|
  {
    hide Sound, Independent;
    if ds != [] {
      assert ds[0] in multiset(cs);
      var k :| 0 <= k < |cs| && cs[k] == ds[0];
      var others := cs[..k] + cs[k + 1..];
      StillIndependent(cs, k);
      SameRest(cs, ds, k);
      PermutedIndependent(others, ds[1..]);
      forall j | 0 < j < |ds| ensures Independent(ds[0], ds[j]) {
        OthersIndependent(cs, k, ds[1..], j - 1);
      }
      FrontIndependent(ds);
    }
  }

  lemma OthersIndependent(cs: seq<Commit>, k: nat, rest: seq<Commit>, j: nat)
    requires AllIndependent(cs) && k < |cs| && j < |rest| && multiset(cs[..k] + cs[k + 1..]) == multiset(rest)
    ensures Independent(cs[k], rest[j])
  {
    hide Sound, Independent, AllIndependent;
    var others := cs[..k] + cs[k + 1..];
    assert rest[j] in multiset(others);
    var l :| 0 <= l < |others| && others[l] == rest[j];
    var l' := if l < k then l else l + 1;
    assert others[l] == cs[l'];
    IndependentEither(cs, k, l');
  }

  lemma IndependentEither(cs: seq<Commit>, k: nat, l: nat)
    requires AllIndependent(cs) && k < |cs| && l < |cs| && k != l
    ensures Sound(cs[k]) && Independent(cs[k], cs[l])
  {
    hide Sound, Independent;
    if l < k { IndependentSwap(cs[l], cs[k]); }
  }

  lemma FrontIndependent(ds: seq<Commit>)
    requires ds != [] && AllIndependent(ds[1..]) && (forall j | 0 < j < |ds| :: Independent(ds[0], ds[j]))
    requires Sound(ds[0])
    ensures AllIndependent(ds)
  {
    hide Sound, Independent;
    forall i, j | 0 <= i < j < |ds| ensures Independent(ds[i], ds[j]) {
      if i > 0 { assert ds[i] == ds[1..][i - 1] && ds[j] == ds[1..][j - 1]; }
    }
    forall c | c in ds ensures Sound(c) {
      if c != ds[0] { assert c in ds[1..]; }
    }
  }

  lemma {:induction false} PlansWithout(cfg: Config, pid: nat, processed: map<Path, int>, m: map<Path, int>, t: Tree, walk: seq<Path>, k: nat)
    requires k < |walk|
    ensures multiset(Plans(cfg, pid, processed, m, t, walk)) ==
            multiset(Plans(cfg, pid, processed, m, t, walk[..k] + walk[k + 1..])) + multiset(PlanAt(cfg, pid, processed, m, t, walk[k]))
    decreases |walk|
  {
    hide Plans, PlanAt, Alike;
    var n := |walk| - 1;
    var most := walk[..n];
    PlansSnoc(cfg, pid, processed, m, t, most, walk[n]);
    assert walk == most + [walk[n]];
    if k == n {
      assert walk[..k] + walk[k + 1..] == most;
    } else {
      PlansWithout(cfg, pid, processed, m, t, most, k);
      var fewer := most[..k] + most[k + 1..];
      PlansSnoc(cfg, pid, processed, m, t, fewer, walk[n]);
      assert walk[..k] + walk[k + 1..] == fewer + [walk[n]];
    }
  }

  lemma PlansSnoc(cfg: Config, pid: nat, processed: map<Path, int>, m: map<Path, int>, t: Tree, walk: seq<Path>, p: Path)
    ensures Plans(cfg, pid, processed, m, t, walk + [p]) ==
            Plans(cfg, pid, processed, m, t, walk) + PlanAt(cfg, pid, processed, m, t, p)
  {
    hide PlanAt;
    assert (walk + [p])[..|walk|] == walk;
  }

  lemma {:induction false} PlansPermuted(cfg: Config, pid: nat, processed: map<Path, int>, m: map<Path, int>, t: Tree,
                                         walk: seq<Path>, walk': seq<Path>)
    requires multiset(walk) == multiset(walk')
    ensures multiset(Plans(cfg, pid, processed, m, t, walk)) == multiset(Plans(cfg, pid, processed, m, t, walk'))
    decreases |walk'|
  {
    hide PlanAt;
    if walk' == [] {
      assert |multiset(walk)| == |walk|;
    } else {
      assert walk'[0] in multiset(walk);
      var k :| 0 <= k < |walk| && walk[k] == walk'[0];
      SameRest(walk, walk', k);
      PlansPermuted(cfg, pid, processed, m, t, walk[..k] + walk[k + 1..], walk'[1..]);
      PlansWithout(cfg, pid, processed, m, t, walk, k);
      PlansWithout(cfg, pid, processed, m, t, walk', 0);
      assert walk'[..0] + walk'[1..] == walk'[1..];
    }
  }

  /** Permuted commits at any times leave the same disk but for the times. */
  lemma CommitsPermuted(t: Tree, ds: seq<Commit>, ds': seq<Commit>, cs: seq<Commit>, cs': seq<Commit>)
    requires multiset(ds) == multiset(ds') && AllIndependent(ds) && AllAlike(cs, ds) && AllAlike(cs', ds')
    ensures AgreeButTimes(ds, ApplyAll(t, cs), ApplyAll(t, cs'))
  {
    hide Apply, ApplyAll, Sound, Independent, AllIndependent, AgreeButTimes, Stamped, Below, AllAlike;
    PermutedIndependent(ds, ds');
    OrderDoesNotMatter(t, ds, ds');
    AllStamped(ds, ds);
    AllStamped(ds, ds');
    AgreeRefl(ds, t);
    OtherTimes(ds, t, t, cs, ds);
    OtherTimes(ds, t, t, cs', ds');
    AgreeSym(ds, ApplyAll(t, cs'), ApplyAll(t, ds'));
    AgreeTrans(ds, ApplyAll(t, cs), ApplyAll(t, ds), ApplyAll(t, cs'));
  }

  lemma AllStamped(ds: seq<Commit>, ds': seq<Commit>)
    requires multiset(ds) == multiset(ds')
    ensures forall d | d in ds' :: Stamped(ds, ManifestOf(d.dest)) && Stamped(ds, MarkerOf(d.dest, d.isDir))
  {
    hide ManifestOf, MarkerOf;
    forall d | d in ds' ensures Stamped(ds, ManifestOf(d.dest)) && Stamped(ds, MarkerOf(d.dest, d.isDir)) {
      assert d in multiset(ds);
      var i :| 0 <= i < |ds| && ds[i] == d;
    }
  }

  // ----- Commits and rewrites together

  function Copies(ds: seq<Deed>): seq<Commit>
  {
    if ds == [] then []
    else Copies(ds[..|ds| - 1]) + CopyIn(ds[|ds| - 1])
  }

  function CopyIn(d: Deed): seq<Commit>
  {
    if d.Copied? then [d.commit] else []
  }

  /** The rewritten manifests, each as it was left last. */
  function Rewrites(ds: seq<Deed>): Tree
  {
    if ds == [] then map[]
    else
      var most, last := Rewrites(ds[..|ds| - 1]), ds[|ds| - 1];
      if last.Copied? then most else most[last.at := File(Json(last.left))]
  }

  /** The manifest at p lies neither in what the commit copies nor where it writes. */
  ghost predicate Aside(c: Commit, p: Path)
  {
    Sound(c) && !(c.source <= p) && !Covered(FootOf(c), p) && !(p <= Parent(c.dest))
  }

  ghost predicate AllAside(ds: seq<Deed>)
  {
    forall d, e | d in ds && e in ds && d.Copied? && e.Rewritten? :: Aside(d.commit, e.at)
  }

  /** A commit does not notice manifests that lie aside, and leaves them alone. */
  lemma ApplyAside(a: Tree, r: Tree, c: Commit)
    requires Sound(c) && forall p | p in r :: Aside(c, p)
    ensures Apply(a + r, c) == Apply(a, c) + r
  {
    hide Apply, Sound, FootOf;
    forall q ensures NodeAt(Apply(a + r, c), q) == NodeAt(Apply(a, c) + r, q) {
      ApplyOutcome(a + r, c, q);
      ApplyOutcome(a, c, q);
      if q in r {
        OutcomeOutside(a + r, c, q);
      } else if c.dest <= q {
        assert c.source <= c.source + q[|c.dest|..];
      }
    }
    SameEverywhere(Apply(a + r, c), Apply(a, c) + r);
  }

  /** So the deeds come to the commits among them, and then the rewritten manifests. */
  lemma {:induction false} DeedsApart(t: Tree, ds: seq<Deed>)
    requires AllAside(ds) && forall d | d in ds && d.Copied? :: Sound(d.commit)
    ensures DoAll(t, ds) == ApplyAll(t, Copies(ds)) + Rewrites(ds)
    decreases |ds|
  {
    hide Apply, ApplyAll, Sound, Aside;
    if ds == [] {
      NoCommits(t);
    } else {
      var most, last := ds[..|ds| - 1], ds[|ds| - 1];
      DeedsApart(t, most);
      var a, r := ApplyAll(t, Copies(most)), Rewrites(most);
      match last
      case Copied(c) =>
        forall p | p in r ensures Aside(c, p) {
          var e := RewriteSource(most, p);
          assert last in ds && e in ds;
        }
        assert last in ds;
        ApplyAside(a, r, c);
        ApplyAllLast(t, Copies(most), c);
      case Rewritten(p, left) =>
        assert Copies(ds) == Copies(most) + [];
        assert Copies(ds) == Copies(most);
        assert (a + r)[p := File(Json(left))] == a + r[p := File(Json(left))];
    }
  }

  lemma NoCommits(t: Tree)
    ensures ApplyAll(t, []) == t
  {
  }

  lemma {:induction false} RewriteSource(ds: seq<Deed>, p: Path) returns (d: Deed)
    requires p in Rewrites(ds)
    ensures d in ds && d.Rewritten? && d.at == p && Rewrites(ds)[p] == File(Json(d.left))
    decreases |ds|
  {
    var last := ds[|ds| - 1];
    if last.Rewritten? && last.at == p {
      d := last;
    } else {
      d := RewriteSource(ds[..|ds| - 1], p);
    }
  }

  /** The same deed but for what the clock said. */
  predicate AlikeDeed(d: Deed, e: Deed)
  {
    match (d, e)
    case (Copied(c), Copied(c')) => Alike(c, c')
    case (Rewritten(p, left), Rewritten(p', left')) => p == p' && left == left'.(committedAt := left.committedAt)
    case _ => false
  }

  predicate AllAlikeDeeds(ds: seq<Deed>, es: seq<Deed>)
  {
    |ds| == |es| && forall i | 0 <= i < |ds| :: AlikeDeed(ds[i], es[i])
  }

  /** The parts of alike deeds are alike. */
  lemma {:induction false} AlikeParts(ds: seq<Deed>, es: seq<Deed>)
    requires AllAlikeDeeds(ds, es)
    ensures AllAlike(Copies(ds), Copies(es))
    ensures Rewrites(ds).Keys == Rewrites(es).Keys && forall p | p in Rewrites(ds) :: SameButTime(Rewrites(es)[p], Rewrites(ds)[p])
    decreases |ds|
  {
    hide Alike;
    if ds != [] {
      AlikeParts(ds[..|ds| - 1], es[..|es| - 1]);
      assert AlikeDeed(ds[|ds| - 1], es[|es| - 1]);
    }
  }

  lemma AlikeAside(ds: seq<Deed>, es: seq<Deed>)
    requires AllAlikeDeeds(ds, es) && AllAside(es) && (forall e | e in es && e.Copied? :: Sound(e.commit))
    ensures AllAside(ds) && forall d | d in ds && d.Copied? :: Sound(d.commit)
  {
    hide Sound;
    forall d | d in ds && d.Copied? ensures Sound(d.commit) {
      var i :| 0 <= i < |ds| && ds[i] == d;
      assert AlikeDeed(ds[i], es[i]) && es[i] in es;
      AlikeSame(d.commit, es[i].commit);
    }
    forall d, e | d in ds && e in ds && d.Copied? && e.Rewritten? ensures Aside(d.commit, e.at) {
      var i :| 0 <= i < |ds| && ds[i] == d;
      var k :| 0 <= k < |ds| && ds[k] == e;
      assert AlikeDeed(ds[i], es[i]) && AlikeDeed(ds[k], es[k]) && es[i] in es && es[k] in es;
      AlikeSame(d.commit, es[i].commit);
    }
  }

  lemma {:induction false} CopiesWithout(ds: seq<Deed>, k: nat)
    requires k < |ds|
    ensures multiset(Copies(ds)) == multiset(Copies(ds[..k] + ds[k + 1..])) + multiset(CopyIn(ds[k]))
    decreases |ds|
  {
    hide Copies, CopyIn;
    var n := |ds| - 1;
    var most := ds[..n];
    CopiesSnoc(most, ds[n]);
    assert ds == most + [ds[n]];
    if k == n {
      assert ds[..k] + ds[k + 1..] == most;
    } else {
      CopiesWithout(most, k);
      var fewer := most[..k] + most[k + 1..];
      CopiesSnoc(fewer, ds[n]);
      assert ds[..k] + ds[k + 1..] == fewer + [ds[n]];
    }
  }

  lemma CopiesSnoc(ds: seq<Deed>, d: Deed)
    ensures Copies(ds + [d]) == Copies(ds) + CopyIn(d)
  {
    hide CopyIn;
    assert (ds + [d])[..|ds|] == ds;
  }

  lemma {:induction false} CopiesPermuted(ds: seq<Deed>, es: seq<Deed>)
    requires multiset(ds) == multiset(es)
    ensures multiset(Copies(ds)) == multiset(Copies(es))
    decreases |es|
  {
    hide Copies, CopyIn;
    if es == [] {
      assert |multiset(ds)| == |ds|;
    } else {
      assert es[0] in multiset(ds);
      var k :| 0 <= k < |ds| && ds[k] == es[0];
      SameRest(ds, es, k);
      CopiesPermuted(ds[..k] + ds[k + 1..], es[1..]);
      CopiesWithout(ds, k);
      CopiesWithout(es, 0);
      assert es[..0] + es[1..] == es[1..];
    }
  }

  /** No manifest is planned to be left in two ways. */
  ghost predicate OneRewriteEach(ds: seq<Deed>)
  {
    forall d, e | d in ds && e in ds && d.Rewritten? && e.Rewritten? && d.at == e.at :: d == e
  }

  lemma {:induction false} RewriteListed(ds: seq<Deed>, d: Deed)
    requires d in ds && d.Rewritten?
    ensures d.at in Rewrites(ds)
    decreases |ds|
  {
    var last := ds[|ds| - 1];
    if d != last {
      assert d in ds[..|ds| - 1];
      RewriteListed(ds[..|ds| - 1], d);
    }
  }

  lemma RewritesPermuted(ds: seq<Deed>, es: seq<Deed>)
    requires multiset(ds) == multiset(es) && OneRewriteEach(ds)
    ensures Rewrites(ds) == Rewrites(es)
  {
    hide Rewrites;
    forall p ensures p in Rewrites(ds) <==> p in Rewrites(es) {
      if p in Rewrites(ds) { var d := RewriteSource(ds, p); assert d in multiset(es); RewriteListed(es, d); }
      if p in Rewrites(es) { var e := RewriteSource(es, p); assert e in multiset(ds); RewriteListed(ds, e); }
    }
    forall p | p in Rewrites(ds) ensures Rewrites(ds)[p] == Rewrites(es)[p] {
      var d := RewriteSource(ds, p);
      var e := RewriteSource(es, p);
      assert e in multiset(ds);
    }
  }

  /** A walk plans one thing for each entry. */
  lemma PlansOneEach(cfg: Config, pid: nat, processed: map<Path, int>, m: map<Path, int>, t: Tree, walk: seq<Path>)
    ensures OneRewriteEach(Plans(cfg, pid, processed, m, t, walk))
  {
    hide Plans, Polled, InPlace;
    var ds := Plans(cfg, pid, processed, m, t, walk);
    forall d, e | d in ds && e in ds && d.Rewritten? && e.Rewritten? && d.at == e.at ensures d == e {
      PlannedFor(cfg, pid, processed, m, t, walk, d);
      PlannedFor(cfg, pid, processed, m, t, walk, e);
    }
  }

  lemma {:induction false} PlannedFor(cfg: Config, pid: nat, processed: map<Path, int>, m: map<Path, int>, t: Tree, walk: seq<Path>, d: Deed)
    requires d in Plans(cfg, pid, processed, m, t, walk) && d.Rewritten?
    ensures IsManifestPath(d.at) && Find(t, d.at).Ready? && d.left == Polled(cfg, d.at, Find(t, d.at).item, "")
    decreases |walk|
  {
    hide Polled, InPlace, Find;
    if d in Plans(cfg, pid, processed, m, t, walk[..|walk| - 1]) {
      PlannedFor(cfg, pid, processed, m, t, walk[..|walk| - 1], d);
    } else {
      assert d in PlanAt(cfg, pid, processed, m, t, walk[|walk| - 1]);
    }
  }

  /** Where deeds write the time. */
  predicate StampedBy(ds: seq<Deed>, q: Path)
  {
    Stamped(Copies(ds), q) || q in Rewrites(ds)
  }

  /** The same disk but for the commit times that these deeds write. */
  ghost predicate AgreeButStamps(ds: seq<Deed>, t: Tree, t': Tree)
  {
    forall q :: NodeAt(t, q) == NodeAt(t', q) || (StampedBy(ds, q) && q in t && q in t' && SameButTime(t[q], t'[q]))
  }

  /** Checkpoints that do not meet: the commits are independent, and rewritten manifests lie aside of them. */
  ghost predicate Apartness(ds: seq<Deed>)
  {
    AllIndependent(Copies(ds)) && AllAside(ds) && forall d | d in ds && d.Copied? :: Sound(d.commit)
  }

  /**
   * Two passes that list the same entries in different orders, over checkpoints that do not meet,
   * committed in place or elsewhere, leave the same disk but for commit times.
   */
  lemma WalkOrder(cfg: Config, pid: nat, processed: map<Path, int>, m: map<Path, int>, t: Tree, walk: seq<Path>, walk': seq<Path>,
                  ds: seq<Deed>, ds': seq<Deed>)
    requires multiset(walk) == multiset(walk') && Apartness(Plans(cfg, pid, processed, m, t, walk))
    requires AllAlikeDeeds(ds, Plans(cfg, pid, processed, m, t, walk)) && AllAlikeDeeds(ds', Plans(cfg, pid, processed, m, t, walk'))
    ensures AgreeButStamps(Plans(cfg, pid, processed, m, t, walk), DoAll(t, ds), DoAll(t, ds'))
  {
    hide Apply, ApplyAll, DoAll, Sound, AllIndependent, AgreeButTimes, AgreeButStamps, Plans, AllAlike, AllAlikeDeeds, AllAside, Copies, Rewrites, OneRewriteEach;
    var es, es' := Plans(cfg, pid, processed, m, t, walk), Plans(cfg, pid, processed, m, t, walk');
    PlansPermuted(cfg, pid, processed, m, t, walk, walk');
    CopiesPermuted(es, es');
    PlansOneEach(cfg, pid, processed, m, t, walk);
    RewritesPermuted(es, es');
    SameDeeds(es, es');
    AlikeParts(ds, es);
    AlikeParts(ds', es');
    CommitsPermuted(t, Copies(es), Copies(es'), Copies(ds), Copies(ds'));
    AlikeAside(ds, es);
    AlikeAside(ds', es');
    DeedsApart(t, ds);
    DeedsApart(t, ds');
    StampsMeet(es, ApplyAll(t, Copies(ds)), ApplyAll(t, Copies(ds')), Rewrites(ds), Rewrites(ds'));
  }

  lemma SameDeeds(ds: seq<Deed>, es: seq<Deed>)
    requires multiset(ds) == multiset(es) && AllAside(ds) && (forall d | d in ds && d.Copied? :: Sound(d.commit))
    ensures AllAside(es) && forall d | d in es && d.Copied? :: Sound(d.commit)
  {
    hide Aside, Sound;
    forall d | d in es ensures d in ds {
      assert d in multiset(ds);
    }
  }

  lemma StampsMeet(es: seq<Deed>, a: Tree, a': Tree, r: Tree, r': Tree)
    requires AgreeButTimes(Copies(es), a, a') && r.Keys == r'.Keys == Rewrites(es).Keys
    requires forall p | p in r :: SameButTime(Rewrites(es)[p], r[p])
    requires forall p | p in r' :: SameButTime(Rewrites(es)[p], r'[p])
    ensures AgreeButStamps(es, a + r, a' + r')
  {
    hide Stamped, Copies, Rewrites, SameButTime, AgreeButTimes;
    forall q
      ensures NodeAt(a + r, q) == NodeAt(a' + r', q) ||
              (StampedBy(es, q) && q in a + r && q in a' + r' && SameButTime((a + r)[q], (a' + r')[q]))
    {
      assert q in r <==> q in r';
      if q in r {
        TimesMeet(Rewrites(es)[q], r[q], r'[q]);
      } else {
        AgreeAt(Copies(es), a, a', q);
      }
    }
  }

  lemma TimesMeet(n: Node, a: Node, b: Node)
    requires SameButTime(n, a) && SameButTime(n, b)
    ensures SameButTime(a, b)
  {
  }

  lemma AgreeAt(cs: seq<Commit>, t: Tree, t': Tree, q: Path)
    requires AgreeButTimes(cs, t, t')
    ensures NodeAt(t, q) == NodeAt(t', q) || (Stamped(cs, q) && q in t && q in t' && SameButTime(t[q], t'[q]))
  {
    hide Stamped, SameButTime;
  }

  // ----- One more entry of a walk

  lemma {:induction false} ApplyAllLast(t: Tree, cs: seq<Commit>, c: Commit)
    ensures ApplyAll(t, cs + [c]) == Apply(ApplyAll(t, cs), c)
    decreases |cs|
  {
    hide Apply;
    if cs == [] {
      assert cs + [c] == [c];
      OneThenAll(t, c, []);
      assert [c] + [] == [c];
    } else {
      ApplyAllLast(Apply(t, cs[0]), cs[1..], c);
      assert cs + [c] == [cs[0]] + (cs[1..] + [c]);
      OneThenAll(t, cs[0], cs[1..] + [c]);
    }
  }

  lemma PlansLast(cfg: Config, pid: nat, processed: map<Path, int>, m: map<Path, int>, t: Tree, walk: seq<Path>, i: nat)
    requires i < |walk|
    ensures Plans(cfg, pid, processed, m, t, walk[..i + 1]) ==
            Plans(cfg, pid, processed, m, t, walk[..i]) + PlanAt(cfg, pid, processed, m, t, walk[i])
  {
    hide PlanAt;
    assert walk[..i + 1][..i] == walk[..i];
  }

  /** A successful attempt is the planned deed, at some time. */
  lemma DeedDone(cfg: Config, pid: nat, p: Path, item: Manifest, t0: Tree, t: Tree, t': Tree) returns (d: Deed)
    requires IsManifestPath(p) && IsDir(t, SourceOf(p)) == IsDir(t0, SourceOf(p))
    requires if InPlace(cfg, p, item) then PolledOn(cfg, p, item, t, t') else Committed(cfg, p, item, pid, t, t')
    ensures t' == Do(t, d) && AlikeDeed(d, PlanOf(cfg, pid, t0, p, item))
  {
    hide Apply, SourceOf, DestinationOf, InPlace, NeedsRewrite, NextStorage;
    var source, dest := SourceOf(p), DestinationOf(cfg, p, item);
    if InPlace(cfg, p, item) {
      var now: string :| t' == t[p := File(Json(Polled(cfg, p, item, now)))];
      d := Rewritten(p, Polled(cfg, p, item, now));
    } else {
      var now: string, stamp: string :|
        t' == Apply(t, Commit(source, dest, TmpOf(dest, pid), IsDir(t, source), FinalManifest(cfg, p, item, now), stamp));
      d := Copied(Commit(source, dest, TmpOf(dest, pid), IsDir(t, source), FinalManifest(cfg, p, item, now), stamp));
    }
  }
}
