// Where a checkpoint is committed to, and the storage path announced for it.
module Destinations {
  import opened Text
  import opened CleanPath

  function Render(p: Path): string
  {
    "/" + Join(p, '/')
  }

  lemma RenderInjective(a: Path, b: Path)
    requires AllPlain(a) && AllPlain(b) && Render(a) == Render(b)
    ensures a == b
  {
    assert Render(a)[1..] == Join(a, '/') && Render(b)[1..] == Join(b, '/');
    if a != [] { PlainText(a); }
    if b != [] { PlainText(b); }
    if a != [] && b != [] { JoinInjective(a, b, '/'); }
  }

  predicate IsJobLayout(layout: string)
  {
    Lower(Trim(layout)) == "job"
  }

  function EffectiveName(name: string, base: string): string
  {
    if name == "" then base else name
  }

  function EffectiveJob(job: string): string
  {
    if job == "" then "unknown-job" else job
  }

  /** filepath.Join of a directory and further elements, as a location. */
  function JoinPath(dir: Path, elements: seq<string>): Path
  {
    Reduce(true, dir + Pieces(elements), [])
  }

  function Pieces(elements: seq<string>): seq<string>
  {
    if elements == [] then [] else Split(elements[0], '/') + Pieces(elements[1..])
  }

  function FinalPath(finalDir: Path, layout: string, job: string, name: string, base: string): Path
  {
    if IsJobLayout(layout) then JoinPath(finalDir, [EffectiveJob(job), EffectiveName(name, base)])
    else JoinPath(finalDir, [EffectiveName(name, base)])
  }

  function Shared(a: Path, b: Path): (n: nat)
    ensures n <= |a| && n <= |b| && a[..n] == b[..n]
    ensures n < |a| && n < |b| ==> a[n] != b[n]
  {
    if a != [] && b != [] && a[0] == b[0] then 1 + Shared(a[1..], b[1..]) else 0
  }

  function Ups(n: nat): seq<string>
  {
    if n == 0 then [] else [".."] + Ups(n - 1)
  }

  /** filepath.Rel between two absolute locations. */
  function Rel(from: Path, to: Path): seq<string>
  {
    var n := Shared(from, to);
    Ups(|from| - n) + to[n..]
  }

  function FinalStoragePath(storagePrefix: string, finalDir: Path, dest: Path, fallback: string): string
  {
    var prefix := CleanRelativePath(storagePrefix);
    if prefix != "" then
      if finalDir != dest then Clean(prefix + "/" + Join(Rel(finalDir, dest), '/'))
      else prefix
    else
      var cleaned := CleanRelativePath(fallback);
      if cleaned != "" then cleaned else Render(dest)
  }

  // ----- Properties

  lemma PiecesPlain(elements: seq<string>)
    requires AllPlain(elements)
    ensures Pieces(elements) == elements
  {
    if elements != [] {
      assert Plain(elements[0]);
      SplitPlain(elements[0], '/');
      PiecesPlain(elements[1..]);
    }
  }

  /** Every destination is made of proper names, whatever the manifest asks for. */
  lemma FinalPathPlain(finalDir: Path, layout: string, job: string, name: string, base: string)
    requires AllPlain(finalDir)
    ensures AllPlain(FinalPath(finalDir, layout, job, name, base))
  {
    var e := if IsJobLayout(layout) then [EffectiveJob(job), EffectiveName(name, base)] else [EffectiveName(name, base)];
    PiecesSlashFree(e);
    RootedReducePlain(finalDir + Pieces(e), []);
  }

  lemma PiecesSlashFree(elements: seq<string>)
    ensures forall c | c in Pieces(elements) :: '/' !in c
  {
  }

  lemma {:induction false} RootedReducePlain(cs: seq<string>, out: seq<string>)
    requires AllPlain(out)
    requires forall c | c in cs :: '/' !in c
    ensures AllPlain(Reduce(true, cs, out))
    decreases |cs|
  {
    if cs != [] {
      var c, rest := cs[0], cs[1..];
      if c == "" || c == "." {
        RootedReducePlain(rest, out);
      } else if c == ".." {
        if out != [] {
          assert Plain(out[|out| - 1]);
          RootedReducePlain(rest, out[..|out| - 1]);
        } else {
          RootedReducePlain(rest, out);
        }
      } else {
        RootedReducePlain(rest, out + [c]);
      }
    }
  }

  /** With single-component names the destination is the final directory plus exactly those names. */
  lemma FinalPathOfPlainNames(finalDir: Path, layout: string, job: string, name: string, base: string)
    requires AllPlain(finalDir) && Plain(EffectiveJob(job)) && Plain(EffectiveName(name, base))
    ensures FinalPath(finalDir, layout, job, name, base) ==
            finalDir + (if IsJobLayout(layout) then [EffectiveJob(job), EffectiveName(name, base)]
                        else [EffectiveName(name, base)])
  {
    var e := if IsJobLayout(layout) then [EffectiveJob(job), EffectiveName(name, base)] else [EffectiveName(name, base)];
    PiecesPlain(e);
    assert AllPlain(finalDir + e);
    ReducePlain(true, finalDir + e, []);
    assert [] + (finalDir + e) == finalDir + e;
  }

  /**
   * For a destination inside the final directory the storage path is the cleaned prefix followed
   * by the way from the final directory to the destination: swapping the one for the other
   * gives the destination back.
   */
  lemma StorageMirrorsDestination(storagePrefix: string, finalDir: Path, dest: Path, fallback: string)
    requires CleanRelativePath(storagePrefix) != ""
    requires AllPlain(dest) && finalDir <= dest
    ensures var stored := Split(FinalStoragePath(storagePrefix, finalDir, dest, fallback), '/');
            var prefix := Split(CleanRelativePath(storagePrefix), '/');
            prefix <= stored && dest == finalDir + stored[|prefix|..]
  {
    var text := CleanRelativePath(storagePrefix);
    var prefix := Split(text, '/');
    var rest := dest[|finalDir|..];
    assert AllPlain(prefix) by { CleanRelativePathMeans(storagePrefix); }
    assert finalDir + rest == dest;
    if finalDir != dest {
      RelBelow(finalDir, dest);
      assert AllPlain(prefix + rest);
      JoinConcat(prefix, rest);
      PlainText(prefix + rest);
      SplitJoin(prefix + rest, '/');
      assert (prefix + rest)[|prefix|..] == rest;
    }
  }

  lemma RelBelow(from: Path, to: Path)
    requires from <= to
    ensures Rel(from, to) == to[|from|..]
  {
    assert forall i | 0 <= i < |from| :: from[i] == to[i];
  }

  lemma {:induction false} JoinConcat(a: seq<string>, b: seq<string>)
    requires a != [] && b != []
    ensures Join(a + b, '/') == Join(a, '/') + "/" + Join(b, '/')
  {
    if |a| > 1 {
      JoinConcat(a[1..], b);
      assert (a + b)[1..] == a[1..] + b;
    } else {
      assert (a + b)[1..] == b;
    }
  }

  /**
   * In job layout, two checkpoints with single-component effective names have the same
   * destination, or the same storage path, only if they have the same job and name.
   */
  lemma JobLayoutInjective(storagePrefix: string, finalDir: Path, layout: string,
                           job: string, name: string, base: string, fallback: string,
                           job': string, name': string, base': string, fallback': string)
    requires AllPlain(finalDir) && IsJobLayout(layout) && CleanRelativePath(storagePrefix) != ""
    requires Plain(EffectiveJob(job)) && Plain(EffectiveName(name, base))
    requires Plain(EffectiveJob(job')) && Plain(EffectiveName(name', base'))
    ensures var d := FinalPath(finalDir, layout, job, name, base);
            var d' := FinalPath(finalDir, layout, job', name', base');
            d == d' || FinalStoragePath(storagePrefix, finalDir, d, fallback) ==
                       FinalStoragePath(storagePrefix, finalDir, d', fallback')
            ==> EffectiveJob(job) == EffectiveJob(job') && EffectiveName(name, base) == EffectiveName(name', base')
  {
    var d := FinalPath(finalDir, layout, job, name, base);
    var d' := FinalPath(finalDir, layout, job', name', base');
    FinalPathOfPlainNames(finalDir, layout, job, name, base);
    FinalPathOfPlainNames(finalDir, layout, job', name', base');
    StorageMirrorsDestination(storagePrefix, finalDir, d, fallback);
    StorageMirrorsDestination(storagePrefix, finalDir, d', fallback');
    assert d[|finalDir|] == EffectiveJob(job) && d[|finalDir| + 1] == EffectiveName(name, base);
    assert d'[|finalDir|] == EffectiveJob(job') && d'[|finalDir| + 1] == EffectiveName(name', base');
  }

  /**
   * A destination is the final directory plus exactly the job and the name if and only if both are
   * single path components; otherwise it lies somewhere else.
   */
  lemma JobLayoutExactly(finalDir: Path, layout: string, job: string, name: string, base: string)
    requires AllPlain(finalDir) && IsJobLayout(layout)
    ensures FinalPath(finalDir, layout, job, name, base) == finalDir + [EffectiveJob(job), EffectiveName(name, base)] <==>
            Plain(EffectiveJob(job)) && Plain(EffectiveName(name, base))
  {
    hide FinalPath, Plain, EffectiveJob, EffectiveName;
    var e := [EffectiveJob(job), EffectiveName(name, base)];
    FinalPathPlain(finalDir, layout, job, name, base);
    if FinalPath(finalDir, layout, job, name, base) == finalDir + e {
      TailPlain(finalDir, e);
    } else if Plain(e[0]) && Plain(e[1]) {
      FinalPathOfPlainNames(finalDir, layout, job, name, base);
    }
  }

  lemma TailPlain(dir: Path, e: seq<string>)
    requires AllPlain(dir + e)
    ensures AllPlain(e)
  {
    forall c | c in e ensures Plain(c) {
      assert c in dir + e;
    }
  }

  /** Names with a slash break this: two different checkpoints share one destination. */
  lemma SlashedNamesCollide(finalDir: Path)
    ensures FinalPath(finalDir, "job", "a", "b/c", "") == FinalPath(finalDir, "job", "a/b", "c", "")
  {
    assert Trim("job") == "job" && Lower("job") == "job";
    assert Pieces(["a", "b/c"]) == ["a"] + Split("b/c", '/') by { SplitPlain("a", '/'); OnePiece("b/c"); }
    assert Pieces(["a/b", "c"]) == Split("a/b", '/') + ["c"] by { SplitPlain("c", '/'); OnePiece("c"); }
    SplitPair("b", "c");
    SplitPair("a", "b");
    assert "b" + ['/'] + "c" == "b/c" && "a" + ['/'] + "b" == "a/b";
    assert ["a"] + ["b", "c"] == ["a", "b"] + ["c"];
  }

  lemma OnePiece(s: string)
    ensures Pieces([s]) == Split(s, '/')
  {
    assert Pieces([]) == [];
  }

  lemma SplitPair(a: string, b: string)
    requires '/' !in a && '/' !in b
    ensures Split(a + ['/'] + b, '/') == [a, b]
  {
    SplitAfter(a, b, '/');
    SplitPlain(b, '/');
  }

  // ----- What destinations and storage paths mean, told by walking

  /**
   * For all names, plain or not: the destination is where one arrives from the final directory by
   * the parts of the job, which is `unknown-job` if the manifest has none, and then those of the
   * name, which is the checkpoint's own if the manifest has none. In flat layout the job is left out.
   */
  lemma FinalPathWalks(finalDir: Path, layout: string, job: string, name: string, base: string)
    requires AllPlain(finalDir)
    ensures var j, n := if job == "" then "unknown-job" else job, if name == "" then base else name;
            FinalPath(finalDir, layout, job, name, base) ==
            if IsJobLayout(layout) then Walk(Walk(finalDir, Split(j, '/')), Split(n, '/')) else Walk(finalDir, Split(n, '/'))
  {
    hide Walk, Split, Reduce;
    var j, n := EffectiveJob(job), EffectiveName(name, base);
    OnePiece(n);
    assert Pieces([j, n]) == Split(j, '/') + Split(n, '/') by { assert [j, n][1..] == [n]; }
    JoinPathWalks(finalDir, [n]);
    JoinPathWalks(finalDir, [j, n]);
    WalkConcat(finalDir, Split(j, '/'), Split(n, '/'));
  }

  lemma JoinPathWalks(dir: Path, elements: seq<string>)
    requires AllPlain(dir)
    ensures JoinPath(dir, elements) == Walk(dir, Pieces(elements))
  {
    PiecesSlashFree(elements);
    ReduceConcat(true, dir, Pieces(elements), []);
    ReducePlain(true, dir, []);
    assert [] + dir == dir;
    RootedReduceWalks(Pieces(elements), dir);
  }

  lemma {:induction false} ReduceConcat(rooted: bool, a: seq<string>, b: seq<string>, out: seq<string>)
    ensures Reduce(rooted, a + b, out) == Reduce(rooted, b, Reduce(rooted, a, out))
    decreases |a|
  {
    if a == [] {
      assert a + b == b;
    } else {
      assert (a + b)[1..] == a[1..] + b;
      var next := if a[0] == "" || a[0] == "." then out
                  else if a[0] == ".." && out != [] && out[|out| - 1] != ".." then out[..|out| - 1]
                  else if a[0] == ".." && rooted then out
                  else out + [a[0]];
      ReduceConcat(rooted, a[1..], b, next);
    }
  }

  lemma {:induction false} RootedReduceWalks(cs: seq<string>, out: Path)
    requires AllPlain(out) && forall c | c in cs :: '/' !in c
    ensures Reduce(true, cs, out) == Walk(out, cs)
    decreases |cs|
  {
    if cs != [] {
      if out != [] { assert Plain(out[|out| - 1]); }
      RootedReduceWalks(cs[1..], Move(out, cs[0]));
    }
  }

  lemma {:induction false} WalkConcat(here: Path, a: seq<string>, b: seq<string>)
    ensures Walk(here, a + b) == Walk(Walk(here, a), b)
    decreases |a|
  {
    if a == [] {
      assert a + b == b;
    } else {
      assert (a + b)[1..] == a[1..] + b;
      WalkConcat(Move(here, a[0]), a[1..], b);
    }
  }

  lemma {:induction false} WalkPlain(here: Path, cs: seq<string>)
    requires AllPlain(cs)
    ensures Walk(here, cs) == here + cs
    decreases |cs|
  {
    if cs == [] {
      assert here + cs == here;
    } else {
      assert Plain(cs[0]);
      WalkPlain(here + [cs[0]], cs[1..]);
      assert here + [cs[0]] + cs[1..] == here + cs;
    }
  }

  lemma {:induction false} WalkUps(here: Path, n: nat)
    requires n <= |here|
    ensures Walk(here, Ups(n)) == here[..|here| - n]
  {
    if n > 0 { WalkUps(here[..|here| - 1], n - 1); }
  }

  /** The way between two locations leads from the one to the other. */
  lemma RelLeads(from: Path, to: Path)
    requires AllPlain(to)
    ensures Walk(from, Rel(from, to)) == to
  {
    var n := Shared(from, to);
    WalkConcat(from, Ups(|from| - n), to[n..]);
    WalkUps(from, |from| - n);
    WalkPlain(from[..n], to[n..]);
    assert from[..n] + to[n..] == to;
  }

  /**
   * Without a usable prefix, what the manifest gives as its storage path is announced if it leads
   * properly below its base, namely as exactly that way; otherwise the destination is announced.
   */
  lemma StorageFallsBack(storagePrefix: string, finalDir: Path, dest: Path, fallback: string)
    requires CleanRelativePath(storagePrefix) == ""
    ensures var r, s := FinalStoragePath(storagePrefix, finalDir, dest, fallback), Normalised(fallback);
            var way := Walk([], Split(s, '/'));
            if s == "" || IsAbs(s) || Climbs(Split(s, '/')) || way == [] then r == Render(dest) else Split(r, '/') == way
  {
    hide Walk, Split, Climbs, Normalised, CleanRelativePath;
    CleanRelativePathMeans(fallback);
  }

  /** The way from `from` to `to`, taken from `prefix` instead; it may lead up, and above the prefix's own base. */
  function Instead(prefix: Path, from: Path, to: Path): Path
  {
    var n := Shared(from, to);
    UpAndDown(prefix, |from| - n, to[n..])
  }

  function UpAndDown(prefix: Path, ups: nat, rest: Path): Path
  {
    (if ups <= |prefix| then prefix[..|prefix| - ups] else Ups(ups - |prefix|)) + rest
  }

  /**
   * With a prefix, the way from the final directory to the destination is taken from the prefix
   * instead, wherever the destination lies.
   */
  lemma StorageFollowsDestination(storagePrefix: string, finalDir: Path, dest: Path, fallback: string)
    requires CleanRelativePath(storagePrefix) != "" && AllPlain(dest)
    ensures var way := Instead(Split(CleanRelativePath(storagePrefix), '/'), finalDir, dest);
            FinalStoragePath(storagePrefix, finalDir, dest, fallback) == if way == [] then "." else Join(way, '/')
  {
    hide Split, Join, Clean, CleanRelativePath, AllPlain, Shared, Rel, Instead;
    var prefix := Split(CleanRelativePath(storagePrefix), '/');
    assert AllPlain(prefix) by { CleanRelativePathMeans(storagePrefix); }
    if finalDir == dest {
      InsteadSame(prefix, dest);
    } else {
      InsteadOther(prefix, finalDir, dest);
    }
  }

  lemma InsteadSame(prefix: Path, p: Path)
    ensures Instead(prefix, p, p) == prefix
  {
    SharedSelf(p);
    assert prefix[..|prefix|] + [] == prefix;
  }

  lemma InsteadOther(prefix: Path, from: Path, to: Path)
    requires prefix != [] && AllPlain(prefix) && AllPlain(to) && from != to
    ensures var way := Instead(prefix, from, to);
            Clean(Join(prefix, '/') + "/" + Join(Rel(from, to), '/')) == if way == [] then "." else Join(way, '/')
  {
    hide Join, Clean, UpAndDown, Ups, AllPlain, Shared;
    var n := Shared(from, to);
    assert to == to[..n] + to[n..];
    TailPlain(to[..n], to[n..]);
    UpsLength(|from| - n);
    if Ups(|from| - n) + to[n..] == [] { assert false; }
    CleanWay(prefix, |from| - n, to[n..]);
  }

  /** What cleaning makes of the prefix, some steps up and some names. */
  lemma CleanWay(prefix: Path, ups: nat, rest: Path)
    requires prefix != [] && AllPlain(prefix) && AllPlain(rest) && Ups(ups) + rest != []
    ensures var way := UpAndDown(prefix, ups, rest);
            Clean(Join(prefix, '/') + "/" + Join(Ups(ups) + rest, '/')) == if way == [] then "." else Join(way, '/')
  {
    hide Reduce, Join, Split;
    var rel := Ups(ups) + rest;
    UpsDots(ups);
    assert forall c | c in prefix + rel :: '/' !in c;
    JoinConcat(prefix, rel);
    SplitJoin(prefix + rel, '/');
    PlainText(prefix);
    assert Join(prefix, '/')[0] == Join(prefix + rel, '/')[0];
    ReduceConcat(false, prefix, rel, []);
    ReducePlain(false, prefix, []);
    assert [] + prefix == prefix;
    ReduceConcat(false, Ups(ups), rest, prefix);
    ReduceUps(ups, prefix);
    ReducePlain(false, rest, if ups <= |prefix| then prefix[..|prefix| - ups] else Ups(ups - |prefix|));
  }

  lemma SharedSelf(p: Path)
    ensures Shared(p, p) == |p|
  {
  }

  lemma UpsLength(n: nat)
    ensures |Ups(n)| == n
  {
  }

  lemma UpsDots(n: nat)
    ensures forall c | c in Ups(n) :: c == ".."
  {
  }

  lemma {:induction false} ReduceUps(n: nat, out: Path)
    requires AllPlain(out)
    ensures Reduce(false, Ups(n), out) == if n <= |out| then out[..|out| - n] else Ups(n - |out|)
  {
    if n > 0 {
      if out == [] {
        UpsKept(n, 0);
        assert Ups(0) == [];
      } else {
        assert Plain(out[|out| - 1]);
        ReduceUps(n - 1, out[..|out| - 1]);
      }
    }
  }

  lemma {:induction false} UpsKept(n: nat, k: nat)
    ensures Reduce(false, Ups(n), Ups(k)) == Ups(k + n)
    decreases n
  {
    if n > 0 {
      UpsSnoc(k);
      UpsDots(k);
      if Ups(k) != [] { assert Ups(k)[|Ups(k)| - 1] in Ups(k); }
      assert Reduce(false, Ups(n), Ups(k)) == Reduce(false, Ups(n - 1), Ups(k) + [".."]);
      UpsKept(n - 1, k + 1);
    }
  }

  lemma {:induction false} UpsSnoc(n: nat)
    ensures Ups(n) + [".."] == Ups(n + 1)
  {
    if n > 0 { UpsSnoc(n - 1); }
  }

  /** A layout asks for job directories when it is `job` in any case, with white space around it. */
  lemma JobLayoutMeans(layout: string)
    ensures IsJobLayout(layout) <==> exists i :: JobWordAt(layout, i)
  {
    hide IsSpace, Lower, Trim, JobWordAt;
    if IsJobLayout(layout) {
      var a, b := TrimOff(layout);
      LowerIsJob(Trim(layout));
      WordThere(layout, a, Trim(layout), b);
    }
    if i :| JobWordAt(layout, i) {
      WordTrimmed(layout, i);
    }
  }

  lemma LowerIsJob(m: string)
    ensures Lower(m) == "job" <==> IsJobWord(m)
  {
    hide Lower, LowerChar;
    var low := Lower(m);
    if |m| == 3 {
      assert low == "job" <==> low[0] == 'j' && low[1] == 'o' && low[2] == 'b';
      LowerOf(m[0]);
      LowerOf(m[1]);
      LowerOf(m[2]);
    }
  }

  predicate IsJobWord(m: string)
  {
    |m| == 3 && (m[0] == 'j' || m[0] == 'J') && (m[1] == 'o' || m[1] == 'O') && (m[2] == 'b' || m[2] == 'B')
  }

  lemma LowerOf(c: char)
    ensures LowerChar(c) == 'j' <==> c == 'j' || c == 'J'
    ensures LowerChar(c) == 'o' <==> c == 'o' || c == 'O'
    ensures LowerChar(c) == 'b' <==> c == 'b' || c == 'B'
  {
  }

  lemma WordNoSpace(m: string)
    requires IsJobWord(m)
    ensures m != "" && !IsSpace(m[0]) && !IsSpace(m[|m| - 1])
  {
  }

  lemma WordThere(layout: string, a: string, m: string, b: string)
    requires layout == a + m + b && AllSpace(a) && AllSpace(b) && IsJobWord(m)
    ensures JobWordAt(layout, |a|)
  {
    assert layout[..|a|] == a && layout[|a|..|a| + 3] == m && layout[|a| + 3..] == b;
  }

  lemma WordTrimmed(layout: string, i: int)
    requires JobWordAt(layout, i)
    ensures IsJobLayout(layout)
  {
    hide LowerChar, Lower;
    var m := layout[i..i + 3];
    WordNoSpace(m);
    assert layout == layout[..i] + m + layout[i + 3..];
    LowerIsJob(m);
    TrimBetween(layout[..i], m, layout[i + 3..]);
  }

  /** The word stands at position i, and there is only white space around it. */
  ghost predicate JobWordAt(layout: string, i: int)
  {
    && 0 <= i <= |layout| - 3 && IsJobWord(layout[i..i + 3])
    && AllSpace(layout[..i]) && AllSpace(layout[i + 3..])
  }
}
