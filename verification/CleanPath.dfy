// Lexical path cleaning (Go's path/filepath on a slash-separated system) and the
// agent's cleanRelativePath built on it.
module CleanPath {
  import opened Text

  /** An absolute location: the names from the root down. */
  type Path = seq<string>

  /** A component that is a proper name: it moves one level down and holds no slash. */
  predicate Plain(c: string)
  {
    c != "" && c != "." && c != ".." && '/' !in c
  }

  ghost predicate AllPlain(cs: seq<string>)
  {
    forall c | c in cs :: Plain(c)
  }

  /** filepath.Clean's rules on components; `out` is what has been kept so far. */
  function Reduce(rooted: bool, cs: seq<string>, out: seq<string>): (r: seq<string>)
    decreases |cs|
  {
    if cs == [] then out
    else if cs[0] == "" || cs[0] == "." then Reduce(rooted, cs[1..], out)
    else if cs[0] == ".." then
      if out != [] && out[|out| - 1] != ".." then Reduce(rooted, cs[1..], out[..|out| - 1])
      else if rooted then Reduce(rooted, cs[1..], out)
      else Reduce(rooted, cs[1..], out + [cs[0]])
    else Reduce(rooted, cs[1..], out + [cs[0]])
  }

  predicate IsAbs(s: string)
  {
    s != "" && s[0] == '/'
  }

  function Clean(s: string): string
  {
    var out := Reduce(IsAbs(s), Split(s, '/'), []);
    if IsAbs(s) then "/" + Join(out, '/')
    else if out == [] then "."
    else Join(out, '/')
  }

  function ReplaceBackslashes(s: string): (r: string)
    ensures |r| == |s|
    ensures forall i | 0 <= i < |s| :: r[i] == if s[i] == '\\' then '/' else s[i]
  {
    if s == "" then "" else [if s[0] == '\\' then '/' else s[0]] + ReplaceBackslashes(s[1..])
  }

  /** The input of cleanRelativePath after slash normalisation and trimming. */
  function Normalised(path: string): string
  {
    Trim(ReplaceBackslashes(path))
  }

  function TrimLeadingSlashes(s: string): string
  {
    if s != "" && s[0] == '/' then TrimLeadingSlashes(s[1..]) else s
  }

  function CleanRelativePath(path: string): string
  {
    var s := Normalised(path);
    if s == "" || IsAbs(s) then ""
    else
      var cleaned := Clean(s);
      if cleaned == "." || "../" <= cleaned || cleaned == ".." then ""
      else TrimLeadingSlashes(cleaned)
  }

  // ----- What a relative path means, independently of how it is cleaned

  /** Where one arrives from `here` by following the components one at a time. */
  function Walk(here: Path, cs: seq<string>): Path
    decreases |cs|
  {
    if cs == [] then here
    else Walk(Move(here, cs[0]), cs[1..])
  }

  function Move(here: Path, c: string): Path
  {
    if c == "" || c == "." then here
    else if c == ".." then (if here == [] then [] else here[..|here| - 1])
    else here + [c]
  }

  /** How far below the starting point the components lead, negative when above it. */
  function Level(cs: seq<string>): int
  {
    if cs == [] then 0 else Level(cs[..|cs| - 1]) + Shift(cs[|cs| - 1])
  }

  function Shift(c: string): int
  {
    if c == "" || c == "." then 0 else if c == ".." then -1 else 1
  }

  /** Some prefix of the path leads above its starting point. */
  ghost predicate Climbs(cs: seq<string>)
  {
    ClimbsFrom(0, cs)
  }

  /** The same for a walk that starts `depth` levels below. */
  ghost predicate ClimbsFrom(depth: int, cs: seq<string>)
  {
    exists k :: 0 <= k <= |cs| && depth + Level(cs[..k]) < 0
  }

  lemma {:induction false} LevelFirst(cs: seq<string>)
    requires cs != []
    ensures Level(cs) == Shift(cs[0]) + Level(cs[1..])
  {
    if |cs| > 1 {
      LevelFirst(cs[..|cs| - 1]);
      assert cs[..|cs| - 1][1..] == cs[1..][..|cs| - 2];
    } else {
      assert cs[..0] == [] && cs[1..] == [];
    }
  }

  lemma ClimbsStep(depth: nat, cs: seq<string>)
    requires cs != []
    ensures ClimbsFrom(depth, cs) <==> depth + Shift(cs[0]) < 0 || ClimbsFrom(depth + Shift(cs[0]), cs[1..])
  {
    forall k | 1 <= k <= |cs| ensures Level(cs[..k]) == Shift(cs[0]) + Level(cs[1..][..k - 1]) {
      LevelFirst(cs[..k]);
      assert cs[..k][1..] == cs[1..][..k - 1];
    }
    if ClimbsFrom(depth, cs) {
      var k :| 0 <= k <= |cs| && depth + Level(cs[..k]) < 0;
      assert k >= 1;
      assert 0 <= k - 1 <= |cs[1..]|;
    }
    if depth + Shift(cs[0]) < 0 {
      assert cs[..1][..0] == [];
      assert depth + Level(cs[..1]) < 0;
    }
    if ClimbsFrom(depth + Shift(cs[0]), cs[1..]) {
      var k :| 0 <= k <= |cs[1..]| && depth + Shift(cs[0]) + Level(cs[1..][..k]) < 0;
      assert depth + Level(cs[..k + 1]) < 0;
    }
  }

  // ----- Cleaning against meaning

  /** Once a leading `..` is kept it stays in front. */
  lemma {:induction false} ReduceKeepsClimb(cs: seq<string>, out: seq<string>)
    requires out != [] && out[0] == ".."
    ensures Reduce(false, cs, out) != [] && Reduce(false, cs, out)[0] == ".."
    decreases |cs|
  {
    if cs != [] {
      if cs[0] == "" || cs[0] == "." {
        ReduceKeepsClimb(cs[1..], out);
      } else if cs[0] == ".." && out[|out| - 1] != ".." {
        ReduceKeepsClimb(cs[1..], out[..|out| - 1]);
      } else {
        ReduceKeepsClimb(cs[1..], out + [cs[0]]);
      }
    }
  }

  /** A walk that never climbs reduces to the names it leads to; one that climbs keeps a leading `..`. */
  lemma {:induction false} ReduceMeans(base: Path, cs: seq<string>, out: seq<string>)
    requires AllPlain(out)
    requires forall c | c in cs :: '/' !in c
    ensures !ClimbsFrom(|out|, cs) ==>
              AllPlain(Reduce(false, cs, out)) && Walk(base + out, cs) == base + Reduce(false, cs, out)
    ensures ClimbsFrom(|out|, cs) ==> Reduce(false, cs, out) != [] && Reduce(false, cs, out)[0] == ".."
    decreases |cs|
  {
    if cs == [] {
      assert Level(cs[..0]) == 0;
    } else {
      ClimbsStep(|out|, cs);
      var c, rest := cs[0], cs[1..];
      if c == "" || c == "." {
        ReduceMeans(base, rest, out);
      } else if c == ".." {
        if out == [] {
          ReduceKeepsClimb(rest, [".."]);
          assert out + [c] == [".."];
        } else {
          var shorter := out[..|out| - 1];
          assert Plain(out[|out| - 1]);
          assert (base + out)[..|base + out| - 1] == base + shorter;
          ReduceMeans(base, rest, shorter);
        }
      } else {
        assert base + out + [c] == base + (out + [c]);
        ReduceMeans(base, rest, out + [c]);
      }
    }
  }

  lemma {:induction false} ReducePlain(rooted: bool, cs: seq<string>, out: seq<string>)
    requires AllPlain(cs)
    ensures Reduce(rooted, cs, out) == out + cs
    decreases |cs|
  {
    if cs != [] {
      assert Plain(cs[0]);
      ReducePlain(rooted, cs[1..], out + [cs[0]]);
      assert out + [cs[0]] + cs[1..] == out + cs;
    } else {
      assert out + cs == out;
    }
  }

  /** Text joined from proper names is already clean and relative. */
  lemma PlainText(cs: seq<string>)
    requires AllPlain(cs) && cs != []
    ensures Join(cs, '/') != "" && !IsAbs(Join(cs, '/'))
    ensures Clean(Join(cs, '/')) == Join(cs, '/')
    ensures Join(cs, '/') != "." && Join(cs, '/') != ".." && !("../" <= Join(cs, '/'))
    ensures TrimLeadingSlashes(Join(cs, '/')) == Join(cs, '/')
  {
    var s := Join(cs, '/');
    assert Plain(cs[0]) && cs[0][0] in cs[0];
    assert s[0] == cs[0][0];
    SplitJoin(cs, '/');
    ReducePlain(false, cs, []);
    assert [] + cs == cs;
    if "../" <= s { SplitClimb(s); }
    assert Split(".", '/') == ["."] && Split("..", '/') == [".."] by {
      SplitPlain(".", '/');
      SplitPlain("..", '/');
    }
  }

  lemma SplitClimb(s: string)
    requires "../" <= s
    ensures Split(s, '/')[0] == ".."
  {
    SplitAfter("..", s[3..], '/');
    assert s == ".." + ['/'] + s[3..];
  }

  /** A leading `..` shows in the joined text. */
  lemma ClimbText(out: seq<string>)
    requires out != [] && out[0] == ".."
    ensures Join(out, '/') == ".." || "../" <= Join(out, '/')
  {
    if |out| > 1 {
      assert out[0] + ['/'] == "../";
    }
  }

  /**
   * cleanRelativePath answers "" exactly when the normalised input is blank, absolute, climbs
   * above its base or leads back to the base itself. Otherwise its answer is made of proper
   * names only and leads, from every base, where the input leads.
   */
  lemma CleanRelativePathMeans(path: string)
    ensures var s := Normalised(path); var cs := Split(s, '/'); var r := CleanRelativePath(path);
            && (r == "" <==> s == "" || IsAbs(s) || Climbs(cs) || Walk([], cs) == [])
            && (r != "" ==> AllPlain(Split(r, '/')) && forall base :: Walk(base, cs) == base + Split(r, '/'))
  {
    hide Reduce, Walk, ClimbsFrom, Normalised, TrimLeadingSlashes, Join;
    var s := Normalised(path);
    if s != "" && !IsAbs(s) {
      var cs := Split(s, '/');
      var out := Reduce(false, cs, []);
      ReduceMeans([], cs, []);
      assert [] + out == out;
      if Climbs(cs) {
        ClimbText(out);
      } else if out == [] {
        assert Clean(s) == ".";
      } else {
        PlainText(out);
        SplitJoin(out, '/');
        forall base: Path ensures Walk(base, cs) == base + out {
          ReduceMeans(base, cs, []);
          assert base + [] == base;
        }
      }
    }
  }

  /**
   * Cleaning twice is cleaning once exactly when the first answer carries no outer white
   * space: trimming comes before cleaning, so cleaning can expose new white space.
   */
  lemma CleanRelativePathTwice(path: string)
    ensures var r := CleanRelativePath(path);
            CleanRelativePath(r) == r <==> r == "" || (!IsSpace(r[0]) && !IsSpace(r[|r| - 1]))
  {
    var r := CleanRelativePath(path);
    if r != "" {
      TrimFixed(r);
      NoBackslash(path);
      NoBackslashKept(r);
      if Trim(r) == r {
        CleanRelativePathMeans(path);
        PlainText(Split(r, '/'));
      } else {
        TrimmedIsShorter(r);
      }
    }
  }

  lemma NoBackslashKept(s: string)
    requires '\\' !in s
    ensures ReplaceBackslashes(s) == s
  {
    var t := ReplaceBackslashes(s);
    assert forall i | 0 <= i < |s| :: s[i] in s && t[i] == s[i];
  }

  /** What is cleaned is never longer than the trimmed input. */
  lemma TrimmedIsShorter(path: string)
    ensures |CleanRelativePath(path)| <= |Normalised(path)|
  {
    var s := Normalised(path);
    var r := CleanRelativePath(path);
    if r != "" {
      var cs := Split(s, '/');
      var out := Reduce(false, cs, []);
      CleanedParts(path);
      ReduceShrinks(cs, []);
      assert [] + cs == cs && Size([]) == 0;
      SizeJoin(cs);
      SizeJoin(out);
    }
  }

  /** A non-empty answer is the joined text of the reduced components, all proper names. */
  lemma CleanedParts(path: string)
    requires CleanRelativePath(path) != ""
    ensures var out := Reduce(false, Split(Normalised(path), '/'), []);
            out != [] && AllPlain(out) && CleanRelativePath(path) == Join(out, '/')
  {
    var cs := Split(Normalised(path), '/');
    var out := Reduce(false, cs, []);
    CleanRelativePathMeans(path);
    ReduceMeans([], cs, []);
    if Climbs(cs) { ClimbText(out); }
    PlainText(out);
  }

  /**
   * The same told on the input: cleaning a second time changes the answer exactly when the input
   * leads to somewhere properly below its base, by a way whose first name begins with white space or
   * whose last name ends with it.
   */
  lemma CleanRelativePathTwiceByParts(path: string)
    ensures var r, s := CleanRelativePath(path), Normalised(path);
            var way := Walk([], Split(s, '/'));
            CleanRelativePath(r) == r <==>
            s == "" || IsAbs(s) || Climbs(Split(s, '/')) || way == [] ||
            (way[0] != "" && way[|way| - 1] != "" && !IsSpace(way[0][0]) && !IsSpace(way[|way| - 1][|way[|way| - 1]| - 1]))
  {
    hide Split, Normalised, CleanRelativePath, Join, Walk, Climbs;
    var r, s := CleanRelativePath(path), Normalised(path);
    CleanRelativePathMeans(path);
    CleanRelativePathTwice(path);
    if r != "" {
      var way := Walk([], Split(s, '/'));
      assert way == [] + Split(r, '/') == Split(r, '/');
      assert Plain(way[0]) && Plain(way[|way| - 1]);
      JoinEnds(way);
    }
  }

  lemma {:induction false} JoinEnds(cs: seq<string>)
    requires cs != [] && cs[0] != "" && cs[|cs| - 1] != ""
    ensures var s, last := Join(cs, '/'), cs[|cs| - 1]; s != "" && s[0] == cs[0][0] && s[|s| - 1] == last[|last| - 1]
  {
    if |cs| > 1 {
      JoinSnoc(cs[..|cs| - 1], cs[|cs| - 1], '/');
      assert cs == cs[..|cs| - 1] + [cs[|cs| - 1]];
    }
  }

  /** A concrete input on which cleaning twice differs from cleaning once. */
  lemma CleanRelativePathNotIdempotent()
    ensures CleanRelativePath("a /") == "a " && CleanRelativePath("a ") == "a"
  {
    hide Split, Reduce, Join, ReplaceBackslashes, Trim;
    NoBackslashKept("a /");
    TrimFixed("a /");
    NoBackslashKept("a ");
    assert Trim("a ") == "a" by { TrimTail("a"); assert "a" + " " == "a "; }
    assert Split("a /", '/') == ["a ", ""] by {
      SplitPlain("a ", '/');
      SplitPlain("", '/');
      SplitAfter("a ", "", '/');
      assert "a /" == "a " + ['/'] + "";
    }
    SplitPlain("a", '/');
    OneName("a ");
    OneName("a");
  }

  lemma TrimTail(s: string)
    requires s != "" && !IsSpace(s[0]) && !IsSpace(s[|s| - 1])
    ensures Trim(s + " ") == s
  {
    assert (s + " ")[..|s|] == s;
    assert TrimRight(s) == s;
  }

  /** A single name, with or without a slash behind it, is kept. */
  lemma OneName(name: string)
    requires Plain(name)
    ensures Reduce(false, [name], []) == [name] && Reduce(false, [name, ""], []) == [name] && Join([name], '/') == name
  {
    assert [name, ""][1..] == [""] && [""][1..] == [] && [name][1..] == [] && [] + [name] == [name];
  }

  // ----- How much cleaning shortens a path

  /** The length of the joined text plus one. */
  function Size(cs: seq<string>): nat
  {
    if cs == [] then 0 else |cs[0]| + 1 + Size(cs[1..])
  }

  lemma {:induction false} SizeJoin(cs: seq<string>)
    requires cs != []
    ensures |Join(cs, '/')| == Size(cs) - 1
  {
    if |cs| > 1 { SizeJoin(cs[1..]); }
  }

  lemma {:induction false} SizeConcat(a: seq<string>, b: seq<string>)
    ensures Size(a + b) == Size(a) + Size(b)
  {
    if a == [] {
      assert a + b == b;
    } else {
      SizeConcat(a[1..], b);
      assert (a + b)[1..] == a[1..] + b;
    }
  }

  /** Every component is either kept in place or makes the result shorter. */
  lemma {:induction false} ReduceShrinks(cs: seq<string>, out: seq<string>)
    ensures Size(Reduce(false, cs, out)) < Size(out) + Size(cs) || Reduce(false, cs, out) == out + cs
    decreases |cs|
  {
    if cs == [] {
      assert out + cs == out;
    } else {
      var c, rest := cs[0], cs[1..];
      if c == "" || c == "." {
        ReduceShrinks(rest, out);
        SizeConcat(out, rest);
      } else if c == ".." && out != [] && out[|out| - 1] != ".." {
        var shorter, last := out[..|out| - 1], out[|out| - 1];
        ReduceShrinks(rest, shorter);
        SizeConcat(shorter, rest);
        SizeConcat(shorter, [last]);
        assert shorter + [last] == out;
      } else {
        ReduceShrinks(rest, out + [c]);
        SizeConcat(out, [c]);
        assert out + [c] + rest == out + cs;
      }
    }
  }

  function Backslashes(s: string): nat
  {
    if s == "" then 0 else (if s[0] == '\\' then 1 else 0) + Backslashes(s[1..])
  }

  lemma {:induction false} ReplaceCounts(s: string)
    ensures Backslashes(ReplaceBackslashes(s)) == 0
    ensures ReplaceBackslashes(s) == s || Backslashes(s) > 0
  {
    if s != "" {
      ReplaceCounts(s[1..]);
      assert ReplaceBackslashes(s)[1..] == ReplaceBackslashes(s[1..]);
      assert s == [s[0]] + s[1..];
    }
  }

  /** A non-empty answer that differs from its input is shorter, or as long with fewer backslashes. */
  lemma CleanRelativePathShrinks(path: string)
    ensures var r := CleanRelativePath(path);
            r == "" || r == path || |r| < |path| || (|r| == |path| && Backslashes(r) < Backslashes(path))
  {
    var r := CleanRelativePath(path);
    var s := Normalised(path);
    if r != "" {
      var cs := Split(s, '/');
      var out := Reduce(false, cs, []);
      CleanedParts(path);
      ReduceShrinks(cs, []);
      assert [] + cs == cs && Size([]) == 0;
      SizeJoin(cs);
      SizeJoin(out);
      ReplaceCounts(path);
    }
  }

  lemma NoBackslash(path: string)
    ensures '\\' !in CleanRelativePath(path)
  {
    if CleanRelativePath(path) != "" {
      var s := Normalised(path);
      var cs := Split(s, '/');
      CleanedParts(path);
      assert '\\' !in s by { assert '\\' !in ReplaceBackslashes(path); }
      JoinChars(cs, '\\');
      ReduceParts(cs, []);
      CharsJoin(Reduce(false, cs, []), '\\');
    }
  }

  lemma {:induction false} JoinChars(cs: seq<string>, c: char)
    requires c !in Join(cs, '/')
    ensures forall part | part in cs :: c !in part
  {
    if |cs| > 1 {
      assert Join(cs, '/') == cs[0] + ['/'] + Join(cs[1..], '/');
      JoinChars(cs[1..], c);
      assert cs == [cs[0]] + cs[1..];
    }
  }

  lemma {:induction false} CharsJoin(cs: seq<string>, c: char)
    requires c != '/'
    requires forall part | part in cs :: c !in part
    ensures c !in Join(cs, '/')
  {
    if |cs| > 1 {
      CharsJoin(cs[1..], c);
    }
  }

  lemma {:induction false} ReduceParts(cs: seq<string>, out: seq<string>)
    ensures forall part | part in Reduce(false, cs, out) :: part in cs || part in out
    decreases |cs|
  {
    if cs != [] {
      if cs[0] == "" || cs[0] == "." {
        ReduceParts(cs[1..], out);
      } else if cs[0] == ".." && out != [] && out[|out| - 1] != ".." {
        ReduceParts(cs[1..], out[..|out| - 1]);
      } else {
        ReduceParts(cs[1..], out + [cs[0]]);
      }
    }
  }
}
