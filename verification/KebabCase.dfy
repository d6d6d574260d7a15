// to_kebab_case, and the names that files and directories get from it. Letters outside ASCII
// count as having no case.
module KebabCase {
  import opened Text

  predicate IsUpper(c: char)
  {
    'A' <= c <= 'Z'
  }

  predicate IsLower(c: char)
  {
    'a' <= c <= 'z'
  }

  predicate HasUpper(s: string)
  {
    exists c | c in s :: IsUpper(c)
  }

  predicate HasLower(s: string)
  {
    exists c | c in s :: IsLower(c)
  }

  /** A hyphen before every upper-case letter. */
  function HyphenTail(s: string): string
  {
    if s == "" then "" else (if IsUpper(s[0]) then "-" else "") + [s[0]] + HyphenTail(s[1..])
  }

  /** The same but for the first character. */
  function Hyphenated(s: string): string
  {
    if s == "" then "" else [s[0]] + HyphenTail(s[1..])
  }

  predicate LeftAlone(name: string)
  {
    || Lower(name) == "readme"
    || (HasLower(name) && !HasUpper(name) && '-' in name)
    || (!HasLower(name) && !HasUpper(name))
  }

  function Kebab(name: string): string
  {
    if LeftAlone(name) then name else Lower(Hyphenated(name))
  }

  lemma LowerHasNoUpper(s: string)
    ensures !HasUpper(Lower(s))
    ensures !HasUpper(s) ==> Lower(s) == s
  {
    forall c | c in Lower(s) ensures !IsUpper(c) {
      var i :| 0 <= i < |s| && Lower(s)[i] == c;
    }
    if !HasUpper(s) {
      forall i | 0 <= i < |s| ensures Lower(s)[i] == s[i] {
        assert s[i] in s;
      }
    }
  }

  lemma {:induction false} NothingToHyphenate(s: string)
    requires !HasUpper(s)
    ensures HyphenTail(s) == s
  {
    if s != "" {
      assert s[0] in s;
      assert forall c | c in s[1..] :: c in s;
      NothingToHyphenate(s[1..]);
    }
  }

  lemma KebabTwice(name: string)
    ensures Kebab(Kebab(name)) == Kebab(name)
  {
    if !LeftAlone(name) {
      var y := Kebab(name);
      LowerHasNoUpper(Hyphenated(name));
      if y != "" {
        assert forall c | c in y[1..] :: c in y;
        NothingToHyphenate(y[1..]);
        assert Hyphenated(y) == y;
      }
      LowerHasNoUpper(y);
    }
  }

  // ----- os.path.splitext

  /** Dots occur at the front only, so there is no extension. */
  predicate NoExtension(s: string)
  {
    s == "" || (if s[0] == '.' then NoExtension(s[1..]) else '.' !in s)
  }

  function LastDot(s: string): (d: nat)
    requires '.' in s
    ensures d < |s| && s[d] == '.' && '.' !in s[d + 1..]
  {
    if s[|s| - 1] == '.' then |s| - 1
    else
      assert s == s[..|s| - 1] + [s[|s| - 1]];
      var d := LastDot(s[..|s| - 1]);
      assert s[d + 1..] == s[..|s| - 1][d + 1..] + [s[|s| - 1]];
      d
  }

  /** Where the extension starts. */
  function ExtensionStart(s: string): (n: nat)
    ensures n <= |s|
  {
    if NoExtension(s) then |s| else
      DotInside(s);
      LastDot(s)
  }

  lemma {:induction false} DotInside(s: string)
    requires !NoExtension(s)
    ensures '.' in s
  {
    if s[0] == '.' { assert s[0] in s; }
  }

  function FileName(name: string): string
  {
    if HasUpper(name) then
      var n := ExtensionStart(name);
      Kebab(name[..n]) + name[n..]
    else name
  }

  function DirName(name: string): string
  {
    if HasUpper(name) then Kebab(name) else name
  }

  lemma DirNameTwice(name: string)
    ensures DirName(DirName(name)) == DirName(name)
  {
    KebabTwice(name);
  }

  /** Some character is no dot. */
  predicate HasBody(s: string)
  {
    exists c | c in s :: c != '.'
  }

  lemma LastDotIs(s: string, n: nat)
    requires n < |s| && s[n] == '.' && '.' !in s[n + 1..]
    ensures '.' in s && LastDot(s) == n
  {
    assert s[n] in s;
    var d := LastDot(s);
    forall i | n < i < |s| ensures s[i] != '.' { assert s[i] in s[n + 1..]; }
    forall i | d < i < |s| ensures s[i] != '.' { assert s[i] in s[d + 1..]; }
  }

  /** A stem with a body and an extension without dots are told apart again. */
  lemma SplitAgain(base: string, ext: string)
    requires HasBody(base) && ext != "" && ext[0] == '.' && '.' !in ext[1..]
    ensures ExtensionStart(base + ext) == |base|
  {
    var s := base + ext;
    var n := |base|;
    BodyThenDot(base, ext);
    assert s[n] == '.' && s[n] in s;
    assert s[n + 1..] == ext[1..];
    LastDotIs(s, n);
  }

  lemma {:induction false} BodyThenDot(base: string, ext: string)
    requires HasBody(base) && ext != "" && ext[0] == '.'
    ensures !NoExtension(base + ext)
  {
    var s := base + ext;
    if base[0] == '.' {
      assert s[1..] == base[1..] + ext;
      assert HasBody(base[1..]) by {
        var c :| c in base && c != '.';
        assert base == [base[0]] + base[1..];
        assert c in base[1..];
      }
      BodyThenDot(base[1..], ext);
    } else {
      assert s[|base|] == '.';
    }
  }

  /** Before an extension there is a body. */
  lemma {:induction false} StemHasBody(s: string)
    requires !NoExtension(s)
    ensures HasBody(s[..ExtensionStart(s)])
  {
    var n := ExtensionStart(s);
    if !HasBody(s[..n]) {
      forall i | 0 <= i < n ensures s[i] == '.' {
        assert s[i] == s[..n][i] && s[..n][i] in s[..n];
      }
      DotsThenPlain(s, n + 1);
    }
  }

  lemma {:induction false} DotsThenPlain(s: string, n: nat)
    requires n <= |s| && (forall i | 0 <= i < n :: s[i] == '.') && '.' !in s[n..]
    ensures NoExtension(s)
  {
    if n > 0 {
      assert s[1..][n - 1..] == s[n..];
      DotsThenPlain(s[1..], n - 1);
    }
  }

  // ----- Kebab case keeps the shape of a name

  lemma {:induction false} TailKeepsDots(s: string)
    ensures '.' in HyphenTail(s) <==> '.' in s
    ensures HasBody(s) ==> HasBody(HyphenTail(s))
    ensures NoExtension(s) ==> NoExtension(HyphenTail(s))
  {
    if s != "" {
      var t := HyphenTail(s[1..]);
      TailKeepsDots(s[1..]);
      assert s == [s[0]] + s[1..];
      assert HyphenTail(s) == (if IsUpper(s[0]) then "-" else "") + [s[0]] + t;
      if HasBody(s) {
        var c :| c in s && c != '.';
        if s[0] != '.' { assert s[0] in HyphenTail(s); } else {
          assert c in s[1..];
          var b :| b in t && b != '.';
          assert b in HyphenTail(s);
        }
      }
      if s[0] == '.' { assert HyphenTail(s)[1..] == t; }
    }
  }

  lemma {:induction false} LowerKeepsDots(s: string)
    ensures '.' in Lower(s) <==> '.' in s
    ensures HasBody(s) ==> HasBody(Lower(s))
    ensures NoExtension(s) ==> NoExtension(Lower(s))
  {
    if s != "" {
      LowerKeepsDots(s[1..]);
      assert s == [s[0]] + s[1..] && Lower(s) == [LowerChar(s[0])] + Lower(s[1..]);
      if HasBody(s) {
        var i :| 0 <= i < |s| && s[i] != '.';
        assert Lower(s)[i] != '.' && Lower(s)[i] in Lower(s);
      }
    }
  }

  lemma HyphenatedKeepsDots(s: string)
    ensures HasBody(s) ==> HasBody(Hyphenated(s))
    ensures NoExtension(s) ==> NoExtension(Hyphenated(s))
  {
    if s != "" {
      TailKeepsDots(s[1..]);
      var t := HyphenTail(s[1..]);
      assert s == [s[0]] + s[1..] && Hyphenated(s) == [s[0]] + t && Hyphenated(s)[1..] == t;
      if HasBody(s) {
        if s[0] != '.' { assert s[0] in Hyphenated(s); } else {
          var c :| c in s && c != '.';
          assert c in s[1..];
          var b :| b in t && b != '.';
          assert b in Hyphenated(s);
        }
      }
    }
  }

  lemma KebabKeepsDots(s: string)
    ensures HasBody(s) ==> HasBody(Kebab(s))
    ensures NoExtension(s) ==> NoExtension(Kebab(s))
  {
    HyphenatedKeepsDots(s);
    LowerKeepsDots(Hyphenated(s));
  }

  /** A file name that has been converted is not changed again, even if its extension has capitals. */
  lemma FileNameTwice(name: string)
    ensures FileName(FileName(name)) == FileName(name)
  {
    if HasUpper(name) {
      var n := ExtensionStart(name);
      var base, ext := Kebab(name[..n]), name[n..];
      KebabTwice(name[..n]);
      KebabKeepsDots(name[..n]);
      if NoExtension(name) {
        assert name[..n] == name && base + ext == base;
        assert base[..|base|] == base && base[|base|..] == ext;
      } else {
        StemHasBody(name);
        SplitAgain(base, ext);
        assert (base + ext)[..|base|] == base && (base + ext)[|base|..] == ext;
      }
    }
  }

  // ----- What kebab case is, character by character

  /** How many upper-case letters there are. */
  function Uppers(s: string): (n: nat)
  {
    if s == "" then 0 else Uppers(s[..|s| - 1]) + if IsUpper(s[|s| - 1]) then 1 else 0
  }

  /** Each character is treated by itself: hyphens depend on nothing around it. */
  lemma {:induction false} TailConcat(a: string, b: string)
    ensures HyphenTail(a + b) == HyphenTail(a) + HyphenTail(b)
  {
    if a == "" {
      assert a + b == b;
    } else {
      assert (a + b)[1..] == a[1..] + b;
      TailConcat(a[1..], b);
    }
  }

  lemma TailOne(c: char)
    ensures HyphenTail([c]) == if IsUpper(c) then "-" + [c] else [c]
  {
    assert HyphenTail([c][1..]) == "";
  }

  /** Character i stands behind the i characters and all the hyphens before it. */
  lemma {:induction false} TailAt(s: string, i: nat)
    ensures |HyphenTail(s)| == |s| + Uppers(s)
    ensures i < |s| ==> var at := i + Uppers(s[..i + 1]);
                        at < |HyphenTail(s)| && HyphenTail(s)[at] == s[i] &&
                        (IsUpper(s[i]) ==> at > 0 && HyphenTail(s)[at - 1] == '-')
  {
    if s != "" {
      var front, last := s[..|s| - 1], s[|s| - 1];
      assert s == front + [last];
      TailConcat(front, [last]);
      TailOne(last);
      TailAt(front, i);
      if i < |front| { assert front[..i + 1] == s[..i + 1]; } else { assert s[..|s|] == s; }
    }
  }

  /**
   * to_kebab_case, read off its result. README in any case and names without capitals stay. In every
   * other name each character is kept in its order, in lower case, and directly before each capital
   * but a first one there is a hyphen; the length leaves no room for anything else.
   */
  lemma KebabMeans(name: string)
    ensures !HasUpper(name) || Lower(name) == "readme" ==> Kebab(name) == name
    ensures HasUpper(name) && Lower(name) != "readme" ==> |Kebab(name)| == |name| + Uppers(name[1..])
    ensures HasUpper(name) && Lower(name) != "readme" ==> forall i | 0 <= i < |name| :: KebabAt(name, Kebab(name), i)
  {
    hide Uppers, KebabAt;
    if !LeftAlone(name) {
      if HasUpper(name) {
        TailAt(name[1..], 0);
        forall i | 0 <= i < |name| ensures KebabAt(name, Kebab(name), i) {
          ConvertedAtPlace(name, i);
        }
      } else {
        LowerHasNoUpper(name);
        assert forall c | c in name[1..] :: c in name;
        NothingToHyphenate(name[1..]);
        assert Hyphenated(name) == name;
      }
    }
  }

  lemma ConvertedAtPlace(name: string, i: nat)
    requires i < |name|
    ensures KebabAt(name, Lower(Hyphenated(name)), i)
  {
    hide Lower, LowerChar, IsUpper, HyphenTail;
    if i > 0 {
      var tail := name[1..];
      TailAt(tail, i - 1);
      assert tail[..i] == name[1..i + 1] && tail[i - 1] == name[i];
      assert Hyphenated(name) == [name[0]] + HyphenTail(tail);
      assert LowerChar('-') == '-' by { LowerLetters('-'); }
    } else {
      assert Uppers(name[1..1]) == 0 by { assert name[1..1] == "" && Uppers("") == 0; }
    }
  }

  /** Character i of a name in its kebab form. */
  predicate KebabAt(name: string, kebab: string, i: nat)
    requires i < |name|
  {
    var at := i + Uppers(name[1..i + 1]);
    at < |kebab| && kebab[at] == LowerChar(name[i]) && (i > 0 && IsUpper(name[i]) ==> at > 0 && kebab[at - 1] == '-')
  }

  /** The lower case of each letter; no other character has one. */
  lemma LowerLetters(c: char)
    ensures IsUpper(c) ==> exists k :: 0 <= k < 26 && "ABCDEFGHIJKLMNOPQRSTUVWXYZ"[k] == c && "abcdefghijklmnopqrstuvwxyz"[k] == LowerChar(c)
    ensures !IsUpper(c) ==> LowerChar(c) == c
  {
    if IsUpper(c) {
      var k := c as int - 'A' as int;
      assert "ABCDEFGHIJKLMNOPQRSTUVWXYZ"[k] == c && "abcdefghijklmnopqrstuvwxyz"[k] == LowerChar(c);
    }
  }

  /** os.path.splitext: the extension begins with the last dot, unless only dots stand before it. */
  ghost predicate SplitsExt(stem: string, ext: string)
  {
    if ext == "" then forall i, j | 0 <= i < j < |stem| && stem[j] == '.' :: stem[i] == '.'
    else ext[0] == '.' && '.' !in ext[1..] && HasBody(stem)
  }

  lemma {:induction false} DotsInFront(s: string)
    ensures NoExtension(s) <==> SplitsExt(s, "")
  {
    if s != "" {
      DotsInFront(s[1..]);
      assert s == [s[0]] + s[1..];
      if s[0] == '.' {
        if SplitsExt(s[1..], "") {
          forall i, j | 0 <= i < j < |s| && s[j] == '.' ensures s[i] == '.' {
            if i > 0 { assert s[1..][j - 1] == '.' && s[1..][i - 1] == s[i]; }
          }
        }
        if SplitsExt(s, "") {
          forall i, j | 0 <= i < j < |s[1..]| && s[1..][j] == '.' ensures s[1..][i] == '.' {
            assert s[j + 1] == '.' && s[i + 1] == s[1..][i];
          }
        }
      }
    }
  }

  /** Every file name splits in exactly one way; its stem gets kebab case and its extension stays. */
  lemma FileNameMeans(name: string) returns (stem: string, ext: string)
    ensures name == stem + ext && SplitsExt(stem, ext)
    ensures forall stem', ext' | name == stem' + ext' && SplitsExt(stem', ext') :: stem' == stem && ext' == ext
    ensures FileName(name) == if HasUpper(name) then Kebab(stem) + ext else name
  {
    var n := ExtensionStart(name);
    stem, ext := name[..n], name[n..];
    DotsInFront(name);
    if NoExtension(name) {
      assert name[..n] == name;
    } else {
      StemHasBody(name);
    }
    forall stem', ext' | name == stem' + ext' && SplitsExt(stem', ext') ensures stem' == stem && ext' == ext {
      if ext' == "" {
        assert stem' == name;
      } else {
        SplitAgain(stem', ext');
      }
      assert name[..|stem'|] == stem' && name[|stem'|..] == ext';
    }
  }

  /** In a directory name nothing is set apart. */
  lemma DirNameMeans(name: string)
    ensures DirName(name) == Kebab(name)
  {
    KebabMeans(name);
  }
}
