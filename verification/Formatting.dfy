// The formatter's two modes over a folder of translation files.
module Formatting {
  import opened Text
  import opened CleanPath
  import opened Translations

  /** Reading and writing JSON text, and Python's strip. */
  datatype Codec = Codec(loads: string -> Option<Json>, dumps: map<string, string> -> string, strip: string -> string)

  /** What is written is read back as the same one-level dictionary. */
  ghost predicate RoundTrips(c: Codec)
  {
    forall m :: ReadsBack(c, m)
  }

  ghost predicate ReadsBack(c: Codec, m: map<string, string>)
  {
    match c.loads(c.dumps(m))
    case Some(Obj(flat)) => IsFlat(flat, m)
    case _ => false
  }

  /** format_translation_content on a file's text; None when the text is no JSON. */
  function Formatted(c: Codec, text: string): Option<string>
  {
    match c.loads(text)
    case None => None
    case Some(y) => Some(c.dumps(Flatten(y, "")))
  }

  /** The check mode's test of one file. */
  predicate Passes(c: Codec, text: string)
  {
    match Formatted(c, text)
    case None => false
    case Some(formatted) => c.strip(text) == c.strip(formatted)
  }

  /**
   * What is read from the text `after` is one level of entries, those of the flattened `before`. If no
   * key of `before` has a dot, every lookup finds the text that it found before, and keys that named
   * a sub-dictionary are missing.
   */
  ghost predicate KeepsLookups(c: Codec, before: string, after: string)
  {
    match (c.loads(before), c.loads(after))
    case (Some(y), Some(Obj(flat))) =>
      && IsFlat(flat, Flatten(y, ""))
      && (y.Obj? && PlainFields(y.fields) && ProperFields(y.fields) ==>
            forall key :: GetNested(flat, key) == match GetNested(y.fields, key) case Some(Leaf(v)) => Some(Leaf(v)) case _ => None)
    case _ => false
  }

  /** Formatting keeps the content of a file, and only texts that are no JSON are not formatted. */
  lemma FormattedKeepsLookups(c: Codec, text: string)
    requires RoundTrips(c)
    ensures Formatted(c, text).None? <==> c.loads(text).None?
    ensures Formatted(c, text).Some? ==> KeepsLookups(c, text, Formatted(c, text).value)
  {
    if c.loads(text).Some? {
      var y := c.loads(text).value;
      assert ReadsBack(c, Flatten(y, ""));
      var flat := c.loads(c.dumps(Flatten(y, ""))).value.fields;
      if y.Obj? && PlainFields(y.fields) && ProperFields(y.fields) {
        forall key ensures GetNested(flat, key) == match GetNested(y.fields, key) case Some(Leaf(v)) => Some(Leaf(v)) case _ => None {
          LookupsSurvive(y.fields, flat, key);
        }
      }
    }
  }

  function Failing(c: Codec, files: map<Path, string>, walk: seq<Path>): seq<Path>
    requires forall p | p in walk :: p in files
  {
    if walk == [] then []
    else
      var front, last := walk[..|walk| - 1], walk[|walk| - 1];
      Failing(c, files, front) + (if Passes(c, files[last]) then [] else [last])
  }

  lemma {:induction false} NoneFailing(c: Codec, files: map<Path, string>, walk: seq<Path>)
    requires forall p | p in walk :: p in files
    ensures Failing(c, files, walk) == [] <==> forall p | p in walk :: Passes(c, files[p])
  {
    if walk != [] {
      var front, last := walk[..|walk| - 1], walk[|walk| - 1];
      assert walk == front + [last];
      NoneFailing(c, files, front);
    }
  }

  class Folder {
    var files: map<Path, string>

    constructor (files: map<Path, string>)
      ensures this.files == files
    {
      this.files := files;
    }

    /**
     * process_folder on the files that the walk lists; not done when a file is no JSON, and then
     * exactly the files listed before the first such file have been formatted.
     */
    method ProcessFolder(c: Codec, walk: seq<Path>, checkOnly: bool) returns (done: bool, processed: seq<Path>, failed: seq<Path>)
      requires (forall p | p in walk :: p in files) && forall i, j | 0 <= i < j < |walk| :: walk[i] != walk[j]
      modifies this
      ensures done <==> forall p | p in walk :: Formatted(c, old(files)[p]).Some?
      ensures done ==> processed == walk
      ensures processed <= walk && forall p | p in processed :: Formatted(c, old(files)[p]).Some?
      ensures !done ==> |processed| < |walk| && Formatted(c, old(files)[walk[|processed|]]).None?
      ensures checkOnly ==> files == old(files) && (done ==> failed == Failing(c, old(files), walk))
      ensures !checkOnly ==> failed == [] && files.Keys == old(files).Keys
      ensures !checkOnly ==> forall p | p in processed :: p in files && Some(files[p]) == Formatted(c, old(files)[p])
      ensures forall p | p in files && p !in processed :: p in old(files) && files[p] == old(files)[p]
      ensures !checkOnly && RoundTrips(c) ==> forall p | p in processed :: p in files && KeepsLookups(c, old(files)[p], files[p])
    {
      hide Formatted, KeepsLookups, RoundTrips;
      processed, failed := [], [];
      for i := 0 to |walk|
        invariant processed == walk[..i] && files.Keys == old(files).Keys
        invariant forall p | p in walk[..i] :: Formatted(c, old(files)[p]).Some?
        invariant checkOnly ==> files == old(files) && failed == Failing(c, old(files), walk[..i])
        invariant !checkOnly ==> failed == []
        invariant !checkOnly ==> forall p | p in walk[..i] :: Some(files[p]) == Formatted(c, old(files)[p])
        invariant forall p | p in files && p !in walk[..i] :: files[p] == old(files)[p]
      {
        var path := walk[i];
        assert path !in walk[..i];
        var formatted := Formatted(c, files[path]);
        if formatted.None? {
          AllKeepLookups(c, old(files), files, processed, checkOnly);
          return false, processed, failed;
        }
        assert walk[..i + 1] == walk[..i] + [path];
        if checkOnly {
          if c.strip(files[path]) != c.strip(formatted.value) {
            failed := failed + [path];
          }
        } else {
          files := files[path := formatted.value];
        }
        processed := processed + [path];
      }
      assert walk[..|walk|] == walk;
      AllKeepLookups(c, old(files), files, processed, checkOnly);
      return true, processed, failed;
    }

    /** Once files have been formatted, the check finds nothing to complain about. */
    method FormatThenCheck(c: Codec, walk: seq<Path>) returns (done: bool, failed: seq<Path>)
      requires RoundTrips(c)
      requires (forall p | p in walk :: p in files) && forall i, j | 0 <= i < j < |walk| :: walk[i] != walk[j]
      modifies this
      ensures done <==> forall p | p in walk :: Formatted(c, old(files)[p]).Some?
      ensures done ==> failed == []
    {
      var processed;
      done, processed, failed := ProcessFolder(c, walk, false);
      if !done { return; }
      forall p | p in walk ensures Passes(c, files[p]) && Formatted(c, files[p]).Some? {
        FormattedPasses(c, old(files)[p]);
      }
      NoneFailing(c, files, walk);
      done, processed, failed := ProcessFolder(c, walk, true);
    }
  }

  lemma AllKeepLookups(c: Codec, before: map<Path, string>, after: map<Path, string>, processed: seq<Path>, checkOnly: bool)
    requires (forall p | p in processed :: p in before) && after.Keys == before.Keys
    requires !checkOnly ==> forall p | p in processed :: Some(after[p]) == Formatted(c, before[p])
    ensures !checkOnly && RoundTrips(c) ==> forall p | p in processed :: KeepsLookups(c, before[p], after[p])
  {
    hide Formatted, KeepsLookups, RoundTrips;
    if !checkOnly && RoundTrips(c) {
      forall p | p in processed ensures KeepsLookups(c, before[p], after[p]) {
        FormattedKeepsLookups(c, before[p]);
      }
    }
  }

  /** A formatted text is its own formatting. */
  lemma FormattedPasses(c: Codec, text: string)
    requires RoundTrips(c) && Formatted(c, text).Some?
    ensures var formatted := Formatted(c, text).value;
            Formatted(c, formatted) == Some(formatted) && Passes(c, formatted)
  {
    var y := c.loads(text).value;
    var m := Flatten(y, "");
    assert ReadsBack(c, m);
    FormattingTwice(y, c.loads(c.dumps(m)).value.fields);
  }

  // ----- A codec that is read back

  /** A text with an `x` before each character and a full stop behind the last. */
  function Quoted(s: string): (q: string)
    ensures q != ""
  {
    if s == "" then "." else "x" + [s[0]] + Quoted(s[1..])
  }

  function Encoded(flat: Fields): string
  {
    if flat == [] then ""
    else Quoted(flat[0].key) + ((if flat[0].value.Leaf? then Quoted(flat[0].value.text) else "") + Encoded(flat[1..]))
  }

  ghost predicate Writes(flat: Fields, text: string)
  {
    OneLevel(flat) && Encoded(flat) == text
  }

  ghost function Decoded(text: string): Option<Json>
  {
    if exists flat :: Writes(flat, text) then
      var flat :| Writes(flat, text);
      Some(Obj(flat))
    else None
  }

  /** The entries of a map, in some order. */
  ghost function Entries(m: map<string, string>): Fields
  {
    if m == map[] then []
    else
      var k :| k in m;
      Entries(m - {k}) + [Field(k, Leaf(m[k]))]
  }

  lemma {:induction false} EntriesAreFlat(m: map<string, string>)
    ensures IsFlat(Entries(m), m) && OneLevel(Entries(m))
    decreases |m|
  {
    var fs := Entries(m);
    if m != map[] {
      var last := fs[|fs| - 1];
      var k := last.key;
      assert k in m && fs == Entries(m - {k}) + [Field(k, Leaf(m[k]))];
      assert |m - {k}| < |m| by { assert m.Keys == (m - {k}).Keys + {k}; }
      EntriesAreFlat(m - {k});
      assert fs[..|fs| - 1] == Entries(m - {k});
    }
  }

  lemma {:induction false} QuotedApart(a: string, b: string, x: string, y: string)
    requires Quoted(a) + x == Quoted(b) + y
    ensures a == b && x == y
    decreases |a|
  {
    var whole := Quoted(a) + x;
    assert whole[0] == Quoted(a)[0] == Quoted(b)[0];
    if a == "" || b == "" {
      assert whole[1..] == x && whole[1..] == y;
    } else {
      assert whole[1] == a[0] == b[0];
      assert whole[2..] == Quoted(a[1..]) + x && whole[2..] == Quoted(b[1..]) + y;
      QuotedApart(a[1..], b[1..], x, y);
      assert a == [a[0]] + a[1..] && b == [b[0]] + b[1..];
    }
  }

  lemma {:induction false} EncodedApart(a: Fields, b: Fields)
    requires OneLevel(a) && OneLevel(b) && Encoded(a) == Encoded(b)
    ensures a == b
    decreases |a|
  {
    hide Quoted, Encoded;
    if a == [] || b == [] {
      EncodedHead(a);
      EncodedHead(b);
    } else {
      EncodedHead(a);
      EncodedHead(b);
      QuotedApart(a[0].key, b[0].key, Quoted(a[0].value.text) + Encoded(a[1..]), Quoted(b[0].value.text) + Encoded(b[1..]));
      QuotedApart(a[0].value.text, b[0].value.text, Encoded(a[1..]), Encoded(b[1..]));
      EncodedApart(a[1..], b[1..]);
      assert a == [a[0]] + a[1..] && b == [b[0]] + b[1..];
    }
  }

  lemma EncodedHead(a: Fields)
    requires OneLevel(a)
    ensures a == [] ==> Encoded(a) == ""
    ensures a != [] ==> a[0].value.Leaf? && OneLevel(a[1..]) && Encoded(a) != "" &&
                        Encoded(a) == Quoted(a[0].key) + (Quoted(a[0].value.text) + Encoded(a[1..]))
  {
    hide Quoted;
    if a != [] {
      assert a[0] in a;
    }
  }

  /** There are codecs whose output is read back, so the results that ask for one say something. */
  lemma SomeCodecRoundTrips() returns (c: Codec)
    ensures RoundTrips(c)
  {
    c := Codec(text => Decoded(text), m => Encoded(Entries(m)), text => text);
    forall m: map<string, string> ensures ReadsBack(c, m) {
      EntriesAreFlat(m);
      var text := Encoded(Entries(m));
      assert Writes(Entries(m), text);
      var flat :| Decoded(text) == Some(Obj(flat)) && Writes(flat, text);
      EncodedApart(flat, Entries(m));
    }
  }
}
