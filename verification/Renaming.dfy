// The bottom-up rename list and its execution on a directory tree.
module Renaming {
  import opened Text
  import opened CleanPath
  import opened KebabCase

  /** A directory entry: a file with its identity, or a directory with its own entries. */
  datatype Entry = FileEntry(name: string, id: int) | DirEntry(name: string, sub: Listing)

  type Listing = seq<Entry>

  /** os.rename in directory `dir`, which is given relative to the root. */
  datatype Rename = Rename(dir: Path, oldName: string, newName: string)

  function NewName(skip: Path -> bool, at: Path, e: Entry): string
  {
    if skip(at + [e.name]) then e.name
    else if e.FileEntry? then FileName(e.name)
    else DirName(e.name)
  }

  function Named(e: Entry, name: string): Entry
  {
    if e.FileEntry? then FileEntry(name, e.id) else DirEntry(name, e.sub)
  }

  // ----- The rename list

  function Inside(name: string, rs: seq<Rename>): (r: seq<Rename>)
    ensures |r| == |rs|
  {
    if rs == [] then [] else [Rename([name] + rs[0].dir, rs[0].oldName, rs[0].newName)] + Inside(name, rs[1..])
  }

  /** What is planned below the directories of a listing. */
  function PlanSubs(skip: Path -> bool, at: Path, es: Listing): seq<Rename>
    decreases es, 0
  {
    if es == [] then []
    else
      (if es[0].DirEntry? then Inside(es[0].name, Plan(skip, at + [es[0].name], es[0].sub)) else [])
      + PlanSubs(skip, at, es[1..])
  }

  /** What is planned for the entries of one kind in a listing itself. */
  function PlanHere(skip: Path -> bool, at: Path, es: Listing, dirs: bool): seq<Rename>
  {
    if es == [] then []
    else
      (if es[0].DirEntry? == dirs && NewName(skip, at, es[0]) != es[0].name
       then [Rename([], es[0].name, NewName(skip, at, es[0]))] else [])
      + PlanHere(skip, at, es[1..], dirs)
  }

  /** find_rename_targets: deeper directories first, then files, then directories. */
  function Plan(skip: Path -> bool, at: Path, es: Listing): seq<Rename>
    decreases es, 1
  {
    PlanSubs(skip, at, es) + PlanHere(skip, at, es, false) + PlanHere(skip, at, es, true)
  }

  method FindRenameTargets(skip: Path -> bool, at: Path, es: Listing) returns (renames: seq<Rename>)
    ensures renames == Plan(skip, at, es)
    decreases es
  {
    hide NewName, PlanSubs, PlanHere, Inside;
    renames := [];
    SubsEnd(skip, at, es);
    for i := 0 to |es|
      invariant renames + PlanSubs(skip, at, es[i..]) == PlanSubs(skip, at, es)
    {
      SubsStep(skip, at, es, i);
      if es[i].DirEntry? {
        var deeper := FindRenameTargets(skip, at + [es[i].name], es[i].sub);
        renames := renames + Inside(es[i].name, deeper);
      }
    }
    var files := TargetsHere(skip, at, es, false);
    var dirs := TargetsHere(skip, at, es, true);
    renames := renames + files + dirs;
  }

  /** The loop over one directory's file names, or over its directory names. */
  method TargetsHere(skip: Path -> bool, at: Path, es: Listing, dirs: bool) returns (renames: seq<Rename>)
    ensures renames == PlanHere(skip, at, es, dirs)
  {
    hide NewName, PlanHere;
    renames := [];
    HereEnd(skip, at, es, dirs);
    for i := 0 to |es|
      invariant renames + PlanHere(skip, at, es[i..], dirs) == PlanHere(skip, at, es, dirs)
    {
      HereStep(skip, at, es, i, dirs);
      if es[i].DirEntry? == dirs {
        var newName := NewName(skip, at, es[i]);
        if newName != es[i].name {
          renames := renames + [Rename([], es[i].name, newName)];
        }
      }
    }
  }

  lemma SubsEnd(skip: Path -> bool, at: Path, es: Listing)
    ensures PlanSubs(skip, at, es[|es|..]) == [] && es[0..] == es
  {
  }

  lemma SubsStep(skip: Path -> bool, at: Path, es: Listing, i: nat)
    requires i < |es|
    ensures PlanSubs(skip, at, es[i..]) ==
            (if es[i].DirEntry? then Inside(es[i].name, Plan(skip, at + [es[i].name], es[i].sub)) else []) + PlanSubs(skip, at, es[i + 1..])
  {
    hide NewName, Plan;
    assert es[i..][1..] == es[i + 1..];
  }

  lemma HereEnd(skip: Path -> bool, at: Path, es: Listing, dirs: bool)
    ensures PlanHere(skip, at, es[|es|..], dirs) == [] && es[0..] == es
  {
  }

  lemma HereStep(skip: Path -> bool, at: Path, es: Listing, i: nat, dirs: bool)
    requires i < |es|
    ensures PlanHere(skip, at, es[i..], dirs) ==
            (if es[i].DirEntry? == dirs && NewName(skip, at, es[i]) != es[i].name
             then [Rename([], es[i].name, NewName(skip, at, es[i]))] else []) + PlanHere(skip, at, es[i + 1..], dirs)
  {
    hide NewName;
    assert es[i..][1..] == es[i + 1..];
  }

  // ----- Renaming on disk

  /** The position of a name in a listing, or its length if it is not there. */
  function IndexOf(es: Listing, name: string): (i: nat)
    ensures i <= |es|
    ensures i < |es| ==> es[i].name == name
    ensures forall j | 0 <= j < i :: es[j].name != name
  {
    if es == [] || es[0].name == name then 0 else 1 + IndexOf(es[1..], name)
  }

  function Names(es: Listing): (ns: seq<string>)
    ensures |ns| == |es| && forall i | 0 <= i < |es| :: ns[i] == es[i].name
  {
    if es == [] then [] else [es[0].name] + Names(es[1..])
  }

  /** rename(2) within one directory: onto a free name, or over a file by a file, or over an empty directory by a directory. */
  function RenameHere(es: Listing, oldName: string, newName: string): Option<Listing>
  {
    var i, j := IndexOf(es, oldName), IndexOf(es, newName);
    if i == |es| then None
    else if j == |es| then Some(es[i := Named(es[i], newName)])
    else if i == j then Some(es)
    else if (es[i].FileEntry? && es[j].FileEntry?) || (es[i].DirEntry? && es[j].DirEntry? && es[j].sub == []) then
      var moved := es[i := Named(es[i], newName)];
      Some(moved[..j] + moved[j + 1..])
    else None
  }

  function RenameAt(es: Listing, r: Rename): Option<Listing>
    decreases |r.dir|
  {
    if r.dir == [] then RenameHere(es, r.oldName, r.newName)
    else
      var i := IndexOf(es, r.dir[0]);
      if i == |es| || es[i].FileEntry? then None
      else
        match RenameAt(es[i].sub, Rename(r.dir[1..], r.oldName, r.newName))
        case None => None
        case Some(sub) => Some(es[i := DirEntry(es[i].name, sub)])
  }

  /** The rename loop; None when an os.rename raises. */
  function Execute(es: Listing, rs: seq<Rename>): Option<Listing>
    decreases |rs|
  {
    if rs == [] then Some(es)
    else
      match RenameAt(es, rs[0])
      case None => None
      case Some(next) => Execute(next, rs[1..])
  }

  class Disk {
    var root: Listing

    constructor (root: Listing)
      ensures this.root == root
    {
      this.root := root;
    }

    /** The loop of main; a rename that raises ends it and leaves what was done so far. */
    method PerformRenames(rs: seq<Rename>) returns (done: bool)
      modifies this
      ensures done <==> Execute(old(root), rs).Some?
      ensures done ==> Execute(old(root), rs) == Some(root)
    {
      for i := 0 to |rs|
        invariant Execute(old(root), rs) == Execute(root, rs[i..])
      {
        assert rs[i..][1..] == rs[i + 1..];
        match RenameAt(root, rs[i]) {
          case None => return false;
          case Some(next) => root := next;
        }
      }
      return true;
    }
  }

  // ----- What the renames are for

  /** The tree with every component converted. */
  function Converted(skip: Path -> bool, at: Path, es: Listing): (r: Listing)
    ensures |r| == |es|
    decreases es
  {
    if es == [] then []
    else
      [Named(if es[0].FileEntry? then es[0] else DirEntry(es[0].name, Converted(skip, at + [es[0].name], es[0].sub)),
             NewName(skip, at, es[0]))]
      + Converted(skip, at, es[1..])
  }

  predicate Distinct(ns: seq<string>)
  {
    forall i, j | 0 <= i < j < |ns| :: ns[i] != ns[j]
  }

  /** No directory has two entries of one name. */
  predicate Tidy(es: Listing)
    decreases es, 1
  {
    Distinct(Names(es)) && TidySubs(es)
  }

  predicate TidySubs(es: Listing)
    decreases es, 0
  {
    es == [] || ((es[0].DirEntry? ==> Tidy(es[0].sub)) && TidySubs(es[1..]))
  }

  function NewNames(skip: Path -> bool, at: Path, es: Listing): (ns: seq<string>)
    ensures |ns| == |es| && forall i | 0 <= i < |es| :: ns[i] == NewName(skip, at, es[i])
  {
    if es == [] then [] else [NewName(skip, at, es[0])] + NewNames(skip, at, es[1..])
  }

  /** No renamed file takes a name that a directory beside it still carries. */
  predicate FilesClearOfDirs(skip: Path -> bool, at: Path, es: Listing)
  {
    forall i, j | 0 <= i < |es| && 0 <= j < |es| && es[i].FileEntry? && es[j].DirEntry? :: NewName(skip, at, es[i]) != es[j].name
  }

  /** In every directory the final names differ and no file is renamed onto a directory's present name. */
  predicate NoClash(skip: Path -> bool, at: Path, es: Listing)
    decreases es, 1
  {
    Distinct(NewNames(skip, at, es)) && FilesClearOfDirs(skip, at, es) && NoClashSubs(skip, at, es)
  }

  predicate NoClashSubs(skip: Path -> bool, at: Path, es: Listing)
    decreases es, 0
  {
    es == [] || ((es[0].DirEntry? ==> NoClash(skip, at + [es[0].name], es[0].sub)) && NoClashSubs(skip, at, es[1..]))
  }

  // ----- Renaming without touching another entry

  /** Renaming that is refused when the new name is taken. */
  function StrictHere(es: Listing, oldName: string, newName: string): Option<Listing>
  {
    var i := IndexOf(es, oldName);
    if i == |es| || IndexOf(es, newName) < |es| then None else Some(es[i := Named(es[i], newName)])
  }

  function StrictAt(es: Listing, r: Rename): Option<Listing>
    decreases |r.dir|
  {
    if r.dir == [] then StrictHere(es, r.oldName, r.newName)
    else
      var i := IndexOf(es, r.dir[0]);
      if i == |es| || es[i].FileEntry? then None
      else
        match StrictAt(es[i].sub, Rename(r.dir[1..], r.oldName, r.newName))
        case None => None
        case Some(sub) => Some(es[i := DirEntry(es[i].name, sub)])
  }

  function ExecuteStrict(es: Listing, rs: seq<Rename>): Option<Listing>
    decreases |rs|
  {
    if rs == [] then Some(es)
    else
      match StrictAt(es, rs[0])
      case None => None
      case Some(next) => ExecuteStrict(next, rs[1..])
  }

  function Count(es: Listing): nat
  {
    if es == [] then 0 else 1 + (if es[0].DirEntry? then Count(es[0].sub) else 0) + Count(es[1..])
  }

  lemma {:induction false} CountUpdate(es: Listing, i: nat, e: Entry)
    requires i < |es|
    ensures Count(es[i := e]) == Count(es) - Count([es[i]]) + Count([e])
    ensures Count(es) >= Count([es[i]])
  {
    if i > 0 {
      CountUpdate(es[1..], i - 1, e);
      assert es[i := e][1..] == es[1..][i - 1 := e];
    } else {
      assert es[i := e][1..] == es[1..];
      assert [e][1..] == [] && [es[0]][1..] == [];
    }
  }

  lemma {:induction false} CountRemove(es: Listing, j: nat)
    requires j < |es|
    ensures Count(es[..j] + es[j + 1..]) < Count(es)
  {
    if j > 0 {
      CountRemove(es[1..], j - 1);
      assert (es[..j] + es[j + 1..])[1..] == es[1..][..j - 1] + es[1..][j..];
    } else {
      assert es[..j] + es[j + 1..] == es[1..];
    }
  }

  lemma CountOne(e: Entry)
    ensures Count([e]) == 1 + (if e.DirEntry? then Count(e.sub) else 0)
  {
    assert [e][1..] == [];
  }

  /** A rename that is not refused does the same either way; one that is raises or loses an entry. */
  lemma {:induction false} StrictOrLess(es: Listing, r: Rename)
    requires r.oldName != r.newName
    ensures match StrictAt(es, r)
            case Some(next) => RenameAt(es, r) == Some(next) && Count(next) == Count(es)
            case None => RenameAt(es, r).Some? ==> Count(RenameAt(es, r).value) < Count(es)
    decreases |r.dir|
  {
    if r.dir == [] {
      var i, j := IndexOf(es, r.oldName), IndexOf(es, r.newName);
      if i < |es| {
        var e := Named(es[i], r.newName);
        CountUpdate(es, i, e);
        CountOne(es[i]);
        CountOne(e);
        if j < |es| { CountRemove(es[i := e], j); }
      }
    } else {
      var i := IndexOf(es, r.dir[0]);
      if i < |es| && es[i].DirEntry? {
        var deeper := Rename(r.dir[1..], r.oldName, r.newName);
        StrictOrLess(es[i].sub, deeper);
        CountOne(es[i]);
        if RenameAt(es[i].sub, deeper).Some? {
          var sub := RenameAt(es[i].sub, deeper).value;
          CountUpdate(es, i, DirEntry(es[i].name, sub));
          CountOne(DirEntry(es[i].name, sub));
        }
      }
    }
  }

  ghost predicate RealRenames(rs: seq<Rename>)
  {
    forall r | r in rs :: r.oldName != r.newName
  }

  lemma {:induction false} NeverMore(es: Listing, rs: seq<Rename>)
    requires RealRenames(rs)
    ensures Execute(es, rs).Some? ==> Count(Execute(es, rs).value) <= Count(es)
    decreases |rs|
  {
    if rs != [] {
      assert rs[0] in rs;
      StrictOrLess(es, rs[0]);
      if RenameAt(es, rs[0]).Some? { NeverMore(RenameAt(es, rs[0]).value, rs[1..]); }
    }
  }

  lemma {:induction false} StrictDecides(es: Listing, rs: seq<Rename>)
    requires RealRenames(rs)
    ensures match ExecuteStrict(es, rs)
            case Some(end) => Execute(es, rs) == Some(end)
            case None => Execute(es, rs).Some? ==> Count(Execute(es, rs).value) < Count(es)
    decreases |rs|
  {
    if rs != [] {
      assert rs[0] in rs;
      StrictOrLess(es, rs[0]);
      if StrictAt(es, rs[0]).Some? {
        StrictDecides(StrictAt(es, rs[0]).value, rs[1..]);
      } else if RenameAt(es, rs[0]).Some? {
        NeverMore(RenameAt(es, rs[0]).value, rs[1..]);
      }
    }
  }

  lemma {:induction false} StrictConcat(es: Listing, a: seq<Rename>, b: seq<Rename>)
    ensures ExecuteStrict(es, a + b) == match ExecuteStrict(es, a) case None => None case Some(mid) => ExecuteStrict(mid, b)
    decreases |a|
  {
    if a == [] {
      assert a + b == b;
    } else {
      assert (a + b)[1..] == a[1..] + b;
      if StrictAt(es, a[0]).Some? { StrictConcat(StrictAt(es, a[0]).value, a[1..], b); }
    }
  }

  /** Renames inside one directory act on its entries only. */
  lemma {:induction false} StrictInside(es: Listing, i: nat, rs: seq<Rename>)
    requires i < |es| && es[i].DirEntry? && IndexOf(es, es[i].name) == i
    ensures ExecuteStrict(es, Inside(es[i].name, rs)) ==
            match ExecuteStrict(es[i].sub, rs) case None => None case Some(sub) => Some(es[i := DirEntry(es[i].name, sub)])
    decreases |rs|
  {
    if rs == [] {
      assert es[i := DirEntry(es[i].name, es[i].sub)] == es;
    } else {
      var name := es[i].name;
      var first := Inside(name, rs)[0];
      assert Inside(name, rs)[1..] == Inside(name, rs[1..]);
      assert first.dir[1..] == rs[0].dir;
      var step := StrictAt(es[i].sub, rs[0]);
      if step.Some? {
        var es' := es[i := DirEntry(name, step.value)];
        assert StrictAt(es, first) == Some(es');
        SameIndex(es, es', name);
        StrictInside(es', i, rs[1..]);
        assert forall sub :: es'[i := DirEntry(name, sub)] == es[i := DirEntry(name, sub)];
      }
    }
  }

  lemma {:induction false} SameIndex(es: Listing, es': Listing, name: string)
    requires |es| == |es'| && forall i | 0 <= i < |es| :: es[i].name == es'[i].name
    ensures IndexOf(es', name) == IndexOf(es, name)
  {
  }

  // ----- One pass over a directory: its files, or its directories

  /** The listing with the entries of one kind renamed. */
  function ConvertHere(skip: Path -> bool, at: Path, es: Listing, dirs: bool): (r: Listing)
    ensures |r| == |es|
    ensures forall i | 0 <= i < |es| ::
              r[i] == if es[i].DirEntry? == dirs then Named(es[i], NewName(skip, at, es[i])) else es[i]
  {
    if es == [] then []
    else [if es[0].DirEntry? == dirs then Named(es[0], NewName(skip, at, es[0])) else es[0]] + ConvertHere(skip, at, es[1..], dirs)
  }

  lemma IndexFound(es: Listing, i: nat)
    requires i < |es| && Distinct(Names(es))
    ensures IndexOf(es, es[i].name) == i
  {
    var k := IndexOf(es, es[i].name);
    assert Names(es)[i] == es[i].name && forall j | 0 <= j < |es| :: Names(es)[j] == es[j].name;
  }

  /** The new names of the entries still to be renamed are free when their turn comes. */
  predicate PassGoes(skip: Path -> bool, at: Path, front: Listing, rest: Listing, dirs: bool)
    decreases |rest|
  {
    if rest == [] then true
    else
      var e := rest[0];
      var newName := NewName(skip, at, e);
      if e.DirEntry? == dirs && newName != e.name then
        IndexOf(front + rest, newName) == |front + rest| && PassGoes(skip, at, front + [Named(e, newName)], rest[1..], dirs)
      else PassGoes(skip, at, front + [e], rest[1..], dirs)
  }

  lemma {:induction false} PassRuns(skip: Path -> bool, at: Path, front: Listing, rest: Listing, dirs: bool)
    requires Distinct(Names(front + rest))
    ensures ExecuteStrict(front + rest, PlanHere(skip, at, rest, dirs)) ==
            if PassGoes(skip, at, front, rest, dirs) then Some(front + ConvertHere(skip, at, rest, dirs)) else None
    ensures PassGoes(skip, at, front, rest, dirs) ==> Distinct(Names(front + ConvertHere(skip, at, rest, dirs)))
    decreases |rest|
  {
    hide NewName, Distinct, Names, StrictAt, IndexOf, Named;
    if rest == [] {
      assert front + rest == front && front + ConvertHere(skip, at, rest, dirs) == front;
    } else {
      var e, es := rest[0], front + rest;
      var newName := NewName(skip, at, e);
      var later, plan := rest[1..], PlanHere(skip, at, rest[1..], dirs);
      if e.DirEntry? == dirs && newName != e.name {
        var e' := Named(e, newName);
        PassStep(front, rest, newName);
        assert PlanHere(skip, at, rest, dirs) == [Rename([], e.name, newName)] + plan;
        if IndexOf(es, newName) == |es| { PassRuns(skip, at, front + [e'], later, dirs); }
        Shift(front, e', ConvertHere(skip, at, later, dirs));
      } else {
        assert PlanHere(skip, at, rest, dirs) == plan;
        assert front + [e] + later == es;
        PassRuns(skip, at, front + [e], later, dirs);
        SameName(e);
        Shift(front, e, ConvertHere(skip, at, later, dirs));
      }
    }
  }

  lemma Shift(front: Listing, e: Entry, later: Listing)
    ensures front + [e] + later == front + ([e] + later)
  {
  }

  lemma SameName(e: Entry)
    ensures Named(e, e.name) == e
  {
  }

  /** A single rename of the entry after `front`. */
  lemma PassStep(front: Listing, rest: Listing, newName: string)
    requires rest != [] && Distinct(Names(front + rest))
    ensures var es, e' := front + rest, Named(rest[0], newName);
            StrictAt(es, Rename([], rest[0].name, newName)) ==
            (if IndexOf(es, newName) == |es| then Some(front + [e'] + rest[1..]) else None)
    ensures IndexOf(front + rest, newName) == |front + rest| ==> Distinct(Names(front + [Named(rest[0], newName)] + rest[1..]))
  {
    var es, e' := front + rest, Named(rest[0], newName);
    assert es[|front|] == rest[0];
    IndexFound(es, |front|);
    var next := es[|front| := e'];
    assert next == front + [e'] + rest[1..];
    if IndexOf(es, newName) == |es| {
      forall i, j | 0 <= i < j < |next| ensures Names(next)[i] != Names(next)[j] {
        assert Names(es)[i] != Names(es)[j];
      }
    }
  }

  /** A converted name is not converted again. */
  lemma NewNameTwice(skip: Path -> bool, at: Path, e: Entry, f: Entry)
    requires e.DirEntry? == f.DirEntry? && f.name == NewName(skip, at, e) && NewName(skip, at, e) != e.name
    ensures NewName(skip, at, f) == f.name
  {
    FileNameTwice(e.name);
    DirNameTwice(e.name);
  }

  /** If the names after the pass differ, no rename of the pass meets a taken name. */
  lemma {:induction false} PassWillGo(skip: Path -> bool, at: Path, es: Listing, i: nat, dirs: bool)
    requires i <= |es| && Distinct(Names(es)) && Distinct(Names(ConvertHere(skip, at, es, dirs)))
    ensures PassGoes(skip, at, ConvertHere(skip, at, es, dirs)[..i], es[i..], dirs)
    decreases |es| - i
  {
    hide NewName, ConvertHere, Names, Distinct;
    if i < |es| {
      var after := ConvertHere(skip, at, es, dirs);
      var front, rest := after[..i], es[i..];
      var e := es[i];
      var newName := NewName(skip, at, e);
      assert rest[0] == e && rest[1..] == es[i + 1..];
      PassWillGo(skip, at, es, i + 1, dirs);
      assert after[..i + 1] == front + [after[i]];
      assert Named(e, e.name) == e;
      if e.DirEntry? == dirs && newName != e.name {
        forall j | 0 <= j < |front + rest| ensures (front + rest)[j].name != newName {
          FreeOf(skip, at, es, i, j, dirs);
        }
      }
    }
  }

  lemma FreeOf(skip: Path -> bool, at: Path, es: Listing, i: nat, j: nat, dirs: bool)
    requires i < |es| && j < |es| && Distinct(Names(es)) && Distinct(Names(ConvertHere(skip, at, es, dirs)))
    requires es[i].DirEntry? == dirs && NewName(skip, at, es[i]) != es[i].name
    ensures (ConvertHere(skip, at, es, dirs)[..i] + es[i..])[j].name != NewName(skip, at, es[i])
  {
    hide NewName, ConvertHere, Names;
    var after := ConvertHere(skip, at, es, dirs);
    assert Names(after)[i] == after[i].name == NewName(skip, at, es[i]);
    if j < i {
      assert Names(after)[j] == after[j].name;
    } else if j > i {
      assert (after[..i] + es[i..])[j] == es[j];
      assert Names(after)[j] == after[j].name;
      if es[j].DirEntry? == dirs && es[j].name == NewName(skip, at, es[i]) {
        NewNameTwice(skip, at, es[i], es[j]);
      }
    }
  }

  // ----- The whole plan

  function ConvertSubs(skip: Path -> bool, at: Path, es: Listing): (r: Listing)
    ensures |r| == |es|
    ensures forall i | 0 <= i < |es| :: r[i].name == es[i].name && r[i].DirEntry? == es[i].DirEntry?
    ensures forall i | 0 <= i < |es| ::
              r[i] == if es[i].FileEntry? then es[i] else DirEntry(es[i].name, Converted(skip, at + [es[i].name], es[i].sub))
  {
    if es == [] then []
    else
      [if es[0].FileEntry? then es[0] else DirEntry(es[0].name, Converted(skip, at + [es[0].name], es[0].sub))]
      + ConvertSubs(skip, at, es[1..])
  }

  lemma {:induction false} ConvertedAt(skip: Path -> bool, at: Path, es: Listing, i: nat)
    requires i < |es|
    ensures Converted(skip, at, es)[i] ==
            Named(if es[i].FileEntry? then es[i] else DirEntry(es[i].name, Converted(skip, at + [es[i].name], es[i].sub)),
                  NewName(skip, at, es[i]))
  {
    hide NewName;
    if i > 0 { ConvertedAt(skip, at, es[1..], i - 1); }
  }

  lemma ConvertedInPasses(skip: Path -> bool, at: Path, es: Listing)
    ensures ConvertHere(skip, at, ConvertHere(skip, at, ConvertSubs(skip, at, es), false), true) == Converted(skip, at, es)
  {
    hide FileName, DirName;
    forall i | 0 <= i < |es|
      ensures ConvertHere(skip, at, ConvertHere(skip, at, ConvertSubs(skip, at, es), false), true)[i] == Converted(skip, at, es)[i]
    {
      ConvertedAt(skip, at, es, i);
    }
  }

  /** A plan for a listing depends on its names and kinds only. */
  lemma {:induction false} SamePlanHere(skip: Path -> bool, at: Path, es: Listing, es': Listing, dirs: bool)
    requires |es| == |es'| && forall i | 0 <= i < |es| :: es[i].DirEntry? == es'[i].DirEntry?
    requires forall i | 0 <= i < |es| && es[i].DirEntry? == dirs :: es[i].name == es'[i].name
    ensures PlanHere(skip, at, es, dirs) == PlanHere(skip, at, es', dirs)
  {
    hide FileName, DirName;
    if es != [] {
      SamePlanHere(skip, at, es[1..], es'[1..], dirs);
    }
  }

  /** The condition, told through the listings that the two passes leave. */
  lemma ClashesOfPasses(skip: Path -> bool, at: Path, es: Listing)
    requires Distinct(Names(es))
    ensures var files := ConvertHere(skip, at, es, false);
            Distinct(Names(files)) && Distinct(Names(ConvertHere(skip, at, files, true))) <==>
            Distinct(NewNames(skip, at, es)) && FilesClearOfDirs(skip, at, es)
  {
    hide FileName, DirName, ConvertHere, Names, NewNames;
    var files := ConvertHere(skip, at, es, false);
    var all := ConvertHere(skip, at, files, true);
    forall i | 0 <= i < |es| ensures Names(all)[i] == NewNames(skip, at, es)[i] { }
    assert Names(all) == NewNames(skip, at, es);
    if Distinct(Names(files)) {
      forall i, j | 0 <= i < |es| && 0 <= j < |es| && es[i].FileEntry? && es[j].DirEntry?
        ensures NewName(skip, at, es[i]) != es[j].name
      {
        assert i < j ==> Names(files)[i] != Names(files)[j];
        assert j < i ==> Names(files)[j] != Names(files)[i];
      }
    }
    if Distinct(NewNames(skip, at, es)) && FilesClearOfDirs(skip, at, es) {
      forall i, j | 0 <= i < j < |es| ensures Names(files)[i] != Names(files)[j] {
        assert NewNames(skip, at, es)[i] != NewNames(skip, at, es)[j];
        assert Names(es)[i] != Names(es)[j];
      }
    }
  }

  /** The two passes over one directory. */
  lemma PassesRun(skip: Path -> bool, at: Path, es: Listing, subs: Listing)
    requires Distinct(Names(es)) && subs == ConvertSubs(skip, at, es)
    ensures ExecuteStrict(subs, PlanHere(skip, at, es, false) + PlanHere(skip, at, es, true)) ==
            if Distinct(NewNames(skip, at, es)) && FilesClearOfDirs(skip, at, es) then Some(Converted(skip, at, es)) else None
  {
    hide NewName, PassGoes;
    var files := ConvertHere(skip, at, subs, false);
    var a, b := PlanHere(skip, at, es, false), PlanHere(skip, at, es, true);
    SamePlanHere(skip, at, es, subs, false);
    SamePlanHere(skip, at, es, files, true);
    SameNames(es, subs);
    OnePass(skip, at, subs, false);
    if Distinct(Names(files)) { OnePass(skip, at, files, true); }
    StrictConcat(subs, a, b);
    ConvertedInPasses(skip, at, es);
    ClashesOfPasses(skip, at, subs);
    SubsSameClash(skip, at, es, subs);
  }

  lemma SameNames(es: Listing, es': Listing)
    requires |es| == |es'| && forall i | 0 <= i < |es| :: es[i].name == es'[i].name
    ensures Names(es) == Names(es')
  {
  }

  lemma SubsSameClash(skip: Path -> bool, at: Path, es: Listing, subs: Listing)
    requires subs == ConvertSubs(skip, at, es)
    ensures NewNames(skip, at, subs) == NewNames(skip, at, es)
    ensures FilesClearOfDirs(skip, at, subs) <==> FilesClearOfDirs(skip, at, es)
  {
    hide FileName, DirName, ConvertSubs;
    forall i | 0 <= i < |es| ensures NewName(skip, at, subs[i]) == NewName(skip, at, es[i]) { }
  }

  /** A pass goes through exactly when the names it leaves differ. */
  lemma OnePass(skip: Path -> bool, at: Path, es: Listing, dirs: bool)
    requires Distinct(Names(es))
    ensures ExecuteStrict(es, PlanHere(skip, at, es, dirs)) ==
            if Distinct(Names(ConvertHere(skip, at, es, dirs))) then Some(ConvertHere(skip, at, es, dirs)) else None
  {
    hide NewName, PassGoes, ConvertHere, PlanHere, ExecuteStrict;
    assert [] + es == es && [] + ConvertHere(skip, at, es, dirs) == ConvertHere(skip, at, es, dirs);
    PassRuns(skip, at, [], es, dirs);
    if Distinct(Names(ConvertHere(skip, at, es, dirs))) {
      PassWillGo(skip, at, es, 0, dirs);
      assert ConvertHere(skip, at, es, dirs)[..0] == [] && es[0..] == es;
    }
  }

  /** The renames below the directories of a listing convert these one after the other. */
  lemma {:induction false} SubsRun(skip: Path -> bool, at: Path, front: Listing, rest: Listing)
    requires Distinct(Names(front + rest)) && TidySubs(rest)
    ensures ExecuteStrict(front + rest, PlanSubs(skip, at, rest)) ==
            if NoClashSubs(skip, at, rest) then Some(front + ConvertSubs(skip, at, rest)) else None
    decreases rest, 0
  {
    hide Plan, PlanSubs, NoClash, NoClashSubs, Distinct, Names, IndexOf, Tidy, ConvertSubs, Converted, ExecuteStrict, TidySubs;
    if rest == [] {
      assert front + rest == front;
      NoSubs(skip, at, front);
    } else {
      var e, later, es := rest[0], rest[1..], front + rest;
      SubsHead(skip, at, rest);
      if e.FileEntry? {
        assert front + [e] + later == es;
        SubsRun(skip, at, front + [e], later);
        Shift(front, e, ConvertSubs(skip, at, later));
      } else {
        var inner := Plan(skip, at + [e.name], e.sub);
        PlanRuns(skip, at + [e.name], e.sub);
        assert es[|front|] == e;
        IndexFound(es, |front|);
        StrictInside(es, |front|, inner);
        StrictConcat(es, Inside(e.name, inner), PlanSubs(skip, at, later));
        if NoClash(skip, at + [e.name], e.sub) {
          var e' := DirEntry(e.name, Converted(skip, at + [e.name], e.sub));
          var next := es[|front| := e'];
          assert next == front + [e'] + later;
          SameNames(es, next);
          SubsRun(skip, at, front + [e'], later);
          Shift(front, e', ConvertSubs(skip, at, later));
        }
      }
    }
  }

  lemma NoSubs(skip: Path -> bool, at: Path, front: Listing)
    ensures ExecuteStrict(front, PlanSubs(skip, at, [])) == Some(front)
    ensures NoClashSubs(skip, at, []) && front + ConvertSubs(skip, at, []) == front
  {
  }

  lemma SubsHead(skip: Path -> bool, at: Path, rest: Listing)
    requires rest != [] && TidySubs(rest)
    ensures var e, later := rest[0], rest[1..];
            && TidySubs(later) && (e.DirEntry? ==> Tidy(e.sub))
            && PlanSubs(skip, at, rest) ==
               (if e.DirEntry? then Inside(e.name, Plan(skip, at + [e.name], e.sub)) + PlanSubs(skip, at, later) else PlanSubs(skip, at, later))
            && (NoClashSubs(skip, at, rest) <==>
                (e.DirEntry? ==> NoClash(skip, at + [e.name], e.sub)) && NoClashSubs(skip, at, later))
            && ConvertSubs(skip, at, rest) ==
               [if e.FileEntry? then e else DirEntry(e.name, Converted(skip, at + [e.name], e.sub))] + ConvertSubs(skip, at, later)
  {
    hide Plan, NoClash, Converted, Tidy, Inside;
  }

  /** Refusing to touch another entry, the plan converts the whole tree exactly when nothing clashes. */
  lemma {:induction false} PlanRuns(skip: Path -> bool, at: Path, es: Listing)
    requires Tidy(es)
    ensures ExecuteStrict(es, Plan(skip, at, es)) == if NoClash(skip, at, es) then Some(Converted(skip, at, es)) else None
    decreases es, 1
  {
    hide PlanSubs, PlanHere, ConvertSubs, Converted, NoClashSubs, TidySubs, Distinct, Names, FilesClearOfDirs, NewNames;
    assert [] + es == es && [] + ConvertSubs(skip, at, es) == ConvertSubs(skip, at, es);
    SubsRun(skip, at, [], es);
    var subs, here := PlanSubs(skip, at, es), PlanHere(skip, at, es, false) + PlanHere(skip, at, es, true);
    assert Plan(skip, at, es) == subs + here;
    StrictConcat(es, subs, here);
    PassesRun(skip, at, es, ConvertSubs(skip, at, es));
  }

  // ----- The main result

  lemma {:induction false} InsideReal(name: string, rs: seq<Rename>)
    requires RealRenames(rs)
    ensures RealRenames(Inside(name, rs))
  {
    if rs != [] {
      assert rs[0] in rs;
      InsideReal(name, rs[1..]);
    }
  }

  lemma {:induction false} SubsReal(skip: Path -> bool, at: Path, es: Listing)
    ensures RealRenames(PlanSubs(skip, at, es))
    decreases es, 0
  {
    hide NewName, Plan;
    if es != [] {
      if es[0].DirEntry? {
        PlanReal(skip, at + [es[0].name], es[0].sub);
        InsideReal(es[0].name, Plan(skip, at + [es[0].name], es[0].sub));
      }
      SubsReal(skip, at, es[1..]);
    }
  }

  lemma {:induction false} HereReal(skip: Path -> bool, at: Path, es: Listing, dirs: bool)
    ensures RealRenames(PlanHere(skip, at, es, dirs))
  {
    hide NewName;
    if es != [] { HereReal(skip, at, es[1..], dirs); }
  }

  lemma {:induction false} PlanReal(skip: Path -> bool, at: Path, es: Listing)
    ensures RealRenames(Plan(skip, at, es))
    decreases es, 1
  {
    hide PlanSubs, PlanHere;
    SubsReal(skip, at, es);
    HereReal(skip, at, es, false);
    HereReal(skip, at, es, true);
  }

  lemma {:induction false} ConvertedCount(skip: Path -> bool, at: Path, es: Listing)
    ensures Count(Converted(skip, at, es)) == Count(es)
    decreases es
  {
    hide NewName;
    if es != [] {
      if es[0].DirEntry? { ConvertedCount(skip, at + [es[0].name], es[0].sub); }
      ConvertedCount(skip, at, es[1..]);
    }
  }

  /**
   * Executing the rename list in order converts every name in the tree, with nothing lost and
   * nothing raised, if and only if in every directory the final names differ and no file is
   * renamed to the present name of a directory beside it.
   */
  lemma RenamesConvert(skip: Path -> bool, es: Listing)
    requires Tidy(es)
    ensures Execute(es, Plan(skip, [], es)) == Some(Converted(skip, [], es)) <==> NoClash(skip, [], es)
  {
    hide Plan, Converted, NoClash, Execute, Count;
    PlanRuns(skip, [], es);
    PlanReal(skip, [], es);
    StrictDecides(es, Plan(skip, [], es));
    ConvertedCount(skip, [], es);
  }

  /** The entry a path leads to. */
  function Locate(es: Listing, p: Path): Option<Entry>
    requires p != []
    decreases |p|
  {
    var i := IndexOf(es, p[0]);
    if i == |es| then None
    else if |p| == 1 then Some(es[i])
    else if es[i].FileEntry? then None
    else Locate(es[i].sub, p[1..])
  }

  /** A path with each component converted. */
  function ConvertPath(skip: Path -> bool, at: Path, es: Listing, p: Path): Path
    requires p != [] && Locate(es, p).Some?
    decreases |p|
  {
    var e := es[IndexOf(es, p[0])];
    [NewName(skip, at, e)] + (if |p| == 1 then [] else ConvertPath(skip, at + [e.name], e.sub, p[1..]))
  }

  /** Each component of a path gets the new name of the entry it names, and the path keeps its length. */
  lemma {:induction false} ConvertPathAt(skip: Path -> bool, at: Path, es: Listing, p: Path, i: nat)
    requires p != [] && Locate(es, p).Some? && i < |p|
    ensures Locate(es, p[..i + 1]).Some? && (i < |p| - 1 ==> Locate(es, p[..i + 1]).value.DirEntry?)
    ensures var e := Locate(es, p[..i + 1]).value;
            e.name == p[i] && |ConvertPath(skip, at, es, p)| == |p| && ConvertPath(skip, at, es, p)[i] == NewName(skip, at + p[..i], e)
    decreases |p|
  {
    hide NewName;
    var e := es[IndexOf(es, p[0])];
    if i > 0 {
      ConvertPathAt(skip, at + [e.name], e.sub, p[1..], i - 1);
      assert p[1..][..i] == p[..i + 1][1..];
      assert at + [e.name] + p[1..][..i - 1] == at + p[..i];
      assert p[..i + 1][0] == p[0];
    } else {
      if |p| > 1 { ConvertPathAt(skip, at + [e.name], e.sub, p[1..], 0); }
      assert p[..1] == [p[0]] && at + p[..0] == at;
    }
  }

  /**
   * What that name is: ignored entries keep theirs, directories get the kebab form, and files get it
   * for their stem, while a file name without capitals and every extension stay.
   */
  lemma NewNameMeans(skip: Path -> bool, at: Path, e: Entry) returns (stem: string, ext: string)
    ensures e.name == stem + ext && SplitsExt(stem, ext)
    ensures NewName(skip, at, e) ==
            if skip(at + [e.name]) then e.name
            else if e.DirEntry? then Kebab(e.name)
            else if HasUpper(e.name) then Kebab(stem) + ext else e.name
  {
    stem, ext := FileNameMeans(e.name);
    DirNameMeans(e.name);
  }

  /** In the converted tree every file and directory is found under its converted path. */
  lemma {:induction false} FoundWhereConverted(skip: Path -> bool, at: Path, es: Listing, p: Path)
    requires p != [] && Locate(es, p).Some? && NoClash(skip, at, es)
    ensures var e := Locate(es, p).value;
            match Locate(Converted(skip, at, es), ConvertPath(skip, at, es, p))
            case None => false
            case Some(FileEntry(_, id)) => e.FileEntry? && id == e.id
            case Some(DirEntry(_, _)) => e.DirEntry?
    decreases |p|
  {
    hide NewName;
    var i := IndexOf(es, p[0]);
    var e := es[i];
    var all := Converted(skip, at, es);
    ConvertedAt(skip, at, es, i);
    ConvertedNames(skip, at, es);
    IndexFound(all, i);
    if |p| > 1 {
      SubsAt(skip, at, es, i);
      FoundWhereConverted(skip, at + [e.name], e.sub, p[1..]);
      assert ConvertPath(skip, at, es, p)[1..] == ConvertPath(skip, at + [e.name], e.sub, p[1..]);
    }
  }

  lemma ConvertedNames(skip: Path -> bool, at: Path, es: Listing)
    ensures Names(Converted(skip, at, es)) == NewNames(skip, at, es)
  {
    hide NewName;
    forall i | 0 <= i < |es| ensures Names(Converted(skip, at, es))[i] == NewNames(skip, at, es)[i] {
      ConvertedAt(skip, at, es, i);
    }
  }

  lemma {:induction false} SubsAt(skip: Path -> bool, at: Path, es: Listing, i: nat)
    requires i < |es| && NoClashSubs(skip, at, es) && es[i].DirEntry?
    ensures NoClash(skip, at + [es[i].name], es[i].sub)
  {
    hide NoClash;
    if i > 0 { SubsAt(skip, at, es[1..], i - 1); }
  }

  /** find_rename_targets and the loop of main together. */
  method Refactor(disk: Disk, skip: Path -> bool) returns (done: bool)
    requires Tidy(disk.root)
    modifies disk
    ensures (done && disk.root == Converted(skip, [], old(disk.root))) <==> NoClash(skip, [], old(disk.root))
  {
    hide Plan, Converted, NoClash, Execute;
    RenamesConvert(skip, disk.root);
    var renames := FindRenameTargets(skip, [], disk.root);
    done := disk.PerformRenames(renames);
  }

  /**
   * Distinct final names alone are not enough: a file is renamed before the directory beside it,
   * and an extension keeps its capitals. Here the final names differ and the renames still fail.
   */
  lemma FileOntoDirectory(skip: Path -> bool, file: Entry, dir: Entry)
    requires file == FileEntry("A.T", 1) && dir == DirEntry("a.T", []) && !skip(["A.T"]) && !skip(["a.T"])
    ensures Distinct(NewNames(skip, [], [file, dir]))
    ensures Execute([file, dir], Plan(skip, [], [file, dir])) != Some(Converted(skip, [], [file, dir]))
  {
    hide Plan, Execute, Converted, FileName, DirName, NoClashSubs;
    var es := [file, dir];
    NamesOfExample();
    TidyPair(file, dir);
    assert [] + ["A.T"] == ["A.T"] && [] + ["a.T"] == ["a.T"];
    assert NewName(skip, [], es[0]) == "a.T" == es[1].name && NewName(skip, [], es[1]) == "a.-t";
    assert !FilesClearOfDirs(skip, [], es);
    RenamesConvert(skip, es);
  }

  lemma TidyPair(file: Entry, dir: Entry)
    requires file.FileEntry? && dir.DirEntry? && dir.sub == [] && file.name != dir.name
    ensures Tidy([file, dir])
  {
    assert [file, dir][1..] == [dir] && [dir][1..] == [];
    assert Tidy([]);
  }

  lemma NamesOfExample()
    ensures FileName("A.T") == "a.T" && DirName("a.T") == "a.-t"
  {
    hide Kebab;
    assert 'A' in "A.T" && 'T' in "a.T";
    LastDotIs("A.T", 1);
    assert "A.T"[..1] == "A" && "A.T"[1..] == ".T";
    assert Kebab("A") == "a" by { KebabOfLetter(); }
    KebabOfExample();
  }

  lemma KebabOfLetter()
    ensures Kebab("A") == "a"
  {
    assert 'A' in "A";
    assert HyphenTail("") == "" && Lower("") == "";
    assert Lower("A") == "a";
  }

  lemma KebabOfExample()
    ensures Kebab("a.T") == "a.-t"
  {
    assert HyphenTail(".T") == ".-T" by { assert HyphenTail("T") == "-T"; }
    assert Lower("a.-T") == "a.-t";
    assert 'a' in "a.T";
    assert "a.T"[1..] == ".T";
  }
}
