// Saving and loading a training state, in the layouts of the two scripts.
module Checkpoints {
  import opened Text
  import opened CleanPath
  import opened Training

  /** The part of a state that the checksum covers: not the epoch, not the seed. */
  datatype Covered = Covered(
    step: nat, cursor: nat, weights: seq<real>, bias: real, velocity: seq<real>, biasVelocity: real,
    lossHistory: seq<real>, datasetVersion: string)

  function CoveredOf(s: State): Covered
  {
    Covered(s.step, s.cursor, s.weights, s.bias, s.velocity, s.biasVelocity, s.lossHistory, s.datasetVersion)
  }

  /** The manifest a checkpoint carries. */
  datatype Note = Note(framework: string, job: string, step: nat, datasetVersion: string, datasetChecksum: string,
                       stateChecksum: string, lossMean: Option<real>, lossLast: real)

  /** A file, as the value its JSON text decodes to; Torn when a write was cut short. */
  datatype Doc = StateDoc(state: State, checksum: string) | NoteDoc(note: Note) | Bundle(note: Note, state: State, checksum: string)
               | Part(values: seq<real>, text: string) | Torn

  type Files = map<Path, Doc>

  /** The two scripts; the second lays its files out by framework. */
  datatype Kind = Realistic | MultiFramework(fw: string)

  /** What a script takes from its environment. `digest` stands for the checksum of the JSON text. */
  datatype Env = Env(root: Path, job: string, framework: string, version: string,
                     digest: Covered -> string, dataDigest: seq<Row> -> string, mean: seq<real> -> real, rate: real)

  // ----- Names

  function Zeros(n: nat): (z: string)
    ensures |z| == n && forall i | 0 <= i < n :: z[i] == '0'
  {
    if n == 0 then "" else "0" + Zeros(n - 1)
  }

  /** At least four digits. */
  function Pad(digits: string): string
  {
    Zeros(if |digits| < 4 then 4 - |digits| else 0) + digits
  }

  function NameOf(kind: Kind, step: nat): string
  {
    var digits := Pad(Decimal(step));
    match kind
    case Realistic => "checkpoint-" + digits
    case MultiFramework(fw) =>
      if fw == "deepspeed" then "global_step" + digits
      else if fw == "verl" then "global_step_" + digits
      else if fw == "lightning" then "epoch=0-step_" + digits + ".ckpt"
      else "checkpoint-" + digits
  }

  function Target(kind: Kind, env: Env, step: nat): Path
  {
    env.root + [NameOf(kind, step)]
  }

  predicate OneFile(kind: Kind)
  {
    kind == MultiFramework("lightning")
  }

  // ----- Saving

  function NoteFor(kind: Kind, env: Env, s: State, rows: seq<Row>): Note
    requires s.lossHistory != []
  {
    Note(env.framework, env.job, s.step, env.version, env.dataDigest(rows), env.digest(CoveredOf(s)),
         if kind.Realistic? then Some(env.mean(s.lossHistory)) else None, s.lossHistory[|s.lossHistory| - 1])
  }

  /** The framework's own files, which loading does not look at. */
  function SideWrites(fw: string, env: Env, target: Path, s: State): seq<(Path, Doc)>
  {
    if fw == "pytorch" then
      [(target + ["model_state.pt"], Part(s.weights + [s.bias], "")),
       (target + ["optimizer_state.pt"], Part(s.velocity + [s.biasVelocity], ""))]
    else if fw == "hf-trainer" then
      [(target + ["pytorch_model.bin"], Part(s.weights + [s.bias], "")),
       (target + ["optimizer.pt"], Part(s.velocity + [s.biasVelocity], "")),
       (target + ["scheduler.pt"], Part([env.rate, s.step as real], ""))]
    else if fw == "deepspeed" then
      [(target + ["mp_rank_00_model_states.pt"], Part(s.weights + [s.bias], "")),
       (target + ["zero_pp_rank_0_mp_rank_00_optim_states.pt"], Part(s.velocity, "")),
       (env.root + ["latest"], Part([], NameOf(MultiFramework(fw), s.step)))]
    else if fw == "verl" then
      [(target + ["actor", "model.pt"], Part(s.weights, "")),
       (target + ["critic", "model.pt"], Part([s.bias], "")),
       (target + ["optimizer.pt"], Part(s.velocity + [s.biasVelocity], ""))]
    else []
  }

  /** The writes of a save, in order. */
  function Writes(kind: Kind, env: Env, s: State, rows: seq<Row>): seq<(Path, Doc)>
    requires s.lossHistory != []
  {
    var target := Target(kind, env, s.step);
    var note := NoteFor(kind, env, s, rows);
    var state := StateDoc(s, env.digest(CoveredOf(s)));
    match kind
    case Realistic => [(target + ["trainer_state.json"], state), (target + ["manifest.json"], NoteDoc(note))]
    case MultiFramework(fw) =>
      if OneFile(kind) then [(target, Bundle(note, s, env.digest(CoveredOf(s))))]
      else [(target + ["manifest.json"], NoteDoc(note)), (target + ["trainer_state.json"], state)] + SideWrites(fw, env, target, s)
  }

  function Written(files: Files, ws: seq<(Path, Doc)>): Files
  {
    if ws == [] then files else Written(files, ws[..|ws| - 1])[ws[|ws| - 1].0 := ws[|ws| - 1].1]
  }

  /** What a save that was cut short can have left: some of the writes, the next one perhaps torn. */
  ghost predicate CutShort(files: Files, ws: seq<(Path, Doc)>, now: Files)
  {
    exists j :: CutAfter(files, ws, now, j)
  }

  ghost predicate CutAfter(files: Files, ws: seq<(Path, Doc)>, now: Files, j: nat)
  {
    j <= |ws| && (now == Written(files, ws[..j]) || (j < |ws| && now == Written(files, ws[..j])[ws[j].0 := Torn]))
  }

  /** A directory is made where a file is, or a file written where a directory is. */
  predicate Blocked(kind: Kind, files: Files, target: Path)
  {
    if OneFile(kind) then exists q | q in files :: target <= q && q != target
    else target in files
  }

  // ----- Loading

  datatype Loaded = Loaded(state: State, note: Note) | Missing | Broken | ChecksumMismatch | VersionMismatch

  function Checked(kind: Kind, env: Env, note: Note, state: State, checksum: string): Loaded
  {
    var expected := env.digest(CoveredOf(state));
    if expected != note.stateChecksum || expected != checksum then ChecksumMismatch
    else if (if kind.Realistic? then state.datasetVersion else note.datasetVersion) != env.version then VersionMismatch
    else Loaded(state, note)
  }

  function Load(kind: Kind, env: Env, files: Files, path: Path): Loaded
  {
    var stateAt, noteAt := path + ["trainer_state.json"], path + ["manifest.json"];
    if kind.MultiFramework? && path in files then
      (if files[path].Bundle? then Checked(kind, env, files[path].note, files[path].state, files[path].checksum) else Broken)
    else if stateAt !in files || noteAt !in files then Missing
    else if !files[stateAt].StateDoc? || !files[noteAt].NoteDoc? then Broken
    else Checked(kind, env, files[noteAt].note, files[stateAt].state, files[stateAt].checksum)
  }

  // ----- A file store

  class Store {
    var files: Files

    constructor ()
      ensures files == map[]
    {
      files := map[];
    }

    /** write_text; not done means the process died in it. */
    method WriteText(path: Path, doc: Doc) returns (done: bool)
      modifies this
      ensures done ==> files == old(files)[path := doc]
      ensures !done ==> files == old(files) || files == old(files)[path := Torn]
    {
      if * {
        files := files[path := doc];
        return true;
      } else if * {
        files := files[path := Torn];
      }
      return false;
    }

    /** save_checkpoint. */
    method Save(kind: Kind, env: Env, s: State, rows: seq<Row>) returns (done: bool)
      modifies this
      ensures done ==> s.lossHistory != [] && !Blocked(kind, old(files), Target(kind, env, s.step))
      ensures done ==> files == Written(old(files), Writes(kind, env, s, rows))
      ensures !done && s.lossHistory != [] ==> CutShort(old(files), Writes(kind, env, s, rows), files)
    {
      if Blocked(kind, files, Target(kind, env, s.step)) || (s.lossHistory == [] && kind.MultiFramework?) {
        if s.lossHistory != [] { NoWrites(files, Writes(kind, env, s, rows)); }
        return false;
      }
      if s.lossHistory == [] {
        var _ := WriteText(Target(kind, env, s.step) + ["trainer_state.json"], StateDoc(s, env.digest(CoveredOf(s))));
        return false;
      }
      var ws := Writes(kind, env, s, rows);
      ghost var files0 := files;
      NoWrites(files0, ws);
      var i := 0;
      while i < |ws|
        invariant 0 <= i <= |ws| && files == Written(files0, ws[..i])
      {
        done := WriteText(ws[i].0, ws[i].1);
        if !done {
          assert CutAfter(files0, ws, files, i);
          return;
        }
        assert ws[..i + 1][..i] == ws[..i];
        i := i + 1;
      }
      assert ws[..|ws|] == ws;
      return true;
    }
  }

  lemma NoWrites(files: Files, ws: seq<(Path, Doc)>)
    ensures Written(files, ws[..0]) == files && CutShort(files, ws, files)
  {
    assert CutAfter(files, ws, files, 0);
  }

  // ----- What is saved is what is loaded

  lemma {:induction false} WrittenAt(files: Files, ws: seq<(Path, Doc)>, q: Path)
    ensures (forall i | 0 <= i < |ws| :: ws[i].0 != q) ==>
              (q in Written(files, ws) <==> q in files) && (q in files ==> Written(files, ws)[q] == files[q])
  {
    if ws != [] { WrittenAt(files, ws[..|ws| - 1], q); }
  }

  /** A write that no later write goes over is what stands in the end. */
  lemma {:induction false} WrittenLast(files: Files, ws: seq<(Path, Doc)>, k: nat)
    requires k < |ws| && forall i | k < i < |ws| :: ws[i].0 != ws[k].0
    ensures ws[k].0 in Written(files, ws) && Written(files, ws)[ws[k].0] == ws[k].1
  {
    if k < |ws| - 1 { WrittenLast(files, ws[..|ws| - 1], k); }
  }

  /** The framework's own files are not the two files that loading reads. */
  lemma SideFilesAside(fw: string, env: Env, step: nat, s: State, i: nat)
    requires s.step == step
    ensures var target := Target(MultiFramework(fw), env, step); var side := SideWrites(fw, env, target, s);
            i < |side| ==> side[i].0 != target + ["manifest.json"] && side[i].0 != target + ["trainer_state.json"] &&
                           side[i].0 != target
  {
    hide NameOf, SideWrites;
    var target := Target(MultiFramework(fw), env, step);
    var side := SideWrites(fw, env, target, s);
    if i < |side| {
      SideFileNames(fw, env, target, s, i);
      LastNames(target, "manifest.json", "trainer_state.json");
      LastNames(env.root, "latest", NameOf(MultiFramework(fw), step));
      NotLatest(fw, step);
    }
  }

  /** They lie in the checkpoint under names of their own, or are the `latest` file beside it. */
  lemma SideFileNames(fw: string, env: Env, target: Path, s: State, i: nat)
    requires i < |SideWrites(fw, env, target, s)|
    ensures var q := SideWrites(fw, env, target, s)[i].0;
            q == env.root + ["latest"] ||
            (|q| > |target| && q[|target|] != "manifest.json" && q[|target|] != "trainer_state.json")
  {
    hide NameOf;
    assert "optimizer_state.pt"[0] != "trainer_state.json"[0];
  }

  lemma LastNames(target: Path, a: string, b: string)
    ensures (target + [a])[|target|] == a && (target + [b])[|target|] == b
  {
  }

  lemma NotLatest(fw: string, step: nat)
    ensures NameOf(MultiFramework(fw), step) != "latest"
  {
    assert NameOf(MultiFramework(fw), step)[0] != 'l';
  }

  /** A completed save of a trained state is loaded as exactly that state. */
  lemma SavedIsLoaded(kind: Kind, env: Env, files: Files, s: State, rows: seq<Row>)
    requires s.lossHistory != [] && !Blocked(kind, files, Target(kind, env, s.step))
    requires kind.Realistic? ==> s.datasetVersion == env.version
    ensures Load(kind, env, Written(files, Writes(kind, env, s, rows)), Target(kind, env, s.step)) ==
            Loaded(s, NoteFor(kind, env, s, rows))
  {
    var ws := Writes(kind, env, s, rows);
    var target := Target(kind, env, s.step);
    TwoFiles(kind, env, s, rows);
    WrittenLast(files, ws, 0);
    if !OneFile(kind) {
      WrittenLast(files, ws, 1);
      WrittenAt(files, ws, target);
    }
  }

  /** The first two writes of a directory layout are the two files, and nothing later goes over them. */
  lemma TwoFiles(kind: Kind, env: Env, s: State, rows: seq<Row>)
    requires s.lossHistory != []
    ensures var ws := Writes(kind, env, s, rows); var target := Target(kind, env, s.step);
            if OneFile(kind) then |ws| == 1 && ws[0].0 == target
            else |ws| >= 2 && ws[0].0 != ws[1].0 && {ws[0].0, ws[1].0} == {target + ["manifest.json"], target + ["trainer_state.json"]} &&
                 (forall i | 0 <= i < |ws| :: ws[i].0 != target) &&
                 forall i | 2 <= i < |ws| :: ws[i].0 != ws[0].0 && ws[i].0 != ws[1].0
  {
    var ws, target := Writes(kind, env, s, rows), Target(kind, env, s.step);
    LastNames(target, "manifest.json", "trainer_state.json");
    if kind.MultiFramework? && !OneFile(kind) {
      var side := SideWrites(kind.fw, env, target, s);
      forall i | 2 <= i < |ws| ensures ws[i].0 != ws[0].0 && ws[i].0 != ws[1].0 && ws[i].0 != target {
        assert ws[i] == side[i - 2];
        SideFilesAside(kind.fw, env, s.step, s, i - 2);
      }
    }
  }

  // ----- A save that was cut short

  /** Loading looks at three files only. */
  predicate Agree(a: Files, b: Files, q: Path)
  {
    (q in a <==> q in b) && (q in a ==> a[q] == b[q])
  }

  lemma LoadAgrees(kind: Kind, env: Env, a: Files, b: Files, path: Path)
    requires Agree(a, b, path) && Agree(a, b, path + ["trainer_state.json"]) && Agree(a, b, path + ["manifest.json"])
    ensures Load(kind, env, a, path) == Load(kind, env, b, path)
  {
  }

  /** After j of the writes the first of them stand, and the files of later ones are as before. */
  lemma CutFiles(files: Files, ws: seq<(Path, Doc)>, now: Files, j: nat, k: nat)
    requires CutAfter(files, ws, now, j) && k < |ws|
    requires forall i | 0 <= i < |ws| && i != k :: ws[i].0 != ws[k].0
    ensures j > k ==> ws[k].0 in now && now[ws[k].0] == ws[k].1
    ensures j == k ==> Agree(files, now, ws[k].0) || (ws[k].0 in now && now[ws[k].0].Torn?)
    ensures j < k ==> Agree(files, now, ws[k].0)
  {
    if j > k {
      WrittenLast(files, ws[..j], k);
    } else {
      WrittenAt(files, ws[..j], ws[k].0);
    }
  }

  lemma CutElsewhere(files: Files, ws: seq<(Path, Doc)>, now: Files, q: Path)
    requires CutShort(files, ws, now) && forall i | 0 <= i < |ws| :: ws[i].0 != q
    ensures Agree(files, now, q)
  {
    var j: nat :| CutAfter(files, ws, now, j);
    WrittenAt(files, ws[..j], q);
  }

  /**
   * The one mixture that can be loaded: the new manifest, which a directory layout of the second
   * script writes first, beside an old state that has the checksum of the new one.
   */
  predicate Mixture(kind: Kind, env: Env, files: Files, s: State, rows: seq<Row>, loaded: Loaded)
    requires s.lossHistory != []
  {
    var stateAt := Target(kind, env, s.step) + ["trainer_state.json"];
    && kind.MultiFramework? && !OneFile(kind)
    && stateAt in files && files[stateAt].StateDoc?
    && files[stateAt].checksum == env.digest(CoveredOf(files[stateAt].state)) == env.digest(CoveredOf(s))
    && loaded == Loaded(files[stateAt].state, NoteFor(kind, env, s, rows))
  }

  /**
   * What is loaded after a save that was cut short: as before, the new state, or that mixture. The
   * new state comes with its own manifest, or, in the first script, which writes the state first,
   * with an old manifest that has the same checksum.
   */
  lemma CutShortLoads(kind: Kind, env: Env, files: Files, s: State, rows: seq<Row>, now: Files)
    requires s.lossHistory != [] && !Blocked(kind, files, Target(kind, env, s.step))
    requires CutShort(files, Writes(kind, env, s, rows), now)
    ensures var target := Target(kind, env, s.step);
            match Load(kind, env, now, target)
            case Loaded(state, note) =>
              || Load(kind, env, now, target) == Load(kind, env, files, target)
              || (state == s && note == NoteFor(kind, env, s, rows))
              || (state == s && kind.Realistic? && note.stateChecksum == env.digest(CoveredOf(s)) &&
                  target + ["manifest.json"] in files && files[target + ["manifest.json"]] == NoteDoc(note))
              || Mixture(kind, env, files, s, rows, Load(kind, env, now, target))
            case _ => true
  {
    hide Target, SideWrites, NoteFor;
    var ws := Writes(kind, env, s, rows);
    var target := Target(kind, env, s.step);
    var j: nat :| CutAfter(files, ws, now, j);
    TwoFiles(kind, env, s, rows);
    NoteChecksum(kind, env, s, rows);
    CutFiles(files, ws, now, j, 0);
    if OneFile(kind) {
      if Agree(files, now, target) {
        LastNames(target, "manifest.json", "trainer_state.json");
        CutElsewhere(files, ws, now, target + ["manifest.json"]);
        CutElsewhere(files, ws, now, target + ["trainer_state.json"]);
        LoadAgrees(kind, env, files, now, target);
      }
    } else {
      CutElsewhere(files, ws, now, target);
      CutFiles(files, ws, now, j, 1);
      if Agree(files, now, ws[0].0) && Agree(files, now, ws[1].0) {
        LoadAgrees(kind, env, files, now, target);
      }
    }
  }

  lemma NoteChecksum(kind: Kind, env: Env, s: State, rows: seq<Row>)
    requires s.lossHistory != []
    ensures NoteFor(kind, env, s, rows).stateChecksum == env.digest(CoveredOf(s))
  {
  }

  /** What can be loaded is what could be loaded before, or agrees with the new state in all that is covered. */
  predicate OldOrNew(kind: Kind, env: Env, files: Files, s: State, now: Files)
  {
    var target := Target(kind, env, s.step);
    match Load(kind, env, now, target)
    case Loaded(state, note) => Load(kind, env, now, target) == Load(kind, env, files, target) || CoveredOf(state) == CoveredOf(s)
    case _ => true
  }

  /** An old state that differs from the new one in what is covered has its checksum all the same. */
  predicate Collides(kind: Kind, env: Env, files: Files, s: State, rows: seq<Row>)
    requires s.lossHistory != []
  {
    var stateAt := Target(kind, env, s.step) + ["trainer_state.json"];
    && stateAt in files && files[stateAt].StateDoc? && CoveredOf(files[stateAt].state) != CoveredOf(s)
    && var mixed := Loaded(files[stateAt].state, NoteFor(kind, env, s, rows));
       Mixture(kind, env, files, s, rows, mixed) && Load(kind, env, files, Target(kind, env, s.step)) != mixed
  }

  /**
   * Whatever the checksum function: wherever a save is cut short, what can be loaded is old or new
   * and never a mixture, if and only if the old state does not collide with the new one.
   */
  lemma CutShortSaveIsSafe(kind: Kind, env: Env, files: Files, s: State, rows: seq<Row>)
    requires s.lossHistory != [] && !Blocked(kind, files, Target(kind, env, s.step))
    ensures (forall now | CutShort(files, Writes(kind, env, s, rows), now) :: OldOrNew(kind, env, files, s, now)) <==>
            !Collides(kind, env, files, s, rows)
  {
    hide Writes, Load, Target, NoteFor, CutShort, Mixture;
    forall now | CutShort(files, Writes(kind, env, s, rows), now) && !Collides(kind, env, files, s, rows)
      ensures OldOrNew(kind, env, files, s, now)
    {
      CutShortLoads(kind, env, files, s, rows, now);
      if Mixture(kind, env, files, s, rows, Load(kind, env, now, Target(kind, env, s.step))) {
        MixtureCollides(kind, env, files, s, rows, now);
      }
    }
    if Collides(kind, env, files, s, rows) {
      var now := CutBetween(kind, env, files, s, rows);
    }
  }

  lemma MixtureCollides(kind: Kind, env: Env, files: Files, s: State, rows: seq<Row>, now: Files)
    requires s.lossHistory != [] && Mixture(kind, env, files, s, rows, Load(kind, env, now, Target(kind, env, s.step)))
    ensures OldOrNew(kind, env, files, s, now) || Collides(kind, env, files, s, rows)
  {
    hide Load, Target, NoteFor;
  }

  /** The cut that shows it: after the manifest and before the state. */
  lemma CutBetween(kind: Kind, env: Env, files: Files, s: State, rows: seq<Row>) returns (now: Files)
    requires s.lossHistory != [] && !Blocked(kind, files, Target(kind, env, s.step)) && Collides(kind, env, files, s, rows)
    ensures CutShort(files, Writes(kind, env, s, rows), now) && !OldOrNew(kind, env, files, s, now)
  {
    hide Target, SideWrites, NoteFor;
    var target := Target(kind, env, s.step);
    var ws := Writes(kind, env, s, rows);
    LastNames(target, "manifest.json", "trainer_state.json");
    NoteChecksum(kind, env, s, rows);
    NoteVersion(kind, env, s, rows);
    now := files[target + ["manifest.json"] := NoteDoc(NoteFor(kind, env, s, rows))];
    assert ws[..1] == [ws[0]] && Written(files, [ws[0]]) == now by { assert [ws[0]][..0] == []; }
    assert CutAfter(files, ws, now, 1);
  }

  lemma NoteVersion(kind: Kind, env: Env, s: State, rows: seq<Row>)
    requires s.lossHistory != []
    ensures NoteFor(kind, env, s, rows).datasetVersion == env.version
  {
  }

  // ----- Checkpoints of different steps do not meet

  lemma {:induction false} DecimalHead(n: nat)
    ensures n > 0 ==> Decimal(n)[0] != '0'
  {
    if n >= 10 { DecimalHead(n / 10); }
  }

  lemma PadInjective(a: nat, b: nat)
    requires Pad(Decimal(a)) == Pad(Decimal(b))
    ensures a == b
  {
    var x, y := Decimal(a), Decimal(b);
    var p, q := Pad(x), Pad(y);
    assert p[|p| - |x|..] == x && q[|q| - |y|..] == y;
    DecimalHead(a);
    DecimalHead(b);
    DecimalInjective(a, b);
  }

  lemma NamesDiffer(kind: Kind, a: nat, b: nat)
    requires NameOf(kind, a) == NameOf(kind, b)
    ensures a == b
  {
    hide Pad;
    var x, y := Pad(Decimal(a)), Pad(Decimal(b));
    var head := match kind
      case Realistic => "checkpoint-"
      case MultiFramework(fw) =>
        if fw == "deepspeed" then "global_step" else if fw == "verl" then "global_step_"
        else if fw == "lightning" then "epoch=0-step_" else "checkpoint-";
    var tail := if OneFile(kind) then ".ckpt" else "";
    assert NameOf(kind, a) == head + x + tail && NameOf(kind, b) == head + y + tail;
    assert (head + x + tail)[|head|..|head + x + tail| - |tail|] == x;
    assert (head + y + tail)[|head|..|head + y + tail| - |tail|] == y;
    PadInjective(a, b);
  }

  /** Every write of a save goes below its own checkpoint, or to the `latest` file. */
  lemma WriteBelongs(kind: Kind, env: Env, s: State, rows: seq<Row>, i: nat)
    requires s.lossHistory != [] && i < |Writes(kind, env, s, rows)|
    ensures var q := Writes(kind, env, s, rows)[i].0;
            |q| > |env.root| && (q[|env.root|] == NameOf(kind, s.step) || (q == env.root + ["latest"] && kind.MultiFramework?))
  {
    hide NameOf;
    var target := Target(kind, env, s.step);
    assert target[|env.root|] == NameOf(kind, s.step);
    var ws := Writes(kind, env, s, rows);
    if kind.MultiFramework? && !OneFile(kind) && i >= 2 {
      assert ws[i] == SideWrites(kind.fw, env, target, s)[i - 2];
    }
  }

  /**
   * Saving at one step, completely or not, leaves the checkpoints of all other steps as they were:
   * every earlier checkpoint can still be loaded.
   */
  lemma OtherCheckpointsStay(kind: Kind, env: Env, files: Files, s: State, rows: seq<Row>, now: Files, other: nat)
    requires s.lossHistory != [] && other != s.step
    requires CutShort(files, Writes(kind, env, s, rows), now)
    ensures Load(kind, env, now, Target(kind, env, other)) == Load(kind, env, files, Target(kind, env, other))
  {
    hide NameOf, Writes, CutShort;
    var ws := Writes(kind, env, s, rows);
    var target := Target(kind, env, other);
    if NameOf(kind, s.step) == NameOf(kind, other) { NamesDiffer(kind, s.step, other); }
    if kind.MultiFramework? { NotLatest(kind.fw, other); }
    forall q | q == target || q == target + ["manifest.json"] || q == target + ["trainer_state.json"] ensures Agree(files, now, q) {
      assert q[|env.root|] == NameOf(kind, other);
      forall i | 0 <= i < |ws| ensures ws[i].0 != q {
        WriteBelongs(kind, env, s, rows, i);
      }
      CutElsewhere(files, ws, now, q);
    }
    LoadAgrees(kind, env, files, now, target);
  }

  // ----- Resuming

  /** Two states that differ at most in what the checksum does not cover. */
  predicate SameCovered(a: State, b: State)
  {
    CoveredOf(a) == CoveredOf(b)
  }

  lemma SameCoveredStep(c: Script, a: State, b: State, rows: seq<Row>)
    requires Shaped(a) && Shaped(b) && rows != [] && SameCovered(a, b)
    ensures SameCovered(Next(c, a, rows), Next(c, b, rows))
    ensures c.keepsEpoch ==> Next(c, a, rows).epoch == Next(c, b, rows).epoch
  {
    hide Pushed, Moved, Loss, Slope;
    var row := RowOf(a, rows);
    assert Miss(a, row) == Miss(b, row);
  }

  /**
   * A loaded state whose checksum is that of a saved one trains on exactly as the saved one would:
   * the epoch, which the checksum leaves out, is put right by the first step.
   */
  lemma {:induction false} UncoveredFieldsHeal(c: Script, a: State, b: State, rows: seq<Row>, n: nat)
    requires Shaped(a) && Shaped(b) && rows != [] && SameCovered(a, b)
    ensures SameCovered(After(c, a, rows, n), After(c, b, rows, n))
    ensures c.keepsEpoch && n > 0 ==> After(c, a, rows, n).epoch == After(c, b, rows, n).epoch
  {
    hide Next, CoveredOf;
    if n > 0 {
      UncoveredFieldsHeal(c, a, b, rows, n - 1);
      SameCoveredStep(c, After(c, a, rows, n - 1), After(c, b, rows, n - 1), rows);
    }
  }

  /** A saved checkpoint whose state has been replaced afterwards, checksum included. */
  function Tampered(kind: Kind, env: Env, files: Files, s: State, rows: seq<Row>, state: State, checksum: string): Files
    requires s.lossHistory != []
  {
    var saved, target := Written(files, Writes(kind, env, s, rows)), Target(kind, env, s.step);
    if OneFile(kind) then saved[target := Bundle(NoteFor(kind, env, s, rows), state, checksum)]
    else saved[target + ["trainer_state.json"] := StateDoc(state, checksum)]
  }

  /**
   * Whatever the checksum function: a replaced state is loaded if and only if it has the checksum of
   * the saved one and carries it too (and, where the script looks, is of the present version), and is
   * refused otherwise. In particular every state is loaded that agrees in all the checksum covers.
   */
  lemma LoadedExactlyIfCovered(kind: Kind, env: Env, files: Files, s: State, rows: seq<Row>, state: State, checksum: string)
    requires s.lossHistory != [] && !Blocked(kind, files, Target(kind, env, s.step))
    requires kind.Realistic? ==> s.datasetVersion == env.version
    ensures var loaded := Load(kind, env, Tampered(kind, env, files, s, rows, state, checksum), Target(kind, env, s.step));
            var saved := env.digest(CoveredOf(s));
            && (loaded.Loaded? <==> env.digest(CoveredOf(state)) == checksum == saved && (kind.Realistic? ==> state.datasetVersion == env.version))
            && (loaded.Loaded? ==> loaded == Loaded(state, NoteFor(kind, env, s, rows)))
            && (env.digest(CoveredOf(state)) != saved || checksum != saved ==> loaded == ChecksumMismatch)
            && (CoveredOf(state) == CoveredOf(s) && checksum == saved ==> loaded == Loaded(state, NoteFor(kind, env, s, rows)))
  {
    hide Writes, NoteFor, Pad;
    var ws, target := Writes(kind, env, s, rows), Target(kind, env, s.step);
    var saved := Written(files, ws);
    SavedIsLoaded(kind, env, files, s, rows);
    NoteOnDisk(kind, env, files, s, rows);
    LastNames(target, "manifest.json", "trainer_state.json");
  }

  /** Where loading finds the manifest of a completed save. */
  lemma NoteOnDisk(kind: Kind, env: Env, files: Files, s: State, rows: seq<Row>)
    requires s.lossHistory != [] && !Blocked(kind, files, Target(kind, env, s.step))
    ensures var saved, target := Written(files, Writes(kind, env, s, rows)), Target(kind, env, s.step);
            && NoteFor(kind, env, s, rows).stateChecksum == env.digest(CoveredOf(s))
            && (kind.MultiFramework? ==> NoteFor(kind, env, s, rows).datasetVersion == env.version)
            && (!OneFile(kind) ==>
                  target + ["manifest.json"] in saved && saved[target + ["manifest.json"]] == NoteDoc(NoteFor(kind, env, s, rows)) &&
                  (kind.MultiFramework? ==> target !in saved))
  {
    var ws, target := Writes(kind, env, s, rows), Target(kind, env, s.step);
    TwoFiles(kind, env, s, rows);
    if !OneFile(kind) {
      WrittenLast(files, ws, 0);
      WrittenLast(files, ws, 1);
      WrittenAt(files, ws, target);
    }
  }

  /**
   * The checksum leaves out the epoch and the seed, so in every layout a checkpoint with another
   * epoch or seed is loaded without complaint.
   */
  lemma EpochIsNotChecked(kind: Kind, env: Env, files: Files, s: State, rows: seq<Row>, epoch: nat, seed: int)
    requires s.lossHistory != [] && !Blocked(kind, files, Target(kind, env, s.step))
    requires kind.Realistic? ==> s.datasetVersion == env.version
    ensures var state := s.(epoch := epoch, rngSeed := seed);
            Load(kind, env, Tampered(kind, env, files, s, rows, state, env.digest(CoveredOf(s))), Target(kind, env, s.step)) ==
            Loaded(state, NoteFor(kind, env, s, rows))
  {
    LoadedExactlyIfCovered(kind, env, files, s, rows, s.(epoch := epoch, rngSeed := seed), env.digest(CoveredOf(s)));
  }

  /**
   * Training to step k, saving, loading in a new process and training to step n gives the state
   * that training straight to n gives, in every layout.
   */
  lemma ResumeIsStraight(c: Script, kind: Kind, env: Env, files: Files, s: State, rows: seq<Row>, k: nat, n: nat)
    requires Shaped(s) && rows != [] && s.step <= k <= n && TrainedTo(c, s, rows, k).lossHistory != []
    requires !Blocked(kind, files, Target(kind, env, k)) && (kind.Realistic? ==> s.datasetVersion == env.version)
    ensures var saved := TrainedTo(c, s, rows, k);
            var loaded := Load(kind, env, Written(files, Writes(kind, env, saved, rows)), Target(kind, env, k));
            loaded.Loaded? && loaded.state == saved && TrainedTo(c, loaded.state, rows, n) == TrainedTo(c, s, rows, n)
  {
    hide Next, Writes, Load, Target, Blocked;
    var saved := TrainedTo(c, s, rows, k);
    StepsCount(c, s, rows, k - s.step);
    VersionStays(c, s, rows, k - s.step);
    SavedIsLoaded(kind, env, files, saved, rows);
    StopAndGoOn(c, s, rows, k, n);
  }

  /**
   * Nothing that holds of one long run is disturbed by the restore: the two processes together take
   * the rows in the order one process would, and momentum still conserves its quantity.
   */
  lemma RestoreIsSeamless(c: Script, kind: Kind, env: Env, files: Files, s: State, rows: seq<Row>, k: nat, n: nat, i: nat)
    requires Shaped(s) && rows != [] && s.step <= k <= n && TrainedTo(c, s, rows, k).lossHistory != [] && i <= 2
    requires !Blocked(kind, files, Target(kind, env, k)) && (kind.Realistic? ==> s.datasetVersion == env.version)
    ensures var saved := TrainedTo(c, s, rows, k);
            var loaded := Load(kind, env, Written(files, Writes(kind, env, saved, rows)), Target(kind, env, k));
            && loaded.Loaded? && Shaped(loaded.state)
            && Used(c, s, rows, k - s.step) + Used(c, loaded.state, rows, n - k) == Used(c, s, rows, n - s.step)
            && Balance(c, TrainedTo(c, loaded.state, rows, n), i) + c.learningRate * GradientSum(c, s, rows, i, n - s.step) ==
               Balance(c, s, i)
  {
    hide Next, Writes, Load, Target, Blocked, Used, Balance, GradientSum;
    ResumeIsStraight(c, kind, env, files, s, rows, k, n);
    UsedSplits(c, s, rows, k - s.step, n - k);
    MomentumConserves(c, s, rows, i, n - s.step);
  }

  lemma {:induction false} VersionStays(c: Script, s: State, rows: seq<Row>, n: nat)
    requires Shaped(s) && rows != []
    ensures After(c, s, rows, n).datasetVersion == s.datasetVersion
  {
    if n > 0 { VersionStays(c, s, rows, n - 1); }
  }

  /** The two processes of a script: one trains to k and saves, the next loads and trains to n. */
  method TrainSaveLoadTrain(store: Store, script: Script, kind: Kind, env: Env, first: State, rows: seq<Row>, k: nat, n: nat)
    returns (end: Option<State>, ghost before: State)
    requires Shaped(first) && rows != [] && first.step < k < n && (kind.Realistic? ==> first.datasetVersion == env.version)
    modifies store
    ensures end.Some? ==> end.value == TrainedTo(script, first, rows, n)
    ensures end.Some? ==> before == TrainedTo(script, first, rows, k) && before.lossHistory <= end.value.lossHistory
    ensures end.None? ==> before.lossHistory != [] && CutShort(old(store.files), Writes(kind, env, before, rows), store.files)
  {
    hide Next, Writes, Load, Target, Blocked, CutShort, Written;
    var source := new Trainer(script, first);
    source.TrainTo(k, rows);
    before := source.Snapshot();
    StepsCount(script, first, rows, k - first.step);
    LossHistoryGrows(script, first, rows, k - first.step);
    ghost var files := store.files;
    var done := store.Save(kind, env, source.Snapshot(), rows);
    if !done {
      return None, before;
    }
    ResumeIsStraight(script, kind, env, files, first, rows, k, n);
    var loaded := Load(kind, env, store.files, Target(kind, env, k));
    var resumed := new Trainer(script, loaded.state);
    resumed.TrainTo(n, rows);
    LossHistoryGrows(script, before, rows, n - k);
    return Some(resumed.Snapshot()), before;
  }

  // ----- What a save leaves for other readers

  /** The checksum covers everything but the epoch and the seed. */
  lemma CoveredExactly(a: State, b: State)
    ensures CoveredOf(a) == CoveredOf(b) <==> a.(epoch := b.epoch, rngSeed := b.rngSeed) == b
  {
  }

  /**
   * Loading under another data set version is refused: the first script compares with the version of
   * the state, the second with the one its manifest was written under.
   */
  lemma VersionIsChecked(kind: Kind, env: Env, files: Files, s: State, rows: seq<Row>, version: string)
    requires s.lossHistory != [] && !Blocked(kind, files, Target(kind, env, s.step))
    ensures Load(kind, env.(version := version), Written(files, Writes(kind, env, s, rows)), Target(kind, env, s.step)) ==
            if (if kind.Realistic? then s.datasetVersion else env.version) == version then Loaded(s, NoteFor(kind, env, s, rows))
            else VersionMismatch
  {
    hide Pad;
    var ws := Writes(kind, env, s, rows);
    var target := Target(kind, env, s.step);
    TwoFiles(kind, env, s, rows);
    WrittenLast(files, ws, 0);
    if !OneFile(kind) {
      WrittenLast(files, ws, 1);
      WrittenAt(files, ws, target);
    }
  }

  /** A checkpoint's name carries its step in decimal, with zeros in front up to four digits. */
  lemma NameTells(kind: Kind, step: nat) returns (digits: string)
    ensures ValueOf(digits) == step && |digits| >= 4 && (|digits| > 4 ==> digits[0] != '0')
    ensures forall c | c in digits :: '0' <= c <= '9'
    ensures NameOf(kind, step) ==
            match kind
            case Realistic => "checkpoint-" + digits
            case MultiFramework(fw) =>
              if fw == "deepspeed" then "global_step" + digits
              else if fw == "verl" then "global_step_" + digits
              else if fw == "lightning" then "epoch=0-step_" + digits + ".ckpt"
              else "checkpoint-" + digits
  {
    var d := Decimal(step);
    digits := Pad(d);
    DecimalValue(step);
    if |d| < 4 {
      ZerosValue(4 - |d|, d);
    } else {
      assert digits == d;
    }
  }

  lemma {:induction false} ZerosValue(n: nat, s: string)
    ensures ValueOf(Zeros(n) + s) == ValueOf(s)
  {
    if s == "" {
      assert Zeros(n) + s == Zeros(n);
      OnlyZeros(Zeros(n));
    } else {
      var front := s[..|s| - 1];
      assert (Zeros(n) + s)[..|Zeros(n) + s| - 1] == Zeros(n) + front;
      ZerosValue(n, front);
    }
  }

  lemma {:induction false} OnlyZeros(z: string)
    requires forall i | 0 <= i < |z| :: z[i] == '0'
    ensures ValueOf(z) == 0
  {
    if z != "" { OnlyZeros(z[..|z| - 1]); }
  }

  /** The manifest of a checkpoint saved right after a step gives that step's number and its loss. */
  lemma NoteTells(script: Script, kind: Kind, env: Env, s: State, rows: seq<Row>)
    requires Shaped(s) && rows != []
    ensures var after := Next(script, s, rows); var note := NoteFor(kind, env, after, rows);
            && note.step == s.step + 1 && note.lossLast == script.rounded(SquaredError(s, rows[s.cursor % |rows|]))
            && note.framework == env.framework && note.job == env.job && note.datasetVersion == env.version
            && note.datasetChecksum == env.dataDigest(rows) && note.stateChecksum == env.digest(CoveredOf(after))
            && note.lossMean == if kind.Realistic? then Some(env.mean(after.lossHistory)) else None
  {
    LossIsSquaredError(script, s, rows);
  }

  /** Where a framework would look for its model, and for its optimiser. */
  function ModelFiles(fw: string): seq<Path>
  {
    if fw == "pytorch" then [["model_state.pt"]]
    else if fw == "hf-trainer" then [["pytorch_model.bin"]]
    else if fw == "deepspeed" then [["mp_rank_00_model_states.pt"]]
    else if fw == "verl" then [["actor", "model.pt"], ["critic", "model.pt"]]
    else []
  }

  function OptimizerFiles(fw: string): seq<Path>
  {
    if fw == "pytorch" then [["optimizer_state.pt"]]
    else if fw == "hf-trainer" || fw == "verl" then [["optimizer.pt"]]
    else if fw == "deepspeed" then [["zero_pp_rank_0_mp_rank_00_optim_states.pt"]]
    else []
  }

  /** The numbers found in some files of a checkpoint, one file after the other. */
  function NumbersIn(files: Files, target: Path, names: seq<Path>): Option<seq<real>>
  {
    if names == [] then Some([])
    else
      var p, more := target + names[0], NumbersIn(files, target, names[1..]);
      if p in files && files[p].Part? && more.Some? then Some(files[p].values + more.value) else None
  }

  predicate HasOwnFiles(fw: string)
  {
    fw == "pytorch" || fw == "hf-trainer" || fw == "deepspeed" || fw == "verl"
  }

  /**
   * After a completed save a framework finds the weights and the bias in its model files and the
   * velocities in its optimiser file. The bias's velocity is not in the one for DeepSpeed, which is
   * restored from the trainer state alone; its `latest` file names the checkpoint.
   */
  lemma OwnFilesTell(fw: string, env: Env, files: Files, s: State, rows: seq<Row>)
    requires s.lossHistory != [] && HasOwnFiles(fw)
    ensures var kind := MultiFramework(fw); var target := Target(kind, env, s.step);
            var saved := Written(files, Writes(kind, env, s, rows));
            && NumbersIn(saved, target, ModelFiles(fw)) == Some(s.weights + [s.bias])
            && NumbersIn(saved, target, OptimizerFiles(fw)) == Some(s.velocity + if fw == "deepspeed" then [] else [s.biasVelocity])
            && (fw == "hf-trainer" ==> NumbersIn(saved, target, [["scheduler.pt"]]) == Some([env.rate, s.step as real]))
            && (fw == "deepspeed" ==> env.root + ["latest"] in saved && saved[env.root + ["latest"]] == Part([], NameOf(kind, s.step)))
  {
    hide NameOf, NoteFor, Written;
    var kind := MultiFramework(fw);
    var target := Target(kind, env, s.step);
    var ws := Writes(kind, env, s, rows);
    OwnFilesDiffer(fw, env, s, rows);
    forall i | 2 <= i < |ws| ensures ws[i].0 in Written(files, ws) && Written(files, ws)[ws[i].0] == ws[i].1 {
      WrittenLast(files, ws, i);
    }
    var saved := Written(files, ws);
    var bias := if fw == "deepspeed" then [] else [s.biasVelocity];
    if fw == "verl" {
      var actor, critic := ["actor", "model.pt"], ["critic", "model.pt"];
      assert ws[2] == (target + actor, Part(s.weights, "")) && ws[3] == (target + critic, Part([s.bias], ""));
      assert ws[4] == (target + ["optimizer.pt"], Part(s.velocity + bias, ""));
      OneFileIn(saved, target, critic, [s.bias]);
      assert [actor, critic][1..] == [critic];
      OneFileIn(saved, target, ["optimizer.pt"], s.velocity + bias);
    } else {
      var model, optimizer := ModelFiles(fw)[0], OptimizerFiles(fw)[0];
      assert s.velocity + [] == s.velocity;
      assert ws[2] == (target + model, Part(s.weights + [s.bias], "")) && ws[3] == (target + optimizer, Part(s.velocity + bias, ""));
      OneFileIn(saved, target, model, s.weights + [s.bias]);
      OneFileIn(saved, target, optimizer, s.velocity + bias);
      if fw == "hf-trainer" {
        assert ws[4] == (target + ["scheduler.pt"], Part([env.rate, s.step as real], ""));
        OneFileIn(saved, target, ["scheduler.pt"], [env.rate, s.step as real]);
      }
      if fw == "deepspeed" { assert ws[4] == (env.root + ["latest"], Part([], NameOf(kind, s.step))); }
    }
  }

  lemma OneFileIn(files: Files, target: Path, name: Path, values: seq<real>)
    requires target + name in files && files[target + name] == Part(values, "")
    ensures NumbersIn(files, target, [name]) == Some(values)
  {
    assert [name][1..] == [] && values + [] == values;
  }

  lemma OwnFilesDiffer(fw: string, env: Env, s: State, rows: seq<Row>)
    requires s.lossHistory != []
    ensures var ws := Writes(MultiFramework(fw), env, s, rows);
            forall i, j | 2 <= i < j < |ws| :: ws[i].0 != ws[j].0
  {
    hide NameOf, NoteFor;
    var target := Target(MultiFramework(fw), env, s.step);
    var ws := Writes(MultiFramework(fw), env, s, rows);
    forall i, j | 2 <= i < j < |ws| ensures ws[i].0 != ws[j].0 {
      var side := SideWrites(fw, env, target, s);
      assert ws[i] == side[i - 2] && ws[j] == side[j - 2];
      SideFilesDiffer(fw, env, target, s, i - 2, j - 2);
    }
  }

  lemma SideFilesDiffer(fw: string, env: Env, target: Path, s: State, i: nat, j: nat)
    requires |target| == |env.root| + 1 && i < j < |SideWrites(fw, env, target, s)|
    ensures SideWrites(fw, env, target, s)[i].0 != SideWrites(fw, env, target, s)[j].0
  {
    hide NameOf;
    var side := SideWrites(fw, env, target, s);
    var p, q := side[i].0, side[j].0;
    assert "optimizer.pt"[0] != "scheduler.pt"[0];
    if j == 2 && fw == "deepspeed" {
      assert |q| == |target|;
    } else {
      assert p[|target|] != q[|target|];
    }
  }
}
