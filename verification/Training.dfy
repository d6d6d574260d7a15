// Momentum SGD over a cyclic data set, as the two restore scripts run it. Weights are exact reals.
module Training {

  datatype Row = Row(x1: real, x2: real, y: real)

  /** The constants of a script. Only one of the two keeps an epoch; `rounded` is the rounding of a loss. */
  datatype Script = Script(learningRate: real, momentum: real, keepsEpoch: bool, rounded: real -> real)

  datatype State = State(
    step: nat, epoch: nat, cursor: nat, weights: seq<real>, bias: real, velocity: seq<real>, biasVelocity: real,
    lossHistory: seq<real>, datasetVersion: string, rngSeed: int)

  predicate Shaped(s: State)
  {
    |s.weights| == 2 && |s.velocity| == 2
  }

  function RowOf(s: State, rows: seq<Row>): Row
    requires rows != []
  {
    rows[s.cursor % |rows|]
  }

  function Miss(s: State, row: Row): real
    requires Shaped(s)
  {
    s.weights[0] * row.x1 + s.weights[1] * row.x2 + s.bias - row.y
  }

  function Slope(err: real, x: real): real
  {
    2.0 * err * x
  }

  /** The gradient of the squared error by weight i, or by the bias for i = 2. */
  function Gradient(s: State, row: Row, i: nat): real
    requires Shaped(s) && i <= 2
  {
    if i == 0 then Slope(Miss(s, row), row.x1)
    else if i == 1 then Slope(Miss(s, row), row.x2)
    else 2.0 * Miss(s, row)
  }

  /** What the weights and the bias make of a row. */
  function Prediction(s: State, row: Row): real
    requires Shaped(s)
  {
    s.weights[0] * row.x1 + s.weights[1] * row.x2 + s.bias
  }

  /** The state with weight i, or the bias for i = 2, moved by h, and what it is multiplied with. */
  function Nudged(s: State, i: nat, h: real): (r: State)
    requires Shaped(s) && i <= 2
    ensures Shaped(r)
  {
    if i < 2 then s.(weights := s.weights[i := s.weights[i] + h]) else s.(bias := s.bias + h)
  }

  function Input(row: Row, i: nat): real
  {
    if i == 0 then row.x1 else if i == 1 then row.x2 else 1.0
  }

  function SquaredError(s: State, row: Row): real
    requires Shaped(s)
  {
    (Prediction(s, row) - row.y) * (Prediction(s, row) - row.y)
  }

  /**
   * The gradient is the derivative of the squared error of the prediction: moving a weight or the bias
   * by h changes the squared error by h times the gradient and a term in the square of h.
   */
  lemma GradientIsDerivative(s: State, row: Row, i: nat, h: real)
    requires Shaped(s) && i <= 2
    ensures SquaredError(Nudged(s, i, h), row) ==
            SquaredError(s, row) + h * Gradient(s, row, i) + (h * Input(row, i)) * (h * Input(row, i))
  {
    var e, d := Miss(s, row), h * Input(row, i);
    var moved := Nudged(s, i, h);
    assert Prediction(moved, row) == Prediction(s, row) + d by {
      if i < 2 { Distribute(s.weights[i], h, Input(row, i)); }
    }
    assert e == Prediction(s, row) - row.y;
    assert (e + d) * (e + d) == e * e + 2.0 * (e * d) + d * d;
    TwiceProduct(h, e, Input(row, i));
  }

  lemma Distribute(w: real, h: real, x: real)
    ensures (w + h) * x == w * x + h * x
  {
  }

  lemma TwiceProduct(h: real, e: real, x: real)
    ensures h * (2.0 * e * x) == 2.0 * (e * (h * x)) && h * (2.0 * e) == 2.0 * (e * h)
  {
    assert h * (2.0 * e * x) == 2.0 * (h * (e * x));
    assert h * (e * x) == e * (h * x);
  }

  /** The loss that a step notes is the rounded squared error of the prediction before the step. */
  lemma LossIsSquaredError(c: Script, s: State, rows: seq<Row>)
    requires Shaped(s) && rows != []
    ensures Next(c, s, rows).lossHistory == s.lossHistory + [c.rounded(SquaredError(s, rows[s.cursor % |rows|]))]
  {
    var row := RowOf(s, rows);
    assert Miss(s, row) == Prediction(s, row) - row.y;
    LossOf(c, Miss(s, row), SquaredError(s, row));
  }

  lemma LossOf(c: Script, err: real, square: real)
    requires square == err * err
    ensures Loss(c, err) == c.rounded(square)
  {
  }

  /**
   * A step from rest multiplies the error on its own row by 1 - 2 * rate * (x1^2 + x2^2 + 1): it goes
   * downhill, and lands nearer exactly as long as the learning rate is small enough for the row.
   */
  lemma StepFromRest(c: Script, s: State, rows: seq<Row>)
    requires Shaped(s) && rows != [] && s.velocity == [0.0, 0.0] && s.biasVelocity == 0.0
    ensures var row := rows[s.cursor % |rows|]; var r := Next(c, s, rows);
            var size := row.x1 * row.x1 + row.x2 * row.x2 + 1.0;
            Prediction(r, row) - row.y == (Prediction(s, row) - row.y) * (1.0 - 2.0 * (c.learningRate * size))
  {
    var row, r := RowOf(s, rows), Next(c, s, rows);
    var e := Miss(s, row);
    StepMoves(c, s, rows, 0);
    StepMoves(c, s, rows, 1);
    StepMoves(c, s, rows, 2);
    assert Velocity(r, 0) == 2.0 * e * row.x1 && Velocity(r, 1) == 2.0 * e * row.x2 && Velocity(r, 2) == 2.0 * e;
    Together(s.weights[0], s.weights[1], s.bias, c.learningRate, e, row.x1, row.x2);
  }

  lemma Together(w1: real, w2: real, b: real, lr: real, e: real, x1: real, x2: real)
    ensures (w1 - lr * (2.0 * e * x1)) * x1 + (w2 - lr * (2.0 * e * x2)) * x2 + (b - lr * (2.0 * e)) ==
            w1 * x1 + w2 * x2 + b - e * (2.0 * (lr * (x1 * x1 + x2 * x2 + 1.0)))
  {
    OneTerm(w1, lr, e, x1);
    OneTerm(w2, lr, e, x2);
    var f := 2.0 * (e * lr);
    assert lr * (2.0 * e) == f;
    assert e * (2.0 * (lr * (x1 * x1 + x2 * x2 + 1.0))) == f * (x1 * x1 + x2 * x2 + 1.0);
    assert f * (x1 * x1 + x2 * x2 + 1.0) == f * (x1 * x1) + f * (x2 * x2) + f;
  }

  lemma OneTerm(w: real, lr: real, e: real, x: real)
    ensures (w - lr * (2.0 * e * x)) * x == w * x - 2.0 * (e * lr) * (x * x)
  {
    var d := lr * (2.0 * e * x);
    assert d == 2.0 * (e * lr) * x by { assert 2.0 * e * x == 2.0 * (e * x) && lr * (e * x) == (e * lr) * x; }
    assert (w - d) * x == w * x - d * x;
    assert 2.0 * (e * lr) * x * x == 2.0 * (e * lr) * (x * x);
  }

  function Pushed(c: Script, velocity: real, gradient: real): real
  {
    c.momentum * velocity + gradient
  }

  function Moved(c: Script, weight: real, velocity: real): real
  {
    weight - c.learningRate * velocity
  }

  function Loss(c: Script, err: real): real
  {
    c.rounded(err * err)
  }

  /** One training step. */
  function Next(c: Script, s: State, rows: seq<Row>): (r: State)
    requires Shaped(s) && rows != []
    ensures Shaped(r)
  {
    var row := RowOf(s, rows);
    var v := [Pushed(c, s.velocity[0], Gradient(s, row, 0)), Pushed(c, s.velocity[1], Gradient(s, row, 1))];
    var bv := Pushed(c, s.biasVelocity, Gradient(s, row, 2));
    s.(velocity := v,
       weights := [Moved(c, s.weights[0], v[0]), Moved(c, s.weights[1], v[1])],
       biasVelocity := bv,
       bias := Moved(c, s.bias, bv),
       step := s.step + 1,
       cursor := (s.cursor + 1) % |rows|,
       epoch := if c.keepsEpoch then (s.step + 1) / |rows| else s.epoch,
       lossHistory := s.lossHistory + [Loss(c, Miss(s, row))])
  }

  /** A state whose fields are those of the next state, one by one. */
  lemma IsNext(c: Script, s: State, rows: seq<Row>, r: State)
    requires Shaped(s) && Shaped(r) && rows != []
    requires var row := RowOf(s, rows);
             && (forall i | 0 <= i < 2 :: r.velocity[i] == Pushed(c, s.velocity[i], Gradient(s, row, i)) &&
                                          r.weights[i] == Moved(c, s.weights[i], r.velocity[i]))
             && r.biasVelocity == Pushed(c, s.biasVelocity, Gradient(s, row, 2))
             && r.bias == Moved(c, s.bias, r.biasVelocity)
             && r.lossHistory == s.lossHistory + [Loss(c, Miss(s, row))]
    requires r.step == s.step + 1 && r.cursor == (s.cursor + 1) % |rows|
    requires r.epoch == if c.keepsEpoch then (s.step + 1) / |rows| else s.epoch
    requires r.datasetVersion == s.datasetVersion && r.rngSeed == s.rngSeed
    ensures r == Next(c, s, rows)
  {
    hide Gradient, Miss, Pushed, Moved, Loss, RowOf;
    var n := Next(c, s, rows);
    assert r.velocity == n.velocity && r.weights == n.weights;
  }

  function After(c: Script, s: State, rows: seq<Row>, n: nat): (r: State)
    requires Shaped(s) && rows != []
    ensures Shaped(r)
  {
    if n == 0 then s else Next(c, After(c, s, rows, n - 1), rows)
  }

  /** The state once `target` steps are reached; a state already there stays as it is. */
  function TrainedTo(c: Script, s: State, rows: seq<Row>, target: nat): (r: State)
    requires Shaped(s) && rows != []
    ensures Shaped(r)
  {
    After(c, s, rows, if s.step < target then target - s.step else 0)
  }

  // ----- Stopping in between makes no difference

  lemma {:induction false} AfterAfter(c: Script, s: State, rows: seq<Row>, m: nat, n: nat)
    requires Shaped(s) && rows != []
    ensures After(c, After(c, s, rows, m), rows, n) == After(c, s, rows, m + n)
  {
    hide Next;
    if n > 0 { AfterAfter(c, s, rows, m, n - 1); }
  }

  lemma {:induction false} StepsCount(c: Script, s: State, rows: seq<Row>, n: nat)
    requires Shaped(s) && rows != []
    ensures After(c, s, rows, n).step == s.step + n
  {
    if n > 0 { StepsCount(c, s, rows, n - 1); }
  }

  /** Training to k and then to n is training straight to n. */
  lemma StopAndGoOn(c: Script, s: State, rows: seq<Row>, k: nat, n: nat)
    requires Shaped(s) && rows != [] && k <= n
    ensures TrainedTo(c, TrainedTo(c, s, rows, k), rows, n) == TrainedTo(c, s, rows, n)
  {
    var m := if s.step < k then k - s.step else 0;
    StepsCount(c, s, rows, m);
    AfterAfter(c, s, rows, m, if s.step + m < n then n - s.step - m else 0);
  }

  // ----- The data cursor

  /** A run from the start: the cursor and epoch are the remainder and quotient of the step count. */
  lemma {:induction false} CursorFollowsSteps(c: Script, s: State, rows: seq<Row>, n: nat)
    requires Shaped(s) && rows != []
    requires s.step == 0 && s.cursor == 0 && s.epoch == 0 && s.lossHistory == []
    ensures var r := After(c, s, rows, n);
            && r.step == n && r.cursor == n % |rows| && |r.lossHistory| == n
            && r.epoch == if c.keepsEpoch then n / |rows| else 0
  {
    if n > 0 {
      CursorFollowsSteps(c, s, rows, n - 1);
      NextRemainder(n - 1, |rows|);
    }
  }

  lemma NextRemainder(n: nat, d: nat)
    requires d > 0
    ensures (n % d + 1) % d == (n + 1) % d
  {
    var q, r := n / d, n % d;
    assert n + 1 == d * q + (r + 1);
    if r + 1 < d {
      DivModIs(n + 1, d, q, r + 1);
    } else {
      assert n + 1 == d * (q + 1) by { assert d * (q + 1) == d * q + d; }
      DivModIs(n + 1, d, q + 1, 0);
    }
  }

  lemma DivModIs(n: nat, d: nat, q: nat, r: nat)
    requires d > 0 && r < d && n == d * q + r
    ensures n / d == q && n % d == r
  {
    var q', r' := n / d, n % d;
    assert n == d * q' + r';
    if q' != q { Multiples(d, if q' < q then q' else q, if q' < q then q else q'); }
  }

  lemma {:induction false} Multiples(d: nat, small: nat, large: nat)
    requires small < large
    ensures d * large >= d * small + d
  {
    assert d * large == d * (large - 1) + d;
    if small < large - 1 { Multiples(d, small, large - 1); }
  }

  /** The rows used by n steps, by index. */
  function Used(c: Script, s: State, rows: seq<Row>, n: nat): (u: seq<nat>)
    requires Shaped(s) && rows != []
    ensures |u| == n
  {
    if n == 0 then [] else Used(c, s, rows, n - 1) + [After(c, s, rows, n - 1).cursor % |rows|]
  }

  lemma {:induction false} CursorMoves(c: Script, s: State, rows: seq<Row>, n: nat)
    requires Shaped(s) && rows != [] && s.cursor < |rows|
    ensures After(c, s, rows, n).cursor == (s.cursor + n) % |rows|
  {
    if n > 0 {
      CursorMoves(c, s, rows, n - 1);
      NextRemainder(s.cursor + n - 1, |rows|);
    }
  }

  lemma {:induction false} UsedAt(c: Script, s: State, rows: seq<Row>, n: nat, i: nat)
    requires Shaped(s) && rows != [] && s.cursor < |rows| && i < n
    ensures Used(c, s, rows, n)[i] == (s.cursor + i) % |rows|
  {
    hide Next, After;
    if i < n - 1 {
      UsedAt(c, s, rows, n - 1, i);
    } else {
      CursorMoves(c, s, rows, n - 1);
      Again(s.cursor + i, |rows|);
    }
  }

  lemma Again(x: nat, d: nat)
    requires d > 0
    ensures (x % d) % d == x % d
  {
    DivModIs(x % d, d, 0, x % d);
  }

  /** A stop in the middle does not disturb the order of the rows. */
  lemma {:induction false} UsedSplits(c: Script, s: State, rows: seq<Row>, m: nat, n: nat)
    requires Shaped(s) && rows != []
    ensures Used(c, s, rows, m + n) == Used(c, s, rows, m) + Used(c, After(c, s, rows, m), rows, n)
  {
    hide Next;
    if n > 0 {
      UsedSplits(c, s, rows, m, n - 1);
      AfterAfter(c, s, rows, m, n - 1);
    }
  }

  /** Any window of as many steps as there are rows uses each row exactly once. */
  lemma EachRowOnce(c: Script, s: State, rows: seq<Row>, j: nat) returns (i: nat)
    requires Shaped(s) && rows != [] && s.cursor < |rows| && j < |rows|
    ensures i < |rows| && Used(c, s, rows, |rows|)[i] == j
    ensures forall k | 0 <= k < |rows| && Used(c, s, rows, |rows|)[k] == j :: k == i
  {
    hide Next, After;
    var d := |rows|;
    i := if s.cursor <= j then j - s.cursor else j + d - s.cursor;
    forall k | 0 <= k < d ensures Used(c, s, rows, d)[k] == if s.cursor + k < d then s.cursor + k else s.cursor + k - d {
      UsedAt(c, s, rows, d, k);
      if s.cursor + k < d { DivModIs(s.cursor + k, d, 0, s.cursor + k); } else { DivModIs(s.cursor + k, d, 1, s.cursor + k - d); }
    }
  }

  /** Training only appends to the loss history. */
  lemma {:induction false} LossHistoryGrows(c: Script, s: State, rows: seq<Row>, n: nat)
    requires Shaped(s) && rows != []
    ensures var r := After(c, s, rows, n); |r.lossHistory| == |s.lossHistory| + n && s.lossHistory <= r.lossHistory
  {
    if n > 0 { LossHistoryGrows(c, s, rows, n - 1); }
  }

  // ----- What momentum conserves

  function Weight(s: State, i: nat): real
    requires Shaped(s) && i <= 2
  {
    if i < 2 then s.weights[i] else s.bias
  }

  function Velocity(s: State, i: nat): real
    requires Shaped(s) && i <= 2
  {
    if i < 2 then s.velocity[i] else s.biasVelocity
  }

  function GradientSum(c: Script, s: State, rows: seq<Row>, i: nat, n: nat): real
    requires Shaped(s) && rows != [] && i <= 2
  {
    if n == 0 then 0.0
    else
      var before := After(c, s, rows, n - 1);
      GradientSum(c, s, rows, i, n - 1) + Gradient(before, RowOf(before, rows), i)
  }

  function Balance(c: Script, s: State, i: nat): real
    requires Shaped(s) && i <= 2
  {
    (1.0 - c.momentum) * Weight(s, i) - c.learningRate * c.momentum * Velocity(s, i)
  }

  lemma StepBalance(lr: real, m: real, w: real, v: real, g: real)
    ensures var v' := m * v + g;
            (1.0 - m) * (w - lr * v') - lr * m * v' + lr * g == (1.0 - m) * w - lr * m * v
  {
    var v' := m * v + g;
    var p := lr * v';
    assert lr * m * v' == m * p;
    assert (1.0 - m) * (w - p) == (1.0 - m) * w - (1.0 - m) * p;
    assert (1.0 - m) * p + m * p == p;
    assert p == lr * m * v + lr * g;
  }

  /** How one step moves a weight and its velocity. */
  lemma StepMoves(c: Script, s: State, rows: seq<Row>, i: nat)
    requires Shaped(s) && rows != [] && i <= 2
    ensures var g := Gradient(s, RowOf(s, rows), i); var r := Next(c, s, rows);
            Velocity(r, i) == c.momentum * Velocity(s, i) + g &&
            Weight(r, i) == Weight(s, i) - c.learningRate * Velocity(r, i)
  {
    hide Gradient;
  }

  /**
   * (1 - momentum) w - rate * momentum * v + rate * (sum of gradients) is the same after any
   * number of steps, for each weight and for the bias.
   */
  lemma {:induction false} MomentumConserves(c: Script, s: State, rows: seq<Row>, i: nat, n: nat)
    requires Shaped(s) && rows != [] && i <= 2
    ensures Balance(c, After(c, s, rows, n), i) + c.learningRate * GradientSum(c, s, rows, i, n) == Balance(c, s, i)
  {
    hide Next, Gradient, RowOf, Weight, Velocity;
    if n > 0 {
      MomentumConserves(c, s, rows, i, n - 1);
      var before := After(c, s, rows, n - 1);
      var g := Gradient(before, RowOf(before, rows), i);
      var sum := GradientSum(c, s, rows, i, n - 1);
      StepMoves(c, before, rows, i);
      StepBalance(c.learningRate, c.momentum, Weight(before, i), Velocity(before, i), g);
      assert c.learningRate * (sum + g) == c.learningRate * sum + c.learningRate * g;
    } else {
      assert GradientSum(c, s, rows, i, 0) == 0.0;
    }
  }

  // ----- The scripts' mutable state

  class Trainer {
    const script: Script
    var step: nat
    var epoch: nat
    var cursor: nat
    var weights: seq<real>
    var bias: real
    var velocity: seq<real>
    var biasVelocity: real
    var lossHistory: seq<real>
    var datasetVersion: string
    var rngSeed: int

    function Snapshot(): State
      reads this
    {
      State(step, epoch, cursor, weights, bias, velocity, biasVelocity, lossHistory, datasetVersion, rngSeed)
    }

    constructor (script: Script, s: State)
      ensures Snapshot() == s && this.script == script
    {
      this.script := script;
      step, epoch, cursor, weights, bias := s.step, s.epoch, s.cursor, s.weights, s.bias;
      velocity, biasVelocity, lossHistory := s.velocity, s.biasVelocity, s.lossHistory;
      datasetVersion, rngSeed := s.datasetVersion, s.rngSeed;
    }

    method Gradients(row: Row) returns (err: real, gradW: seq<real>, gradB: real)
      requires Shaped(Snapshot())
      ensures err == Miss(Snapshot(), row) && gradB == Gradient(Snapshot(), row, 2)
      ensures gradW == [Gradient(Snapshot(), row, 0), Gradient(Snapshot(), row, 1)]
    {
      err := weights[0] * row.x1 + weights[1] * row.x2 + bias - row.y;
      hide Slope;
      gradW := [Slope(err, row.x1), Slope(err, row.x2)];
      gradB := 2.0 * err;
    }

    /** The loop over the two weights: each velocity first, then its weight. */
    method MoveWeights(gradW: seq<real>)
      requires Shaped(Snapshot()) && |gradW| == 2
      modifies this`velocity, this`weights
      ensures |velocity| == 2 && |weights| == 2
      ensures forall j | 0 <= j < 2 :: velocity[j] == Pushed(script, old(velocity)[j], gradW[j]) &&
                                       weights[j] == Moved(script, old(weights)[j], velocity[j])
    {
      hide Pushed, Moved;
      ghost var s := Snapshot();
      for i := 0 to 2
        invariant |velocity| == |weights| == 2
        invariant forall j | 0 <= j < i :: velocity[j] == Pushed(script, s.velocity[j], gradW[j]) &&
                                           weights[j] == Moved(script, s.weights[j], velocity[j])
        invariant forall j | i <= j < 2 :: velocity[j] == s.velocity[j] && weights[j] == s.weights[j]
      {
        velocity := velocity[i := Pushed(script, velocity[i], gradW[i])];
        weights := weights[i := Moved(script, weights[i], velocity[i])];
      }
    }

    /** train_one_step. */
    method TrainOneStep(rows: seq<Row>)
      requires rows != [] && Shaped(Snapshot())
      modifies this
      ensures Snapshot() == Next(script, old(Snapshot()), rows)
    {
      hide Gradient, Miss, Pushed, Moved, Loss, Next;
      ghost var s := Snapshot();
      var row := rows[cursor % |rows|];
      var err, gradW, gradB := Gradients(row);
      MoveWeights(gradW);
      biasVelocity := Pushed(script, biasVelocity, gradB);
      bias := Moved(script, bias, biasVelocity);
      step := step + 1;
      cursor := (cursor + 1) % |rows|;
      if script.keepsEpoch {
        epoch := step / |rows|;
      }
      lossHistory := lossHistory + [Loss(script, err)];
      IsNext(script, s, rows, Snapshot());
    }

    /** The training loop of both scripts. */
    method TrainTo(target: nat, rows: seq<Row>)
      requires rows != [] && Shaped(Snapshot())
      modifies this
      ensures Snapshot() == TrainedTo(script, old(Snapshot()), rows, target)
    {
      ghost var s := Snapshot();
      ghost var n := 0;
      while step < target
        invariant Snapshot() == After(script, s, rows, n) && step == s.step + n
        invariant n == 0 || step <= target
      {
        TrainOneStep(rows);
        n := n + 1;
      }
    }
  }
}
