/**
 * The step arithmetic of `train_model` in model.py: `fit_generator` is told to
 * run `len(X_train) // batch_size` training steps and `len(X_valid) // batch_size`
 * validation steps per epoch. Training itself is not modelled.
 */
module Training {
  import opened Wrappers

  /** Python's `a // b`: the quotient rounded toward negative infinity. */
  function FloorDiv(a: int, b: int): (q: int)
    requires b != 0
    ensures b > 0 ==> q * b <= a < q * b + b
    ensures b < 0 ==> q * b + b < a <= q * b
  {
    if b > 0 || a % b == 0 then a / b else a / b - 1
  }

  /** Steps per epoch for `n` samples; `None` is the ZeroDivisionError of `batch_size == 0`. */
  function StepsPerEpoch(n: nat, batchSize: int): Option<int> {
    if batchSize == 0 then None else Some(FloorDiv(n, batchSize))
  }

  /** The number of whole batches that can be taken off `n` samples one after another. */
  function WholeBatches(n: nat, batchSize: nat): nat
    requires batchSize > 0
    decreases n
  {
    if n < batchSize then 0 else 1 + WholeBatches(n - batchSize, batchSize)
  }

  /**
   * For a positive batch size the steps cover every whole batch and drop the
   * trailing partial one: fewer than `batchSize` samples are left out each
   * epoch, and there are no steps at all when `n < batchSize`.
   */
  lemma StepsPerEpochBounds(n: nat, batchSize: int)
    requires batchSize > 0
    ensures StepsPerEpoch(n, batchSize).Some?
    ensures var steps := StepsPerEpoch(n, batchSize).value;
      && steps >= 0
      && steps * batchSize <= n < (steps + 1) * batchSize
      && 0 <= n - steps * batchSize < batchSize
      && (steps == 0 <==> n < batchSize)
  {
    var steps := FloorDiv(n, batchSize);
    if steps < 0 {
      MulMonotone(steps, -1, batchSize);
    }
    if steps > 0 {
      MulMonotone(1, steps, batchSize);
    }
  }

  /** Multiplying by a non-negative number keeps the order. */
  lemma MulMonotone(x: int, y: int, b: int)
    requires x <= y && 0 <= b
    ensures x * b <= y * b
  {
    var d := y - x;
    assert y * b == x * b + d * b;
  }

  /** The step count is exactly the number of whole batches the samples hold. */
  lemma {:induction false} StepsAreWholeBatches(n: nat, batchSize: int)
    requires batchSize > 0
    ensures StepsPerEpoch(n, batchSize) == Some(WholeBatches(n, batchSize))
    decreases n
  {
    if n >= batchSize {
      StepsAreWholeBatches(n - batchSize, batchSize);
      var q := FloorDiv(n - batchSize, batchSize);
      StepsPerEpochBounds(n - batchSize, batchSize);
      StepsPerEpochBounds(n, batchSize);
      FloorDivUnique(n, batchSize, q + 1);
    } else {
      StepsPerEpochBounds(n, batchSize);
    }
  }

  /** The floor quotient is the only integer whose multiple brackets `a`. */
  lemma FloorDivUnique(a: int, b: int, q: int)
    requires b > 0 && q * b <= a < q * b + b
    ensures FloorDiv(a, b) == q
  {
    var r := FloorDiv(a, b);
    if r < q {
      MulMonotone(r + 1, q, b);
    } else if r > q {
      MulMonotone(q + 1, r, b);
    }
  }

  /** A negative batch size is not rejected: Python floors, so any sample left over adds one more negative step. */
  lemma NegativeBatchSizeExample()
    ensures StepsPerEpoch(10, -3) == Some(-4)
    ensures StepsPerEpoch(9, -3) == Some(-3)
  {
  }

  /** The two step counts `train_model` hands to `fit_generator`. */
  datatype EpochSteps = EpochSteps(training: int, validation: int)

  /**
   * `steps_per_epoch = len(X_train) // batch_size` and
   * `validation_steps = len(X_valid) // batch_size`: for a positive batch size,
   * the number of whole batches in each set, trailing partial batch dropped.
   */
  function FitSteps(trainCount: nat, validCount: nat, batchSize: int): (r: Option<EpochSteps>)
    ensures r.None? <==> batchSize == 0
    ensures r.Some? && batchSize > 0 ==>
      && 0 <= r.value.training && 0 <= r.value.validation
      && r.value.training * batchSize <= trainCount < (r.value.training + 1) * batchSize
      && r.value.validation * batchSize <= validCount < (r.value.validation + 1) * batchSize
  {
    if batchSize == 0 then None
    else Some(EpochSteps(FloorDiv(trainCount, batchSize), FloorDiv(validCount, batchSize)))
  }

  /** With the default batch size of 40, 8000 training and 2000 validation samples give 200 and 50 steps. */
  lemma FitStepsExample()
    ensures FitSteps(8000, 2000, 40) == Some(EpochSteps(200, 50))
    ensures FitSteps(39, 0, 40) == Some(EpochSteps(0, 0))
  {
    FloorDivUnique(8000, 40, 200);
    FloorDivUnique(2000, 40, 50);
    FloorDivUnique(39, 40, 0);
    FloorDivUnique(0, 40, 0);
  }
}
