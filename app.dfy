/**
 * The logic of the Streamlit page (app.py) that is not layout: the
 * priority-weight sliders, the daily usage count, the currency parser of the
 * charts and the census backfill from the model's estimate.
 */
module App {
  import opened Common
  import opened PyStr
  import opened JsonValue

  // ---------------------------------------------------------------------
  // update_weights

  /** The scoring factors, one slider each, in this order. */
  const Factors: seq<string> := ["Amenities", "Transit", "Schools", "Crime", "Appreciation"]

  /** `w[f]` when `keep[f]`, else 0. */
  function Pick(w: seq<real>, keep: seq<bool>, f: nat): real
    requires f < |w| && f < |keep|
  {
    if keep[f] then w[f] else 0.0
  }

  /** The sum of the kept weights among the first `k`. */
  function SumMasked(w: seq<real>, keep: seq<bool>, k: nat): real
    requires k <= |w| && k <= |keep|
  {
    if k == 0 then 0.0 else SumMasked(w, keep, k - 1) + Pick(w, keep, k - 1)
  }

  /** How many of the first `k` are kept. */
  function CountMasked(keep: seq<bool>, k: nat): (n: nat)
    requires k <= |keep|
    ensures n <= k
  {
    if k == 0 then 0 else CountMasked(keep, k - 1) + (if keep[k - 1] then 1 else 0)
  }

  function Total(w: seq<real>): real {
    SumMasked(w, seq(|w|, _ => true), |w|)
  }

  /** The locked factors other than the changed one. */
  function LockedOthers(locks: seq<bool>, changed: nat): (m: seq<bool>)
    ensures |m| == |locks|
  {
    seq(|locks|, f requires 0 <= f < |locks| => f != changed && locks[f])
  }

  /** The unlocked factors other than the changed one. */
  function FreeOthers(locks: seq<bool>, changed: nat): (m: seq<bool>)
    ensures |m| == |locks|
  {
    seq(|locks|, f requires 0 <= f < |locks| => f != changed && !locks[f])
  }

  /** The weight of the locked factors other than the changed one. */
  function LockedSum(w: seq<real>, locks: seq<bool>, changed: nat): real
    requires |w| == |locks|
  {
    SumMasked(w, LockedOthers(locks, changed), |w|)
  }

  /** What is left for the free factors, never below 0. */
  function Available(w: seq<real>, locks: seq<bool>, changed: nat): real
    requires |w| == |locks| && changed < |w|
  {
    var left := 100.0 - w[changed] - LockedSum(w, locks, changed);
    if left < 0.0 then 0.0 else left
  }

  /**
   * The new weight of factor `f` after the slider `changed` was moved to
   * `w[changed]`: with no free partner the moved slider takes whatever the
   * locked ones leave; otherwise it is capped so that it and the locked
   * ones fit in 100, locked factors keep their weights, and the free ones
   * share what is available, evenly when they were all 0 and in proportion
   * to their weights otherwise.
   */
  function NewWeight(w: seq<real>, locks: seq<bool>, changed: nat, f: nat): real
    requires |w| == |locks| && changed < |w| && f < |w|
  {
    var n := |w|;
    var lockedSum := LockedSum(w, locks, changed);
    var free := FreeOthers(locks, changed);
    var count := CountMasked(free, n);
    if count == 0 then (if f == changed then 100.0 - lockedSum else w[f])
    else if f == changed then (if 100.0 - w[changed] - lockedSum < 0.0 then 100.0 - lockedSum else w[changed])
    else if !free[f] then w[f]
    else if FreeSum(w, locks, changed) == 0.0 then EvenShare(w, locks, changed)
    else w[f] * Ratio(w, locks, changed)
  }

  /** An equal share of what is available for each free factor. */
  function EvenShare(w: seq<real>, locks: seq<bool>, changed: nat): real
    requires |w| == |locks| && changed < |w| && CountMasked(FreeOthers(locks, changed), |w|) > 0
  {
    Available(w, locks, changed) / CountMasked(FreeOthers(locks, changed), |w|) as real
  }

  /** The current weight of the free factors. */
  function FreeSum(w: seq<real>, locks: seq<bool>, changed: nat): real
    requires |w| == |locks|
  {
    SumMasked(w, FreeOthers(locks, changed), |w|)
  }

  /** The common factor the free weights are scaled by: what is available over their current sum. */
  function Ratio(w: seq<real>, locks: seq<bool>, changed: nat): real
    requires |w| == |locks| && changed < |w| && FreeSum(w, locks, changed) != 0.0
  {
    Available(w, locks, changed) / FreeSum(w, locks, changed)
  }

  /** The weights after the slider `changed` was moved to `w[changed]`. */
  function Rebalance(w: seq<real>, locks: seq<bool>, changed: nat): (r: seq<real>)
    requires |w| == |locks| && changed < |w|
    ensures |r| == |w|
  {
    seq(|w|, f requires 0 <= f < |w| => NewWeight(w, locks, changed, f))
  }

  /** The slider weights and lock flags of the session. */
  class Sliders {
    var weights: seq<real>
    var locks: seq<bool>

    predicate Valid()
      reads this
    {
      |weights| == |Factors| && |locks| == |Factors|
    }

    constructor(weights0: seq<real>, locks0: seq<bool>)
      requires |weights0| == |Factors| && |locks0| == |Factors|
      ensures Valid() && weights == weights0 && locks == locks0
    {
      weights := weights0;
      locks := locks0;
    }

    /** `update_weights`: the callback of the slider `changed`, whose new value is already in `weights`. */
    method UpdateWeights(changed: nat)
      requires Valid() && changed < |Factors|
      modifies this
      ensures Valid() && locks == old(locks)
      ensures weights == Rebalance(old(weights), locks, changed)
    {
      var n := |weights|;
      var w0 := weights;
      var newVal := weights[changed];
      var lockedMask := LockedOthers(locks, changed);
      var free := FreeOthers(locks, changed);

      var lockedSum := SumMasked(weights, lockedMask, n);
      var available := 100.0 - newVal - lockedSum;
      var otherCount := CountMasked(free, n);

      if available < 0.0 {
        newVal := 100.0 - lockedSum;
        weights := weights[changed := newVal];
        available := 0.0;
      }
      var w1 := weights;

      if otherCount == 0 {
        weights := weights[changed := 100.0 - lockedSum];
        return;
      }

      var currentSum := SumMasked(w0, free, n);

      ghost var target := Rebalance(w0, locks, changed);
      if currentSum == 0.0 {
        var share := available / otherCount as real;
        for f := 0 to n
          invariant |weights| == n && locks == old(locks)
          invariant forall g :: 0 <= g < f ==> weights[g] == target[g]
          invariant forall g :: f <= g < n ==> weights[g] == w1[g]
        {
          if !locks[f] && f != changed {
            weights := weights[f := share];
          }
        }
      } else {
        var ratio := available / currentSum;
        for f := 0 to n
          invariant |weights| == n && locks == old(locks)
          invariant forall g :: 0 <= g < f ==> weights[g] == target[g]
          invariant forall g :: f <= g < n ==> weights[g] == w1[g]
        {
          if !locks[f] && f != changed {
            assert weights[f] == w0[f];
            weights := weights[f := weights[f] * ratio];
          }
        }
      }
    }
  }

  /** Every weight is the changed one, a locked other, or a free other; the sum splits accordingly. */
  lemma {:induction false} SplitSum(w: seq<real>, locks: seq<bool>, changed: nat, k: nat)
    requires |w| == |locks| && changed < |w| && k <= |w|
    ensures SumMasked(w, seq(|w|, _ => true), k)
            == (if changed < k then w[changed] else 0.0)
               + SumMasked(w, LockedOthers(locks, changed), k) + SumMasked(w, FreeOthers(locks, changed), k)
  {
    if k > 0 {
      SplitSum(w, locks, changed, k - 1);
    }
  }

  /** Sums over a mask see only the masked positions. */
  lemma {:induction false} SumMaskedAgree(w: seq<real>, v: seq<real>, keep: seq<bool>, k: nat)
    requires k <= |w| == |v| == |keep|
    requires forall f :: 0 <= f < k && keep[f] ==> w[f] == v[f]
    ensures SumMasked(w, keep, k) == SumMasked(v, keep, k)
  {
    if k > 0 {
      SumMaskedAgree(w, v, keep, k - 1);
    }
  }

  /** Setting every masked weight to `x` makes their sum `x` times their count. */
  lemma {:induction false} SumMaskedConstant(w: seq<real>, keep: seq<bool>, x: real, k: nat)
    requires k <= |w| == |keep|
    requires forall f :: 0 <= f < k && keep[f] ==> w[f] == x
    ensures SumMasked(w, keep, k) == x * CountMasked(keep, k) as real
  {
    if k > 0 {
      SumMaskedConstant(w, keep, x, k - 1);
    }
  }

  /** Scaling every masked weight by `ratio` scales their sum by `ratio`. */
  lemma {:induction false} SumMaskedScaled(w: seq<real>, v: seq<real>, keep: seq<bool>, ratio: real, k: nat)
    requires k <= |w| == |v| == |keep|
    requires forall f :: 0 <= f < k && keep[f] ==> v[f] == w[f] * ratio
    ensures SumMasked(v, keep, k) == SumMasked(w, keep, k) * ratio
  {
    if k > 0 {
      SumMaskedScaled(w, v, keep, ratio, k - 1);
    }
  }

  /** With no free factor the sum over the free mask is 0. */
  lemma {:induction false} SumMaskedNone(w: seq<real>, keep: seq<bool>, k: nat)
    requires k <= |w| == |keep| && CountMasked(keep, k) == 0
    ensures SumMasked(w, keep, k) == 0.0
  {
    if k > 0 {
      SumMaskedNone(w, keep, k - 1);
    }
  }

  /** No factor is kept when none is counted. */
  lemma {:induction false} CountZeroNone(keep: seq<bool>, k: nat)
    requires k <= |keep| && CountMasked(keep, k) == 0
    ensures forall f :: 0 <= f < k ==> !keep[f]
  {
    if k > 0 {
      CountZeroNone(keep, k - 1);
    }
  }

  /** The new weights split into the changed one, the unchanged locked ones and the free ones. */
  lemma RebalanceParts(w: seq<real>, locks: seq<bool>, changed: nat)
    requires |w| == |locks| && changed < |w|
    ensures var r := Rebalance(w, locks, changed);
            Total(r) == r[changed] + LockedSum(w, locks, changed) + SumMasked(r, FreeOthers(locks, changed), |w|)
  {
    var r := Rebalance(w, locks, changed);
    SplitSum(r, locks, changed, |w|);
    SumMaskedAgree(r, w, LockedOthers(locks, changed), |w|);
  }

  /** The changed weight after a rebalance with free partners: capped when the limit is exceeded. */
  lemma RebalanceChanged(w: seq<real>, locks: seq<bool>, changed: nat)
    requires |w| == |locks| && changed < |w|
    requires CountMasked(FreeOthers(locks, changed), |w|) > 0
    ensures Rebalance(w, locks, changed)[changed] == 100.0 - LockedSum(w, locks, changed) - Available(w, locks, changed)
  {
  }

  /** The new weight of a free factor, when there is one. */
  lemma FreeWeightAt(w: seq<real>, locks: seq<bool>, changed: nat, f: nat)
    requires |w| == |locks| && changed < |w| && f < |w|
    requires CountMasked(FreeOthers(locks, changed), |w|) > 0 && FreeOthers(locks, changed)[f]
    ensures FreeSum(w, locks, changed) == 0.0 ==> Rebalance(w, locks, changed)[f] == EvenShare(w, locks, changed)
    ensures FreeSum(w, locks, changed) != 0.0 ==> Rebalance(w, locks, changed)[f] == w[f] * Ratio(w, locks, changed)
  {
    assert f != changed;
  }

  /** Free factors that were all 0 receive equal shares of what is available. */
  lemma RebalanceFreeSumEven(w: seq<real>, locks: seq<bool>, changed: nat)
    requires |w| == |locks| && changed < |w|
    requires CountMasked(FreeOthers(locks, changed), |w|) > 0
    requires SumMasked(w, FreeOthers(locks, changed), |w|) == 0.0
    ensures SumMasked(Rebalance(w, locks, changed), FreeOthers(locks, changed), |w|) == Available(w, locks, changed)
  {
    var r := Rebalance(w, locks, changed);
    var free := FreeOthers(locks, changed);
    var share := EvenShare(w, locks, changed);
    forall f | 0 <= f < |w| && free[f]
      ensures r[f] == share
    {
      FreeWeightAt(w, locks, changed, f);
    }
    SumMaskedConstant(r, free, share, |w|);
    DivCancel(Available(w, locks, changed), CountMasked(free, |w|) as real);
  }

  /** Free factors with a non-zero sum are scaled to sum to what is available. */
  lemma RebalanceFreeSumScaled(w: seq<real>, locks: seq<bool>, changed: nat)
    requires |w| == |locks| && changed < |w|
    requires CountMasked(FreeOthers(locks, changed), |w|) > 0
    requires SumMasked(w, FreeOthers(locks, changed), |w|) != 0.0
    ensures SumMasked(Rebalance(w, locks, changed), FreeOthers(locks, changed), |w|) == Available(w, locks, changed)
  {
    var r := Rebalance(w, locks, changed);
    var free := FreeOthers(locks, changed);
    var current := SumMasked(w, free, |w|);
    var available := Available(w, locks, changed);
    var ratio := Ratio(w, locks, changed);
    forall f | 0 <= f < |w| && free[f]
      ensures r[f] == w[f] * ratio
    {
      FreeWeightAt(w, locks, changed, f);
    }
    SumMaskedScaled(w, r, free, ratio, |w|);
    DivCancel(available, current);
  }

  /** Dividing by a non-zero real and multiplying back gives the dividend. */
  lemma DivCancel(a: real, c: real)
    requires c != 0.0
    ensures c * (a / c) == a
  {
  }

  /** After a rebalance the weights sum to exactly 100, in every branch. */
  lemma RebalanceTotal(w: seq<real>, locks: seq<bool>, changed: nat)
    requires |w| == |locks| && changed < |w|
    ensures Total(Rebalance(w, locks, changed)) == 100.0
  {
    var free := FreeOthers(locks, changed);
    RebalanceParts(w, locks, changed);
    if CountMasked(free, |w|) == 0 {
      SumMaskedNone(Rebalance(w, locks, changed), free, |w|);
    } else {
      RebalanceChanged(w, locks, changed);
      if SumMasked(w, free, |w|) == 0.0 {
        RebalanceFreeSumEven(w, locks, changed);
      } else {
        RebalanceFreeSumScaled(w, locks, changed);
      }
    }
  }

  /** Locked factors other than the changed one keep their weights. */
  lemma RebalanceKeepsLocked(w: seq<real>, locks: seq<bool>, changed: nat, f: nat)
    requires |w| == |locks| && changed < |w|
    requires f < |w| && f != changed && locks[f]
    ensures Rebalance(w, locks, changed)[f] == w[f]
  {
  }

  /**
   * When the new value and the locked weights exceed 100, the changed weight
   * is capped at 100 minus the locked sum and every free factor drops to 0.
   */
  lemma RebalanceOverflow(w: seq<real>, locks: seq<bool>, changed: nat)
    requires |w| == |locks| && changed < |w|
    requires w[changed] + SumMasked(w, LockedOthers(locks, changed), |w|) > 100.0
    ensures var r := Rebalance(w, locks, changed);
            && r[changed] == 100.0 - SumMasked(w, LockedOthers(locks, changed), |w|)
            && forall f :: 0 <= f < |w| && FreeOthers(locks, changed)[f] ==> r[f] == 0.0
  {
    var free := FreeOthers(locks, changed);
    if CountMasked(free, |w|) == 0 {
      CountZeroNone(free, |w|);
    } else {
      assert Available(w, locks, changed) == 0.0;
      forall f | 0 <= f < |w| && free[f]
        ensures Rebalance(w, locks, changed)[f] == 0.0
      {
        FreeWeightAt(w, locks, changed, f);
      }
    }
  }

  /** A slider with no free partner is forced to 100 minus the locked sum. */
  lemma RebalanceAlone(w: seq<real>, locks: seq<bool>, changed: nat)
    requires |w| == |locks| && changed < |w|
    requires CountMasked(FreeOthers(locks, changed), |w|) == 0
    ensures Rebalance(w, locks, changed) == w[changed := 100.0 - SumMasked(w, LockedOthers(locks, changed), |w|)]
  {
  }

  /** Free factors that were all 0 share the remainder evenly. */
  lemma RebalanceEven(w: seq<real>, locks: seq<bool>, changed: nat, f: nat, g: nat)
    requires |w| == |locks| && changed < |w|
    requires CountMasked(FreeOthers(locks, changed), |w|) > 0
    requires SumMasked(w, FreeOthers(locks, changed), |w|) == 0.0
    requires f < |w| && g < |w| && FreeOthers(locks, changed)[f] && FreeOthers(locks, changed)[g]
    ensures var r := Rebalance(w, locks, changed);
            r[f] == r[g] && r[f] * CountMasked(FreeOthers(locks, changed), |w|) as real == 100.0 - r[changed] - SumMasked(w, LockedOthers(locks, changed), |w|)
  {
    FreeWeightAt(w, locks, changed, f);
    FreeWeightAt(w, locks, changed, g);
    RebalanceChanged(w, locks, changed);
    var count := CountMasked(FreeOthers(locks, changed), |w|) as real;
    DivCancel(Available(w, locks, changed), count);
  }

  /**
   * Otherwise the free factors are scaled by one common ratio, what is
   * available over their current sum, which keeps their proportions.
   */
  lemma RebalanceProportional(w: seq<real>, locks: seq<bool>, changed: nat) returns (ratio: real)
    requires |w| == |locks| && changed < |w|
    requires CountMasked(FreeOthers(locks, changed), |w|) > 0
    requires SumMasked(w, FreeOthers(locks, changed), |w|) != 0.0
    ensures ratio * SumMasked(w, FreeOthers(locks, changed), |w|) == Available(w, locks, changed)
    ensures forall f :: 0 <= f < |w| && FreeOthers(locks, changed)[f] ==> Rebalance(w, locks, changed)[f] == w[f] * ratio
  {
    ratio := Available(w, locks, changed) / SumMasked(w, FreeOthers(locks, changed), |w|);
  }

  /** Within the limit and with a free partner, the moved slider keeps its new value. */
  lemma RebalanceKeepsChanged(w: seq<real>, locks: seq<bool>, changed: nat)
    requires |w| == |locks| && changed < |w|
    requires w[changed] + SumMasked(w, LockedOthers(locks, changed), |w|) <= 100.0
    requires CountMasked(FreeOthers(locks, changed), |w|) > 0
    ensures Rebalance(w, locks, changed)[changed] == w[changed]
  {
  }

  // ---------------------------------------------------------------------
  // get_daily_usage

  /** The usage log as read from the sheet: no sheet, a failed read, or the rows (header first). */
  datatype SheetLog = NoSheet | SheetReadError | SheetRows(rows: seq<seq<string>>)

  /**
   * The CSV fallback: no file, its rows (header first), or the rows read
   * before a read error (an undecodable byte, a malformed line, a failed
   * open), which the `except: pass` around the loop swallows.
   */
  datatype CsvLog = NoCsv | CsvRows(rows: seq<seq<string>>) | CsvFailsAfter(rows: seq<seq<string>>)

  const Day := 86400

  /** A row that counts: two or more cells, the same normalised e-mail, a parsed time after the cutoff. */
  predicate Counted(row: seq<string>, emailClean: string, cutoff: int, parseTime: string -> Option<int>) {
    |row| >= 2 && Lower(Strip(row[1])) == emailClean
    && parseTime(row[0]).Some? && parseTime(row[0]).value > cutoff
  }

  /** How many rows count. */
  function CountRows(rows: seq<seq<string>>, emailClean: string, cutoff: int, parseTime: string -> Option<int>): (n: nat)
    ensures n <= |rows|
  {
    if rows == [] then 0
    else CountRows(rows[..|rows| - 1], emailClean, cutoff, parseTime)
         + (if Counted(rows[|rows| - 1], emailClean, cutoff, parseTime) then 1 else 0)
  }

  /** The data rows, after the header. */
  function Body(rows: seq<seq<string>>): seq<seq<string>> {
    if rows == [] then [] else rows[1..]
  }

  /**
   * The usage in the 24 hours before `now` (seconds): from the sheet when it
   * could be read, else from the CSV file, else 0.
   */
  function DailyUsage(email: string, now: int, sheet: SheetLog, csv: CsvLog, parseTime: string -> Option<int>): nat {
    var emailClean := Lower(Strip(email));
    if sheet.SheetRows? then CountRows(Body(sheet.rows), emailClean, now - Day, parseTime)
    else if !csv.NoCsv? then CountRows(Body(csv.rows), emailClean, now - Day, parseTime)
    else 0
  }

  /** The counting loop over the rows after the header. */
  method CountUsage(rows: seq<seq<string>>, emailClean: string, cutoff: int, parseTime: string -> Option<int>)
    returns (count: nat)
    ensures count == CountRows(Body(rows), emailClean, cutoff, parseTime)
  {
    count := 0;
    var body := Body(rows);
    for i := 0 to |body|
      invariant count == CountRows(body[..i], emailClean, cutoff, parseTime)
    {
      CountRowsPrefix(body, i, emailClean, cutoff, parseTime);
      var row := body[i];
      if |row| < 2 {
        continue;
      }
      var tsStr, rowEmail := row[0], row[1];
      if Lower(Strip(rowEmail)) == emailClean {
        var ts := parseTime(tsStr);
        if ts.Some? && ts.value > cutoff {
          count := count + 1;
        }
      }
    }
    assert body[..|body|] == body;
  }

  /** Counting one more row of a prefix adds one exactly when that row counts. */
  lemma CountRowsPrefix(body: seq<seq<string>>, i: nat, emailClean: string, cutoff: int,
                        parseTime: string -> Option<int>)
    requires i < |body|
    ensures CountRows(body[..i + 1], emailClean, cutoff, parseTime)
            == CountRows(body[..i], emailClean, cutoff, parseTime) + (if Counted(body[i], emailClean, cutoff, parseTime) then 1 else 0)
  {
    assert body[..i + 1][..i] == body[..i];
  }

  /** `get_daily_usage` */
  method GetDailyUsage(email: string, now: int, sheet: SheetLog, csv: CsvLog, parseTime: string -> Option<int>)
    returns (count: nat)
    ensures count == DailyUsage(email, now, sheet, csv, parseTime)
  {
    var emailClean := Lower(Strip(email));
    var cutoff := now - Day;
    if sheet.SheetRows? {
      count := CountUsage(sheet.rows, emailClean, cutoff, parseTime);
      return;
    }
    if csv.NoCsv? {
      return 0;
    }
    count := CountUsage(csv.rows, emailClean, cutoff, parseTime);
  }

  /** Counting more rows never lowers the count. */
  lemma {:induction false} CountRowsMonotone(rows: seq<seq<string>>, more: seq<seq<string>>, emailClean: string,
                                             cutoff: int, parseTime: string -> Option<int>)
    ensures CountRows(rows, emailClean, cutoff, parseTime) <= CountRows(rows + more, emailClean, cutoff, parseTime)
    decreases |more|
  {
    if more == [] {
      assert rows + more == rows;
    } else {
      var init := more[..|more| - 1];
      CountRowsMonotone(rows, init, emailClean, cutoff, parseTime);
      assert rows + more == (rows + init) + [more[|more| - 1]];
      CountRowsAppend(rows + init, more[|more| - 1], emailClean, cutoff, parseTime);
    }
  }

  /**
   * A CSV read that fails partway returns the count of the rows read before
   * the error: the same as a file holding just those rows, and never more
   * than the whole file would give.
   */
  lemma CsvFailureCountsPrefix(email: string, now: int, sheet: SheetLog, rows: seq<seq<string>>,
                               rest: seq<seq<string>>, parseTime: string -> Option<int>)
    requires !sheet.SheetRows?
    ensures DailyUsage(email, now, sheet, CsvFailsAfter(rows), parseTime)
            == DailyUsage(email, now, sheet, CsvRows(rows), parseTime)
    ensures DailyUsage(email, now, sheet, CsvFailsAfter(rows), parseTime)
            <= DailyUsage(email, now, sheet, CsvRows(rows + rest), parseTime)
  {
    var emailClean := Lower(Strip(email));
    CsvUsage(email, now, sheet, CsvFailsAfter(rows), parseTime);
    CsvUsage(email, now, sheet, CsvRows(rows), parseTime);
    CsvUsage(email, now, sheet, CsvRows(rows + rest), parseTime);
    if rows != [] {
      BodyAppend(rows, rest);
      CountRowsMonotone(Body(rows), rest, emailClean, now - Day, parseTime);
    }
  }

  /** More rows after a header are more data rows. */
  lemma BodyAppend(rows: seq<seq<string>>, rest: seq<seq<string>>)
    requires rows != []
    ensures Body(rows + rest) == Body(rows) + rest
  {
    assert (rows + rest)[1..] == rows[1..] + rest;
  }

  /** Without a readable sheet, the usage is the count over the CSV rows read, after the header. */
  lemma CsvUsage(email: string, now: int, sheet: SheetLog, csv: CsvLog, parseTime: string -> Option<int>)
    requires !sheet.SheetRows? && !csv.NoCsv?
    ensures DailyUsage(email, now, sheet, csv, parseTime) == CountRows(Body(csv.rows), Lower(Strip(email)), now - Day, parseTime)
  {
  }

  /** Adding a row adds one exactly when that row counts. */
  lemma CountRowsAppend(rows: seq<seq<string>>, row: seq<string>, emailClean: string, cutoff: int,
                        parseTime: string -> Option<int>)
    ensures CountRows(rows + [row], emailClean, cutoff, parseTime)
            == CountRows(rows, emailClean, cutoff, parseTime) + (if Counted(row, emailClean, cutoff, parseTime) then 1 else 0)
  {
    assert (rows + [row])[..|rows|] == rows;
  }

  /** The header is never counted, even when it looks like a matching entry. */
  lemma HeaderSkipped(header: seq<string>, body: seq<seq<string>>, email: string, now: int,
                      csv: CsvLog, parseTime: string -> Option<int>)
    ensures DailyUsage(email, now, SheetRows([header] + body), csv, parseTime)
            == CountRows(body, Lower(Strip(email)), now - Day, parseTime)
  {
    assert ([header] + body)[1..] == body;
  }

  /** Only rows with two or more cells can count, and a row exactly 24 hours old does not. */
  lemma CountedBounds(row: seq<string>, emailClean: string, now: int, parseTime: string -> Option<int>)
    ensures |row| < 2 ==> !Counted(row, emailClean, now - Day, parseTime)
    ensures |row| >= 2 && parseTime(row[0]) == Some(now - Day) ==> !Counted(row, emailClean, now - Day, parseTime)
    ensures |row| >= 2 && Lower(Strip(row[1])) == emailClean && parseTime(row[0]) == Some(now - Day + 1)
            ==> Counted(row, emailClean, now - Day, parseTime)
  {
  }

  /** The count never exceeds the number of data rows, and a readable sheet makes the CSV irrelevant. */
  lemma UsageBounds(email: string, now: int, sheet: SheetLog, csv1: CsvLog, csv2: CsvLog, parseTime: string -> Option<int>)
    ensures sheet.SheetRows? ==> DailyUsage(email, now, sheet, csv1, parseTime) == DailyUsage(email, now, sheet, csv2, parseTime)
    ensures sheet.SheetRows? ==> DailyUsage(email, now, sheet, csv1, parseTime) <= |Body(sheet.rows)|
    ensures !sheet.SheetRows? && csv1.NoCsv? ==> DailyUsage(email, now, sheet, csv1, parseTime) == 0
  {
  }

  // ---------------------------------------------------------------------
  // parse_curr

  /**
   * `parse_curr` of a metric value (a missing key is `JNull`); None when
   * `int()` raises. A boolean is an `int` in Python and passes through. The
   * text `str()` gives a non-zero float, a list or a dictionary always holds
   * a '.', an 'e', a letter of "inf"/"nan" or a bracket, which `int()`
   * rejects, so those values raise.
   */
  function ParseCurr(x: Json): Option<int> {
    match x
    case JInt(i) => Some(i)
    case JBool(b) => Some(if b then 1 else 0)
    case JStr(s) =>
      if s == [] || s == "N/A" then Some(0)
      else ParseInt(ReplaceAll(ReplaceAll(s, "$", ""), ",", ""))
    case _ => if Truthy(x) then None else Some(0)
  }

  /** Three decimal digits, zero-padded. */
  function Digits3(r: nat): (s: string)
    requires r < 1000
    ensures |s| == 3 && AllDigits(s)
  {
    [DigitChar(r / 100), DigitChar(r / 10 % 10), DigitChar(r % 10)]
  }

  /** `f"{n:,}"`: decimal digits grouped in threes by commas. */
  function Grouped(n: nat): string
    decreases n
  {
    if n < 1000 then NatToDecimal(n) else Grouped(n / 1000) + "," + Digits3(n % 1000)
  }

  /** The decimal digits of `n` are those of `n / 1000` followed by the last three, zero-padded. */
  lemma DecimalThousands(n: nat)
    requires n >= 1000
    ensures NatToDecimal(n) == NatToDecimal(n / 1000) + Digits3(n % 1000)
  {
    var c, r := n / 1000, n % 1000;
    var a, b := n / 10, n / 100;
    ThousandsDigits(n);
    assert NatToDecimal(n) == NatToDecimal(a) + [DigitChar(r % 10)];
    assert NatToDecimal(a) == NatToDecimal(b) + [DigitChar(r / 10 % 10)];
    assert NatToDecimal(b) == NatToDecimal(c) + [DigitChar(r / 100)];
  }

  /** The last three decimal digits of `n` are those of `n % 1000`. */
  lemma ThousandsDigits(n: nat)
    requires n >= 1000
    ensures n / 10 >= 10 && n / 100 >= 10
    ensures n % 10 == n % 1000 % 10
    ensures n / 10 / 10 == n / 100 && n / 10 % 10 == n % 1000 / 10 % 10
    ensures n / 100 / 10 == n / 1000 && n / 100 % 10 == n % 1000 / 100
  {
    var c, r := n / 1000, n % 1000;
    assert n == 10 * (100 * c) + r;
    DivTen(100 * c, r);
    var a := n / 10;
    assert a == 10 * (10 * c) + r / 10;
    DivTen(10 * c, r / 10);
    assert r / 10 / 10 == r / 100;
    var b := a / 10;
    assert b == 10 * c + r / 100;
    DivTen(c, r / 100);
    assert n / 100 == b;
  }

  /** Dividing `10 * x + y` by ten. */
  lemma DivTen(x: nat, y: nat)
    ensures (10 * x + y) / 10 == x + y / 10 && (10 * x + y) % 10 == y % 10
  {
  }

  /** Removing a one-character pattern works piece by piece. */
  lemma {:induction false} RemoveCharAppend(a: string, b: string, c: char)
    ensures ReplaceAll(a + b, [c], "") == ReplaceAll(a, [c], "") + ReplaceAll(b, [c], "")
    decreases |a|
  {
    if a != [] {
      assert (a + b)[1..] == a[1..] + b;
      assert StartsWith(a + b, [c]) == StartsWith(a, [c]);
      RemoveCharAppend(a[1..], b, c);
    } else {
      assert a + b == b;
    }
  }

  /** A string with no `c` is left as it is. */
  lemma RemoveCharAbsent(s: string, c: char)
    requires c !in s
    ensures ReplaceAll(s, [c], "") == s
  {
    assert forall i :: 0 <= i < |s| ==> s[i..][..1] == [s[i]];
    assert !Contains(s, [c]);
    ReplaceAbsent(s, [c], "");
  }

  lemma {:induction false} UngroupedDigits(n: nat)
    ensures ReplaceAll(Grouped(n), ",", "") == NatToDecimal(n)
    decreases n
  {
    if n < 1000 {
      RemoveCharAbsent(NatToDecimal(n), ',');
    } else {
      UngroupedDigits(n / 1000);
      RemoveCharAppend(Grouped(n / 1000) + ",", Digits3(n % 1000), ',');
      RemoveCharAppend(Grouped(n / 1000), ",", ',');
      assert ReplaceAll(",", ",", "") == [] by {
        assert StartsWith(",", ",");
      }
      RemoveCharAbsent(Digits3(n % 1000), ',');
      DecimalThousands(n);
    }
  }

  lemma {:induction false} GroupedPlain(n: nat)
    ensures '$' !in Grouped(n) && (Grouped(n) != [] && Grouped(n)[0] != '+' && Grouped(n)[0] != '-')
    decreases n
  {
    if n >= 1000 {
      GroupedPlain(n / 1000);
      assert Grouped(n)[0] == Grouped(n / 1000)[0];
    }
  }

  /** Removing the dollar sign from a dollar amount leaves the grouped digits. */
  lemma DollarRemoved(n: nat)
    ensures ReplaceAll("$" + Grouped(n), "$", "") == Grouped(n)
  {
    GroupedPlain(n);
    RemoveCharAppend("$", Grouped(n), '$');
    assert ReplaceAll("$", "$", "") == [] by {
      assert StartsWith("$", "$");
    }
    RemoveCharAbsent(Grouped(n), '$');
  }

  /** A string other than "" and "N/A" loses "$" and "," before `int()`. */
  lemma ParseCurrText(s: string)
    requires s != [] && s != "N/A"
    ensures ParseCurr(JStr(s)) == ParseInt(ReplaceAll(ReplaceAll(s, "$", ""), ",", ""))
  {
  }

  /** A dollar amount written with thousands separators, as the prompts format incomes, parses back to its value. */
  lemma ParseCurrDollars(n: nat)
    ensures ParseCurr(JStr("$" + Grouped(n))) == Some(n)
  {
    var s := "$" + Grouped(n);
    assert s[0] == '$' && "N/A"[0] == 'N';
    ParseCurrText(s);
    DollarRemoved(n);
    UngroupedDigits(n);
    ParseDecimal(n);
  }

  /** Integers pass through; missing, empty and "N/A" values count as 0. */
  lemma ParseCurrDefaults(i: int)
    ensures ParseCurr(JInt(i)) == Some(i)
    ensures ParseCurr(JNull) == Some(0) && ParseCurr(JStr("")) == Some(0) && ParseCurr(JStr("N/A")) == Some(0)
  {
  }

  /**
   * Values other than strings: booleans count as 1 and 0, falsy values
   * (0.0, an empty list or dictionary) as 0, and every other value raises.
   */
  lemma ParseCurrNonStrings(x: Json)
    requires !x.JStr?
    ensures ParseCurr(x).Some? <==> x.JInt? || x.JBool? || !Truthy(x)
    ensures x.JBool? ==> ParseCurr(x) == Some(if x.b then 1 else 0)
    ensures ParseCurr(x).Some? && !x.JInt? ==> ParseCurr(x).value == (if x == JBool(true) then 1 else 0)
  {
  }

  // ---------------------------------------------------------------------
  // Census backfill

  const EstimatedSource := "AI (Estimated)"

  /** The census needs the model's estimate: it is missing or empty, or its `metrics` is missing or falsy. */
  predicate NeedsBackfill(census: Option<map<string, Json>>) {
    census.None? || census.value == map[] || !Truthy(Get(census.value, "metrics", JNull))
  }

  /** `analysis.get('estimated_census', {})`; None when the analysis is not a dictionary and `.get` raises. */
  function Estimate(analysis: Json): Option<Json> {
    if analysis.JObj? then Some(Get(analysis.fields, "estimated_census", JObj(map[]))) else None
  }

  /**
   * The census after the backfill block; None when the block raises (an
   * analysis that is not a dictionary, an estimate that is not a dictionary
   * and that `'metrics' in` rejects, or one that holds "metrics" and cannot
   * take a `'source'` item).
   */
  function Backfill(census: Option<map<string, Json>>, analysis: Json): Option<map<string, Json>> {
    if !NeedsBackfill(census) then census
    else if Estimate(analysis).None? then None
    else
      var estimated := Estimate(analysis).value;
      match estimated
      case JObj(m) =>
        if "metrics" !in m then Some(map["metrics" := estimated, "source" := JStr(EstimatedSource)])
        else Some(m["source" := JStr(EstimatedSource)])
      case JArr(items) =>
        if JStr("metrics") !in items then Some(map["metrics" := estimated, "source" := JStr(EstimatedSource)])
        else None
      case JStr(s) =>
        if !Contains(s, "metrics") then Some(map["metrics" := estimated, "source" := JStr(EstimatedSource)])
        else None
      case _ => None
  }

  /** After a backfill that does not raise, the census has a `metrics` key and the estimated source. */
  lemma BackfillShape(census: Option<map<string, Json>>, analysis: Json)
    requires NeedsBackfill(census) && Backfill(census, analysis).Some?
    ensures var c := Backfill(census, analysis).value;
            "metrics" in c && c["source"] == JStr(EstimatedSource)
  {
  }

  /** A census with truthy metrics, such as a compiled ACS profile, is left as it is. */
  lemma BackfillKeepsCensus(census: map<string, Json>, analysis: Json)
    requires "metrics" in census && Truthy(census["metrics"])
    ensures Backfill(Some(census), analysis) == Some(census)
  {
  }

  /** An analysis object without `estimated_census` backfills empty metrics. */
  lemma BackfillWithoutEstimate(census: Option<map<string, Json>>, analysis: Json)
    requires NeedsBackfill(census) && analysis.JObj? && "estimated_census" !in analysis.fields
    ensures Backfill(census, analysis) == Some(map["metrics" := JObj(map[]), "source" := JStr(EstimatedSource)])
  {
  }

  /**
   * An analysis that is not a dictionary, such as the `None` of an empty key
   * pool or a reply that parses to a list, makes `analysis.get` raise.
   */
  lemma BackfillNeedsObject(census: Option<map<string, Json>>, analysis: Json)
    requires NeedsBackfill(census) && !analysis.JObj?
    ensures Backfill(census, analysis).None?
  {
  }

  /** The block takes the stored estimate itself as the census: a dictionary holding "metrics". */
  predicate EstimateTaken(census: Option<map<string, Json>>, analysis: Json) {
    NeedsBackfill(census) && analysis.JObj? && "estimated_census" in analysis.fields
    && analysis.fields["estimated_census"].JObj? && "metrics" in analysis.fields["estimated_census"].fields
  }

  /**
   * The analysis after the block. When the estimate is taken as the census,
   * `census['source'] = ...` writes into the estimate inside the analysis,
   * which is the object kept in the session.
   */
  function BackfilledAnalysis(census: Option<map<string, Json>>, analysis: Json): Json {
    if EstimateTaken(census, analysis) then
      var est := analysis.fields["estimated_census"].fields;
      JObj(analysis.fields["estimated_census" := JObj(est["source" := JStr(EstimatedSource)])])
    else analysis
  }

  /**
   * The census and the analysis share the estimate: when it is taken, the
   * analysis afterwards holds exactly the backfilled census under
   * 'estimated_census' and nothing else in it changes; otherwise the
   * analysis is untouched.
   */
  lemma BackfillSharesEstimate(census: Option<map<string, Json>>, analysis: Json)
    ensures var a := BackfilledAnalysis(census, analysis);
            EstimateTaken(census, analysis) ==>
              && Backfill(census, analysis).Some?
              && a.JObj? && a.fields.Keys == analysis.fields.Keys
              && a.fields["estimated_census"] == JObj(Backfill(census, analysis).value)
              && forall k :: k in a.fields && k != "estimated_census" ==> a.fields[k] == analysis.fields[k]
    ensures !EstimateTaken(census, analysis) ==> BackfilledAnalysis(census, analysis) == analysis
  {
  }
}
