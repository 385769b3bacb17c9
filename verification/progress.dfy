/** The progress bar: how many tasks are completed and the rounded percentage. */
module ProgressBar {
  import opened Wrappers
  import opened TaskTypes

  predicate IsCompleted(t: ViewTask) {
    t.status == Some("Completed")
  }

  /** `tasks.filter(t => t.status === "Completed").length`. */
  function CompletedCount(tasks: seq<ViewTask>): (c: nat)
    ensures c <= |tasks|
    ensures c == |tasks| <==> forall i :: 0 <= i < |tasks| ==> IsCompleted(tasks[i])
    ensures c == 0 <==> forall i :: 0 <= i < |tasks| ==> !IsCompleted(tasks[i])
  {
    if tasks == [] then 0
    else (if IsCompleted(tasks[0]) then 1 else 0) + CompletedCount(tasks[1..])
  }

  /** Counting distributes over concatenation: the count is a per-task sum. */
  lemma {:induction false} CompletedCountAppend(a: seq<ViewTask>, b: seq<ViewTask>)
    ensures CompletedCount(a + b) == CompletedCount(a) + CompletedCount(b)
  {
    if a == [] {
      assert a + b == b;
    } else {
      assert (a + b)[1..] == a[1..] + b;
      assert (a + b)[0] == a[0];
      CompletedCountAppend(a[1..], b);
    }
  }

  /** `Math.round(completed / total * 100)` over the rationals, and 0 for no tasks. */
  function Percentage(completed: nat, total: nat): (p: nat)
    requires completed <= total
    ensures total == 0 ==> p == 0
    ensures total > 0 ==> total * (2 * p - 1) <= 200 * completed < total * (2 * p + 1)
    ensures p <= 100
  {
    if total == 0 then 0
    else
      var n := 200 * completed + total;
      var d := 2 * total;
      var p := n / d;
      assert d * p <= n < d * p + d;
      assert total * (2 * p - 1) == d * p - total;
      assert total * (2 * p + 1) == d * p + total;
      assert n < d * 101 by {
        assert 200 * completed <= 200 * total;
      }
      DivBelow(n, d, 101);
      p
  }

  lemma DivBelow(n: nat, d: nat, k: nat)
    requires d > 0 && n < d * k
    ensures n / d < k
  {
    assert d * (n / d) <= n;
    MulCancelStrict(d, n / d, k);
  }

  lemma MulCancelStrict(d: nat, a: int, b: int)
    requires d > 0 && d * a < d * b
    ensures a < b
  {
  }

  /** The rounding characterisation pins the percentage down: exactly one value
      satisfies it. */
  lemma PercentageUnique(completed: nat, total: nat, q: int)
    requires 0 < total && completed <= total
    requires total * (2 * q - 1) <= 200 * completed < total * (2 * q + 1)
    ensures q == Percentage(completed, total)
  {
    var p: int := Percentage(completed, total);
    MulCancelStrict(total, 2 * q - 1, 2 * p + 1);
    MulCancelStrict(total, 2 * p - 1, 2 * q + 1);
  }

  /** For a fixed total, more completed tasks never lower the percentage. */
  lemma {:induction false} PercentageMonotone(c1: nat, c2: nat, total: nat)
    requires c1 <= c2 <= total
    ensures Percentage(c1, total) <= Percentage(c2, total)
  {
    if total > 0 {
      var p1: int := Percentage(c1, total);
      var p2: int := Percentage(c2, total);
      assert total * (2 * p1 - 1) < total * (2 * p2 + 1) by {
        assert 200 * c1 <= 200 * c2;
      }
      MulCancelStrict(total, 2 * p1 - 1, 2 * p2 + 1);
    }
  }

  /** All completed gives 100 and none completed gives 0. */
  lemma PercentageEnds(total: nat)
    ensures Percentage(0, total) == 0
    ensures total > 0 ==> Percentage(total, total) == 100
  {
    if total > 0 {
      PercentageUnique(0, total, 0);
      PercentageUnique(total, total, 100);
    }
  }

  /** The percentage the bar shows for a task list. */
  function TaskPercentage(tasks: seq<ViewTask>): (p: nat)
    ensures tasks == [] ==> p == 0
    ensures p <= 100
    ensures p == 100 <== tasks != [] && forall i :: 0 <= i < |tasks| ==> IsCompleted(tasks[i])
    ensures p == 0 <== forall i :: 0 <= i < |tasks| ==> !IsCompleted(tasks[i])
  {
    PercentageEnds(|tasks|);
    Percentage(CompletedCount(tasks), |tasks|)
  }
}
