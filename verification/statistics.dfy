/** The figures on the statistics screen, derived from the current tasks:
    totals, overdue count, completion rate and the breakdowns by category
    and by priority. */
module Statistics {
  import opened Common
  import opened Firestore
  import opened Helpers

  /** `tasks.filter(t => t.completed).length`. */
  function CompletedCount(tasks: seq<Task>): nat {
    |Filter(tasks, (t: Task) => t.completed)|
  }

  /** `tasks.filter(t => !t.completed && isOverdue(t.dueDate)).length`. */
  function OverdueCount(tasks: seq<Task>, now: Time): nat {
    |Filter(tasks, (t: Task) => !t.completed && Overdue(t.dueDate, now))|
  }

  /** `total - completed`, never negative, and equal to the number of
      incomplete tasks, of which the overdue ones are a part. */
  function PendingCount(tasks: seq<Task>): (pending: nat)
    ensures CompletedCount(tasks) + pending == |tasks|
    ensures pending == |Filter(tasks, (t: Task) => !t.completed)|
  {
    FilterComplement(tasks, (t: Task) => t.completed, (t: Task) => !t.completed);
    |tasks| - CompletedCount(tasks)
  }

  /** Overdue tasks are counted among the pending ones. */
  lemma OverdueWithinPending(tasks: seq<Task>, now: Time)
    ensures OverdueCount(tasks, now) <= PendingCount(tasks)
  {
    FilterLengthMono(tasks, (t: Task) => !t.completed && Overdue(t.dueDate, now), (t: Task) => !t.completed);
  }

  lemma MulLe(d: nat, a: int, b: int)
    requires a <= b
    ensures d * a <= d * b
  {
    assert d * b - d * a == d * (b - a);
  }

  /** The quotient of `n` by `d` is the one `q` with `d * q <= n < d * (q + 1)`. */
  lemma QuotientUnique(n: nat, d: nat, q: int)
    requires d > 0
    requires d * q <= n < d * (q + 1)
    ensures n / d == q
  {
    var r := n / d;
    assert d * r <= n < d * r + d;
    if q < r {
      MulLe(d, q + 1, r);
    } else if q > r {
      MulLe(d, r + 1, q);
    }
  }

  /** `Math.round((completed / total) * 100)`, or 0 without tasks: the
      percentage rounded to the nearest integer, halves rounded up. */
  function CompletionRate(completed: nat, total: nat): (rate: nat)
    requires completed <= total
    ensures total == 0 ==> rate == 0
    ensures total > 0 ==> 2 * total * rate <= 200 * completed + total < 2 * total * (rate + 1)
    ensures rate <= 100
    ensures total > 0 && completed == total ==> rate == 100
  {
    if total > 0 then
      var n, d := 200 * completed + total, 2 * total;
      var r := n / d;
      assert d * r <= n < d * r + d;
      assert r <= 100 by {
        if r > 100 {
          MulLe(d, 101, r);
        }
      }
      assert completed == total ==> r == 100 by {
        if completed == total {
          QuotientUnique(n, d, 100);
        }
      }
      r
    else 0
  }

  // ---------------------------------------------------------------------
  // Category breakdown

  function Categories(tasks: seq<Task>): (cs: seq<string>)
    ensures |cs| == |tasks|
    ensures forall i :: 0 <= i < |tasks| ==> cs[i] == tasks[i].category
  {
    seq(|tasks|, i requires 0 <= i < |tasks| => tasks[i].category)
  }

  /** The sum of the values of a count map. */
  ghost function MapSum(m: map<string, nat>): nat
    decreases |m|
  {
    if m == map[] then 0
    else
      var k :| k in m;
      assert |m - {k}| < |m| by {
        assert (m - {k}).Keys + {k} == m.Keys;
      }
      m[k] + MapSum(m - {k})
  }

  /** The sum does not depend on the key it starts from. */
  lemma {:induction false} MapSumRemove(m: map<string, nat>, k: string)
    requires k in m
    ensures MapSum(m) == m[k] + MapSum(m - {k})
    decreases |m|
  {
    var j :| j in m && MapSum(m) == m[j] + MapSum(m - {j});
    if j != k {
      assert (m - {k}).Keys + {k} == m.Keys;
      assert (m - {j}).Keys + {j} == m.Keys;
      MapSumRemove(m - {j}, k);
      MapSumRemove(m - {k}, j);
      assert (m - {j}) - {k} == (m - {k}) - {j};
    }
  }

  /** Counting one more occurrence of a key adds one to the sum. */
  lemma MapSumIncrement(m: map<string, nat>, k: string)
    ensures MapSum(m[k := (if k in m then m[k] else 0) + 1]) == MapSum(m) + 1
  {
    var m' := m[k := (if k in m then m[k] else 0) + 1];
    MapSumRemove(m', k);
    assert m' - {k} == m - {k};
    if k in m {
      MapSumRemove(m, k);
    } else {
      assert m - {k} == m;
    }
  }

  /** `counts` is the tally of `seen`: its keys are exactly the values that
      occur, each mapped to how often it occurs, and the counts add up to
      the number of values. */
  ghost predicate Counted(counts: map<string, nat>, seen: seq<string>) {
    && (forall c :: c in counts <==> c in multiset(seen))
    && (forall c :: c in counts ==> counts[c] == multiset(seen)[c])
    && MapSum(counts) == |seen|
  }

  /** `(categoryCount[c] || 0) + 1`. */
  function Increment(counts: map<string, nat>, c: string): map<string, nat> {
    counts[c := (if c in counts then counts[c] else 0) + 1]
  }

  /** Adding one occurrence to the tally tallies one more value. */
  lemma CountStep(counts: map<string, nat>, seen: seq<string>, x: string)
    requires Counted(counts, seen)
    ensures Counted(Increment(counts, x), seen + [x])
  {
    var after := Increment(counts, x);
    var m := multiset(seen + [x]);
    assert m == multiset(seen) + multiset{x};
    MapSumIncrement(counts, x);
    forall c
      ensures c in after <==> c in m
      ensures c in after ==> after[c] == m[c]
    {
      if c != x {
        assert m[c] == multiset(seen)[c];
      }
    }
  }

  /** The `categoryCount` loop: one pass over the tasks, adding one to the
      entry of each task's category. Its keys are exactly the categories
      that occur, each counted as often as it occurs, and the counts add up
      to the number of tasks. */
  method CategoryCount(tasks: seq<Task>) returns (counts: map<string, nat>)
    ensures forall c :: c in counts <==> c in Categories(tasks)
    ensures forall c :: c in counts ==> counts[c] == multiset(Categories(tasks))[c]
    ensures MapSum(counts) == |tasks|
  {
    ghost var cs := Categories(tasks);
    counts := map[];
    var i := 0;
    while i < |tasks|
      invariant 0 <= i <= |tasks|
      invariant Counted(counts, cs[..i])
    {
      var category := tasks[i].category;
      assert cs[..i + 1] == cs[..i] + [category];
      CountStep(counts, cs[..i], category);
      counts := Increment(counts, category);
      i := i + 1;
    }
    assert cs[..i] == cs;
    CountedKeys(counts, cs);
  }

  /** The keys of a tally are the values that occur. */
  lemma CountedKeys(counts: map<string, nat>, seen: seq<string>)
    requires Counted(counts, seen)
    ensures forall c :: c in counts <==> c in seen
  {
    forall c
      ensures c in counts <==> c in seen
    {
      assert c in seen <==> c in multiset(seen);
    }
  }

  /** A category occurs exactly when some task has it. */
  lemma CategoriesOfTasks(tasks: seq<Task>)
    ensures forall c :: c in Categories(tasks) <==> exists t :: t in tasks && t.category == c
  {
    var cs := Categories(tasks);
    forall c
      ensures c in cs <==> exists t :: t in tasks && t.category == c
    {
      if c in cs {
        var i :| 0 <= i < |cs| && cs[i] == c;
        assert tasks[i] in tasks;
      }
      if exists t :: t in tasks && t.category == c {
        var t :| t in tasks && t.category == c;
        var i :| 0 <= i < |tasks| && tasks[i] == t;
        assert cs[i] == c;
      }
    }
  }

  // ---------------------------------------------------------------------
  // Priority breakdown

  /** `tasks.filter(t => t.priority === level).length`. */
  function PriorityCount(tasks: seq<Task>, level: string): nat {
    |Filter(tasks, (t: Task) => t.priority == level)|
  }

  /** When every task has one of the three levels, the three counts add up
      to the number of tasks. */
  lemma {:induction false} PriorityCountsSum(tasks: seq<Task>)
    requires forall t :: t in tasks ==> IsLevel(t.priority)
    ensures PriorityCount(tasks, "high") + PriorityCount(tasks, "medium") + PriorityCount(tasks, "low") == |tasks|
  {
    if tasks != [] {
      var init := tasks[..|tasks| - 1];
      assert forall t :: t in init ==> t in tasks;
      assert tasks[|tasks| - 1] in tasks;
      PriorityCountsSum(init);
    }
  }

  /** The `statistics` memo. */
  datatype Figures = Figures(
    total: nat,
    completed: nat,
    pending: nat,
    overdue: nat,
    completionRate: nat,
    categoryCount: map<string, nat>,
    high: nat,
    medium: nat,
    low: nat)

  /** Each figure is its own count over the tasks: the completed ones, the
      incomplete ones, the incomplete overdue ones, the rounded percentage
      of the completed ones, each category's tally and each level's count;
      and the figures agree with one another. */
  method ComputeStatistics(tasks: seq<Task>, now: Time) returns (s: Figures)
    ensures s.total == |tasks| && s.completed + s.pending == s.total
    ensures s.completed == CompletedCount(tasks)
    ensures s.pending == |Filter(tasks, (t: Task) => !t.completed)|
    ensures s.overdue == OverdueCount(tasks, now)
    ensures s.completionRate == CompletionRate(s.completed, s.total)
    ensures forall c :: c in s.categoryCount ==> s.categoryCount[c] == multiset(Categories(tasks))[c]
    ensures s.high == PriorityCount(tasks, "high") && s.medium == PriorityCount(tasks, "medium")
    ensures s.low == PriorityCount(tasks, "low")
    ensures s.overdue <= s.pending
    ensures s.completionRate <= 100
    ensures s.total > 0 && s.completed == s.total ==> s.completionRate == 100
    ensures s.total == 0 ==> s.completionRate == 0
    ensures forall c :: c in s.categoryCount <==> exists t :: t in tasks && t.category == c
    ensures MapSum(s.categoryCount) == s.total
    ensures (forall t :: t in tasks ==> IsLevel(t.priority)) ==> s.high + s.medium + s.low == s.total
  {
    var total := |tasks|;
    var completed := CompletedCount(tasks);
    var pending := PendingCount(tasks);
    var overdue := OverdueCount(tasks, now);
    OverdueWithinPending(tasks, now);
    var rate := CompletionRate(completed, total);
    var categoryCount := CategoryCount(tasks);
    CategoriesOfTasks(tasks);
    if forall t :: t in tasks ==> IsLevel(t.priority) {
      PriorityCountsSum(tasks);
    }
    s := Figures(total, completed, pending, overdue, rate, categoryCount,
      PriorityCount(tasks, "high"), PriorityCount(tasks, "medium"), PriorityCount(tasks, "low"));
  }
}
