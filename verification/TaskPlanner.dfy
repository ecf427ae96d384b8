/**
 How many tasks a parallel range scan is cut into
 (src/data_plane/ob_parallel_range_task_planner.cpp).
 */
module TaskPlanner {

  datatype Params = Params(
    minTasks: int,      // per thread
    maxTasks: int,      // per thread
    access: int,        // least size of a task, in KB
    parallelism: int,
    load: int           // wanted size of a task, in KB
  )

  datatype Plan = Unexpected | Tasks(count: int)

  function Min(x: int, y: int): int {
    if x <= y then x else y
  }

  function Max(x: int, y: int): int {
    if x >= y then x else y
  }

  /** A product as a 64-bit signed register holds it. */
  function Wrap(x: int): int {
    (x + 0x8000_0000_0000_0000) % 0x1_0000_0000_0000_0000 - 0x8000_0000_0000_0000
  }

  predicate Positive(p: Params) {
    p.minTasks > 0 && p.maxTasks > 0 && p.access > 0 && p.parallelism > 0 && p.load > 0
  }

  function Load(p: Params): int {
    Max(p.load, p.access)
  }

  function Compute(p: Params, total: int): Plan {
    if !Positive(p) then Unexpected
    else
      var load := Load(p);
      var lower := Wrap(Wrap(p.parallelism * load) * p.minTasks);
      var upper := Wrap(Wrap(p.parallelism * load) * p.maxTasks);
      if total < 0 || lower < 0 || upper < 0 then Unexpected
      else if total < lower then
        Tasks(Max(Min(Wrap(p.minTasks * p.parallelism), total / p.access), total / load))
      else if total > upper then Tasks(Wrap(p.maxTasks * p.parallelism))
      else Tasks(total / load)
  }

  /** Both bounds fit a 64-bit integer. */
  predicate Fits(p: Params) {
    && Positive(p)
    && p.parallelism * Load(p) * p.minTasks < 0x8000_0000_0000_0000
    && p.parallelism * Load(p) * p.maxTasks < 0x8000_0000_0000_0000
  }

  /** A wrapped product is the one 64-bit signed number congruent to it. */
  lemma WrapIsResidue(x: int)
    ensures -0x8000_0000_0000_0000 <= Wrap(x) < 0x8000_0000_0000_0000
    ensures (Wrap(x) - x) % 0x1_0000_0000_0000_0000 == 0
  {
    var m, y := 0x1_0000_0000_0000_0000, x + 0x8000_0000_0000_0000;
    assert Wrap(x) - x == -(y / m) * m;
  }

  // ---------------------------------------------------------------- division

  lemma TimesMono(x: int, y: int, z: int)
    requires x <= y && z >= 0
    ensures x * z <= y * z
  {
  }

  lemma DivBelow(t: int, e: int, k: int)
    requires e > 0
    ensures t < k * e <==> t / e < k
    ensures t / e * e <= t
  {
    if t / e < k {
      TimesMono(t / e + 1, k, e);
      assert (t / e + 1) * e == t / e * e + e;
    } else {
      TimesMono(k, t / e, e);
    }
  }

  lemma DivMono(t: int, u: int, e: int)
    requires e > 0 && t <= u
    ensures t / e <= u / e
  {
    DivBelow(t, e, u / e + 1);
    DivBelow(u, e, u / e + 1);
  }

  lemma DivAnti(t: int, a: int, e: int)
    requires 0 < a <= e && t >= 0
    ensures t / e <= t / a
  {
    DivBelow(t, e, 0);
    DivBelow(t, a, t / e);
    assert t / e * a <= t / e * e by { TimesMono(a, e, t / e); }
  }

  lemma WrapFits(x: int, y: int)
    requires 0 < x && 0 < y && x * y < 0x8000_0000_0000_0000
    ensures Wrap(x) == x && Wrap(y) == y && Wrap(x * y) == x * y
  {
    assert x <= x * y by { TimesMono(1, y, x); }
    assert y <= x * y by { TimesMono(1, x, y); }
  }

  lemma WrapBound(threads: int, load: int, k: int)
    requires threads > 0 && load > 0 && k > 0 && threads * load * k < 0x8000_0000_0000_0000
    ensures Wrap(Wrap(threads * load) * k) == k * threads * load >= 0
    ensures Wrap(k * threads) == k * threads > 0
  {
    hide Wrap;
    assert threads * load > 0 by { TimesMono(1, threads, load); }
    WrapFits(threads * load, k);
    assert threads * load * k == k * threads * load;
    assert k * threads > 0 by { TimesMono(1, k, threads); }
    WrapFits(k * threads, load);
  }

  /** The count over the integers, given `low` and `high` tasks as the two limits. */
  function Exact(low: int, high: int, access: int, load: int, total: int): int
    requires access > 0 && load > 0
  {
    if total < low * load then Max(Min(low, total / access), total / load)
    else if total > high * load then high
    else total / load
  }

  lemma ComputesExactly(p: Params, total: int)
    requires Fits(p) && total >= 0
    ensures Compute(p, total)
         == Tasks(Exact(p.minTasks * p.parallelism, p.maxTasks * p.parallelism, p.access, Load(p), total))
    ensures 0 < p.minTasks * p.parallelism && 0 < p.maxTasks * p.parallelism
  {
    hide Wrap;
    WrapBound(p.parallelism, Load(p), p.minTasks);
    WrapBound(p.parallelism, Load(p), p.maxTasks);
  }

  /** Where nothing overflows, exactly a parameter that is not positive or a negative size is refused. */
  lemma RefusedIff(p: Params, total: int)
    requires p.minTasks > 0 && p.maxTasks > 0 && p.access > 0 && p.parallelism > 0 && p.load > 0 ==> Fits(p)
    ensures Compute(p, total) == Unexpected <==>
              || p.minTasks <= 0 || p.maxTasks <= 0 || p.access <= 0 || p.parallelism <= 0 || p.load <= 0
              || total < 0
  {
    if Positive(p) && total >= 0 {
      hide Compute;
      ComputesExactly(p, total);
    }
  }

  // ---------------------------------------------------------------- results

  lemma ExactClosed(low: int, high: int, access: int, load: int, total: int)
    requires 0 < low <= high && 0 < access <= load && total >= 0
    ensures Exact(low, high, access, load, total) == Min(high, Max(total / load, Min(low, total / access)))
  {
    DivBelow(total, load, low);
    DivBelow(total, load, high);
    DivBelow(total, load, high + 1);
    assert (high + 1) * load == high * load + load;
  }

  /** One formula in place of the case analysis: the wanted size sets the number, not fewer than `minTasks` a
      thread as far as the least task size allows, and never more than `maxTasks` a thread. */
  lemma ClosedForm(p: Params, total: int)
    requires Fits(p) && p.minTasks <= p.maxTasks && total >= 0
    ensures Compute(p, total) == Tasks(
              Min(p.maxTasks * p.parallelism,
                  Max(total / Load(p), Min(p.minTasks * p.parallelism, total / p.access))))
  {
    hide Compute, Exact;
    ComputesExactly(p, total);
    TimesMono(p.minTasks, p.maxTasks, p.parallelism);
    ExactClosed(p.minTasks * p.parallelism, p.maxTasks * p.parallelism, p.access, Load(p), total);
  }

  lemma Monotone(p: Params, t: int, u: int)
    requires Fits(p) && p.minTasks <= p.maxTasks && 0 <= t <= u
    ensures Compute(p, t).Tasks? && Compute(p, u).Tasks? && Compute(p, t).count <= Compute(p, u).count
  {
    hide Compute;
    ClosedForm(p, t);
    ClosedForm(p, u);
    DivMono(t, u, Load(p));
    DivMono(t, u, p.access);
  }

  lemma ExactFits(low: int, high: int, access: int, load: int, total: int)
    requires 0 < low && 0 < high && 0 < access <= load && total >= 0
    ensures 0 <= Exact(low, high, access, load, total) <= total / access
  {
    DivBelow(total, load, 0);
    DivBelow(total, load, high);
    DivAnti(total, access, load);
  }

  /** No plan has more tasks of the least size than there is data, whatever the order of the two limits. */
  lemma TasksFit(p: Params, total: int)
    requires Fits(p) && total >= 0
    ensures Compute(p, total).Tasks? && 0 <= Compute(p, total).count && Compute(p, total).count * p.access <= total
  {
    hide Compute, Exact;
    ComputesExactly(p, total);
    ExactFits(p.minTasks * p.parallelism, p.maxTasks * p.parallelism, p.access, Load(p), total);
    TimesMono(Compute(p, total).count, total / p.access, p.access);
    DivBelow(total, p.access, 0);
  }

  /** With the limits the wrong way round, the upper one still holds in one corner. */
  predicate NeverOver(p: Params) {
    || p.minTasks <= p.maxTasks
    || (p.parallelism == 1 && p.minTasks == p.maxTasks + 1 && p.load <= p.access)
  }

  lemma CappedWhen(p: Params, total: int)
    requires Fits(p) && NeverOver(p) && total >= 0
    ensures Compute(p, total).Tasks? && Compute(p, total).count <= p.maxTasks * p.parallelism
  {
    hide Compute;
    if p.minTasks <= p.maxTasks {
      ClosedForm(p, total);
    } else {
      ComputesExactly(p, total);
      assert p.minTasks * p.parallelism == p.minTasks && p.maxTasks * p.parallelism == p.maxTasks;
      DivBelow(total, Load(p), p.minTasks);
      DivBelow(total, Load(p), p.maxTasks);
    }
  }

  lemma JustUnder(n: int, load: int, access: int)
    requires n > 0 && 0 < access < load
    ensures (n * load - 1) / access >= n
  {
    TimesMono(access, load - 1, n);
    assert n * (load - 1) == n * load - n;
    DivBelow(n * load - 1, access, n);
  }

  lemma MoreThanOneOver(few: int, many: int, threads: int)
    requires 0 < many < few && threads > 0
    ensures few * threads > many * threads
    ensures !(threads == 1 && few == many + 1) ==> few * threads - 1 > many * threads
  {
    TimesMono(many + 1, few, threads);
    assert (many + 1) * threads == many * threads + threads;
    if threads == 1 {
      assert few * threads == few && many * threads == many;
    }
  }

  /** The size just short of the lower bound goes over the limit. */
  lemma ExactOver(low: int, high: int, access: int, load: int)
    requires 0 < high < low && 0 < access <= load && (low - 1 > high || access < load)
    ensures low * load - 1 >= 0 && Exact(low, high, access, load, low * load - 1) > high
  {
    assert low * load >= low by { TimesMono(1, load, low); }
    assert (low - 1) * load == low * load - load;
    DivBelow(low * load - 1, load, low - 1);
    if access < load {
      JustUnder(low, load, access);
    }
  }

  lemma OverLimit(p: Params)
    requires Fits(p) && !NeverOver(p)
    ensures var total := p.minTasks * p.parallelism * Load(p) - 1;
            total >= 0 && Compute(p, total).Tasks? && Compute(p, total).count > p.maxTasks * p.parallelism
  {
    hide Compute, Exact;
    MoreThanOneOver(p.minTasks, p.maxTasks, p.parallelism);
    WrapBound(p.parallelism, Load(p), p.maxTasks);
    ExactOver(p.minTasks * p.parallelism, p.maxTasks * p.parallelism, p.access, Load(p));
    ComputesExactly(p, p.minTasks * p.parallelism * Load(p) - 1);
  }

  /** The upper limit holds for every size exactly under this condition on the parameters. */
  lemma CappedIff(p: Params)
    requires Fits(p)
    ensures (forall total :: total >= 0 ==> Compute(p, total).Tasks? && Compute(p, total).count <= p.maxTasks * p.parallelism)
            <==> NeverOver(p)
  {
    hide Compute, Fits;
    if NeverOver(p) {
      forall total | total >= 0
        ensures Compute(p, total).Tasks? && Compute(p, total).count <= p.maxTasks * p.parallelism
      {
        CappedWhen(p, total);
      }
    } else {
      OverLimit(p);
    }
  }
}
