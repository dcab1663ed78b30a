/**
 * Grid cells and unit steps shared by the step queues, the movement planner and the walker.
 * The check `abs(dx) + abs(dy) != 1` appears in npc_step_adapter.py, npc_arcade_adapter.py
 * and entities.py; it is defined once here.
 */
module Cells {

  /** A grid cell `(x, y)`. */
  type Cell = (int, int)

  /** A displacement `(dx, dy)`; a queued step is always a unit one. */
  type Step = (int, int)

  function Abs(n: int): nat
  {
    if n < 0 then -n else n
  }

  /** `|dx| + |dy| == 1`: exactly one axis moves, by exactly one cell. */
  predicate IsUnitStep(dx: int, dy: int)
  {
    Abs(dx) + Abs(dy) == 1
  }

  /** Every element of `q` is a unit cardinal step. */
  predicate AllUnit(q: seq<Step>)
  {
    forall i :: 0 <= i < |q| ==> IsUnitStep(q[i].0, q[i].1)
  }

  /** The unit steps are exactly the four cardinal moves: (1,1) and (0,0) are rejected. */
  lemma UnitStepIsCardinal(dx: int, dy: int)
    ensures IsUnitStep(dx, dy) <==> (dx, dy) in {(1, 0), (-1, 0), (0, 1), (0, -1)}
  {
  }

  function Add(c: Cell, v: Step): Cell
  {
    (c.0 + v.0, c.1 + v.1)
  }

  /** Length of a displacement in the grid metric (number of unit steps it needs at least). */
  function Manhattan(v: (int, int)): nat
  {
    Abs(v.0) + Abs(v.1)
  }

  /** Adding two steps one after the other is adding their sum. */
  lemma AddAssoc(c: Cell, v: Step, w: Step)
    ensures Add(Add(c, v), w) == Add(c, Add(v, w))
  {
  }

  /** Vector sum of a sequence of steps: where they lead from the origin. */
  function Sum(q: seq<Step>): (int, int)
  {
    if q == [] then (0, 0) else Add(q[0], Sum(q[1..]))
  }

  lemma {:induction false} SumAppend(a: seq<Step>, b: seq<Step>)
    ensures Sum(a + b) == Add(Sum(a), Sum(b))
  {
    if a == [] {
      assert a + b == b;
    } else {
      assert (a + b)[1..] == a[1..] + b;
      SumAppend(a[1..], b);
    }
  }

  /** Sum of a prefix one element longer. */
  lemma SumSnoc(q: seq<Step>, p: nat)
    requires p < |q|
    ensures Sum(q[..p + 1]) == Add(Sum(q[..p]), q[p])
  {
    assert q[..p + 1] == q[..p] + [q[p]];
    SumAppend(q[..p], [q[p]]);
  }

  /** `n` copies of the step `v`. */
  function Repeat(v: Step, n: nat): (r: seq<Step>)
    ensures |r| == n
  {
    if n == 0 then [] else [v] + Repeat(v, n - 1)
  }

  /** Every element of `Repeat(v, n)` is `v`. */
  lemma {:induction false} RepeatAt(v: Step, n: nat, i: nat)
    requires i < n
    ensures Repeat(v, n)[i] == v
  {
    if i > 0 {
      RepeatAt(v, n - 1, i - 1);
    }
  }

  lemma RepeatPrefix(v: Step, n: nat, m: nat)
    requires m <= n
    ensures Repeat(v, n)[..m] == Repeat(v, m)
  {
    forall i | 0 <= i < m ensures Repeat(v, n)[i] == Repeat(v, m)[i] {
      RepeatAt(v, n, i);
      RepeatAt(v, m, i);
    }
  }

  lemma RepeatSnoc(v: Step, n: nat)
    ensures Repeat(v, n + 1) == Repeat(v, n) + [v]
  {
    forall i | 0 <= i < n + 1 ensures Repeat(v, n + 1)[i] == (Repeat(v, n) + [v])[i] {
      RepeatAt(v, n + 1, i);
      if i < n { RepeatAt(v, n, i); }
    }
  }

  lemma MulSucc(m: int, a: int)
    ensures a + m * a == (m + 1) * a
  {
  }

  lemma {:induction false} SumRepeat(v: Step, n: nat)
    ensures Sum(Repeat(v, n)) == (n * v.0, n * v.1)
  {
    if n > 0 {
      var r := Repeat(v, n);
      assert r[0] == v && r[1..] == Repeat(v, n - 1);
      SumRepeat(v, n - 1);
      assert Sum(r) == Add(v, ((n - 1) * v.0, (n - 1) * v.1));
      assert v.0 + (n - 1) * v.0 == n * v.0 by { MulSucc(n - 1, v.0); }
      assert v.1 + (n - 1) * v.1 == n * v.1 by { MulSucc(n - 1, v.1); }
    }
  }

  /** A sequence of `n` unit steps moves at most `n` cells in the grid metric. */
  lemma {:induction false} UnitStepsBoundDisplacement(q: seq<Step>)
    requires AllUnit(q)
    ensures Manhattan(Sum(q)) <= |q|
  {
    if q != [] {
      assert AllUnit(q[1..]) by {
        forall i | 0 <= i < |q[1..]| ensures IsUnitStep(q[1..][i].0, q[1..][i].1) {
          assert q[1..][i] == q[i + 1];
        }
      }
      UnitStepsBoundDisplacement(q[1..]);
    }
  }
}
