/**
 * The order of work in the main loop of Redfield.solve: for each index i of the time grid,
 * update_ops (time-dependent mode only), then analyze_state when i % every == 0, then one
 * integrator step. The engine records these events as it runs; this module says which
 * events a run of n indices produces and in which order.
 */
module Schedule {

  /** One piece of work of solve's loop, tagged with its index into the time grid. */
  datatype Event = Update(i: nat) | Analyze(i: nat) | Integrate(i: nat)

  /** The events of index i, in the order the loop body performs them; due says whether i is sampled. */
  function StepEvents(i: nat, due: bool, timeDep: bool): (es: seq<Event>)
  {
    (if timeDep then [Update(i)] else []) + (if due then [Analyze(i)] else []) + [Integrate(i)]
  }

  /**
   * Whether index i is sampled: i % every == 0 (DueIsMod), by repeated subtraction of |every|
   * so that the solver meets the remainder only where a proof asks for it.
   */
  function Due(i: nat, every: int): bool
    requires every != 0
    decreases i
  {
    if i < Abs(every) then i == 0 else Due(i - Abs(every), every)
  }

  lemma {:induction false} DueIsMod(i: nat, every: int)
    requires every != 0
    ensures Due(i, every) <==> i % every == 0
    decreases i
  {
    var e := Abs(every);
    if every < 0 {
      ModNegative(i, every);
    }
    if i < e {
      DivModUnique(i, e, 0, i);
    } else {
      DueIsMod(i - e, every);
      if every < 0 {
        ModNegative(i - e, every);
      }
      var q, r := (i - e) / e, (i - e) % e;
      assert i == (q + 1) * e + r;
      DivModUnique(i, e, q + 1, r);
    }
  }

  /** The events of indices 0..n-1. */
  function Trace(n: nat, every: int, timeDep: bool): (tr: seq<Event>)
    requires every != 0
  {
    if n == 0 then [] else Trace(n - 1, every, timeDep) + StepEvents(n - 1, Due(n - 1, every), timeDep)
  }

  lemma TraceStep(n: nat, every: int, timeDep: bool)
    requires every != 0 && n > 0
    ensures Trace(n, every, timeDep) == Trace(n - 1, every, timeDep) + StepEvents(n - 1, Due(n - 1, every), timeDep)
  {
  }

  /** Position of an event within its index's loop body. */
  function Rank(e: Event): nat {
    match e
    case Update(_) => 0
    case Analyze(_) => 1
    case Integrate(_) => 2
  }

  /** Events sort by index first and by position in the loop body second. */
  function Key(e: Event): nat {
    3 * e.i + Rank(e)
  }

  /**
   * The trace is strictly ordered by index and, within an index, update before analysis
   * before integration; so no event happens twice.
   */
  lemma {:induction false} TraceOrdered(n: nat, every: int, timeDep: bool)
    requires every != 0
    ensures forall p :: 0 <= p < |Trace(n, every, timeDep)| ==> Trace(n, every, timeDep)[p].i < n
    ensures forall p, q :: 0 <= p < q < |Trace(n, every, timeDep)| ==>
      Key(Trace(n, every, timeDep)[p]) < Key(Trace(n, every, timeDep)[q])
  {
    if n > 0 {
      TraceOrdered(n - 1, every, timeDep);
      var due := Due(n - 1, every);
      StepOrdered(n - 1, due, timeDep);
      AppendOrdered(Trace(n - 1, every, timeDep), StepEvents(n - 1, due, timeDep), n - 1);
      TraceStep(n, every, timeDep);
    }
  }

  /** The events of one index all carry that index, in loop-body order. */
  lemma StepOrdered(i: nat, due: bool, timeDep: bool)
    ensures forall p :: 0 <= p < |StepEvents(i, due, timeDep)| ==> StepEvents(i, due, timeDep)[p].i == i
    ensures forall p, q :: 0 <= p < q < |StepEvents(i, due, timeDep)| ==>
      Rank(StepEvents(i, due, timeDep)[p]) < Rank(StepEvents(i, due, timeDep)[q])
  {
  }

  /** Appending the events of index i to an ordered trace of earlier indices keeps it ordered. */
  lemma AppendOrdered(pre: seq<Event>, last: seq<Event>, i: nat)
    requires forall p :: 0 <= p < |pre| ==> pre[p].i < i
    requires forall p, q :: 0 <= p < q < |pre| ==> Key(pre[p]) < Key(pre[q])
    requires forall p :: 0 <= p < |last| ==> last[p].i == i
    requires forall p, q :: 0 <= p < q < |last| ==> Rank(last[p]) < Rank(last[q])
    ensures forall p :: 0 <= p < |pre + last| ==> (pre + last)[p].i < i + 1
    ensures forall p, q :: 0 <= p < q < |pre + last| ==> Key((pre + last)[p]) < Key((pre + last)[q])
  {
    var tr := pre + last;
    forall p, q | 0 <= p < q < |tr| ensures Key(tr[p]) < Key(tr[q]) {
      if q >= |pre| && p < |pre| {
        assert tr[p] == pre[p] && tr[q] == last[q - |pre|];
      }
    }
  }

  /**
   * The trace holds an integration for every index below n, an analysis for exactly the
   * indices divisible by every, and an update for every index exactly when the run is
   * time-dependent.
   */
  lemma {:induction false} TraceEvents(n: nat, every: int, timeDep: bool, e: Event)
    requires every != 0
    ensures e in Trace(n, every, timeDep) <==>
      e.i < n && (e.Update? ==> timeDep) && (e.Analyze? ==> e.i % every == 0)
  {
    if n > 0 {
      TraceEvents(n - 1, every, timeDep, e);
      DueIsMod(n - 1, every);
      assert Trace(n, every, timeDep) == Trace(n - 1, every, timeDep) + StepEvents(n - 1, Due(n - 1, every), timeDep);
    }
  }

  /** The number of integrator steps in a trace. */
  function Integrations(tr: seq<Event>): int {
    if |tr| == 0 then 0 else (if tr[0].Integrate? then 1 else 0) + Integrations(tr[1..])
  }

  lemma {:induction false} IntegrationsAppend(a: seq<Event>, b: seq<Event>)
    ensures Integrations(a + b) == Integrations(a) + Integrations(b)
    decreases |a|
  {
    if |a| == 0 {
      assert a + b == b;
    } else {
      assert (a + b)[1..] == a[1..] + b;
      IntegrationsAppend(a[1..], b);
    }
  }

  lemma SingleEvent(e: Event)
    ensures Integrations([e]) == (if e.Integrate? then 1 else 0)
    ensures Analyzed([e]) == (if e.Analyze? then [e.i] else [])
  {
    assert [e][..0] == [];
    assert [e][1..] == [];
  }

  /** One pass of the loop body integrates once and analyzes at most its own index. */
  lemma StepCounts(i: nat, due: bool, timeDep: bool)
    ensures Integrations(StepEvents(i, due, timeDep)) == 1
    ensures Analyzed(StepEvents(i, due, timeDep)) == (if due then [i] else [])
  {
    var u: seq<Event> := if timeDep then [Update(i)] else [];
    var a: seq<Event> := if due then [Analyze(i)] else [];
    assert StepEvents(i, due, timeDep) == u + a + [Integrate(i)];
    IntegrationsAppend(u, a);
    IntegrationsAppend(u + a, [Integrate(i)]);
    AnalyzedAppend(u, a);
    AnalyzedAppend(u + a, [Integrate(i)]);
    SingleEvent(Update(i));
    SingleEvent(Analyze(i));
    SingleEvent(Integrate(i));
  }

  /** solve integrates exactly once per time point. */
  lemma {:induction false} IntegrationCount(n: nat, every: int, timeDep: bool)
    requires every != 0
    ensures Integrations(Trace(n, every, timeDep)) == n
  {
    if n > 0 {
      var due := Due(n - 1, every);
      var pre, es := Trace(n - 1, every, timeDep), StepEvents(n - 1, due, timeDep);
      IntegrationCount(n - 1, every, timeDep);
      StepCounts(n - 1, due, timeDep);
      IntegrationsAppend(pre, es);
      TraceStep(n, every, timeDep);
    }
  }

  /** The indices i < n with i % every == 0, in increasing order: the sampled time points. */
  function Multiples(n: nat, every: int): (ms: seq<nat>)
    requires every != 0
    ensures forall k :: 0 <= k < |ms| ==> ms[k] < n
  {
    if n == 0 then [] else Multiples(n - 1, every) + (if Due(n - 1, every) then [n - 1] else [])
  }

  /** The sampled indices are exactly the multiples of every below n, strictly increasing. */
  lemma {:induction false} MultiplesSpec(n: nat, every: int)
    requires every != 0
    ensures forall x: int :: x in Multiples(n, every) <==> 0 <= x < n && x % every == 0
    ensures forall p, q :: 0 <= p < q < |Multiples(n, every)| ==> Multiples(n, every)[p] < Multiples(n, every)[q]
  {
    if n > 0 {
      MultiplesSpec(n - 1, every);
      DueIsMod(n - 1, every);
      var m := Multiples(n - 1, every);
      var ms := Multiples(n, every);
      assert ms == m + (if Due(n - 1, every) then [n - 1] else []);
      forall p | 0 <= p < |m| ensures m[p] < n - 1 {
        assert m[p] in m;
      }
      forall x: int ensures x in ms <==> 0 <= x < n && x % every == 0 {
        assert x in ms <==> x in m || (x == n - 1 && Due(n - 1, every));
        assert x in m <==> 0 <= x < n - 1 && x % every == 0;
      }
    }
  }

  /** The indices of the analysis events of a trace, in trace order. */
  function Analyzed(tr: seq<Event>): seq<nat> {
    if |tr| == 0 then []
    else Analyzed(tr[..|tr| - 1]) + (if tr[|tr| - 1].Analyze? then [tr[|tr| - 1].i] else [])
  }

  lemma {:induction false} AnalyzedAppend(a: seq<Event>, b: seq<Event>)
    ensures Analyzed(a + b) == Analyzed(a) + Analyzed(b)
    decreases |b|
  {
    if |b| == 0 {
      assert a + b == a;
    } else {
      assert (a + b)[..|a + b| - 1] == a + b[..|b| - 1];
      AnalyzedAppend(a, b[..|b| - 1]);
    }
  }

  /** analyze_state is called at exactly the multiples of every, in increasing order. */
  lemma {:induction false} AnalyzedAreMultiples(n: nat, every: int, timeDep: bool)
    requires every != 0
    ensures Analyzed(Trace(n, every, timeDep)) == Multiples(n, every)
  {
    if n > 0 {
      AnalyzedAreMultiples(n - 1, every, timeDep);
      AnalyzedStep(n, every, timeDep);
    }
  }

  /** One more index appends at most that index to the analyzed indices. */
  lemma AnalyzedStep(n: nat, every: int, timeDep: bool)
    requires every != 0 && n > 0
    ensures Analyzed(Trace(n, every, timeDep)) ==
      Analyzed(Trace(n - 1, every, timeDep)) + (if Due(n - 1, every) then [n - 1] else [])
  {
    var due := Due(n - 1, every);
    var pre, es := Trace(n - 1, every, timeDep), StepEvents(n - 1, due, timeDep);
    TraceStep(n, every, timeDep);
    StepCounts(n - 1, due, timeDep);
    AnalyzedSnoc(pre, es, if due then [n - 1] else []);
  }

  lemma AnalyzedSnoc(pre: seq<Event>, es: seq<Event>, tail: seq<nat>)
    requires Analyzed(es) == tail
    ensures Analyzed(pre + es) == Analyzed(pre) + tail
  {
    AnalyzedAppend(pre, es);
  }

  /** Division with remainder has one answer. */
  lemma DivModUnique(x: int, d: int, q: int, r: int)
    requires d > 0 && x == q * d + r && 0 <= r < d
    ensures x / d == q && x % d == r
  {
    var q', r' := x / d, x % d;
    assert (q - q') * d == r' - r;
    MulAtLeast(q - q', d);
    MulAtLeast(q' - q, d);
  }

  lemma MulAtLeast(a: int, d: int)
    requires d > 0
    ensures a >= 1 ==> a * d >= d
  {
    if a >= 1 {
      assert a * d == d + (a - 1) * d;
    }
  }

  /** A negative divisor samples the same indices as its absolute value. */
  lemma ModNegative(x: nat, d: int)
    requires d < 0
    ensures x % d == x % -d
  {
    DivModUnique(x, -d, -(x / d), x % d);
  }

  /** One more index adds one sample exactly when it is divisible by every. */
  lemma CeilStep(n: nat, e: nat)
    requires e > 0
    ensures (n + e) / e == (n + e - 1) / e + (if n % e == 0 then 1 else 0)
  {
    var q, r := n / e, n % e;
    if r == 0 {
      DivModUnique(n + e, e, q + 1, 0);
      DivModUnique(n + e - 1, e, q, e - 1);
    } else {
      DivModUnique(n + e, e, q + 1, r);
      DivModUnique(n + e - 1, e, q + 1, r - 1);
    }
  }

  /** solve samples ceil(n / |every|) time points. */
  lemma {:induction false} MultiplesCount(n: nat, every: int)
    requires every != 0
    ensures |Multiples(n, every)| == (n + Abs(every) - 1) / Abs(every)
  {
    var e := Abs(every);
    if n == 0 {
      DivModUnique(e - 1, e, 0, e - 1);
    } else {
      MultiplesCount(n - 1, every);
      DueIsMod(n - 1, every);
      CeilStep(n - 1, e);
      if every < 0 {
        ModNegative(n - 1, every);
      }
    }
  }

  function Abs(x: int): (a: nat) {
    if x < 0 then -x else x
  }
}
