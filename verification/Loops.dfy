/** The bounded run loop over an arbitrary step, and its laws. */
module Loops {
  import opened Words

  datatype RunResult = Continue | Halt | ShutDown | Error

  type Stepper<!M> = M -> (M, RunResult)

  /** runLoop with a limit of n > 0 steps: final state, result, and number of steps taken. */
  function RunFor<M>(step: Stepper<M>, m: M, n: nat): (M, RunResult, nat)
    decreases n
  {
    if n == 0 then (m, Continue, 0)
    else
      var (m1, result) := step(m);
      if result != Continue then (m1, result, 1)
      else var (m2, r2, k) := RunFor(step, m1, n - 1); (m2, r2, k + 1)
  }

  /** Step number k from here is the first that does not continue. */
  predicate StopsAt<M>(step: Stepper<M>, m: M, k: nat) {
    var r := RunFor(step, m, k); r.1 != Continue && r.2 == k
  }

  /** Continue is returned only after exactly the limit's number of steps. */
  lemma {:induction false} ContinueUsesLimit<M>(step: Stepper<M>, m: M, n: nat)
    ensures var r := RunFor(step, m, n); r.2 <= n && (r.1 == Continue ==> r.2 == n) && (n > 0 ==> r.2 > 0)
    decreases n
  {
    if n > 0 && step(m).1 == Continue {
      ContinueUsesLimit(step, step(m).0, n - 1);
    }
  }

  /** Bounded runs compose: a run that used up its limit, continued, is the longer run. */
  lemma {:induction false} RunsCompose<M>(step: Stepper<M>, m: M, a: nat, b: nat)
    requires RunFor(step, m, a).1 == Continue
    ensures var (m1, _, _) := RunFor(step, m, a);
      var (m2, r2, k2) := RunFor(step, m1, b);
      RunFor(step, m, a + b) == (m2, r2, a + k2)
    decreases a
  {
    if a > 0 {
      RunsCompose(step, step(m).0, a - 1, b);
    }
  }

  /** Once a run stops within a limit, every larger limit gives the same run. */
  lemma {:induction false} LargerLimit<M>(step: Stepper<M>, m: M, k: nat, n: nat)
    requires StopsAt(step, m, k) && k <= n
    ensures RunFor(step, m, n) == RunFor(step, m, k)
    decreases k
  {
    if k > 0 && step(m).1 == Continue {
      LargerLimit(step, step(m).0, k - 1, n - 1);
    }
  }

  /** The step at which a run stops is determined. */
  lemma StopUnique<M>(step: Stepper<M>, m: M, k: nat, l: nat)
    requires StopsAt(step, m, k) && StopsAt(step, m, l)
    ensures k == l
  {
    if k <= l { LargerLimit(step, m, k, l); } else { LargerLimit(step, m, l, k); }
  }

  /** A run either continues through its limit or stops at the step it reports. */
  lemma {:induction false} StopsWhereReported<M>(step: Stepper<M>, m: M, n: nat)
    requires RunFor(step, m, n).1 != Continue
    ensures StopsAt(step, m, RunFor(step, m, n).2)
    decreases n
  {
    if n > 0 && step(m).1 == Continue {
      StopsWhereReported(step, step(m).0, n - 1);
    }
  }

  /** An unlimited run goes on forever exactly when every bounded one returns Continue. */
  lemma RunsForever<M>(step: Stepper<M>, m: M)
    ensures (forall k: nat :: !StopsAt(step, m, k)) <==> (forall n: nat :: RunFor(step, m, n).1 == Continue)
  {
    if n: nat :| RunFor(step, m, n).1 != Continue {
      StopsWhereReported(step, m, n);
    }
    if k: nat :| StopsAt(step, m, k) {
      assert RunFor(step, m, k).1 != Continue;
    }
  }

  /** A loop that has taken `done` steps and may take n more is on its way to the result of the whole run. */
  ghost predicate OnTheWay<M>(step: Stepper<M>, whole: (M, RunResult, nat), m: M, n: nat, done: nat) {
    var rest := RunFor(step, m, n);
    whole.0 == rest.0 && whole.1 == rest.1 && whole.2 == rest.2 + done
  }

  /** One turn of the loop. */
  lemma OneTurn<M>(step: Stepper<M>, whole: (M, RunResult, nat), m: M, n: nat, done: nat)
    requires OnTheWay(step, whole, m, n, done)
    ensures n == 0 ==> whole == (m, Continue, done)
    ensures n > 0 && step(m).1 != Continue ==> whole == (step(m).0, step(m).1, done + 1)
    ensures n > 0 && step(m).1 == Continue ==> OnTheWay(step, whole, step(m).0, n - 1, done + 1)
  {
  }

  function One(b: bool): nat { if b then 1 else 0 }

  /** How many steps of a run start in a state that satisfies hit. */
  function Tally<M>(step: Stepper<M>, m: M, n: nat, hit: M -> bool): nat
    decreases n
  {
    if n == 0 then 0
    else if step(m).1 != Continue then One(hit(m))
    else One(hit(m)) + Tally(step, step(m).0, n - 1, hit)
  }

  /** Each step keeps ok and advances value by one exactly when it hits. */
  predicate AdvancesAt<M>(step: Stepper<M>, ok: M -> bool, hit: M -> bool, value: M -> u64, x: M) {
    ok(step(x).0) && value(step(x).0) == Wrap64(value(x) + One(hit(x)))
  }

  ghost predicate Advances<M(!new)>(step: Stepper<M>, ok: M -> bool, hit: M -> bool, value: M -> u64) {
    forall x {:trigger AdvancesAt(step, ok, hit, value, x)} :: ok(x) ==> AdvancesAt(step, ok, hit, value, x)
  }

  /** A 64-bit counter that each step advances by one when it hits counts the hits of a run. */
  lemma {:induction false} CounterCountsHits<M(!new)>(
      step: Stepper<M>, m: M, n: nat, ok: M -> bool, hit: M -> bool, value: M -> u64)
    requires Advances(step, ok, hit, value) && ok(m)
    ensures value(RunFor(step, m, n).0) == Wrap64(value(m) + Tally(step, m, n, hit))
    decreases n
  {
    assert AdvancesAt(step, ok, hit, value, m);
    if n > 0 && step(m).1 == Continue {
      CounterCountsHits(step, step(m).0, n - 1, ok, hit, value);
      WrapAdd64(value(m), One(hit(m)), Tally(step, step(m).0, n - 1, hit));
    }
  }

  /** Every state a run steps from is good. */
  predicate GoodRun<M>(step: Stepper<M>, m: M, n: nat, good: M -> bool)
    decreases n
  {
    n == 0 || (good(m) && (step(m).1 == Continue ==> GoodRun(step, step(m).0, n - 1, good)))
  }

  /** Good states all the way, when ok states are good and stay ok. */
  lemma {:induction false} AlwaysGood<M(!new)>(step: Stepper<M>, m: M, n: nat, ok: M -> bool, good: M -> bool)
    requires forall x {:trigger step(x)} :: ok(x) ==> ok(step(x).0)
    requires forall x {:trigger good(x)} :: ok(x) ==> good(x)
    requires ok(m)
    ensures GoodRun(step, m, n, good)
    decreases n
  {
    if n > 0 && step(m).1 == Continue {
      AlwaysGood(step, step(m).0, n - 1, ok, good);
    }
  }

  type Pairing<!M> = (M, M) -> bool

  /** From a to a' and from b to b' equal entries were appended, as far as norm can tell. */
  ghost predicate SameGrowth<E>(norm: E -> E, a: seq<E>, a': seq<E>, b: seq<E>, b': seq<E>) {
    && a <= a' && b <= b' && |a'| - |a| == |b'| - |b|
    && forall i, j :: |a| <= i < |a'| && j == i - |a| + |b| ==> norm(a'[i]) == norm(b'[j])
  }

  lemma GrowthChain<E>(norm: E -> E, a: seq<E>, a1: seq<E>, a2: seq<E>, b: seq<E>, b1: seq<E>, b2: seq<E>)
    requires SameGrowth(norm, a, a1, b, b1) && SameGrowth(norm, a1, a2, b1, b2)
    ensures SameGrowth(norm, a, a2, b, b2)
  {
    forall i, j | |a| <= i < |a2| && j == i - |a| + |b| ensures norm(a2[i]) == norm(b2[j]) {
      if i < |a1| {
        assert a2[i] == a1[i] && b2[j] == b1[j];
      }
    }
  }

  /**
   * From related states, the first one good, steps have the same result and hits and log the same,
   * and unless they fail they stay related.
   */
  ghost predicate Simulates<M(!new), E>(
      step: Stepper<M>, rel: Pairing<M>, good: M -> bool, hit: M -> bool, log: M -> seq<E>, norm: E -> E) {
    forall x, y {:trigger step(x), step(y)} :: rel(x, y) && good(x) ==>
      && step(x).1 == step(y).1 && hit(x) == hit(y)
      && SameGrowth(norm, log(x), log(step(x).0), log(y), log(step(y).0))
      && (step(x).1 != Error ==> rel(step(x).0, step(y).0))
  }

  /** A step that simulates lifts to runs. */
  lemma {:induction false} RunsSimulate<M(!new), E>(
      step: Stepper<M>, a: M, b: M, n: nat, rel: Pairing<M>, good: M -> bool, hit: M -> bool, log: M -> seq<E>, norm: E -> E)
    requires Simulates(step, rel, good, hit, log, norm) && rel(a, b) && GoodRun(step, a, n, good)
    ensures var ra, rb := RunFor(step, a, n), RunFor(step, b, n);
      ra.1 == rb.1 && ra.2 == rb.2 && Tally(step, a, n, hit) == Tally(step, b, n, hit)
      && SameGrowth(norm, log(a), log(ra.0), log(b), log(rb.0)) && (ra.1 != Error ==> rel(ra.0, rb.0))
    decreases n
  {
    if n > 0 && step(a).1 == Continue {
      var a1, b1 := step(a).0, step(b).0;
      RunsSimulate(step, a1, b1, n - 1, rel, good, hit, log, norm);
      var a2, b2 := RunFor(step, a1, n - 1).0, RunFor(step, b1, n - 1).0;
      GrowthChain(norm, log(a), log(a1), log(a2), log(b), log(b1), log(b2));
    }
  }

  /** Every step keeps ok, and one that does not continue leaves a state that its result allows. */
  ghost predicate StopsIn<M(!new)>(step: Stepper<M>, ok: M -> bool, allowed: (M, RunResult) -> bool) {
    forall x {:trigger step(x)} :: ok(x) ==> ok(step(x).0) && (step(x).1 != Continue ==> allowed(step(x).0, step(x).1))
  }

  lemma {:induction false} RunStopsIn<M(!new)>(step: Stepper<M>, m: M, n: nat, ok: M -> bool, allowed: (M, RunResult) -> bool)
    requires StopsIn(step, ok, allowed) && ok(m)
    ensures var r := RunFor(step, m, n); ok(r.0) && (r.1 != Continue ==> allowed(r.0, r.1))
    decreases n
  {
    if n > 0 && step(m).1 == Continue {
      RunStopsIn(step, step(m).0, n - 1, ok, allowed);
    }
  }

  // ---------------------------------------------------------------------------------------------
  // Repeated runs: prepare the state for iteration i, run until it stops, go on unless it failed.

  type Preparation<!M> = (M, nat) -> M

  /** The starting states of the iterations from number i on, run j taking lens[j] steps. */
  function Starts<M>(prepare: Preparation<M>, step: Stepper<M>, m: M, i: nat, lens: seq<nat>): seq<M>
    decreases |lens|
  {
    if lens == [] then []
    else
      var start := prepare(m, i);
      var r := RunFor(step, start, lens[0]);
      if r.1 == Error then [start] else [start] + Starts(prepare, step, r.0, i + 1, lens[1..])
  }

  /** The state after the last iteration. */
  function Finish<M>(prepare: Preparation<M>, step: Stepper<M>, m: M, i: nat, lens: seq<nat>): M
    decreases |lens|
  {
    if lens == [] then m
    else
      var r := RunFor(step, prepare(m, i), lens[0]);
      if r.1 == Error then r.0 else Finish(prepare, step, r.0, i + 1, lens[1..])
  }

  /** No iteration's run ends in an error. */
  predicate Completes<M>(prepare: Preparation<M>, step: Stepper<M>, m: M, i: nat, lens: seq<nat>)
    decreases |lens|
  {
    lens == [] ||
    var r := RunFor(step, prepare(m, i), lens[0]);
    r.1 != Error && Completes(prepare, step, r.0, i + 1, lens[1..])
  }

  /** Every run that is made stops at the step lens says. */
  predicate AllStop<M>(prepare: Preparation<M>, step: Stepper<M>, m: M, i: nat, lens: seq<nat>)
    decreases |lens|
  {
    lens == [] ||
    (StopsAt(step, prepare(m, i), lens[0]) &&
     var r := RunFor(step, prepare(m, i), lens[0]);
     (r.1 == Error || AllStop(prepare, step, r.0, i + 1, lens[1..])))
  }

  /** Preparing an armed state gives a clean one, and a run from a clean one that stops leaves an armed one. */
  ghost predicate Iterates<M(!new)>(
      prepare: Preparation<M>, step: Stepper<M>, armed: (M, nat) -> bool, clean: (M, nat) -> bool) {
    && (forall m, i: nat {:trigger prepare(m, i)} :: armed(m, i) ==> clean(prepare(m, i), i))
    && (forall m, i: nat, n: nat {:trigger clean(m, i), StopsAt(step, m, n)} ::
          clean(m, i) && StopsAt(step, m, n) && RunFor(step, m, n).1 != Error ==> armed(RunFor(step, m, n).0, i + 1))
  }

  lemma {:induction false} EveryStart<M(!new)>(
      prepare: Preparation<M>, step: Stepper<M>, armed: (M, nat) -> bool, clean: (M, nat) -> bool,
      m: M, i: nat, lens: seq<nat>, j: nat)
    requires Iterates(prepare, step, armed, clean) && armed(m, i)
    requires AllStop(prepare, step, m, i, lens) && j < |Starts(prepare, step, m, i, lens)|
    ensures |Starts(prepare, step, m, i, lens)| <= |lens|
    ensures var start := Starts(prepare, step, m, i, lens)[j]; clean(start, i + j) && StopsAt(step, start, lens[j])
    decreases |lens|
  {
    var start := prepare(m, i);
    var r := RunFor(step, start, lens[0]);
    assert clean(start, i) && StopsAt(step, start, lens[0]);
    if r.1 != Error {
      var rest := Starts(prepare, step, r.0, i + 1, lens[1..]);
      if rest != [] {
        EveryStart(prepare, step, armed, clean, r.0, i + 1, lens[1..], if j == 0 then 0 else j - 1);
      }
    }
  }

  /** Run j + 1 starts from what preparation j + 1 makes of the end of run j, which is not an error. */
  ghost predicate Succeeds<M>(prepare: Preparation<M>, step: Stepper<M>, starts: seq<M>, i: nat, lens: seq<nat>, j: nat)
    requires j + 1 < |starts| <= |lens|
  {
    var r := RunFor(step, starts[j], lens[j]);
    r.1 != Error && starts[j + 1] == prepare(r.0, i + j + 1)
  }

  /**
   * The loop is its runs, one after the other: each is prepared from the end of the one before, the
   * loop ends where its last run does, and it stops short exactly when that run is an error.
   */
  lemma {:induction false} LoopIsItsRuns<M>(prepare: Preparation<M>, step: Stepper<M>, m: M, i: nat, lens: seq<nat>)
    requires lens != []
    ensures var starts := Starts(prepare, step, m, i, lens);
      var n := |starts|;
      && 1 <= n <= |lens| && starts[0] == prepare(m, i)
      && (forall j :: 0 <= j && j + 1 < n ==> Succeeds(prepare, step, starts, i, lens, j))
      && var last := RunFor(step, starts[n - 1], lens[n - 1]);
      && Finish(prepare, step, m, i, lens) == last.0
      && (n < |lens| ==> last.1 == Error)
      && (Completes(prepare, step, m, i, lens) <==> last.1 != Error)
    decreases |lens|
  {
    var starts, r := Starts(prepare, step, m, i, lens), RunFor(step, prepare(m, i), lens[0]);
    if r.1 != Error && lens[1..] != [] {
      LoopIsItsRuns(prepare, step, r.0, i + 1, lens[1..]);
      var rest := Starts(prepare, step, r.0, i + 1, lens[1..]);
      forall j | 0 <= j && j + 1 < |starts| ensures Succeeds(prepare, step, starts, i, lens, j) {
        if j > 0 {
          assert Succeeds(prepare, step, rest, i + 1, lens[1..], j - 1);
        }
      }
    }
  }
}
