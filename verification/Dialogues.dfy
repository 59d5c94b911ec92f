/**
 * Runs as dialogues. A machine makes accesses, and an environment with a state of its own (the
 * world) answers each of them. Two runs that differ only in the world they start from go alike
 * exactly as long as the answers are the same.
 */
module Dialogues {
  import opened Loops

  type Reaction<!W, !A, !R> = (W, A) -> (W, R)

  /** The world after answering these accesses, and the answers. */
  function WorldAfter<W, A, R>(react: Reaction<W, A, R>, w: W, s: seq<A>): W {
    if s == [] then w else WorldAfter(react, react(w, s[0]).0, s[1..])
  }

  function Replies<W, A, R>(react: Reaction<W, A, R>, w: W, s: seq<A>): (r: seq<R>)
    ensures |r| == |s|
  {
    if s == [] then [] else [react(w, s[0]).1] + Replies(react, react(w, s[0]).0, s[1..])
  }

  lemma {:induction false} DialogueSplit<W, A, R>(react: Reaction<W, A, R>, w: W, s: seq<A>, t: seq<A>)
    ensures WorldAfter(react, w, s + t) == WorldAfter(react, WorldAfter(react, w, s), t)
    ensures Replies(react, w, s + t) == Replies(react, w, s) + Replies(react, WorldAfter(react, w, s), t)
    decreases |s|
  {
    if s == [] {
      assert s + t == t;
    } else {
      assert (s + t)[1..] == s[1..] + t;
      DialogueSplit(react, react(w, s[0]).0, s[1..], t);
    }
  }

  /** Two worlds answer a concatenation alike when they answer its parts alike. */
  lemma AlikeSplit<W, A, R>(react: Reaction<W, A, R>, v: W, w: W, s: seq<A>, t: seq<A>)
    ensures Replies(react, v, s + t) == Replies(react, w, s + t) <==>
      && Replies(react, v, s) == Replies(react, w, s)
      && Replies(react, WorldAfter(react, v, s), t) == Replies(react, WorldAfter(react, w, s), t)
  {
    DialogueSplit(react, v, s, t);
    DialogueSplit(react, w, s, t);
    SameParts(Replies(react, v, s), Replies(react, WorldAfter(react, v, s), t),
              Replies(react, w, s), Replies(react, WorldAfter(react, w, s), t));
  }

  lemma SameParts<R>(a: seq<R>, b: seq<R>, c: seq<R>, d: seq<R>)
    requires |a| == |c|
    ensures a + b == c + d <==> a == c && b == d
  {
    if a + b == c + d {
      assert a == (a + b)[..|a|] && c == (c + d)[..|a|];
      assert b == (a + b)[|a|..] && d == (c + d)[|a|..];
    }
  }

  /** The answer at a position, in the world as it is when that access is made. */
  lemma {:induction false} ReplyAt<W, A, R>(react: Reaction<W, A, R>, w: W, s: seq<A>, i: nat)
    requires i < |s|
    ensures Replies(react, w, s)[i] == react(WorldAfter(react, w, s[..i]), s[i]).1
    decreases i
  {
    if i > 0 {
      ReplyAt(react, react(w, s[0]).0, s[1..], i - 1);
      assert s[1..][..i - 1] == s[..i][1..];
    }
  }

  /** made gives the accesses a step from a state makes, log the record a state keeps. */
  datatype Dialogue<!M, !W, !A, !R, !E> = Dialogue(
    step: Stepper<M>, world: M -> W, made: M -> seq<A>, react: Reaction<W, A, R>, log: M -> seq<E>, norm: E -> E)

  /** All accesses of a run, in order. */
  function Trail<M, A>(step: Stepper<M>, m: M, n: nat, made: M -> seq<A>): seq<A>
    decreases n
  {
    if n == 0 then []
    else if step(m).1 != Continue then made(m)
    else made(m) + Trail(step, step(m).0, n - 1, made)
  }

  /** A step changes the world by answering its accesses and in no other way; the record only grows. */
  ghost predicate StepAnswers<M, W, A, R, E>(d: Dialogue<M, W, A, R, E>, ok: M -> bool, x: M) {
    && ok(d.step(x).0) && d.log(x) <= d.log(d.step(x).0)
    && d.world(d.step(x).0) == WorldAfter(d.react, d.world(x), d.made(x))
  }

  ghost predicate Answers<M(!new), W, A, R, E>(d: Dialogue<M, W, A, R, E>, ok: M -> bool) {
    forall x {:trigger d.step(x)} :: ok(x) ==> StepAnswers(d, ok, x)
  }

  ghost predicate StepRepliesAlike<M, W, A, R, E>(d: Dialogue<M, W, A, R, E>, x: M, y: M) {
    Replies(d.react, d.world(x), d.made(x)) == Replies(d.react, d.world(y), d.made(x))
  }

  /** Steps from related states make the same accesses and, answered alike, go alike. */
  ghost predicate StepFollows<M, W, A, R, E>(d: Dialogue<M, W, A, R, E>, rel: Pairing<M>, hit: M -> bool, x: M, y: M) {
    && d.made(x) == d.made(y)
    && (StepRepliesAlike(d, x, y) ==>
          && d.step(x).1 == d.step(y).1 && hit(x) == hit(y)
          && SameGrowth(d.norm, d.log(x), d.log(d.step(x).0), d.log(y), d.log(d.step(y).0))
          && (d.step(x).1 != Error ==> rel(d.step(x).0, d.step(y).0)))
  }

  ghost predicate Follows<M(!new), W, A, R, E>(d: Dialogue<M, W, A, R, E>, rel: Pairing<M>, hit: M -> bool) {
    forall x, y {:trigger d.step(x), d.step(y)} :: rel(x, y) ==> StepFollows(d, rel, hit, x, y)
  }

  /** What was recorded from a to a' and from b to b' differs in its first entry. */
  ghost predicate Parted<E>(norm: E -> E, a: seq<E>, a': seq<E>, b: seq<E>, b': seq<E>)
    requires a <= a' && b <= b'
  {
    |a| < |a'| && |b| < |b'| && norm(a'[|a|]) != norm(b'[|b|])
  }

  /** Steps from related states that are answered differently record the difference. */
  ghost predicate StepTells<M, W, A, R, E>(d: Dialogue<M, W, A, R, E>, x: M, y: M) {
    !StepRepliesAlike(d, x, y) ==>
      && d.log(x) <= d.log(d.step(x).0) && d.log(y) <= d.log(d.step(y).0)
      && Parted(d.norm, d.log(x), d.log(d.step(x).0), d.log(y), d.log(d.step(y).0))
  }

  ghost predicate Tells<M(!new), W, A, R, E>(d: Dialogue<M, W, A, R, E>, rel: Pairing<M>) {
    forall x, y {:trigger d.step(x), d.step(y)} :: rel(x, y) ==> StepTells(d, x, y)
  }

  /** A run changes the world by answering its accesses and in no other way. */
  lemma {:induction false} RunAnswers<M(!new), W, A, R, E>(d: Dialogue<M, W, A, R, E>, m: M, n: nat, ok: M -> bool)
    requires Answers(d, ok) && ok(m)
    ensures var r := RunFor(d.step, m, n);
      ok(r.0) && d.log(m) <= d.log(r.0) && d.world(r.0) == WorldAfter(d.react, d.world(m), Trail(d.step, m, n, d.made))
    decreases n
  {
    if n > 0 && d.step(m).1 == Continue {
      RunAnswers(d, d.step(m).0, n - 1, ok);
      DialogueSplit(d.react, d.world(m), d.made(m), Trail(d.step, d.step(m).0, n - 1, d.made));
    }
  }

  ghost predicate RunRepliesAlike<M, W, A, R, E>(d: Dialogue<M, W, A, R, E>, a: M, b: M, n: nat) {
    var s := Trail(d.step, a, n, d.made);
    Replies(d.react, d.world(a), s) == Replies(d.react, d.world(b), s)
  }

  /** The accesses of a run are answered alike when those of its first step and of the rest are. */
  lemma RepliesStep<M(!new), W, A, R, E>(d: Dialogue<M, W, A, R, E>, a: M, b: M, n: nat, ok: M -> bool, rel: Pairing<M>, hit: M -> bool)
    requires Answers(d, ok) && Follows(d, rel, hit) && ok(a) && ok(b) && rel(a, b) && n > 0 && d.step(a).1 == Continue
    ensures RunRepliesAlike(d, a, b, n) <==> StepRepliesAlike(d, a, b) && RunRepliesAlike(d, d.step(a).0, d.step(b).0, n - 1)
  {
    var (a1, _) := d.step(a);
    var (b1, _) := d.step(b);
    AlikeSplit(d.react, d.world(a), d.world(b), d.made(a), Trail(d.step, a1, n - 1, d.made));
  }

  /** Answered alike, runs go alike: result, steps, hits, record, accesses. */
  lemma {:induction false} RunsFollow<M(!new), W, A, R, E>(
      d: Dialogue<M, W, A, R, E>, a: M, b: M, n: nat, ok: M -> bool, rel: Pairing<M>, hit: M -> bool)
    requires Answers(d, ok) && Follows(d, rel, hit) && ok(a) && ok(b) && rel(a, b) && RunRepliesAlike(d, a, b, n)
    ensures var ra, rb := RunFor(d.step, a, n), RunFor(d.step, b, n);
      && ra.1 == rb.1 && ra.2 == rb.2 && Tally(d.step, a, n, hit) == Tally(d.step, b, n, hit)
      && SameGrowth(d.norm, d.log(a), d.log(ra.0), d.log(b), d.log(rb.0)) && (ra.1 != Error ==> rel(ra.0, rb.0))
      && Trail(d.step, a, n, d.made) == Trail(d.step, b, n, d.made)
    decreases n
  {
    if n > 0 {
      var a1, b1 := d.step(a).0, d.step(b).0;
      if d.step(a).1 == Continue {
        RepliesStep(d, a, b, n, ok, rel, hit);
        RunsFollow(d, a1, b1, n - 1, ok, rel, hit);
        var a2, b2 := RunFor(d.step, a1, n - 1).0, RunFor(d.step, b1, n - 1).0;
        GrowthChain(d.norm, d.log(a), d.log(a1), d.log(a2), d.log(b), d.log(b1), d.log(b2));
      } else {
        assert StepRepliesAlike(d, a, b);
      }
    }
  }

  lemma PartedStaysParted<E>(norm: E -> E, a: seq<E>, a1: seq<E>, a2: seq<E>, b: seq<E>, b1: seq<E>, b2: seq<E>)
    requires a <= a1 <= a2 && b <= b1 <= b2 && Parted(norm, a, a1, b, b1)
    ensures !SameGrowth(norm, a, a2, b, b2)
  {
    assert a2[|a|] == a1[|a|] && b2[|b|] == b1[|b|];
  }

  lemma GrowthCancel<E>(norm: E -> E, a: seq<E>, a1: seq<E>, a2: seq<E>, b: seq<E>, b1: seq<E>, b2: seq<E>)
    requires SameGrowth(norm, a, a1, b, b1) && SameGrowth(norm, a, a2, b, b2) && a1 <= a2 && b1 <= b2
    ensures SameGrowth(norm, a1, a2, b1, b2)
  {
    forall i, j | |a1| <= i < |a2| && j == i - |a1| + |b1| ensures norm(a2[i]) == norm(b2[j]) {
      assert j == i - |a| + |b|;
    }
  }

  /** Answered differently anywhere, runs record different things. */
  lemma {:induction false} RunsPart<M(!new), W, A, R, E>(
      d: Dialogue<M, W, A, R, E>, a: M, b: M, n: nat, ok: M -> bool, rel: Pairing<M>, hit: M -> bool)
    requires Answers(d, ok) && Follows(d, rel, hit) && Tells(d, rel) && ok(a) && ok(b) && rel(a, b)
    requires !RunRepliesAlike(d, a, b, n)
    ensures !SameGrowth(d.norm, d.log(a), d.log(RunFor(d.step, a, n).0), d.log(b), d.log(RunFor(d.step, b, n).0))
    decreases n
  {
    var a1, b1 := d.step(a).0, d.step(b).0;
    var a2, b2 := RunFor(d.step, a, n).0, RunFor(d.step, b, n).0;
    assert d.log(a1) <= d.log(a2) by { LaterLog(d, a, n, ok); }
    assert d.log(b1) <= d.log(b2) by { LaterLog(d, b, n, ok); }
    if !StepRepliesAlike(d, a, b) {
      PartedStaysParted(d.norm, d.log(a), d.log(a1), d.log(a2), d.log(b), d.log(b1), d.log(b2));
    } else {
      RepliesStep(d, a, b, n, ok, rel, hit);
      RunsPart(d, a1, b1, n - 1, ok, rel, hit);
      if SameGrowth(d.norm, d.log(a), d.log(a2), d.log(b), d.log(b2)) {
        GrowthCancel(d.norm, d.log(a), d.log(a1), d.log(a2), d.log(b), d.log(b1), d.log(b2));
      }
    }
  }

  lemma LaterLog<M(!new), W, A, R, E>(d: Dialogue<M, W, A, R, E>, m: M, n: nat, ok: M -> bool)
    requires Answers(d, ok) && ok(m) && n > 0
    ensures d.log(m) <= d.log(d.step(m).0) <= d.log(RunFor(d.step, m, n).0)
  {
    RunAnswers(d, d.step(m).0, n - 1, ok);
  }

  // ---------------------------------------------------------------------------------------------
  // Repeated runs.

  /** The accesses of the iterations before iteration j. */
  function EarlierTrail<M, A>(
      prepare: Preparation<M>, step: Stepper<M>, m: M, i: nat, lens: seq<nat>, j: nat, made: M -> seq<A>): seq<A>
    decreases |lens|
  {
    if j == 0 || lens == [] then []
    else
      var start := prepare(m, i);
      Trail(step, start, lens[0], made)
      + EarlierTrail(prepare, step, RunFor(step, start, lens[0]).0, i + 1, lens[1..], j - 1, made)
  }

  /** Preparing an iteration leaves the world alone. */
  ghost predicate KeepsWorld<M(!new), W, A, R, E>(d: Dialogue<M, W, A, R, E>, prepare: Preparation<M>, ok: M -> bool) {
    forall m, i: nat {:trigger prepare(m, i)} :: ok(m) ==> ok(prepare(m, i)) && d.world(prepare(m, i)) == d.world(m)
  }

  /** Iteration j finds the world as the accesses of the earlier iterations leave it. */
  lemma {:induction false} StartsAnswer<M(!new), W, A, R, E>(
      d: Dialogue<M, W, A, R, E>, prepare: Preparation<M>, m: M, i: nat, lens: seq<nat>, j: nat, ok: M -> bool)
    requires Answers(d, ok) && KeepsWorld(d, prepare, ok) && ok(m) && j < |Starts(prepare, d.step, m, i, lens)|
    ensures var start := Starts(prepare, d.step, m, i, lens)[j];
      ok(start) && d.world(start) == WorldAfter(d.react, d.world(m), EarlierTrail(prepare, d.step, m, i, lens, j, d.made))
    decreases |lens|
  {
    if j > 0 {
      var start := prepare(m, i);
      var next := RunFor(d.step, start, lens[0]).0;
      RunAnswers(d, start, lens[0], ok);
      StartsAnswer(d, prepare, next, i + 1, lens[1..], j - 1, ok);
      DialogueSplit(d.react, d.world(m), Trail(d.step, start, lens[0], d.made),
                    EarlierTrail(prepare, d.step, next, i + 1, lens[1..], j - 1, d.made));
    }
  }
}
