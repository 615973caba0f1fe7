/** One node's reputation (maestro/storage_proof.py): counters, R2 window, score, status. */
module Reputation {
  import opened Rounding
  import opened Statistics

  datatype Status = Trusted | OnProbation | Untrusted | Evicted

  datatype Rep = Rep(
    issued: nat,
    passed: nat,
    failed: nat,
    passRate: real,
    r2: seq<real>,
    score: real,
    status: Status)

  const FRESH := Rep(0, 0, 0, 1.0, [], 1.0, Trusted)

  function PassRate(passed: nat, failed: nat): real {
    if passed + failed > 0 then passed as real / (passed + failed) as real else 1.0
  }

  /** `s[-n:]`. */
  function LastOf(s: seq<real>, n: nat): seq<real> {
    if |s| > n then s[|s| - n..] else s
  }

  function R2Mean(r2: seq<real>): real {
    if r2 == [] then 0.5 else Mean(LastOf(r2, 20))
  }

  function Raw(r: Rep): real {
    0.7 * r.passRate + 0.3 * R2Mean(r.r2)
  }

  function NextStatus(status: Status, score: real): Status {
    if score < 0.3 then Evicted
    else if score < 0.7 then OnProbation
    else if status == OnProbation || status == Untrusted then Trusted
    else status
  }

  function Rescore(r: Rep): Rep {
    r.(score := Round4(Raw(r)), status := NextStatus(r.status, Round4(Raw(r))))
  }

  function Issued(r: Rep): Rep {
    r.(issued := r.issued + 1)
  }

  function Success(r: Rep): Rep {
    Rescore(r.(passed := r.passed + 1, passRate := PassRate(r.passed + 1, r.failed)))
  }

  function Failure(r: Rep): Rep {
    Rescore(r.(failed := r.failed + 1, passRate := PassRate(r.passed, r.failed + 1)))
  }

  function Contributed(r: Rep, contribution: real): Rep {
    Rescore(r.(r2 := LastOf(r.r2 + [contribution], 100)))
  }

  /** How the status moves: down with the score, up from probation or distrust to trust, and never up from
      eviction by a good score alone. */
  lemma StatusMoves(status: Status, score: real)
    ensures var next := NextStatus(status, score);
            && (next == Evicted <==> score < 0.3 || (status == Evicted && score >= 0.7))
            && (next == OnProbation <==> 0.3 <= score < 0.7)
            && (next == Trusted <==> score >= 0.7 && status != Evicted)
  {
  }

  /** What the status is meant to say: the score alone decides it. */
  function StatusOf(score: real): Status {
    if score < 0.3 then Evicted else if score < 0.7 then OnProbation else Trusted
  }

  ghost predicate InUnit(x: real) { 0.0 <= x <= 1.0 }

  /** A reachable record: status and score agree, and the score is either the initial one of a
      node nothing was recorded for, or the rounded formula over the current counters. */
  ghost predicate Sound(r: Rep) {
    && r.passRate == PassRate(r.passed, r.failed)
    && |r.r2| <= 100
    && (forall x | x in r.r2 :: InUnit(x))
    && r.status == StatusOf(r.score)
    && (r.score == Round4(Raw(r)) || (r.score == 1.0 && r.passed + r.failed == 0 && r.r2 == []))
  }

  lemma MeanInUnit(r2: seq<real>)
    requires forall x | x in r2 :: InUnit(x)
    ensures InUnit(R2Mean(r2))
  {
    if r2 != [] {
      var last := LastOf(r2, 20);
      assert forall i | 0 <= i < |last| :: last[i] in r2 && InUnit(last[i]);
      MeanBounds(last, 0.0, 1.0);
    }
  }

  lemma DivideInUnit(a: real, b: real)
    requires 0.0 <= a <= b && b > 0.0
    ensures InUnit(a / b)
  {
    assert a / b * b == a;
    CancelPositive(a / b, 1.0, b);
    CancelPositive(0.0, a / b, b);
  }

  /** One more success moves the pass rate by at most one half, once anything was recorded. */
  lemma SuccessRaisesRate(p: nat, f: nat)
    requires p + f > 0
    ensures PassRate(p, f) <= PassRate(p + 1, f) <= PassRate(p, f) + 0.5
  {
    var n := (p + f) as real;
    var a, b := PassRate(p, f), PassRate(p + 1, f);
    assert a * n == p as real && b * (n + 1.0) == p as real + 1.0;
    assert 0.0 <= a <= 1.0 by { DivideInUnit(p as real, n); }
    var d, m := b - a, n + 1.0;
    assert d * m == 1.0 - a;
    CancelPositive(0.0, d, m);
    CancelPositive(d, 0.5, m);
  }

  lemma FailureLowersRate(p: nat, f: nat)
    ensures PassRate(p, f + 1) <= PassRate(p, f)
  {
    if p + f == 0 {
      assert PassRate(p, f + 1) == 0.0;
    } else {
      var n := (p + f) as real;
      var a, b := PassRate(p, f), PassRate(p, f + 1);
      assert a * n == p as real && b * (n + 1.0) == p as real;
      assert 0.0 <= a by { DivideInUnit(p as real, n); }
      assert a * (n + 1.0) == p as real + a;
      CancelPositive(b, a, n + 1.0);
    }
  }

  /** Rescoring keeps status and score in step exactly when it is not an evicted node whose new
      score would be trusted: that branch would leave it evicted. */
  lemma RescoreAgreesIff(r: Rep)
    requires r.status == StatusOf(r.score)
    ensures Rescore(r).status == StatusOf(Rescore(r).score)
            <==> !(r.status == Evicted && Rescore(r).score >= 0.7)
  {
  }

  /** The formula rises by less than the gap between the two cut-offs, so the branch is dead. */
  lemma NoLeapFromEvicted(r: Rep, t: Rep)
    requires Sound(r) && t.status == r.status && t.score == r.score
    requires Raw(t) <= Raw(r) + 0.35
    ensures !(r.status == Evicted && Rescore(t).score >= 0.7)
  {
    RoundNear(Raw(r));
    RoundNear(Raw(t));
  }

  lemma SuccessSound(r: Rep)
    requires Sound(r)
    ensures Sound(Success(r))
  {
    var t := r.(passed := r.passed + 1, passRate := PassRate(r.passed + 1, r.failed));
    if r.passed + r.failed > 0 {
      SuccessRaisesRate(r.passed, r.failed);
      NoLeapFromEvicted(r, t);
    } else {
      assert t.passRate == 1.0 == r.passRate;
      NoLeapFromEvicted(r, t);
    }
  }

  lemma FailureSound(r: Rep)
    requires Sound(r)
    ensures Sound(Failure(r))
  {
    FailureLowersRate(r.passed, r.failed);
    NoLeapFromEvicted(r, r.(failed := r.failed + 1, passRate := PassRate(r.passed, r.failed + 1)));
  }

  lemma ContributedSound(r: Rep, contribution: real)
    requires Sound(r) && InUnit(contribution)
    ensures Sound(Contributed(r, contribution))
  {
    var t := r.(r2 := LastOf(r.r2 + [contribution], 100));
    assert forall x | x in t.r2 :: x in r.r2 || x == contribution;
    MeanInUnit(r.r2);
    MeanInUnit(t.r2);
    NoLeapFromEvicted(r, t);
  }

  lemma FreshSound()
    ensures Sound(FRESH)
  {
  }

  lemma IssuedSound(r: Rep)
    requires Sound(r)
    ensures Sound(Issued(r))
  {
    assert Raw(Issued(r)) == Raw(r);
  }

  lemma FirstFailure()
    ensures var f := Failure(FRESH); f.score == 0.15 && f.passRate == 0.0 && f.r2 == [] && f.status == Evicted
  {
    hide Round4;
    assert Raw(FRESH.(failed := 1, passRate := PassRate(0, 1))) == 0.15 == 1500 as real / 10000.0;
    RoundExact(1500);
  }

  /** With a contribution outside [0, 1] the branch is live: one failure, then a contribution
      of 3.0, and the node stays evicted with a score of 0.9. */
  lemma LargeContributionSticks()
    ensures var r := Contributed(Failure(FRESH), 3.0);
            Failure(FRESH).score == 0.15 && r.score == 0.9 && r.status == Evicted
  {
    FirstFailure();
    hide Round4, Failure;
    var f, r := Failure(FRESH), Contributed(Failure(FRESH), 3.0);
    RoundExact(9000);
    assert f.r2 + [3.0] == [3.0] && r.r2 == [3.0] && [3.0][..0] == [];
    assert Mean([3.0]) == 3.0;
    assert Raw(r) == 0.9 == 9000 as real / 10000.0;
  }
}
