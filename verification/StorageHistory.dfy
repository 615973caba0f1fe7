/** The storage-proof engine read from its events alone (maestro/storage_proof.py:148-300): which challenges
    are open, what settles them, and the counters, score and status that follow. */
module StorageHistory {
  import opened Wrappers
  import opened Statistics
  import opened Rounding
  import opened Reputation
  import opened StorageProof

  // ---- the history ----

  /** The event that issued a challenge still unanswered. */
  function OpenIssue(es: seq<Event>, id: ChallengeId): Option<Event> {
    if es == [] then None
    else
      var n := |es| - 1;
      if es[n].IssueEvent? && es[n].id == id then Some(es[n])
      else if es[n].RespondEvent? && es[n].response.challengeId == id then None
      else OpenIssue(es[..n], id)
  }

  /** The response came by a minute after the issue and carries what the kind asks for. */
  predicate Answers(issue: Event, r: Response)
    requires issue.IssueEvent?
  {
    && r.respondedAt <= issue.issuedAt + 60.0
    && match issue.kind
       case ByteRangeHash => r.hash == Some(issue.digest)
       case LatencyProbe => r.latency.Some? && r.latency.value <= 5000.0
       case CanaryInference => r.outputHash == Some(issue.digest)
       case OtherKind => false
  }

  datatype Tally = Tally(issued: nat, passed: nat, failed: nat, contributions: seq<real>)

  /** What one more event adds to a node's tally. */
  function TallyNext(t: Tally, before: seq<Event>, e: Event, node: NodeId): Tally {
    match e
    case IssueEvent(_, challenged, _, _, _) => if challenged == node then t.(issued := t.issued + 1) else t
    case RespondEvent(r) =>
      if r.nodeId != node then t
      else
        (match OpenIssue(before, r.challengeId)
         case Some(IssueEvent(id, challenged, kind, at, digest)) =>
           if Answers(IssueEvent(id, challenged, kind, at, digest), r)
           then t.(passed := t.passed + 1) else t.(failed := t.failed + 1)
         case _ => t)
    case ContributeEvent(giver, score) =>
      if giver == node then t.(contributions := t.contributions + [score]) else t
    case EvictEvent(_) => t
  }

  function TallyOf(es: seq<Event>, node: NodeId): Tally {
    if es == [] then Tally(0, 0, 0, [])
    else
      var n := |es| - 1;
      TallyNext(TallyOf(es[..n], node), es[..n], es[n], node)
  }

  /** The last `n` of a list, or all of it. */
  function Tail(s: seq<real>, n: nat): seq<real> {
    if |s| <= n then s else s[|s| - n..]
  }

  /** The score a tally earns: seven tenths the share of challenges passed, three tenths the mean of the
      last twenty contributions, one half where there are none. */
  function Earned(t: Tally): real {
    if t.passed + t.failed == 0 && t.contributions == [] then 1.0
    else
      var share := if t.passed + t.failed == 0 then 1.0 else t.passed as real / (t.passed + t.failed) as real;
      var given := if t.contributions == [] then 0.5 else Mean(Tail(t.contributions, 20));
      Round4(0.7 * share + 0.3 * given)
  }

  /** A node's record is what its tally says. */
  predicate Reflects(r: Rep, t: Tally) {
    && r.issued == t.issued && r.passed == t.passed && r.failed == t.failed
    && r.passRate == (if t.passed + t.failed == 0 then 1.0 else t.passed as real / (t.passed + t.failed) as real)
    && r.r2 == Tail(t.contributions, 100)
    && r.score == Earned(t)
  }

  /** A pending challenge carries the terms of its issue. */
  predicate PendingIs(c: Challenge, issue: Option<Event>) {
    && issue.Some? && issue.value.IssueEvent?
    && c.nodeId == issue.value.issuedTo && c.kind == issue.value.kind && c.expiresAt == issue.value.issuedAt + 60.0
    && c.expectedHash == (if c.kind == ByteRangeHash then Some(issue.value.digest) else None)
    && c.expectedOutput == (if c.kind == CanaryInference then Some(issue.value.digest) else None)
    && c.maxLatency == (if c.kind == LatencyProbe then Some(5000.0) else None)
  }

  ghost predicate IsHistory(s: EngineState, es: seq<Event>) {
    && (forall id :: id in s.pending <==> OpenIssue(es, id).Some?)
    && (forall id | id in s.pending :: PendingIs(s.pending[id], OpenIssue(es, id)))
    && (forall node :: Reflects(RepOf(s.reps, node), TallyOf(es, node)))
  }

  // ---- one event ----

  lemma JudgedOnItsMerits(c: Challenge, issue: Event, r: Response)
    requires PendingIs(c, Some(issue))
    ensures Judge(c, r) == Passed <==> Answers(issue, r)
  {
  }

  /** Why a challenge is not passed. */
  lemma RefusalSaysWhy(c: Challenge, issue: Event, r: Response)
    requires PendingIs(c, Some(issue))
    ensures var v, late := Judge(c, r), r.respondedAt > issue.issuedAt + 60.0;
            && (v == TooLate <==> late)
            && (v == HashMismatch <==> !late && issue.kind == ByteRangeHash && r.hash != Some(issue.digest))
            && (v == CanaryMismatch <==> !late && issue.kind == CanaryInference && r.outputHash != Some(issue.digest))
            && (v == MissingLatency <==> !late && issue.kind == LatencyProbe && r.latency.None?)
            && (v == LatencyExceeded <==>
                  !late && issue.kind == LatencyProbe && r.latency.Some? && r.latency.value > 5000.0)
            && (v == NoReason <==> !late && issue.kind == OtherKind)
            && v != UnknownChallenge
  {
  }

  lemma TailOfMore(s: seq<real>, x: real)
    ensures LastOf(Tail(s, 100) + [x], 100) == Tail(s + [x], 100)
    ensures LastOf(Tail(s, 100), 20) == Tail(s, 20)
    ensures Tail(s, 100) == [] <==> s == []
  {
  }

  lemma IssuedReflects(r: Rep, t: Tally)
    requires Reflects(r, t)
    ensures Reflects(Issued(r), t.(issued := t.issued + 1))
  {
    hide Round4, Mean, Tail;
  }

  lemma RescoredEarns(r: Rep, t: Tally)
    requires r.passRate == (if t.passed + t.failed == 0 then 1.0 else t.passed as real / (t.passed + t.failed) as real)
    requires r.r2 == Tail(t.contributions, 100) && (t.passed + t.failed > 0 || t.contributions != [])
    ensures Rescore(r).score == Earned(t)
  {
    hide Round4, Mean;
    TailOfMore(t.contributions, 0.0);
  }

  lemma SettledReflects(r: Rep, t: Tally)
    requires Reflects(r, t)
    ensures Reflects(Success(r), t.(passed := t.passed + 1))
    ensures Reflects(Failure(r), t.(failed := t.failed + 1))
  {
    hide Round4, Mean, Tail, Earned;
    var p, f := t.(passed := t.passed + 1), t.(failed := t.failed + 1);
    RescoredEarns(r.(passed := p.passed, passRate := PassRate(p.passed, p.failed)), p);
    RescoredEarns(r.(failed := f.failed, passRate := PassRate(f.passed, f.failed)), f);
  }

  lemma ContributedReflects(r: Rep, t: Tally, score: real)
    requires Reflects(r, t)
    ensures Reflects(Contributed(r, score), t.(contributions := t.contributions + [score]))
  {
    hide Round4, Mean, Tail, Earned, LastOf;
    var u := t.(contributions := t.contributions + [score]);
    TailOfMore(t.contributions, score);
    RescoredEarns(r.(r2 := LastOf(r.r2 + [score], 100)), u);
  }

  lemma OpenNext(es: seq<Event>, e: Event, id: ChallengeId)
    ensures OpenIssue(es + [e], id)
            == if e.IssueEvent? && e.id == id then Some(e)
               else if e.RespondEvent? && e.response.challengeId == id then None
               else OpenIssue(es, id)
  {
    assert (es + [e])[..|es|] == es;
  }

  lemma TalliedNext(es: seq<Event>, e: Event, node: NodeId)
    ensures TallyOf(es + [e], node) == TallyNext(TallyOf(es, node), es, e, node)
  {
    hide TallyNext;
    assert (es + [e])[..|es|] == es;
  }

  lemma PendingNext(s: EngineState, es: seq<Event>, e: Event)
    requires IsHistory(s, es)
    ensures var t, more := Step(s, e), es + [e];
            && (forall id :: id in t.pending <==> OpenIssue(more, id).Some?)
            && (forall id | id in t.pending :: PendingIs(t.pending[id], OpenIssue(more, id)))
  {
    hide Reflects, TallyOf, Judge, Success, Failure, Contributed, Issued, OpenIssue;
    var more := es + [e];
    forall id ensures OpenIssue(more, id)
                      == if e.IssueEvent? && e.id == id then Some(e)
                         else if e.RespondEvent? && e.response.challengeId == id then None
                         else OpenIssue(es, id) {
      OpenNext(es, e, id);
    }
  }

  lemma EvictedReflects(r: Rep, t: Tally)
    requires Reflects(r, t)
    ensures Reflects(r.(status := Evicted), t)
  {
  }

  lemma JudgedHere(s: EngineState, es: seq<Event>, r: Response)
    requires IsHistory(s, es) && r.challengeId in s.pending
    ensures OpenIssue(es, r.challengeId).Some? && OpenIssue(es, r.challengeId).value.IssueEvent?
    ensures Judge(s.pending[r.challengeId], r) == Passed <==> Answers(OpenIssue(es, r.challengeId).value, r)
  {
    hide Reflects, TallyOf, Judge, OpenIssue, Answers;
    assert PendingIs(s.pending[r.challengeId], OpenIssue(es, r.challengeId));
    JudgedOnItsMerits(s.pending[r.challengeId], OpenIssue(es, r.challengeId).value, r);
  }

  lemma RecordNext(s: EngineState, es: seq<Event>, e: Event, node: NodeId)
    requires IsHistory(s, es)
    ensures Reflects(RepOf(Step(s, e).reps, node), TallyOf(es + [e], node))
  {
    hide Reflects, TallyOf, Judge, Success, Failure, Contributed, Issued, OpenIssue, Answers, PendingIs;
    var r, t := RepOf(s.reps, node), TallyOf(es, node);
    assert Reflects(r, t);
    TalliedNext(es, e, node);
    match e
    case IssueEvent(id, challenged, kind, at, digest) => IssuedReflects(r, t);
    case RespondEvent(response) =>
      SettledReflects(r, t);
      if response.challengeId in s.pending {
        JudgedHere(s, es, response);
      }
    case ContributeEvent(giver, score) => ContributedReflects(r, t, score);
    case EvictEvent(n) => EvictedReflects(r, t);
  }

  // ---- a run ----

  lemma EmptyHistory()
    ensures IsHistory(EngineState(map[], map[]), [])
  {
  }

  lemma EventKept(s: EngineState, es: seq<Event>, e: Event)
    requires IsHistory(s, es)
    ensures IsHistory(Step(s, e), es + [e])
  {
    hide Reflects, TallyOf, OpenIssue, PendingIs, Step;
    PendingNext(s, es, e);
    forall node ensures Reflects(RepOf(Step(s, e).reps, node), TallyOf(es + [e], node)) {
      RecordNext(s, es, e, node);
    }
  }

  /** Whatever happened: what is pending and every node's counters, contributions and score are the
      reading of the events. */
  lemma {:induction false} EngineIsItsHistory(ss: seq<EngineState>, es: seq<Event>, i: nat)
    requires IsRun(ss, es) && i < |ss|
    ensures IsHistory(ss[i], es[..i])
  {
    if i == 0 {
      assert es[..0] == [];
      EmptyHistory();
    } else {
      hide IsHistory, Step;
      EngineIsItsHistory(ss, es, i - 1);
      assert es[..i] == es[..i - 1] + [es[i - 1]];
      EventKept(ss[i - 1], es[..i - 1], es[i - 1]);
    }
  }

  /** No answer to the challenge among the events from `i` to `j`. */
  ghost predicate Unanswered(es: seq<Event>, i: nat, j: nat, id: ChallengeId)
    requires j <= |es|
  {
    forall k | i < k < j :: !(es[k].RespondEvent? && es[k].response.challengeId == id)
  }

  lemma {:induction false} StillOpen(ss: seq<EngineState>, es: seq<Event>, i: nat, j: nat)
    requires IsRun(ss, es) && i < j <= |es| && es[i].IssueEvent? && Unanswered(es, i, j, es[i].id)
    ensures OpenIssue(es[..j], es[i].id) == Some(es[i])
  {
    assert es[..j][..j - 1] == es[..j - 1];
    if j > i + 1 {
      StillOpen(ss, es, i, j - 1);
    }
  }

  lemma Counted(r: Rep)
    ensures Success(r).passed == r.passed + 1 && Success(r).failed == r.failed
    ensures Failure(r).failed == r.failed + 1 && Failure(r).passed == r.passed
  {
    hide PassRate, Raw, NextStatus, Round4;
  }

  /** From issue to counters: the first response to a challenge raises the responder's passed count by
      one exactly when it answers it in time, and its failed count otherwise; nobody else's moves. */
  lemma SettledOnItsMerits(ss: seq<EngineState>, es: seq<Event>, i: nat, j: nat, node: NodeId)
    requires IsRun(ss, es) && i < j < |es| && es[i].IssueEvent? && es[j].RespondEvent?
    requires es[j].response.challengeId == es[i].id && Unanswered(es, i, j, es[i].id)
    ensures var before, after := RepOf(ss[j].reps, node), RepOf(ss[j + 1].reps, node);
            if node != es[j].response.nodeId then after == before
            else if Answers(es[i], es[j].response)
            then after.passed == before.passed + 1 && after.failed == before.failed
            else after.failed == before.failed + 1 && after.passed == before.passed
    ensures Validate(ss[j], es[j].response).1 == Passed <==> Answers(es[i], es[j].response)
  {
    hide Reflects, TallyOf, Judge, Success, Failure, OpenIssue, Answers, PendingIs, NewChallenge;
    EngineIsItsHistory(ss, es, j);
    StillOpen(ss, es, i, j);
    JudgedHere(ss[j], es[..j], es[j].response);
    Counted(RepOf(ss[j].reps, es[j].response.nodeId));
    assert ss[j + 1] == Step(ss[j], es[j]);
  }

  /** The score and the status of a node follow from its tally. */
  lemma ScoreOfTheTally(ss: seq<EngineState>, es: seq<Event>, i: nat, node: NodeId)
    requires IsRun(ss, es) && i < |ss| && node in ss[i].reps
    requires forall k | 0 <= k < |es| && es[k].ContributeEvent? :: InUnit(es[k].score)
    ensures var r, earned := ss[i].reps[node], Earned(TallyOf(es[..i], node));
            && r.score == earned
            && (r.status == Evicted <==> earned < 0.3)
            && (r.status == OnProbation <==> 0.3 <= earned < 0.7)
            && (r.status == Trusted <==> earned >= 0.7)
  {
    hide TallyOf, OpenIssue, PendingIs, Earned;
    EngineIsItsHistory(ss, es, i);
    assert Reflects(RepOf(ss[i].reps, node), TallyOf(es[..i], node));
    StatusIsAFunctionOfTheScore(ss, es, i, node);
  }
}
