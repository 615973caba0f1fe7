/** The storage-proof engine (maestro/storage_proof.py): pending challenges, settlement, and
    what every run of the engine keeps. */
module StorageProof {
  import opened Wrappers
  import opened Reputation

  const WINDOW_SECONDS := 60.0

  const MAX_LATENCY_MS := 5000.0

  datatype ChallengeId = ChallengeId(text: string)

  datatype NodeId = NodeId(text: string)

  datatype ChallengeKind = ByteRangeHash | LatencyProbe | CanaryInference | OtherKind

  datatype Challenge = Challenge(
    nodeId: NodeId,
    kind: ChallengeKind,
    expiresAt: real,
    expectedHash: Option<string>,
    expectedOutput: Option<string>,
    maxLatency: Option<real>)

  datatype Response = Response(
    challengeId: ChallengeId,
    nodeId: NodeId,
    respondedAt: real,
    hash: Option<string>,
    outputHash: Option<string>,
    latency: Option<real>)

  datatype Verdict =
    | Passed | UnknownChallenge | TooLate | HashMismatch | LatencyExceeded | MissingLatency | CanaryMismatch | NoReason

  /** `digest` is the reference hash the challenger computes for the kind of challenge. */
  function NewChallenge(node: NodeId, kind: ChallengeKind, now: real, digest: string): Challenge {
    Challenge(node, kind, now + WINDOW_SECONDS,
              if kind == ByteRangeHash then Some(digest) else None,
              if kind == CanaryInference then Some(digest) else None,
              if kind == LatencyProbe then Some(MAX_LATENCY_MS) else None)
  }

  function Judge(c: Challenge, r: Response): Verdict {
    if r.respondedAt > c.expiresAt then TooLate else
    match c.kind
    case ByteRangeHash => if r.hash == c.expectedHash then Passed else HashMismatch
    case LatencyProbe =>
      if r.latency.Some? && c.maxLatency.Some?
      then (if r.latency.value <= c.maxLatency.value then Passed else LatencyExceeded)
      else MissingLatency
    case CanaryInference => if r.outputHash == c.expectedOutput then Passed else CanaryMismatch
    case OtherKind => NoReason
  }

  // ---- the engine as a value ----

  datatype EngineState = EngineState(reps: map<NodeId, Rep>, pending: map<ChallengeId, Challenge>)

  /** `setdefault`: the record of the node, a fresh one if there is none. */
  function RepOf(reps: map<NodeId, Rep>, node: NodeId): Rep {
    if node in reps then reps[node] else FRESH
  }

  function Issue(s: EngineState, id: ChallengeId, c: Challenge): EngineState {
    EngineState(s.reps[c.nodeId := Issued(RepOf(s.reps, c.nodeId))], s.pending[id := c])
  }

  /** Settling credits the node named in the response, not the one that was challenged. */
  function Validate(s: EngineState, r: Response): (EngineState, Verdict) {
    if r.challengeId !in s.pending then (s, UnknownChallenge) else
    var verdict := Judge(s.pending[r.challengeId], r);
    var rep := RepOf(s.reps, r.nodeId);
    (EngineState(s.reps[r.nodeId := if verdict == Passed then Success(rep) else Failure(rep)],
                 s.pending - {r.challengeId}),
     verdict)
  }

  function Contribute(s: EngineState, node: NodeId, score: real): EngineState {
    s.(reps := s.reps[node := Contributed(RepOf(s.reps, node), score)])
  }

  function EvictIfNecessary(s: EngineState, node: NodeId): (EngineState, bool) {
    if node in s.reps && s.reps[node].score < 0.3
    then (s.(reps := s.reps[node := s.reps[node].(status := Evicted)]), true)
    else (s, false)
  }

  datatype Event =
    | IssueEvent(id: ChallengeId, issuedTo: NodeId, kind: ChallengeKind, issuedAt: real, digest: string)
    | RespondEvent(response: Response)
    | ContributeEvent(node: NodeId, score: real)
    | EvictEvent(node: NodeId)

  function Step(s: EngineState, e: Event): EngineState {
    match e
    case IssueEvent(id, node, kind, now, digest) => Issue(s, id, NewChallenge(node, kind, now, digest))
    case RespondEvent(r) => Validate(s, r).0
    case ContributeEvent(node, score) => Contribute(s, node, score)
    case EvictEvent(node) => EvictIfNecessary(s, node).0
  }

  /** A run from the empty engine in which no challenge id is issued twice. */
  ghost predicate IsRun(ss: seq<EngineState>, es: seq<Event>) {
    && |ss| == |es| + 1
    && ss[0] == EngineState(map[], map[])
    && (forall i | 0 <= i < |es| :: ss[i + 1] == Step(ss[i], es[i]))
    && (forall i, j | 0 <= i < j < |es| && es[i].IssueEvent? && es[j].IssueEvent? :: es[i].id != es[j].id)
  }

  // ---- status is a function of the score ----

  ghost predicate AllSound(s: EngineState) {
    forall n | n in s.reps :: Sound(s.reps[n])
  }

  /** In a sound engine the explicit eviction check finds the status already set. */
  lemma EvictionChangesNothing(s: EngineState, node: NodeId)
    requires AllSound(s)
    ensures EvictIfNecessary(s, node).0 == s
    ensures EvictIfNecessary(s, node).1 <==> node in s.reps && s.reps[node].status == Evicted
  {
    if node in s.reps {
      assert Sound(s.reps[node]);
      assert s.reps[node := s.reps[node]] == s.reps;
    }
  }

  /** Whatever the state: a node whose score is below the threshold ends evicted, nothing else changes. */
  lemma EvictMeans(s: EngineState, node: NodeId)
    ensures var (t, evicted) := EvictIfNecessary(s, node);
            && (evicted <==> node in s.reps && s.reps[node].score < 0.3)
            && t.pending == s.pending && t.reps.Keys == s.reps.Keys
            && forall n | n in s.reps ::
                 t.reps[n] == if evicted && n == node then s.reps[n].(status := Evicted) else s.reps[n]
  {
  }

  lemma StepSound(s: EngineState, e: Event)
    requires AllSound(s) && (e.ContributeEvent? ==> InUnit(e.score))
    ensures AllSound(Step(s, e))
  {
    hide Sound, Success, Failure, Issued, Contributed;
    FreshSound();
    match e
    case IssueEvent(id, node, kind, now, digest) => IssuedSound(RepOf(s.reps, node));
    case RespondEvent(r) =>
      SuccessSound(RepOf(s.reps, r.nodeId));
      FailureSound(RepOf(s.reps, r.nodeId));
    case ContributeEvent(node, score) => ContributedSound(RepOf(s.reps, node), score);
    case EvictEvent(node) => EvictionChangesNothing(s, node);
  }

  lemma {:induction false} RunSound(ss: seq<EngineState>, es: seq<Event>, i: nat)
    requires IsRun(ss, es) && i < |ss|
    requires forall k | 0 <= k < |es| && es[k].ContributeEvent? :: InUnit(es[k].score)
    ensures AllSound(ss[i])
  {
    if i > 0 {
      RunSound(ss, es, i - 1);
      StepSound(ss[i - 1], es[i - 1]);
    }
  }

  /** Whatever happened before, the status of every node is decided by its score alone. */
  lemma StatusIsAFunctionOfTheScore(ss: seq<EngineState>, es: seq<Event>, i: nat, node: NodeId)
    requires IsRun(ss, es) && i < |ss| && node in ss[i].reps
    requires forall k | 0 <= k < |es| && es[k].ContributeEvent? :: InUnit(es[k].score)
    ensures ss[i].reps[node].status == StatusOf(ss[i].reps[node].score)
  {
    RunSound(ss, es, i);
    assert Sound(ss[i].reps[node]);
  }

  // ---- conservation ----

  /** Sum of `f` over the records. */
  ghost function Total(reps: map<NodeId, Rep>, f: Rep -> int): int
    decreases |reps|
  {
    if reps.Keys == {} then 0 else
    var n :| n in reps.Keys;
    f(reps[n]) + Total(reps - {n}, f)
  }

  lemma {:induction false} TotalTake(reps: map<NodeId, Rep>, f: Rep -> int, n: NodeId)
    requires n in reps
    ensures Total(reps, f) == f(reps[n]) + Total(reps - {n}, f)
    decreases |reps|
  {
    var m :| m in reps.Keys && Total(reps, f) == f(reps[m]) + Total(reps - {m}, f);
    if m != n {
      TotalTake(reps - {m}, f, n);
      TotalTake(reps - {n}, f, m);
      assert reps - {m} - {n} == reps - {n} - {m};
    }
  }

  lemma TotalPut(reps: map<NodeId, Rep>, f: Rep -> int, n: NodeId, r: Rep)
    requires f(FRESH) == 0
    ensures Total(reps[n := r], f) == Total(reps, f) - f(RepOf(reps, n)) + f(r)
  {
    TotalTake(reps[n := r], f, n);
    assert reps[n := r] - {n} == reps - {n};
    if n in reps {
      TotalTake(reps, f, n);
    } else {
      assert reps - {n} == reps;
    }
  }

  /** Challenges the counters of one record still owe. */
  function Owed(r: Rep): int {
    r.issued - r.passed - r.failed
  }

  ghost predicate Conserved(s: EngineState) {
    Total(s.reps, Owed) == |s.pending|
  }

  lemma OwedMoves(r: Rep, contribution: real)
    ensures Owed(Issued(r)) == Owed(r) + 1
    ensures Owed(Success(r)) == Owed(r) - 1 && Owed(Failure(r)) == Owed(r) - 1
    ensures Owed(Contributed(r, contribution)) == Owed(r)
    ensures Owed(r.(status := Evicted)) == Owed(r) && Owed(FRESH) == 0
  {
    hide PassRate, R2Mean, NextStatus;
  }

  lemma PendingGrows(pending: map<ChallengeId, Challenge>, id: ChallengeId, c: Challenge)
    ensures id !in pending ==> |pending[id := c]| == |pending| + 1
    ensures id in pending ==> |pending - {id}| == |pending| - 1
  {
    assert pending[id := c].Keys == pending.Keys + {id};
    assert (pending - {id}).Keys == pending.Keys - {id};
    assert |pending[id := c].Keys| == |pending[id := c]| && |pending.Keys| == |pending|;
    assert |(pending - {id}).Keys| == |pending - {id}|;
  }

  lemma IssueConserves(s: EngineState, id: ChallengeId, c: Challenge)
    requires Conserved(s) && id !in s.pending
    ensures Conserved(Issue(s, id, c))
  {
    hide Owed, Issued, Total, RepOf;
    var rep := RepOf(s.reps, c.nodeId);
    OwedMoves(rep, 0.0);
    TotalPut(s.reps, Owed, c.nodeId, Issued(rep));
    PendingGrows(s.pending, id, c);
  }

  lemma ValidateConserves(s: EngineState, r: Response)
    requires Conserved(s)
    ensures Conserved(Validate(s, r).0)
  {
    hide Owed, Success, Failure, Total, RepOf, Judge;
    if r.challengeId in s.pending {
      var rep := RepOf(s.reps, r.nodeId);
      OwedMoves(rep, 0.0);
      TotalPut(s.reps, Owed, r.nodeId, Success(rep));
      TotalPut(s.reps, Owed, r.nodeId, Failure(rep));
      PendingGrows(s.pending, r.challengeId, s.pending[r.challengeId]);
    }
  }

  lemma RecordSwapped(s: EngineState, node: NodeId, r: Rep)
    requires Conserved(s) && Owed(r) == Owed(RepOf(s.reps, node))
    ensures Conserved(s.(reps := s.reps[node := r]))
  {
    hide Total, RepOf, Owed;
    OwedMoves(r, 0.0);
    TotalPut(s.reps, Owed, node, r);
  }

  lemma StepConserves(s: EngineState, e: Event)
    requires Conserved(s) && (e.IssueEvent? ==> e.id !in s.pending)
    ensures Conserved(Step(s, e))
  {
    hide Owed, Total, Conserved, Issue, Validate, Contributed;
    match e
    case IssueEvent(id, node, kind, now, digest) => IssueConserves(s, id, NewChallenge(node, kind, now, digest));
    case RespondEvent(r) => ValidateConserves(s, r);
    case ContributeEvent(node, score) =>
      OwedMoves(RepOf(s.reps, node), score);
      RecordSwapped(s, node, Contributed(RepOf(s.reps, node), score));
    case EvictEvent(node) =>
      OwedMoves(RepOf(s.reps, node), 0.0);
      RecordSwapped(s, node, RepOf(s.reps, node).(status := Evicted));
  }

  /** Only an issued id is ever pending. */
  lemma {:induction false} PendingWasIssued(ss: seq<EngineState>, es: seq<Event>, i: nat, id: ChallengeId)
    requires IsRun(ss, es) && i < |ss| && id in ss[i].pending
    ensures exists k :: 0 <= k < i && es[k].IssueEvent? && es[k].id == id
  {
    if i > 0 {
      if id in ss[i - 1].pending {
        PendingWasIssued(ss, es, i - 1, id);
      } else {
        assert es[i - 1].IssueEvent? && es[i - 1].id == id;
      }
    }
  }

  lemma {:induction false} RunConserves(ss: seq<EngineState>, es: seq<Event>, i: nat)
    requires IsRun(ss, es) && i < |ss|
    ensures Conserved(ss[i])
  {
    if i > 0 {
      RunConserves(ss, es, i - 1);
      var e := es[i - 1];
      if e.IssueEvent? && e.id in ss[i - 1].pending { PendingWasIssued(ss, es, i - 1, e.id); }
      StepConserves(ss[i - 1], e);
    }
  }

  lemma {:induction false} TotalSplits(reps: map<NodeId, Rep>)
    ensures Total(reps, Owed)
            == Total(reps, (r: Rep) => r.issued) - Total(reps, (r: Rep) => r.passed) - Total(reps, (r: Rep) => r.failed)
    decreases |reps|
  {
    if n :| n in reps {
      TotalSplits(reps - {n});
      TotalTake(reps, Owed, n);
      TotalTake(reps, (r: Rep) => r.issued, n);
      TotalTake(reps, (r: Rep) => r.passed, n);
      TotalTake(reps, (r: Rep) => r.failed, n);
    } else {
      assert reps.Keys == {};
    }
  }

  /** In every reachable state the challenges issued over all nodes are the pending ones plus
      those passed and failed. */
  lemma IssuedArePendingPassedOrFailed(ss: seq<EngineState>, es: seq<Event>, i: nat)
    requires IsRun(ss, es) && i < |ss|
    ensures Total(ss[i].reps, (r: Rep) => r.issued)
            == |ss[i].pending| + Total(ss[i].reps, (r: Rep) => r.passed) + Total(ss[i].reps, (r: Rep) => r.failed)
  {
    RunConserves(ss, es, i);
    TotalSplits(ss[i].reps);
  }

  // ---- at most one settlement ----

  /** A response that finds its challenge pending. */
  ghost predicate Settles(s: EngineState, e: Event, id: ChallengeId) {
    e.RespondEvent? && e.response.challengeId == id && id in s.pending
  }

  lemma {:induction false} NeverPendingAgain(ss: seq<EngineState>, es: seq<Event>, i: nat, j: nat, id: ChallengeId)
    requires IsRun(ss, es) && i < j < |ss| && Settles(ss[i], es[i], id)
    ensures id !in ss[j].pending
  {
    PendingWasIssued(ss, es, i, id);
    if j > i + 1 { NeverPendingAgain(ss, es, i, j - 1, id); }
  }

  /** Each challenge is settled at most once; a response that settles nothing changes nothing. */
  lemma SettledAtMostOnce(ss: seq<EngineState>, es: seq<Event>, i: nat, j: nat, id: ChallengeId)
    requires IsRun(ss, es) && i < j < |es| && Settles(ss[i], es[i], id)
    ensures !Settles(ss[j], es[j], id)
    ensures es[j].RespondEvent? && es[j].response.challengeId == id ==>
              ss[j + 1] == ss[j] && Validate(ss[j], es[j].response).1 == UnknownChallenge
  {
    NeverPendingAgain(ss, es, i, j, id);
  }

  // ---- the identity is global, not per node ----

  function PendingOf(pending: map<ChallengeId, Challenge>, node: NodeId): set<ChallengeId> {
    set id | id in pending && pending[id].nodeId == node
  }

  ghost predicate NodeConserved(s: EngineState, node: NodeId) {
    Owed(RepOf(s.reps, node)) == |PendingOf(s.pending, node)|
  }

  lemma PendingOfWithout(pending: map<ChallengeId, Challenge>, id: ChallengeId, n: NodeId)
    requires id in pending
    ensures |PendingOf(pending - {id}, n)| == |PendingOf(pending, n)| - if pending[id].nodeId == n then 1 else 0
  {
    assert PendingOf(pending - {id}, n) == PendingOf(pending, n) - {id};
  }

  lemma OwedAfterSettling(s: EngineState, r: Response, n: NodeId)
    requires r.challengeId in s.pending
    ensures Owed(RepOf(Validate(s, r).0.reps, n)) == Owed(RepOf(s.reps, n)) - if n == r.nodeId then 1 else 0
    ensures Validate(s, r).0.pending == s.pending - {r.challengeId}
  {
    hide Owed, Success, Failure, Judge;
    OwedMoves(RepOf(s.reps, r.nodeId), 0.0);
  }

  lemma OneNodeIdentity(s: EngineState, r: Response, n: NodeId)
    requires r.challengeId in s.pending && NodeConserved(s, n)
    ensures NodeConserved(Validate(s, r).0, n) <==> (n == s.pending[r.challengeId].nodeId <==> n == r.nodeId)
  {
    hide Owed, Validate, PendingOf, RepOf;
    OwedAfterSettling(s, r, n);
    PendingOfWithout(s.pending, r.challengeId, n);
  }

  /** A settlement keeps the identity of every single node exactly when the response names the
      node that was challenged. */
  lemma PerNodeIdentityIff(s: EngineState, r: Response)
    requires r.challengeId in s.pending && forall n :: NodeConserved(s, n)
    ensures (forall n :: NodeConserved(Validate(s, r).0, n)) <==> r.nodeId == s.pending[r.challengeId].nodeId
  {
    hide NodeConserved, Validate;
    var owner := s.pending[r.challengeId].nodeId;
    forall n ensures NodeConserved(Validate(s, r).0, n) <==> (n == owner <==> n == r.nodeId) {
      OneNodeIdentity(s, r, n);
    }
    if r.nodeId != owner { assert !NodeConserved(Validate(s, r).0, owner); }
  }
}
