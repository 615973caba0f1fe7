/** The mutable proof engine, proved to make of its view what `StorageProof` specifies, and
    the agreement of its status with the host registry's. */
module ProofEngine {
  import opened Wrappers
  import opened Rounding
  import opened Reputation
  import opened Statistics
  import opened StorageProof
  import Pipeline
  import ShardRegistry

  class NodeReputation {
    const nodeId: NodeId
    var issued: nat
    var passed: nat
    var failed: nat
    var passRate: real
    var r2: seq<real>
    var score: real
    var status: Status

    ghost function View(): Rep
      reads this
    {
      Rep(issued, passed, failed, passRate, r2, score, status)
    }

    constructor (nodeId: NodeId)
      ensures this.nodeId == nodeId && View() == FRESH
    {
      this.nodeId := nodeId;
      issued, passed, failed := 0, 0, 0;
      passRate, score, r2, status := 1.0, 1.0, [], Trusted;
    }

    method UpdatePassRate()
      modifies this
      ensures View() == old(View()).(passRate := PassRate(passed, failed))
    {
      var total := passed + failed;
      passRate := if total > 0 then passed as real / total as real else 1.0;
    }

    method UpdateReputationScore()
      modifies this
      ensures View() == Rescore(old(View()))
    {
      var r2Mean := 0.5;
      if r2 != [] {
        var window := LastOf(r2, 20);
        r2Mean := Sum(window) / |window| as real;
      }
      score := Round4(0.7 * passRate + 0.3 * r2Mean);
      if score < 0.3 {
        status := Evicted;
      } else if score < 0.7 {
        status := OnProbation;
      } else {
        if status == OnProbation || status == Untrusted {
          status := Trusted;
        }
      }
    }
  }

  lemma PutTwice(reps: map<NodeId, Rep>, n: NodeId, a: Rep, b: Rep)
    ensures reps[n := a][n := b] == reps[n := b]
  {
  }

  class StorageProofEngine {
    var reputations: map<NodeId, NodeReputation>
    var pending: map<ChallengeId, Challenge>

    /** Each record sits under its own node id, so no two entries share a record. */
    ghost predicate Wired()
      reads this, reputations.Values
    {
      forall n | n in reputations :: reputations[n].nodeId == n
    }

    ghost function View(): EngineState
      reads this, reputations.Values
    {
      EngineState(map n | n in reputations :: reputations[n].View(), pending)
    }

    constructor ()
      ensures Wired() && View() == EngineState(map[], map[]) && fresh(reputations.Values)
    {
      reputations := map[];
      pending := map[];
    }

    /** `setdefault`. */
    method Record(node: NodeId) returns (rep: NodeReputation)
      requires Wired()
      modifies this`reputations
      ensures Wired() && node in reputations && rep == reputations[node]
      ensures rep.View() == RepOf(old(View()).reps, node)
      ensures fresh(reputations.Values - old(reputations.Values))
      ensures View() == old(View()).(reps := old(View()).reps[node := RepOf(old(View()).reps, node)])
    {
      if node !in reputations {
        rep := new NodeReputation(node);
        reputations := reputations[node := rep];
      }
      rep := reputations[node];
      assert View().reps == old(View()).reps[node := RepOf(old(View()).reps, node)];
    }

    /** Writing one record changes one entry of the view. */
    twostate lemma OneRecordWritten(rep: NodeReputation)
      requires Wired() && unchanged(this) && rep.nodeId in reputations && reputations[rep.nodeId] == rep
      requires forall n | n in reputations && reputations[n] != rep :: unchanged(reputations[n])
      ensures View() == old(View()).(reps := old(View()).reps[rep.nodeId := rep.View()])
    {
      assert View().reps == old(View()).reps[rep.nodeId := rep.View()];
    }

    method CountIssued(node: NodeId)
      requires Wired()
      modifies this`reputations, reputations.Values
      ensures Wired() && fresh(reputations.Values - old(reputations.Values))
      ensures View() == old(View()).(reps := old(View()).reps[node := Issued(RepOf(old(View()).reps, node))])
    {
      hide StorageProofEngine.View, RepOf;
      var rep := Record(node);
      label recorded:
      rep.issued := rep.issued + 1;
      OneRecordWritten@recorded(rep);
      PutTwice(old(View()).reps, node, RepOf(old(View()).reps, node), rep.View());
    }

    method IssueChallenge(id: ChallengeId, node: NodeId, kind: ChallengeKind, now: real, digest: string)
      returns (c: Challenge)
      requires Wired()
      modifies this, reputations.Values
      ensures Wired() && fresh(reputations.Values - old(reputations.Values))
      ensures c == NewChallenge(node, kind, now, digest)
      ensures View() == Issue(old(View()), id, c)
    {
      c := Challenge(node, kind, now + WINDOW_SECONDS, None, None, None);
      if kind == ByteRangeHash {
        c := c.(expectedHash := Some(digest));
      } else if kind == LatencyProbe {
        c := c.(maxLatency := Some(MAX_LATENCY_MS));
      } else if kind == CanaryInference {
        c := c.(expectedOutput := Some(digest));
      }
      pending := pending[id := c];
      assert View() == old(View()).(pending := pending);
      CountIssued(node);
    }

    method RecordSuccess(node: NodeId)
      requires Wired()
      modifies this`reputations, reputations.Values
      ensures Wired() && fresh(reputations.Values - old(reputations.Values))
      ensures View() == old(View()).(reps := old(View()).reps[node := Success(RepOf(old(View()).reps, node))])
    {
      hide Rescore, PassRate, StorageProofEngine.View, RepOf;
      var rep := Record(node);
      label recorded:
      rep.passed := rep.passed + 1;
      rep.UpdatePassRate();
      rep.UpdateReputationScore();
      OneRecordWritten@recorded(rep);
      PutTwice(old(View()).reps, node, RepOf(old(View()).reps, node), rep.View());
    }

    method RecordFailure(node: NodeId)
      requires Wired()
      modifies this`reputations, reputations.Values
      ensures Wired() && fresh(reputations.Values - old(reputations.Values))
      ensures View() == old(View()).(reps := old(View()).reps[node := Failure(RepOf(old(View()).reps, node))])
    {
      hide Rescore, PassRate, StorageProofEngine.View, RepOf;
      var rep := Record(node);
      label recorded:
      rep.failed := rep.failed + 1;
      rep.UpdatePassRate();
      rep.UpdateReputationScore();
      OneRecordWritten@recorded(rep);
      PutTwice(old(View()).reps, node, RepOf(old(View()).reps, node), rep.View());
    }

    method ValidateResponse(r: Response) returns (verdict: Verdict)
      requires Wired()
      modifies this, reputations.Values
      ensures Wired() && fresh(reputations.Values - old(reputations.Values))
      ensures (View(), verdict) == Validate(old(View()), r)
    {
      if r.challengeId !in pending {
        return UnknownChallenge;
      }
      var challenge := pending[r.challengeId];
      pending := pending - {r.challengeId};
      assert View() == old(View()).(pending := pending);
      if r.respondedAt > challenge.expiresAt {
        RecordFailure(r.nodeId);
        return TooLate;
      }
      verdict := NoReason;
      match challenge.kind {
        case ByteRangeHash =>
          verdict := if r.hash == challenge.expectedHash then Passed else HashMismatch;
        case LatencyProbe =>
          if r.latency.Some? && challenge.maxLatency.Some? {
            verdict := if r.latency.value <= challenge.maxLatency.value then Passed else LatencyExceeded;
          } else {
            verdict := MissingLatency;
          }
        case CanaryInference =>
          verdict := if r.outputHash == challenge.expectedOutput then Passed else CanaryMismatch;
        case OtherKind =>
      }
      if verdict == Passed {
        RecordSuccess(r.nodeId);
      } else {
        RecordFailure(r.nodeId);
      }
    }

    method AddR2Contribution(node: NodeId, contribution: real)
      requires Wired()
      modifies this`reputations, reputations.Values
      ensures Wired() && fresh(reputations.Values - old(reputations.Values))
      ensures View() == Contribute(old(View()), node, contribution)
    {
      hide Rescore, StorageProofEngine.View, RepOf;
      var rep := Record(node);
      label recorded:
      rep.r2 := rep.r2 + [contribution];
      if |rep.r2| > 100 {
        rep.r2 := rep.r2[|rep.r2| - 100..];
      }
      rep.UpdateReputationScore();
      OneRecordWritten@recorded(rep);
      PutTwice(old(View()).reps, node, RepOf(old(View()).reps, node), rep.View());
    }

    method EvictIfNecessary(node: NodeId) returns (evicted: bool)
      requires Wired()
      modifies reputations.Values
      ensures Wired()
      ensures (View(), evicted) == StorageProof.EvictIfNecessary(old(View()), node)
    {
      evicted := false;
      if node in reputations && reputations[node].score < 0.3 {
        reputations[node].status := Evicted;
        evicted := true;
      }
      assert View().reps == StorageProof.EvictIfNecessary(old(View()), node).0.reps;
    }
  }

  // ---- the registry agrees ----

  /** The host status that says the same as an engine status. */
  function HostStatusOf(s: Status): Pipeline.HostStatus {
    match s
    case Evicted => Pipeline.Evicted
    case OnProbation => Pipeline.Probation
    case _ => Pipeline.Available
  }

  /** After the score of a sound record is pushed to the registry, the host's status says the
      same as the record's, for every host whose status is a reputation status; an evicted node
      has no candidate in any pipeline, whatever its host status was. */
  lemma RegistryFollowsTheEngine(r: Rep, h: Pipeline.WeightHost, model: string, domains: seq<string>)
    requires Sound(r)
    ensures var t := ShardRegistry.Rescored(h, r.score);
            && (h.status in {Pipeline.Available, Pipeline.Probation, Pipeline.Evicted} ==>
                  t.status == HostStatusOf(r.status))
            && (r.status == Evicted ==> Pipeline.AllCandidates([t], model, domains) == [])
  {
    var t := ShardRegistry.Rescored(h, r.score);
    assert [t][..0] == [];
  }
}
