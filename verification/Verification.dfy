/** Checking a manifest's signatures against a trust list and a threshold
    (maestro/librarian/verification.py). */
module Verification {
  import opened Wrappers
  import opened Manifests
  import opened Addressing

  type TrustList = map<KeyId, PublicKey>

  /** The signatures each kind needs; one where nothing is said. */
  type Policy = map<Kind, int>

  datatype Reason =
    | Fine | UnsupportedAlgo | UnknownSigner | MalformedBase64 | DoesNotVerify | ContentHashMismatch
    | ManifestHashMismatch

  datatype SignatureResult = SignatureResult(signature: Signature, valid: bool, reason: Reason)

  datatype Report = Report(
    signatures: seq<SignatureResult>,
    required: int,
    met: bool,
    manifestHashOk: bool,
    contentHashOk: bool)

  function VerifyOne(c: Crypto, s: Signature, hash: Hash, trust: TrustList): SignatureResult {
    if s.algo != "ed25519" then SignatureResult(s, false, UnsupportedAlgo)
    else if s.keyId !in trust then SignatureResult(s, false, UnknownSigner)
    else
      match c.decode(s.sig)
      case None => SignatureResult(s, false, MalformedBase64)
      case Some(bytes) =>
        if c.verify(trust[s.keyId], hash.text, bytes) then SignatureResult(s, true, Fine)
        else SignatureResult(s, false, DoesNotVerify)
  }

  function VerifyEach(c: Crypto, sigs: seq<Signature>, hash: Hash, trust: TrustList): (r: seq<SignatureResult>)
    ensures |r| == |sigs|
  {
    seq(|sigs|, i requires 0 <= i < |sigs| => VerifyOne(c, sigs[i], hash, trust))
  }

  function RejectEach(sigs: seq<Signature>, reason: Reason): (r: seq<SignatureResult>)
    ensures |r| == |sigs|
  {
    seq(|sigs|, i requires 0 <= i < |sigs| => SignatureResult(sigs[i], false, reason))
  }

  function ValidCount(rs: seq<SignatureResult>): nat {
    if rs == [] then 0 else ValidCount(rs[..|rs| - 1]) + if rs[|rs| - 1].valid then 1 else 0
  }

  function RequiredOf(policy: Policy, kind: Kind): int {
    if kind in policy then policy[kind] else 1
  }

  predicate ContentOk(c: Crypto, m: Manifest, body: Body) {
    ContentHash(c, body, m.form) == Some(m.contentHash)
  }

  predicate ManifestOk(c: Crypto, m: Manifest) {
    ManifestHash(c, m) == m.manifestHash
  }

  function Verify(c: Crypto, m: Manifest, body: Body, trust: TrustList, policy: Policy): Report {
    var required := RequiredOf(policy, m.kind);
    if !ContentOk(c, m, body) || !ManifestOk(c, m) then
      var reason := if !ContentOk(c, m, body) then ContentHashMismatch else ManifestHashMismatch;
      Report(RejectEach(m.signatures, reason), required, false, ManifestOk(c, m), ContentOk(c, m, body))
    else
      var results := VerifyEach(c, m.signatures, m.manifestHash, trust);
      Report(results, required, ValidCount(results) >= required, true, true)
  }

  lemma {:induction false} RejectedCountNothing(sigs: seq<Signature>, reason: Reason)
    ensures ValidCount(RejectEach(sigs, reason)) == 0
  {
    if sigs != [] {
      RejectedCountNothing(sigs[..|sigs| - 1], reason);
      assert RejectEach(sigs, reason)[..|sigs| - 1] == RejectEach(sigs[..|sigs| - 1], reason);
    }
  }

  /** A manifest is accepted exactly when both hashes hold and enough signatures are valid: a
      threshold of zero or less does not excuse a wrong hash. */
  lemma MetIff(c: Crypto, m: Manifest, body: Body, trust: TrustList, policy: Policy)
    ensures var r := Verify(c, m, body, trust, policy);
            && (r.met <==> ContentOk(c, m, body) && ManifestOk(c, m)
                           && ValidCount(r.signatures) >= RequiredOf(policy, m.kind))
            && (!(ContentOk(c, m, body) && ManifestOk(c, m)) ==> ValidCount(r.signatures) == 0)
  {
    hide ManifestHash, ContentHash;
    RejectedCountNothing(m.signatures, ContentHashMismatch);
    RejectedCountNothing(m.signatures, ManifestHashMismatch);
  }

  // ---- signatures and signers ----

  /** The keys with a valid signature. */
  function ValidSigners(rs: seq<SignatureResult>): set<KeyId> {
    set r | r in rs && r.valid :: r.signature.keyId
  }

  /** No key has two valid signatures. */
  ghost predicate EachOnce(rs: seq<SignatureResult>) {
    forall i, j | 0 <= i < j < |rs| && rs[i].valid && rs[j].valid :: rs[i].signature.keyId != rs[j].signature.keyId
  }

  lemma SignersNext(rs: seq<SignatureResult>)
    requires rs != []
    ensures var front, last := rs[..|rs| - 1], rs[|rs| - 1];
            && ValidSigners(rs) == ValidSigners(front) + (if last.valid then {last.signature.keyId} else {})
            && (EachOnce(rs) <==> EachOnce(front) && (last.valid ==> last.signature.keyId !in ValidSigners(front)))
  {
    var front, last := rs[..|rs| - 1], rs[|rs| - 1];
    assert rs == front + [last];
  }

  lemma {:induction false} CountIsSignersIff(rs: seq<SignatureResult>)
    ensures |ValidSigners(rs)| <= ValidCount(rs)
    ensures |ValidSigners(rs)| == ValidCount(rs) <==> EachOnce(rs)
  {
    if rs != [] {
      hide ValidSigners, EachOnce;
      CountIsSignersIff(rs[..|rs| - 1]);
      SignersNext(rs);
    }
  }

  /** For any manifest at all: the count that meets the threshold is the number of different trusted
      signers exactly when no key has two valid signatures, which nothing checks. */
  lemma SignersCountedIff(c: Crypto, m: Manifest, body: Body, trust: TrustList, policy: Policy)
    ensures var r := Verify(c, m, body, trust, policy);
            && (ValidCount(r.signatures) == |ValidSigners(r.signatures)| <==> EachOnce(r.signatures))
            && ValidSigners(r.signatures) <= trust.Keys
            && (EachOnce(r.signatures) && r.met ==> |ValidSigners(r.signatures)| >= RequiredOf(policy, m.kind))
  {
    hide ManifestHash, ContentHash, ValidCount, EachOnce;
    CountIsSignersIff(Verify(c, m, body, trust, policy).signatures);
    MetIff(c, m, body, trust, policy);
  }

  // ---- what is accepted ----

  /** The signature at position `i` is a signature of the hash by a trusted key. */
  ghost predicate SignedAt(c: Crypto, m: Manifest, trust: TrustList, i: int)
    requires 0 <= i < |m.signatures|
  {
    var s := m.signatures[i];
    && s.algo == "ed25519" && s.keyId in trust && c.decode(s.sig).Some?
    && c.verify(trust[s.keyId], m.manifestHash.text, c.decode(s.sig).value)
  }

  ghost predicate HashesHold(c: Crypto, m: Manifest, body: Body) {
    && m.form == BytesRaw && m.contentHash.text == "sha256:" + c.digestBody(body)
    && m.manifestHash.text == "sha256:" + c.digestPayload(Fields(m) - {ManifestHashF, SignaturesF})
  }

  /** Both hashes hold, and as many positions as the kind needs hold a signature by a trusted key. */
  ghost predicate Endorsed(c: Crypto, m: Manifest, body: Body, trust: TrustList, policy: Policy) {
    && HashesHold(c, m, body)
    && |set i | 0 <= i < |m.signatures| && SignedAt(c, m, trust, i)| >= if m.kind in policy then policy[m.kind] else 1
  }

  lemma ValidAreSigned(c: Crypto, m: Manifest, trust: TrustList, i: nat)
    requires i < |m.signatures|
    ensures VerifyOne(c, m.signatures[i], m.manifestHash, trust).valid <==> SignedAt(c, m, trust, i)
  {
  }

  lemma {:induction false} CountsPositions(rs: seq<SignatureResult>)
    ensures ValidCount(rs) == |set i | 0 <= i < |rs| && rs[i].valid|
  {
    if rs != [] {
      var n := |rs| - 1;
      CountsPositions(rs[..n]);
      var all, front := set i | 0 <= i < |rs| && rs[i].valid, set i | 0 <= i < n && rs[..n][i].valid;
      assert all == if rs[n].valid then front + {n} else front;
    }
  }

  lemma HashesHoldIff(c: Crypto, m: Manifest, body: Body)
    ensures HashesHold(c, m, body) <==> ContentOk(c, m, body) && ManifestOk(c, m)
  {
    hide Fields;
  }

  /** A manifest is accepted exactly when it is endorsed. */
  lemma AcceptedIff(c: Crypto, m: Manifest, body: Body, trust: TrustList, policy: Policy)
    ensures Verify(c, m, body, trust, policy).met <==> Endorsed(c, m, body, trust, policy)
  {
    hide ContentOk, ManifestOk, HashesHold, VerifyOne, SignedAt, ValidCount;
    HashesHoldIff(c, m, body);
    var rs := VerifyEach(c, m.signatures, m.manifestHash, trust);
    CountsPositions(rs);
    forall i | 0 <= i < |rs| ensures rs[i].valid <==> SignedAt(c, m, trust, i) {
      ValidAreSigned(c, m, trust, i);
    }
    assert (set i | 0 <= i < |rs| && rs[i].valid)
        == set i | 0 <= i < |m.signatures| && SignedAt(c, m, trust, i);
  }

  /** The report has one line for each signature, in order, and says why it does not count. */
  lemma ReportMeans(c: Crypto, m: Manifest, body: Body, trust: TrustList, policy: Policy, i: nat)
    requires i < |m.signatures|
    ensures var r := Verify(c, m, body, trust, policy);
            && |r.signatures| == |m.signatures| && r.signatures[i].signature == m.signatures[i]
            && (r.signatures[i].valid <==> HashesHold(c, m, body) && SignedAt(c, m, trust, i))
            && (r.signatures[i].valid <==> r.signatures[i].reason == Fine)
            && (r.contentHashOk <==> m.form == BytesRaw && m.contentHash.text == "sha256:" + c.digestBody(body))
            && (!r.contentHashOk <==> r.signatures[i].reason == ContentHashMismatch)
            && (HashesHold(c, m, body) <==> r.contentHashOk && r.manifestHashOk)
            && (r.contentHashOk && !r.manifestHashOk <==> r.signatures[i].reason == ManifestHashMismatch)
            && (r.signatures[i].reason == UnsupportedAlgo <==>
                  HashesHold(c, m, body) && m.signatures[i].algo != "ed25519")
            && (r.signatures[i].reason == UnknownSigner <==>
                  HashesHold(c, m, body) && m.signatures[i].algo == "ed25519" && m.signatures[i].keyId !in trust)
            && (r.signatures[i].reason == MalformedBase64 <==>
                  HashesHold(c, m, body) && m.signatures[i].algo == "ed25519" && m.signatures[i].keyId in trust
                  && c.decode(m.signatures[i].sig).None?)
  {
    hide Fields, CanonicalPayload;
    HashesHoldIff(c, m, body);
  }
}
