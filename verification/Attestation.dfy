/** Chains of `anchor` calls by several Scribes, and what `verify_manifest` counts at the end. */
module Attestation {
  import opened Wrappers
  import opened Manifests
  import opened Addressing
  import opened Scribe
  import opened Verification

  /** One `anchor` call: the Scribe's keys, the keys it is asked to use, the body it is given. */
  datatype Call = Call(keys: KeyStore, asks: seq<Ask>, body: Body)

  function Chain(c: Crypto, m: Manifest, calls: seq<Call>): Result<Manifest, AnchorError> {
    if calls == [] then Ok(m)
    else
      var n := |calls| - 1;
      match Chain(c, m, calls[..n])
      case Err(e) => Err(e)
      case Ok(before) => Anchor(c, calls[n].keys, before, calls[n].body, calls[n].asks)
  }

  function AllAsked(calls: seq<Call>): seq<KeyId> {
    if calls == [] then [] else AllAsked(calls[..|calls| - 1]) + Asked(calls[|calls| - 1].asks)
  }

  ghost predicate AllOwned(calls: seq<Call>, owner: KeyStore) {
    forall call | call in calls :: OwnedBy(call.keys, owner)
  }

  /** What every caller can check beforehand. */
  ghost predicate Signable(c: Crypto, m: Manifest, calls: seq<Call>) {
    && m.form == BytesRaw
    && DistinctKeys(AllAsked(calls))
    && forall call | call in calls ::
         && call.asks != []
         && (forall a | a in call.asks :: a.key in call.keys)
         && ContentHash(c, call.body, BytesRaw) == ContentHash(c, calls[0].body, BytesRaw)
  }

  /** A sealed manifest of the chain: only hashes and signatures are new, both hashes hold, and the
      signatures are the owners' over the manifest's own hash, by the keys asked for, in order. */
  ghost predicate Sealed(c: Crypto, owner: KeyStore, m: Manifest, sealed: Manifest, body: Body, asked: seq<KeyId>) {
    && sealed == m.(contentHash := sealed.contentHash, manifestHash := sealed.manifestHash,
                    signatures := sealed.signatures)
    && ContentOk(c, sealed, body) && ManifestOk(c, sealed)
    && Signers(sealed.signatures) == asked && DistinctKeys(asked)
    && AllGenuine(c, owner, sealed.signatures, sealed.manifestHash)
  }

  lemma SealedStays(c: Crypto, owner: KeyStore, m: Manifest, sealed: Manifest, body: Body, asked: seq<KeyId>,
        sigs: seq<Signature>, more: seq<KeyId>)
    requires Sealed(c, owner, m, sealed, body, asked)
    requires Signers(sigs) == more && DistinctKeys(more) && AllGenuine(c, owner, sigs, sealed.manifestHash)
    ensures Sealed(c, owner, m, sealed.(signatures := sigs), body, more)
  {
    hide ManifestHash, ContentHash, Genuine, DistinctKeys;
    HashIgnoresSeal(c, sealed, sealed.manifestHash, sigs);
    assert sealed.(signatures := sigs) == sealed.(manifestHash := sealed.manifestHash, signatures := sigs);
  }

  lemma NoKeys()
    ensures DistinctKeys([])
  {
  }

  lemma SealOfUnsigned(c: Crypto, m: Manifest, body: Body)
    requires m.signatures == [] && m.form == BytesRaw
    ensures var r := Seal(c, m, body);
            r.Ok? && ContentOk(c, r.value, body) && ManifestOk(c, r.value) && r.value.signatures == []
            && r.value == m.(contentHash := r.value.contentHash, manifestHash := r.value.manifestHash)
  {
    hide ManifestHash;
    var bound := m.(contentHash := ContentHash(c, body, m.form).value, manifestHash := Hash(""));
    HashIgnoresSeal(c, bound, ManifestHash(c, bound), []);
    assert bound.(manifestHash := ManifestHash(c, bound))
           == bound.(manifestHash := ManifestHash(c, bound), signatures := []);
  }

  /** The first call seals and signs; it succeeds exactly when the form is implemented, and the keys
      are there and different. */
  lemma FirstAnchor(c: Crypto, owner: KeyStore, m: Manifest, call: Call)
    requires m.signatures == [] && OwnedBy(call.keys, owner)
    ensures var r := Anchor(c, call.keys, m, call.body, call.asks);
            && (r.Ok? <==> call.asks != [] && m.form == BytesRaw && DistinctKeys(Asked(call.asks))
                           && forall a | a in call.asks :: a.key in call.keys)
            && (r.Ok? ==> Sealed(c, owner, m, r.value, call.body, Asked(call.asks)))
  {
    hide ManifestHash, Genuine, DistinctKeys, OwnedBy, SignAll;
    if call.asks != [] && m.form == BytesRaw {
      var sealed := Seal(c, m, call.body).value;
      SealOfUnsigned(c, m, call.body);
      assert DistinctKeys([]) by { NoKeys(); }
      assert Signers([]) == [] && Signers([]) + Asked(call.asks) == Asked(call.asks);
      SignAllMeans(c, call.keys, owner, sealed.manifestHash, [], call.asks);
      var r := SignAll(c, call.keys, sealed.manifestHash, [], call.asks);
      if r.Ok? {
        assert Sealed(c, owner, m, sealed, call.body, []);
        SealedStays(c, owner, m, sealed, call.body, [], r.value, Asked(call.asks));
      }
    }
  }

  /** A later call keeps both hashes; it succeeds exactly when its body still has the content hash,
      and its keys are there, new and different. */
  lemma LaterAnchor(c: Crypto, owner: KeyStore, m: Manifest, before: Manifest, body: Body, asked: seq<KeyId>,
        call: Call)
    requires Sealed(c, owner, m, before, body, asked) && before.signatures != [] && OwnedBy(call.keys, owner)
    ensures var r := Anchor(c, call.keys, before, call.body, call.asks);
            && (r.Ok? <==> call.asks != [] && ContentOk(c, before, call.body) && DistinctKeys(asked + Asked(call.asks))
                           && forall a | a in call.asks :: a.key in call.keys)
            && (r.Ok? ==>
                  && Sealed(c, owner, m, r.value, body, asked + Asked(call.asks))
                  && r.value.contentHash == before.contentHash && r.value.manifestHash == before.manifestHash)
  {
    hide ManifestHash, Genuine, DistinctKeys, OwnedBy, SignAll;
    if call.asks != [] && ContentOk(c, before, call.body) {
      assert Seal(c, before, call.body) == Ok(before);
      SignAllMeans(c, call.keys, owner, before.manifestHash, before.signatures, call.asks);
      var r := SignAll(c, call.keys, before.manifestHash, before.signatures, call.asks);
      if r.Ok? {
        SealedStays(c, owner, m, before, body, asked, r.value, asked + Asked(call.asks));
      }
    }
  }

  lemma SignableFront(c: Crypto, m: Manifest, calls: seq<Call>)
    requires |calls| > 1
    ensures var n := |calls| - 1;
            Signable(c, m, calls)
            <==> && Signable(c, m, calls[..n]) && DistinctKeys(AllAsked(calls[..n]) + Asked(calls[n].asks))
                 && calls[n].asks != [] && (forall a | a in calls[n].asks :: a.key in calls[n].keys)
                 && ContentHash(c, calls[n].body, BytesRaw) == ContentHash(c, calls[0].body, BytesRaw)
  {
    hide ContentHash;
    var n := |calls| - 1;
    assert calls == calls[..n] + [calls[n]];
    if DistinctKeys(AllAsked(calls)) {
      var front, all := AllAsked(calls[..n]), AllAsked(calls);
      assert forall i | 0 <= i < |front| :: front[i] == all[i];
    }
  }

  lemma OneCall(c: Crypto, m: Manifest, calls: seq<Call>)
    requires |calls| == 1
    ensures AllAsked(calls) == Asked(calls[0].asks) && Chain(c, m, calls[..0]) == Ok(m)
    ensures Signable(c, m, calls)
            <==> calls[0].asks != [] && m.form == BytesRaw && DistinctKeys(Asked(calls[0].asks))
                 && forall a | a in calls[0].asks :: a.key in calls[0].keys
  {
    hide ContentHash;
    assert calls[..0] == [] && calls == [calls[0]];
    assert AllAsked([]) == [] && AllAsked(calls) == [] + Asked(calls[0].asks);
  }

  lemma SealedIsSigned(c: Crypto, owner: KeyStore, m: Manifest, sealed: Manifest, calls: seq<Call>)
    requires calls != [] && Sealed(c, owner, m, sealed, calls[0].body, AllAsked(calls)) && Signable(c, m, calls)
    ensures sealed.signatures != [] && sealed.form == m.form == BytesRaw
  {
    hide ContentHash, ManifestHash, DistinctKeys, Genuine;
    assert calls[|calls| - 1] in calls;
    assert |Signers(sealed.signatures)| == |AllAsked(calls)| > 0;
  }

  lemma SameContent(c: Crypto, owner: KeyStore, m: Manifest, before: Manifest, body: Body, other: Body,
        asked: seq<KeyId>)
    requires Sealed(c, owner, m, before, body, asked) && before.form == BytesRaw
    ensures ContentOk(c, before, other) <==> ContentHash(c, other, BytesRaw) == ContentHash(c, body, BytesRaw)
  {
    hide ContentHash, ManifestHash, DistinctKeys, Genuine;
  }

  /** A chain of calls from an unsigned manifest succeeds exactly when what it was given is signable,
      and then the signatures are those of the keys asked for, each over the final hash. */
  lemma {:induction false} ChainMeans(c: Crypto, owner: KeyStore, m: Manifest, calls: seq<Call>)
    requires m.signatures == [] && calls != [] && AllOwned(calls, owner)
    ensures Chain(c, m, calls).Ok? <==> Signable(c, m, calls)
    ensures Chain(c, m, calls).Ok? ==> Sealed(c, owner, m, Chain(c, m, calls).value, calls[0].body, AllAsked(calls))
  {
    hide Anchor, Sealed, Signable, DistinctKeys, OwnedBy, ContentHash;
    var n := |calls| - 1;
    assert calls[n] in calls;
    if n == 0 {
      OneCall(c, m, calls);
      FirstAnchor(c, owner, m, calls[0]);
    } else {
      assert calls[..n][0] == calls[0];
      ChainMeans(c, owner, m, calls[..n]);
      SignableFront(c, m, calls);
      if Chain(c, m, calls[..n]).Ok? {
        var before, asked := Chain(c, m, calls[..n]).value, AllAsked(calls[..n]);
        SealedIsSigned(c, owner, m, before, calls[..n]);
        LaterAnchor(c, owner, m, before, calls[0].body, asked, calls[n]);
        SameContent(c, owner, m, before, calls[0].body, calls[n].body, asked);
      }
    }
  }

  /** After the first call both hashes are fixed for the rest of the chain. */
  lemma {:induction false} HashesFixed(c: Crypto, owner: KeyStore, m: Manifest, calls: seq<Call>, i: nat)
    requires m.signatures == [] && AllOwned(calls, owner) && Chain(c, m, calls).Ok? && 0 < i <= |calls|
    ensures var early, late := Chain(c, m, calls[..i]), Chain(c, m, calls);
            && early.Ok? && early.value.contentHash == late.value.contentHash
            && early.value.manifestHash == late.value.manifestHash
    decreases |calls|
  {
    hide Anchor, Sealed, Signable, OwnedBy;
    var n := |calls| - 1;
    if i <= n {
      assert calls[..n][..i] == calls[..i] && calls[n] in calls;
      HashesFixed(c, owner, m, calls[..n], i);
      ChainMeans(c, owner, m, calls[..n]);
      var before := Chain(c, m, calls[..n]).value;
      SealedIsSigned(c, owner, m, before, calls[..n]);
      LaterAnchor(c, owner, m, before, calls[..n][0].body, AllAsked(calls[..n]), calls[n]);
    } else {
      assert calls[..i] == calls;
    }
  }

  // ---- what verification counts ----

  /** The trust list gives each key it names its owner's public key. */
  ghost predicate TrustsOwners(c: Crypto, trust: TrustList, owner: KeyStore) {
    forall k | k in trust && k in owner :: trust[k] == c.publicOf(owner[k])
  }

  lemma GenuineValidIff(c: Crypto, owner: KeyStore, trust: TrustList, s: Signature, hash: Hash)
    requires Correct(c) && TrustsOwners(c, trust, owner) && Genuine(c, owner, s, hash)
    ensures VerifyOne(c, s, hash, trust).valid <==> s.keyId in trust
  {
    if s.keyId in trust {
      assert c.decode(c.encode(c.sign(owner[s.keyId], hash.text))) == Some(c.sign(owner[s.keyId], hash.text));
      assert c.verify(c.publicOf(owner[s.keyId]), hash.text, c.sign(owner[s.keyId], hash.text));
    }
  }

  ghost function Trusted(keys: seq<KeyId>, trust: TrustList): set<KeyId> {
    set k | k in keys && k in trust
  }

  lemma TrustedMore(keys: seq<KeyId>, trust: TrustList)
    requires keys != [] && DistinctKeys(keys)
    ensures var n := |keys| - 1;
            && DistinctKeys(keys[..n])
            && |Trusted(keys, trust)| == |Trusted(keys[..n], trust)| + if keys[n] in trust then 1 else 0
  {
    var n := |keys| - 1;
    assert keys == keys[..n] + [keys[n]];
    if keys[n] in trust {
      assert Trusted(keys, trust) == Trusted(keys[..n], trust) + {keys[n]};
      assert keys[n] !in keys[..n];
    } else {
      assert Trusted(keys, trust) == Trusted(keys[..n], trust);
    }
  }

  lemma {:induction false} CountsTrusted(c: Crypto, owner: KeyStore, trust: TrustList, sigs: seq<Signature>, hash: Hash)
    requires Correct(c) && TrustsOwners(c, trust, owner) && AllGenuine(c, owner, sigs, hash)
    requires DistinctKeys(Signers(sigs))
    ensures ValidCount(VerifyEach(c, sigs, hash, trust)) == |Trusted(Signers(sigs), trust)|
  {
    hide VerifyOne, DistinctKeys, TrustsOwners, Correct, Genuine;
    if sigs != [] {
      hide Trusted;
      var n := |sigs| - 1;
      assert sigs[n] in sigs;
      assert Signers(sigs)[..n] == Signers(sigs[..n]);
      TrustedMore(Signers(sigs), trust);
      CountsTrusted(c, owner, trust, sigs[..n], hash);
      GenuineValidIff(c, owner, trust, sigs[n], hash);
      assert VerifyEach(c, sigs, hash, trust)[..n] == VerifyEach(c, sigs[..n], hash, trust);
    }
  }

  lemma BodiesAgree(c: Crypto, m: Manifest, calls: seq<Call>, k: nat)
    requires k < |calls| && Signable(c, m, calls)
    ensures ContentHash(c, calls[k].body, BytesRaw) == ContentHash(c, calls[0].body, BytesRaw)
  {
    hide ContentHash;
    assert calls[k] in calls;
  }

  /** For any chain that succeeds, the number of valid signatures is the number of different trusted
      keys asked for, with any of the bodies signed; the threshold is met exactly on that number. */
  lemma ValidCountIsTrustedSigners(c: Crypto, owner: KeyStore, m: Manifest, calls: seq<Call>, k: nat,
        trust: TrustList, policy: Policy)
    requires Correct(c) && TrustsOwners(c, trust, owner) && AllOwned(calls, owner)
    requires m.signatures == [] && k < |calls| && Chain(c, m, calls).Ok?
    ensures var r := Verify(c, Chain(c, m, calls).value, calls[k].body, trust, policy);
            && ValidCount(r.signatures) == |Trusted(AllAsked(calls), trust)|
            && (r.met <==> |Trusted(AllAsked(calls), trust)| >= RequiredOf(policy, m.kind))
  {
    hide Chain, Signable, DistinctKeys, Genuine, OwnedBy, VerifyEach, ContentHash, ManifestHash;
    ChainMeans(c, owner, m, calls);
    var sealed := Chain(c, m, calls).value;
    BodiesAgree(c, m, calls, k);
    SealedIsSigned(c, owner, m, sealed, calls);
    SameContent(c, owner, m, sealed, calls[0].body, calls[k].body, AllAsked(calls));
    CountsTrusted(c, owner, trust, sealed.signatures, sealed.manifestHash);
  }

  /** So neither the order of the Scribes nor how the keys are split among them matters. */
  lemma OrderDoesNotMatter(c: Crypto, owner: KeyStore, m: Manifest, a: seq<Call>, b: seq<Call>, trust: TrustList,
        policy: Policy)
    requires Correct(c) && TrustsOwners(c, trust, owner) && AllOwned(a, owner) && AllOwned(b, owner)
    requires m.signatures == [] && a != [] && b != [] && Chain(c, m, a).Ok? && Chain(c, m, b).Ok?
    requires forall k :: k in AllAsked(a) <==> k in AllAsked(b)
    ensures var x := Verify(c, Chain(c, m, a).value, a[0].body, trust, policy);
            var y := Verify(c, Chain(c, m, b).value, b[0].body, trust, policy);
            ValidCount(x.signatures) == ValidCount(y.signatures) && x.met == y.met
  {
    hide Chain, AllOwned, Verify, ValidCount, Correct, TrustsOwners, AllAsked;
    ValidCountIsTrustedSigners(c, owner, m, a, 0, trust, policy);
    ValidCountIsTrustedSigners(c, owner, m, b, 0, trust, policy);
    assert Trusted(AllAsked(a), trust) == Trusted(AllAsked(b), trust);
  }

  /** One key, its signature listed twice: the copy meets a threshold of two that the manifest, once
      anchored, does not. */
  lemma OneKeyListedTwice(c: Crypto, owner: KeyStore, m: Manifest, call: Call, trust: TrustList, policy: Policy)
    requires Correct(c) && TrustsOwners(c, trust, owner) && OwnedBy(call.keys, owner)
    requires m.signatures == [] && m.form == BytesRaw && |call.asks| == 1 && call.asks[0].key in call.keys
    requires call.asks[0].key in trust && RequiredOf(policy, m.kind) == 2
    ensures Anchor(c, call.keys, m, call.body, call.asks).Ok?
    ensures var sealed := Anchor(c, call.keys, m, call.body, call.asks).value;
            var twice := sealed.(signatures := sealed.signatures + sealed.signatures);
            && |sealed.signatures| == 1
            && !Verify(c, sealed, call.body, trust, policy).met
            && Verify(c, twice, call.body, trust, policy).met
            && !EachOnce(Verify(c, twice, call.body, trust, policy).signatures)
  {
    hide ManifestHash, ContentHash, Correct, TrustsOwners, OwnedBy, Anchor, VerifyOne, Genuine;
    FirstAnchor(c, owner, m, call);
    var asked := Asked(call.asks);
    assert |asked| == 1 && asked[0] == call.asks[0].key;
    var sealed := Anchor(c, call.keys, m, call.body, call.asks).value;
    assert sealed.signatures == [sealed.signatures[0]];
    var s := sealed.signatures[0];
    assert Signers(sealed.signatures)[0] == s.keyId;
    var twice := sealed.(signatures := [s, s]);
    assert sealed.signatures + sealed.signatures == [s, s];
    HashIgnoresSeal(c, sealed, sealed.manifestHash, [s, s]);
    assert sealed.(manifestHash := sealed.manifestHash, signatures := [s, s]) == twice;
    GenuineValidIff(c, owner, trust, s, sealed.manifestHash);
    var r := VerifyOne(c, s, sealed.manifestHash, trust);
    assert VerifyEach(c, [s, s], sealed.manifestHash, trust) == [r, r];
    assert VerifyEach(c, [s], sealed.manifestHash, trust) == [r];
    assert [r, r][..1] == [r] && [r][..0] == [];
    assert ValidCount([r]) == 1 && ValidCount([r, r]) == 2;
  }
}
