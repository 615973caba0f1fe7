/** Signing manifests (maestro/librarian/scribe.py): one `anchor` call, and chains of calls by
    several Scribes. */
module Scribe {
  import opened Wrappers
  import opened Manifests
  import opened Addressing

  type KeyStore = map<KeyId, PrivateKey>

  /** A key to sign with, and the clock's reading when it signs. */
  datatype Ask = Ask(key: KeyId, at: string)

  datatype AnchorError =
    | EmptyKeys | FormNotImplemented | ContentHashMismatch | ManifestHashMismatch
    | AlreadySigned(key: KeyId) | KeyNotFound(key: KeyId) | EmptyRevokes

  function Sign(c: Crypto, key: PrivateKey, ask: Ask, hash: Hash): Signature {
    Signature(ask.key, "ed25519", c.encode(c.sign(key, hash.text)), ask.at, "scribe")
  }

  function Signers(s: seq<Signature>): (r: seq<KeyId>)
    ensures |r| == |s|
  {
    seq(|s|, i requires 0 <= i < |s| => s[i].keyId)
  }

  function SignAll(c: Crypto, keys: KeyStore, hash: Hash, sigs: seq<Signature>,
        asks: seq<Ask>): Result<seq<Signature>, AnchorError>
    decreases |asks|
  {
    if asks == [] then Ok(sigs)
    else if asks[0].key in Signers(sigs) then Err(AlreadySigned(asks[0].key))
    else if asks[0].key !in keys then Err(KeyNotFound(asks[0].key))
    else SignAll(c, keys, hash, sigs + [Sign(c, keys[asks[0].key], asks[0], hash)], asks[1..])
  }

  /** The key signed the manifest already, or for an earlier ask. */
  ghost predicate SignedBefore(sigs: seq<Signature>, asks: seq<Ask>, i: nat)
    requires i < |asks|
  {
    asks[i].key in Signers(sigs) || exists j :: 0 <= j < i && asks[j].key == asks[i].key
  }

  /** Signing itself is refused for a key that signed before, or is not there. */
  lemma {:induction false} SigningRefusals(c: Crypto, keys: KeyStore, hash: Hash, sigs: seq<Signature>, asks: seq<Ask>)
    ensures var r := SignAll(c, keys, hash, sigs, asks);
            r.Err? ==> exists i :: 0 <= i < |asks| && if SignedBefore(sigs, asks, i)
                                                       then r.error == AlreadySigned(asks[i].key)
                                                       else r.error == KeyNotFound(asks[i].key) && asks[i].key !in keys
    decreases |asks|
  {
    if asks != [] && asks[0].key !in Signers(sigs) && asks[0].key in keys {
      var s := Sign(c, keys[asks[0].key], asks[0], hash);
      SigningRefusals(c, keys, hash, sigs + [s], asks[1..]);
      assert Signers(sigs + [s]) == Signers(sigs) + [asks[0].key];
      forall i | 0 <= i < |asks| - 1 ensures SignedBefore(sigs + [s], asks[1..], i) == SignedBefore(sigs, asks, i + 1) {
        assert forall j | 0 <= j < i :: asks[1..][j] == asks[j + 1];
        if SignedBefore(sigs, asks, i + 1) && asks[i + 1].key !in Signers(sigs) {
          var j :| 0 <= j < i + 1 && asks[j].key == asks[i + 1].key;
          assert j > 0 ==> asks[1..][j - 1].key == asks[1..][i].key;
        }
      }
      if SignAll(c, keys, hash, sigs, asks).Err? {
        var e := SignAll(c, keys, hash, sigs, asks).error;
        var i :| 0 <= i < |asks| - 1 && if SignedBefore(sigs + [s], asks[1..], i)
                                        then e == AlreadySigned(asks[1..][i].key)
                                        else e == KeyNotFound(asks[1..][i].key) && asks[1..][i].key !in keys;
        assert SignedBefore(sigs + [s], asks[1..], i) == SignedBefore(sigs, asks, i + 1);
      }
    }
  }

  /** Unsigned: bind both hashes. Signed: both must still hold. */
  function Seal(c: Crypto, m: Manifest, body: Body): Result<Manifest, AnchorError> {
    var content := ContentHash(c, body, m.form);
    if content.None? then Err(FormNotImplemented)
    else if m.signatures == [] then
      var sealed := m.(contentHash := content.value, manifestHash := Hash(""));
      Ok(sealed.(manifestHash := ManifestHash(c, sealed)))
    else if m.contentHash != content.value then Err(ContentHashMismatch)
    else if m.manifestHash != ManifestHash(c, m) then Err(ManifestHashMismatch)
    else Ok(m)
  }

  function Anchor(c: Crypto, keys: KeyStore, m: Manifest, body: Body, asks: seq<Ask>): Result<Manifest, AnchorError> {
    if asks == [] then Err(EmptyKeys)
    else
      match Seal(c, m, body)
      case Err(e) => Err(e)
      case Ok(sealed) =>
        match SignAll(c, keys, sealed.manifestHash, sealed.signatures, asks)
        case Err(e) => Err(e)
        case Ok(sigs) => Ok(sealed.(signatures := sigs))
  }

  /** What a signature made for an ask records. */
  lemma {:induction false} SignedAs(c: Crypto, keys: KeyStore, hash: Hash, sigs: seq<Signature>, asks: seq<Ask>, i: nat)
    requires SignAll(c, keys, hash, sigs, asks).Ok? && i < |asks|
    ensures var r := SignAll(c, keys, hash, sigs, asks).value;
            && |r| == |sigs| + |asks| && sigs <= r
            && r[|sigs| + i].keyId == asks[i].key && r[|sigs| + i].signedAt == asks[i].at
            && r[|sigs| + i].algo == "ed25519" && r[|sigs| + i].role == "scribe"
    decreases |asks|
  {
    var more := sigs + [Sign(c, keys[asks[0].key], asks[0], hash)];
    if |asks| > 1 {
      SignedAs(c, keys, hash, more, asks[1..], if i > 0 then i - 1 else 0);
    } else {
      assert SignAll(c, keys, hash, more, []) == Ok(more);
    }
  }

  /** Why an `anchor` call is refused, in the order of the checks. */
  lemma RefusedBecause(c: Crypto, keys: KeyStore, m: Manifest, body: Body, asks: seq<Ask>)
    ensures var r := Anchor(c, keys, m, body, asks);
            var contentOk := m.contentHash.text == "sha256:" + c.digestBody(body);
            var hashOk := m.manifestHash.text == "sha256:" + c.digestPayload(Fields(m) - {ManifestHashF, SignaturesF});
            && (r == Err(EmptyKeys) <==> asks == [])
            && (r == Err(FormNotImplemented) <==> asks != [] && m.form != BytesRaw)
            && (r == Err(ContentHashMismatch) <==>
                  asks != [] && m.form == BytesRaw && m.signatures != [] && !contentOk)
            && (r == Err(ManifestHashMismatch) <==>
                  asks != [] && m.form == BytesRaw && m.signatures != [] && contentOk && !hashOk)
            && r != Err(EmptyRevokes)
  {
    hide Fields;
    if asks != [] && Seal(c, m, body).Ok? {
      var sealed := Seal(c, m, body).value;
      SigningRefusals(c, keys, sealed.manifestHash, sealed.signatures, asks);
    }
  }

  /** The unsigned manifest of a revocation. */
  function RevocationOf(id: CartridgeId, version: string, revokes: seq<Hash>, tags: seq<string>,
        issuedAt: string): Manifest {
    Manifest(id, version, Revocation, Hash(""), Hash(""), BytesRaw, [], revokes, tags, issuedAt, None, None, [], map[])
  }

  lemma SeenAreSigners(sigs: seq<Signature>)
    ensures forall k :: k in (set s | s in sigs :: s.keyId) <==> k in Signers(sigs)
  {
    forall k | k in Signers(sigs) ensures k in (set s | s in sigs :: s.keyId) {
      var i :| 0 <= i < |sigs| && Signers(sigs)[i] == k;
      assert sigs[i] in sigs;
    }
    forall k | k in (set s | s in sigs :: s.keyId) ensures k in Signers(sigs) {
      var s :| s in sigs && s.keyId == k;
      var i :| 0 <= i < |sigs| && sigs[i] == s;
      assert Signers(sigs)[i] == k;
    }
  }

  lemma SignersMore(sigs: seq<Signature>, s: Signature)
    ensures Signers(sigs + [s]) == Signers(sigs) + [s.keyId]
  {
  }

  class ScribeAgent {
    const crypto: Crypto
    const keys: KeyStore

    constructor (crypto: Crypto, keys: KeyStore)
      ensures this.crypto == crypto && this.keys == keys
    {
      this.crypto, this.keys := crypto, keys;
    }

    /** The signing loop: `seen` holds the keys that have signed. */
    method SignEach(hash: Hash, earlier: seq<Signature>, asks: seq<Ask>) returns (r: Result<seq<Signature>,
          AnchorError>)
      ensures r == SignAll(crypto, keys, hash, earlier, asks)
    {
      var seen := set s | s in earlier :: s.keyId;
      var sigs := earlier;
      SeenAreSigners(sigs);
      assert asks[0..] == asks;
      for i := 0 to |asks|
        invariant forall k :: k in seen <==> k in Signers(sigs)
        invariant SignAll(crypto, keys, hash, earlier, asks) == SignAll(crypto, keys, hash, sigs, asks[i..])
      {
        assert asks[i..][0] == asks[i] && asks[i..][1..] == asks[i + 1..];
        var key := asks[i].key;
        if key in seen {
          return Err(AlreadySigned(key));
        }
        if key !in keys {
          return Err(KeyNotFound(key));
        }
        seen := seen + {key};
        SignersMore(sigs, Sign(crypto, keys[key], asks[i], hash));
        sigs := sigs + [Sign(crypto, keys[key], asks[i], hash)];
      }
      assert asks[|asks|..] == [];
      return Ok(sigs);
    }

    method AnchorManifest(m: Manifest, body: Body, asks: seq<Ask>) returns (r: Result<Manifest, AnchorError>)
      ensures r == Anchor(crypto, keys, m, body, asks)
    {
      hide ManifestHash, SignAll;
      if asks == [] {
        return Err(EmptyKeys);
      }
      var sealed: Manifest;
      var content := ContentHash(crypto, body, m.form);
      if content.None? {
        return Err(FormNotImplemented);
      }
      if m.signatures == [] {
        sealed := m.(contentHash := content.value, manifestHash := Hash(""));
        sealed := sealed.(manifestHash := ManifestHash(crypto, sealed));
      } else {
        if m.contentHash != content.value {
          return Err(ContentHashMismatch);
        }
        if m.manifestHash != ManifestHash(crypto, m) {
          return Err(ManifestHashMismatch);
        }
        sealed := m;
      }
      var signed := SignEach(sealed.manifestHash, sealed.signatures, asks);
      match signed {
        case Err(e) => return Err(e);
        case Ok(sigs) => return Ok(sealed.(signatures := sigs));
      }
    }

    method AnchorRevocation(id: CartridgeId, version: string, revokes: seq<Hash>, tags: seq<string>, issuedAt: string,
          asks: seq<Ask>)
      returns (r: Result<Manifest, AnchorError>)
      ensures revokes == [] ==> r == Err(EmptyRevokes)
      ensures revokes != [] ==>
                r == Anchor(crypto, keys, RevocationOf(id, version, revokes, tags, issuedAt), Body([]), asks)
    {
      if revokes == [] {
        return Err(EmptyRevokes);
      }
      r := AnchorManifest(RevocationOf(id, version, revokes, tags, issuedAt), Body([]), asks);
    }
  }

  // ---- one call ----

  ghost predicate DistinctKeys(keys: seq<KeyId>) {
    forall i, j | 0 <= i < j < |keys| :: keys[i] != keys[j]
  }

  function Asked(asks: seq<Ask>): (r: seq<KeyId>)
    ensures |r| == |asks|
  {
    seq(|asks|, i requires 0 <= i < |asks| => asks[i].key)
  }

  /** The signature is the one its key's owner makes over the hash. */
  ghost predicate Genuine(c: Crypto, owner: KeyStore, s: Signature, hash: Hash) {
    s.algo == "ed25519" && s.keyId in owner && s.sig == c.encode(c.sign(owner[s.keyId], hash.text))
  }

  ghost predicate AllGenuine(c: Crypto, owner: KeyStore, sigs: seq<Signature>, hash: Hash) {
    forall s | s in sigs :: Genuine(c, owner, s, hash)
  }

  /** A key id names one key: it is the fingerprint of the public key. */
  ghost predicate OwnedBy(keys: KeyStore, owner: KeyStore) {
    forall k | k in keys :: k in owner && owner[k] == keys[k]
  }

  lemma SignIsGenuine(c: Crypto, keys: KeyStore, owner: KeyStore, ask: Ask, hash: Hash)
    requires OwnedBy(keys, owner) && ask.key in keys
    ensures Genuine(c, owner, Sign(c, keys[ask.key], ask, hash), hash)
  {
  }

  lemma DistinctStep(a: seq<KeyId>, k: KeyId, b: seq<KeyId>)
    requires DistinctKeys(a)
    ensures DistinctKeys(a + ([k] + b)) <==> k !in a && DistinctKeys(a + [k] + b)
    ensures k !in a ==> DistinctKeys(a + [k])
  {
    assert a + ([k] + b) == a + [k] + b;
    var s := a + [k] + b;
    assert s[|a|] == k;
    if k in a {
      var i :| 0 <= i < |a| && a[i] == k;
      assert s[i] == s[|a|];
    }
  }

  /** Signing succeeds exactly with keys at hand that are new and different, and then appends one
      genuine signature for each, in order. */
  lemma {:induction false} SignAllMeans(c: Crypto, keys: KeyStore, owner: KeyStore, hash: Hash, sigs: seq<Signature>,
        asks: seq<Ask>)
    requires OwnedBy(keys, owner) && AllGenuine(c, owner, sigs, hash) && DistinctKeys(Signers(sigs))
    ensures var r := SignAll(c, keys, hash, sigs, asks);
            && (r.Ok? <==> DistinctKeys(Signers(sigs) + Asked(asks)) && forall a | a in asks :: a.key in keys)
            && (r.Ok? ==> Signers(r.value) == Signers(sigs) + Asked(asks) && AllGenuine(c, owner, r.value, hash))
    decreases |asks|
  {
    hide DistinctKeys, OwnedBy;
    if asks == [] {
      assert Signers(sigs) + Asked(asks) == Signers(sigs);
    } else {
      var ask, rest := asks[0], asks[1..];
      assert asks == [ask] + rest && Asked(asks) == [ask.key] + Asked(rest);
      DistinctStep(Signers(sigs), ask.key, Asked(rest));
      if ask.key !in Signers(sigs) && ask.key in keys {
        var s := Sign(c, keys[ask.key], ask, hash);
        SignIsGenuine(c, keys, owner, ask, hash);
        SignersMore(sigs, s);
        SignAllMeans(c, keys, owner, hash, sigs + [s], rest);
        assert Signers(sigs) + Asked(asks) == Signers(sigs + [s]) + Asked(rest);
      }
    }
  }
}
