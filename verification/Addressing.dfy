/** Content addresses (maestro/librarian/addressing.py) over abstract digests and signatures. */
module Addressing {
  import opened Wrappers
  import opened Manifests

  const HASH_PREFIX := "sha256:"

  datatype Body = Body(bytes: seq<bv8>)

  datatype PrivateKey = PrivateKey(text: string)

  datatype PublicKey = PublicKey(pem: string)

  datatype SigBytes = SigBytes(bytes: seq<bv8>)

  /** SHA-256 of a body and of the text of a JSON payload, the bytes of a JSON file, Ed25519, and
      base64. */
  datatype Crypto = Crypto(
    digestBody: Body -> string,
    digestPayload: map<Field, Json> -> string,
    fileBytes: Json -> Body,
    publicOf: PrivateKey -> PublicKey,
    sign: (PrivateKey, string) -> SigBytes,
    verify: (PublicKey, string, SigBytes) -> bool,
    encode: SigBytes -> string,
    decode: string -> Option<SigBytes>)

  /** A signature made with a key verifies under its public key; base64 decodes what it encoded. */
  ghost predicate Correct(c: Crypto) {
    && (forall k, m :: c.verify(c.publicOf(k), m, c.sign(k, m)))
    && forall b :: c.decode(c.encode(b)) == Some(b)
  }

  /** Only the raw form is implemented; the others raise. */
  function ContentHash(c: Crypto, body: Body, form: Form): Option<Hash> {
    if form == BytesRaw then Some(Hash(HASH_PREFIX + c.digestBody(body))) else None
  }

  /** The record that is hashed: everything but the hash itself and the signatures. */
  function CanonicalPayload(m: Manifest): map<Field, Json> {
    Fields(m) - {ManifestHashF, SignaturesF}
  }

  function ManifestHash(c: Crypto, m: Manifest): Hash {
    Hash(HASH_PREFIX + c.digestPayload(CanonicalPayload(m)))
  }

  function Elide(m: Manifest): Manifest {
    m.(manifestHash := Hash(""), signatures := [])
  }

  lemma ElidedPayload(m: Manifest, h: Hash, s: seq<Signature>)
    ensures CanonicalPayload(m.(manifestHash := h, signatures := s)) == CanonicalPayload(m)
  {
    hide KindText, FormText, Texts, HashTexts, SignatureJsons;
  }

  lemma SameMap(f: map<Field, Json>, g: map<Field, Json>, drop: set<Field>)
    requires f - drop == g - drop && drop <= f.Keys && drop <= g.Keys && forall k | k in drop :: f[k] == g[k]
    ensures f == g
  {
    forall k ensures k in f <==> k in g {
      assert k in f - drop <==> k in g - drop;
    }
    forall k | k in f ensures f[k] == g[k] {
      if k !in drop { assert f[k] == (f - drop)[k] == (g - drop)[k] == g[k]; }
    }
  }

  lemma SameElided(x: Manifest, y: Manifest)
    requires x.manifestHash == y.manifestHash && x.signatures == y.signatures
    ensures {ManifestHashF, SignaturesF} <= Fields(x).Keys && {ManifestHashF, SignaturesF} <= Fields(y).Keys
    ensures Fields(x)[ManifestHashF] == Fields(y)[ManifestHashF] && Fields(x)[SignaturesF] == Fields(y)[SignaturesF]
  {
    hide KindText, FormText, Texts, HashTexts;
  }

  lemma PayloadGivesFields(a: Manifest, b: Manifest)
    requires CanonicalPayload(a) == CanonicalPayload(b)
    ensures Fields(Elide(a)) == Fields(Elide(b))
  {
    ElidedPayload(a, Hash(""), []);
    ElidedPayload(b, Hash(""), []);
    var x, y := Elide(a), Elide(b);
    SameElided(x, y);
    hide Fields;
    SameMap(Fields(x), Fields(y), {ManifestHashF, SignaturesF});
  }

  /** Two manifests have one payload exactly when they differ at most in their hash and signatures:
      everything else is bound by the signatures, the metadata included. */
  lemma PayloadIff(a: Manifest, b: Manifest)
    ensures CanonicalPayload(a) == CanonicalPayload(b) <==> Elide(a) == Elide(b)
  {
    hide Fields;
    if CanonicalPayload(a) == CanonicalPayload(b) {
      PayloadGivesFields(a, b);
      RoundTrip(Elide(a));
      RoundTrip(Elide(b));
    } else {
      ElidedPayload(a, Hash(""), []);
      ElidedPayload(b, Hash(""), []);
    }
  }

  /** The metadata is documented as unsigned, yet changing it changes what is signed. */
  lemma MetadataIsBound(m: Manifest, other: map<string, Json>)
    requires other != m.metadata
    ensures CanonicalPayload(m.(metadata := other)) != CanonicalPayload(m)
  {
    PayloadIff(m, m.(metadata := other));
    assert Elide(m).metadata != Elide(m.(metadata := other)).metadata;
  }

  lemma HashIgnoresSeal(c: Crypto, m: Manifest, h: Hash, s: seq<Signature>)
    ensures ManifestHash(c, m.(manifestHash := h, signatures := s)) == ManifestHash(c, m)
  {
    hide CanonicalPayload;
    ElidedPayload(m, h, s);
  }
}
