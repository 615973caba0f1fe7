/** Cartridge manifests (maestro/librarian/types.py) and their JSON form (maestro/librarian/store.py)
    at the level of JSON values; the text encoding of a JSON value is not modelled. */
module Manifests {
  import opened Wrappers

  datatype KeyId = KeyId(text: string)

  datatype CartridgeId = CartridgeId(text: string)

  datatype Hash = Hash(text: string)

  datatype Kind = UnitDefinition | StatuteText | ProtocolSpec | Schema | Definition | ReferenceDataset | Revocation

  datatype Form = JsonRfc8785 | TextUtf8Nfc | BytesRaw

  /** The keys of the two records the store writes. */
  datatype Field =
    | CartridgeIdF | VersionF | KindF | ContentHashF | ManifestHashF | CanonicalFormF | SupersedesF | RevokesF
    | DomainTagsF | IssuedAtF | NotBeforeF | NotAfterF | SignaturesF | MetadataF
    | KeyIdF | AlgoF | SigF | SignedAtF | RoleF

  datatype Json =
    | JNull
    | JText(text: string)
    | JNumber(value: real)
    | JBool(flag: bool)
    | JArray(items: seq<Json>)
    | JObject(entries: map<string, Json>)
    | JRecord(fields: map<Field, Json>)

  datatype Signature = Signature(keyId: KeyId, algo: string, sig: string, signedAt: string, role: string)

  datatype Manifest = Manifest(
    cartridgeId: CartridgeId,
    version: string,
    kind: Kind,
    contentHash: Hash,
    manifestHash: Hash,
    form: Form,
    supersedes: seq<Hash>,
    revokes: seq<Hash>,
    domainTags: seq<string>,
    issuedAt: string,
    notBefore: Option<string>,
    notAfter: Option<string>,
    signatures: seq<Signature>,
    metadata: map<string, Json>)

  function KindText(k: Kind): string {
    match k
    case UnitDefinition => "unit_definition"
    case StatuteText => "statute_text"
    case ProtocolSpec => "protocol_spec"
    case Schema => "schema"
    case Definition => "definition"
    case ReferenceDataset => "reference_dataset"
    case Revocation => "revocation"
  }

  function KindOf(text: string): Option<Kind> {
    if text == "unit_definition" then Some(UnitDefinition)
    else if text == "statute_text" then Some(StatuteText)
    else if text == "protocol_spec" then Some(ProtocolSpec)
    else if text == "schema" then Some(Schema)
    else if text == "definition" then Some(Definition)
    else if text == "reference_dataset" then Some(ReferenceDataset)
    else if text == "revocation" then Some(Revocation)
    else None
  }

  function FormText(f: Form): string {
    match f
    case JsonRfc8785 => "json/rfc8785"
    case TextUtf8Nfc => "text/utf8-nfc"
    case BytesRaw => "bytes/raw"
  }

  function FormOf(text: string): Option<Form> {
    if text == "json/rfc8785" then Some(JsonRfc8785)
    else if text == "text/utf8-nfc" then Some(TextUtf8Nfc)
    else if text == "bytes/raw" then Some(BytesRaw)
    else None
  }

  function Texts(s: seq<string>): (r: seq<Json>)
    ensures |r| == |s|
  {
    seq(|s|, i requires 0 <= i < |s| => JText(s[i]))
  }

  function HashTexts(s: seq<Hash>): (r: seq<string>)
    ensures |r| == |s|
  {
    seq(|s|, i requires 0 <= i < |s| => s[i].text)
  }

  function OptionalText(o: Option<string>): Json {
    match o case Some(t) => JText(t) case None => JNull
  }

  function SignatureJson(s: Signature): Json {
    JRecord(map[
      KeyIdF := JText(s.keyId.text), AlgoF := JText(s.algo), SigF := JText(s.sig), SignedAtF := JText(s.signedAt),
      RoleF := JText(s.role)])
  }

  function SignatureJsons(s: seq<Signature>): (r: seq<Json>)
    ensures |r| == |s|
  {
    seq(|s|, i requires 0 <= i < |s| => SignatureJson(s[i]))
  }

  /** The record of `_serialize_manifest`, which is also that of `_manifest_to_dict`. */
  function Fields(m: Manifest): map<Field, Json> {
    map[
      CartridgeIdF := JText(m.cartridgeId.text),
      VersionF := JText(m.version),
      KindF := JText(KindText(m.kind)),
      ContentHashF := JText(m.contentHash.text),
      ManifestHashF := JText(m.manifestHash.text),
      CanonicalFormF := JText(FormText(m.form)),
      SupersedesF := JArray(Texts(HashTexts(m.supersedes))),
      RevokesF := JArray(Texts(HashTexts(m.revokes))),
      DomainTagsF := JArray(Texts(m.domainTags)),
      IssuedAtF := JText(m.issuedAt),
      NotBeforeF := OptionalText(m.notBefore),
      NotAfterF := OptionalText(m.notAfter),
      SignaturesF := JArray(SignatureJsons(m.signatures)),
      MetadataF := JObject(m.metadata)]
  }

  function Serialize(m: Manifest): Json {
    JRecord(Fields(m))
  }

  // ---- reading back ----

  /** `data[key]` for a required string: a missing key raises. */
  function Required(fields: map<Field, Json>, key: Field): Option<string> {
    if key in fields && fields[key].JText? then Some(fields[key].text) else None
  }

  function TextsOf(items: seq<Json>): Option<seq<string>> {
    if items == [] then Some([])
    else
      var rest := TextsOf(items[1..]);
      if items[0].JText? && rest.Some? then Some([items[0].text] + rest.value) else None
  }

  /** `list(data.get(key, []))`. */
  function ListOf(fields: map<Field, Json>, key: Field): Option<seq<string>> {
    if key !in fields then Some([])
    else if fields[key].JArray? then TextsOf(fields[key].items)
    else None
  }

  function TextOr(fields: map<Field, Json>, key: Field, default: string): Option<string> {
    if key !in fields then Some(default) else Required(fields, key)
  }

  /** `data.get(key)` for an optional string. */
  function OptionalOf(fields: map<Field, Json>, key: Field): Option<Option<string>> {
    if key !in fields || fields[key].JNull? then Some(None)
    else if fields[key].JText? then Some(Some(fields[key].text))
    else None
  }

  function SignatureOf(j: Json): Option<Signature> {
    if !j.JRecord? then None
    else
      var keyId, algo, sig := Required(j.fields, KeyIdF), Required(j.fields, AlgoF), Required(j.fields, SigF);
      var signedAt, role := Required(j.fields, SignedAtF), TextOr(j.fields, RoleF, "scribe");
      if keyId.Some? && algo.Some? && sig.Some? && signedAt.Some? && role.Some?
      then Some(Signature(KeyId(keyId.value), algo.value, sig.value, signedAt.value, role.value))
      else None
  }

  function SignaturesOf(items: seq<Json>): Option<seq<Signature>> {
    if items == [] then Some([])
    else
      var first, rest := SignatureOf(items[0]), SignaturesOf(items[1..]);
      if first.Some? && rest.Some? then Some([first.value] + rest.value) else None
  }

  function SignatureList(fields: map<Field, Json>): Option<seq<Signature>> {
    if SignaturesF !in fields then Some([])
    else if fields[SignaturesF].JArray? then SignaturesOf(fields[SignaturesF].items)
    else None
  }

  function MetadataOf(fields: map<Field, Json>): Option<map<string, Json>> {
    if MetadataF !in fields then Some(map[])
    else if fields[MetadataF].JObject? then Some(fields[MetadataF].entries)
    else None
  }

  function Hashes(s: seq<string>): (r: seq<Hash>)
    ensures |r| == |s|
  {
    seq(|s|, i requires 0 <= i < |s| => Hash(s[i]))
  }

  /** `_deserialize_manifest`; `None` stands for the exceptions its callers catch. */
  function Deserialize(j: Json): Option<Manifest> {
    if !j.JRecord? then None
    else
      var f := j.fields;
      var id, version, kind := Required(f, CartridgeIdF), Required(f, VersionF), Required(f, KindF);
      var content, hash, form := Required(f, ContentHashF), Required(f, ManifestHashF), Required(f, CanonicalFormF);
      var supersedes, revokes, tags := ListOf(f, SupersedesF), ListOf(f, RevokesF), ListOf(f, DomainTagsF);
      var issued, notBefore, notAfter := TextOr(f, IssuedAtF, ""), OptionalOf(f, NotBeforeF), OptionalOf(f, NotAfterF);
      var signatures, metadata := SignatureList(f), MetadataOf(f);
      if id.None? || version.None? || kind.None? || content.None? || hash.None? || form.None? then None
      else if KindOf(kind.value).None? || FormOf(form.value).None? then None
      else if supersedes.None? || revokes.None? || tags.None? || issued.None? then None
      else if notBefore.None? || notAfter.None? || signatures.None? || metadata.None? then None
      else Some(Manifest(
                  CartridgeId(id.value), version.value, KindOf(kind.value).value, Hash(content.value), Hash(hash.value),
                  FormOf(form.value).value, Hashes(supersedes.value), Hashes(revokes.value), tags.value, issued.value,
                  notBefore.value, notAfter.value, signatures.value, metadata.value))
  }

  // ---- the round trip ----

  lemma EnumsRoundTrip(k: Kind, f: Form)
    ensures KindOf(KindText(k)) == Some(k) && FormOf(FormText(f)) == Some(f)
  {
  }

  lemma {:induction false} TextsRoundTrip(s: seq<string>)
    ensures TextsOf(Texts(s)) == Some(s)
  {
    if s != [] {
      assert Texts(s)[1..] == Texts(s[1..]);
      TextsRoundTrip(s[1..]);
      assert s == [s[0]] + s[1..];
    }
  }

  lemma HashesRoundTrip(s: seq<Hash>)
    ensures Hashes(HashTexts(s)) == s
  {
  }

  lemma SignatureRoundTrip(s: Signature)
    ensures SignatureOf(SignatureJson(s)) == Some(s)
  {
  }

  lemma {:induction false} SignaturesRoundTrip(s: seq<Signature>)
    ensures SignaturesOf(SignatureJsons(s)) == Some(s)
  {
    hide SignatureOf, SignatureJson;
    if s != [] {
      assert SignatureJsons(s)[1..] == SignatureJsons(s[1..]);
      SignatureRoundTrip(s[0]);
      SignaturesRoundTrip(s[1..]);
      assert s == [s[0]] + s[1..];
    }
  }

  lemma TextFieldsRead(m: Manifest)
    ensures var f := Fields(m);
            && Required(f, CartridgeIdF) == Some(m.cartridgeId.text) && Required(f, VersionF) == Some(m.version)
            && Required(f, KindF) == Some(KindText(m.kind)) && Required(f, ContentHashF) == Some(m.contentHash.text)
            && Required(f, ManifestHashF) == Some(m.manifestHash.text)
            && Required(f, CanonicalFormF) == Some(FormText(m.form))
            && TextOr(f, IssuedAtF, "") == Some(m.issuedAt)
            && OptionalOf(f, NotBeforeF) == Some(m.notBefore) && OptionalOf(f, NotAfterF) == Some(m.notAfter)
  {
    hide KindText, FormText, Texts, HashTexts, SignatureJsons;
  }

  lemma ListFieldsRead(m: Manifest)
    ensures var f := Fields(m);
            && ListOf(f, SupersedesF) == Some(HashTexts(m.supersedes))
            && ListOf(f, RevokesF) == Some(HashTexts(m.revokes))
            && ListOf(f, DomainTagsF) == Some(m.domainTags)
            && SignatureList(f) == Some(m.signatures) && MetadataOf(f) == Some(m.metadata)
  {
    hide KindText, FormText, Texts, TextsOf, HashTexts, SignatureJsons, SignaturesOf;
    TextsRoundTrip(HashTexts(m.supersedes));
    TextsRoundTrip(HashTexts(m.revokes));
    TextsRoundTrip(m.domainTags);
    SignaturesRoundTrip(m.signatures);
  }

  /** Every manifest survives being written and read back. */
  lemma RoundTrip(m: Manifest)
    ensures Deserialize(Serialize(m)) == Some(m)
  {
    hide Fields, KindText, KindOf, FormText, FormOf, Hashes, HashTexts, Required, TextOr, OptionalOf, ListOf,
          SignatureList, MetadataOf;
    TextFieldsRead(m);
    ListFieldsRead(m);
    EnumsRoundTrip(m.kind, m.form);
    HashesRoundTrip(m.supersedes);
    HashesRoundTrip(m.revokes);
  }

  // ---- records that are not whole ----

  /** Nothing else is a kind, or a form. */
  lemma EnumsReadIff(text: string, k: Kind, f: Form)
    ensures KindOf(text) == Some(k) <==> text == KindText(k)
    ensures FormOf(text) == Some(f) <==> text == FormText(f)
  {
    EnumsRoundTrip(k, f);
  }

  /** A signature without a role is a Scribe's; without any other field it is none. */
  lemma SignatureDefault(s: Signature, drop: set<Field>)
    ensures SignatureOf(JRecord(SignatureJson(s).fields - drop))
            == if KeyIdF in drop || AlgoF in drop || SigF in drop || SignedAtF in drop then None
               else Some(s.(role := if RoleF in drop then "scribe" else s.role))
  {
  }

  /** What is read of a record with fields missing. */
  function WithDefaults(m: Manifest, drop: set<Field>): Manifest {
    m.(supersedes := if SupersedesF in drop then [] else m.supersedes,
       revokes := if RevokesF in drop then [] else m.revokes,
       domainTags := if DomainTagsF in drop then [] else m.domainTags,
       issuedAt := if IssuedAtF in drop then "" else m.issuedAt,
       notBefore := if NotBeforeF in drop then None else m.notBefore,
       notAfter := if NotAfterF in drop then None else m.notAfter,
       signatures := if SignaturesF in drop then [] else m.signatures,
       metadata := if MetadataF in drop then map[] else m.metadata)
  }

  lemma TextFieldsDefault(m: Manifest, drop: set<Field>)
    ensures var f := Fields(m) - drop;
            && (forall key | key in {CartridgeIdF, VersionF, KindF, ContentHashF, ManifestHashF, CanonicalFormF} ::
                  Required(f, key) == if key in drop then None else Required(Fields(m), key))
            && TextOr(f, IssuedAtF, "") == Some(WithDefaults(m, drop).issuedAt)
            && OptionalOf(f, NotBeforeF) == Some(WithDefaults(m, drop).notBefore)
            && OptionalOf(f, NotAfterF) == Some(WithDefaults(m, drop).notAfter)
  {
    hide KindText, FormText, Texts, HashTexts, SignatureJsons;
  }

  lemma ListFieldsDefault(m: Manifest, drop: set<Field>)
    ensures var f, d := Fields(m) - drop, WithDefaults(m, drop);
            && ListOf(f, SupersedesF) == Some(HashTexts(d.supersedes))
            && ListOf(f, RevokesF) == Some(HashTexts(d.revokes))
            && ListOf(f, DomainTagsF) == Some(d.domainTags)
            && SignatureList(f) == Some(d.signatures) && MetadataOf(f) == Some(d.metadata)
  {
    ListFieldsRead(m);
    hide KindText, FormText, Texts, TextsOf, SignatureJsons, SignaturesOf;
    assert HashTexts([]) == [];
  }

  /** A record reads exactly if its six required fields are there; whatever else is missing has its default. */
  lemma MissingFieldsDefault(m: Manifest, drop: set<Field>)
    ensures Deserialize(JRecord(Fields(m) - drop))
            == if drop !! {CartridgeIdF, VersionF, KindF, ContentHashF, ManifestHashF, CanonicalFormF}
               then Some(WithDefaults(m, drop)) else None
  {
    hide Fields, KindText, KindOf, FormText, FormOf, Hashes, HashTexts, Required, TextOr, OptionalOf, ListOf,
          SignatureList, MetadataOf;
    TextFieldsRead(m);
    TextFieldsDefault(m, drop);
    ListFieldsDefault(m, drop);
    EnumsRoundTrip(m.kind, m.form);
    HashesRoundTrip(WithDefaults(m, drop).supersedes);
    HashesRoundTrip(WithDefaults(m, drop).revokes);
  }
}
