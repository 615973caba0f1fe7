/** The Librarian's store (maestro/librarian/store.py) over runs of commits: when its files and links
    hold one map from hashes to manifests and bodies, and one from ids to heads. */
module LibrarianStore {
  import opened Wrappers
  import opened Manifests
  import opened Addressing
  import opened StorePaths
  import opened StoreFiles
  import opened Verification
  import opened CommitSteps

  // ---- the simple maps ----

  /** The last manifest deposited under a hash. */
  function Latest(log: seq<Deposit>, h: Hash): Option<Manifest> {
    if log == [] then None
    else if log[|log| - 1].manifest.manifestHash == h then Some(log[|log| - 1].manifest)
    else Latest(log[..|log| - 1], h)
  }

  function LatestBody(log: seq<Deposit>, h: Hash): Option<Body> {
    if log == [] then None
    else if log[|log| - 1].manifest.contentHash == h then Some(log[|log| - 1].body)
    else LatestBody(log[..|log| - 1], h)
  }

  /** The hash last deposited for an id. */
  function HeadHash(log: seq<Deposit>, id: CartridgeId): Option<Hash> {
    if log == [] then None
    else if log[|log| - 1].manifest.cartridgeId == id then Some(log[|log| - 1].manifest.manifestHash)
    else HeadHash(log[..|log| - 1], id)
  }

  /** What `load` should answer. */
  function LoadOf(log: seq<Deposit>, h: Hash): LoadResult {
    match Latest(log, h) case Some(m) => Loaded(m) case None => NotFound
  }

  /** What `load_body` should answer. */
  function BodyOf(log: seq<Deposit>, h: Hash): Read {
    match LatestBody(log, h) case Some(b) => Bytes(b) case None => Absent
  }

  lemma {:induction false} LatestIsDeposited(log: seq<Deposit>, h: Hash)
    ensures Latest(log, h).Some? <==> exists d :: d in log && d.manifest.manifestHash == h
    ensures Latest(log, h).Some? ==>
              exists d :: d in log && d.manifest == Latest(log, h).value && d.manifest.manifestHash == h
  {
    if log != [] {
      var n := |log| - 1;
      LatestIsDeposited(log[..n], h);
      assert log == log[..n] + [log[n]] && log[n] in log;
    }
  }

  lemma {:induction false} LatestBodyIsDeposited(log: seq<Deposit>, h: Hash)
    ensures LatestBody(log, h).Some? <==> exists d :: d in log && d.manifest.contentHash == h
    ensures LatestBody(log, h).Some? ==>
              exists d :: d in log && d.body == LatestBody(log, h).value && d.manifest.contentHash == h
  {
    if log != [] {
      var n := |log| - 1;
      LatestBodyIsDeposited(log[..n], h);
      assert log == log[..n] + [log[n]] && log[n] in log;
    }
  }

  lemma {:induction false} HeadIsDeposited(log: seq<Deposit>, id: CartridgeId)
    requires HeadHash(log, id).Some?
    ensures exists d :: d in log && d.manifest.manifestHash == HeadHash(log, id).value
  {
    var n := |log| - 1;
    assert log[n] in log;
    if log[n].manifest.cartridgeId != id {
      HeadIsDeposited(log[..n], id);
      var d :| d in log[..n] && d.manifest.manifestHash == HeadHash(log[..n], id).value;
      assert d in log;
    }
  }

  lemma LastOfLog(log: seq<Deposit>, d: Deposit)
    ensures forall h ::
              Latest(log + [d], h) == if h == d.manifest.manifestHash then Some(d.manifest) else Latest(log, h)
    ensures forall h ::
              LatestBody(log + [d], h) == if h == d.manifest.contentHash then Some(d.body) else LatestBody(log, h)
    ensures forall id :: HeadHash(log + [d], id)
                         == if id == d.manifest.cartridgeId then Some(d.manifest.manifestHash) else HeadHash(log, id)
  {
    assert (log + [d])[..|log|] == log;
  }

  // ---- the log of verified deposits ----

  ghost predicate Passes(c: Crypto, d: Deposit, trust: TrustList, policy: Policy) {
    Verify(c, d.manifest, d.body, trust, policy).met
  }

  /** Every deposit passed verification under one trust list and policy. */
  ghost predicate Accepted(c: Crypto, ds: seq<Deposit>, trust: TrustList, policy: Policy) {
    forall d | d in ds :: Passes(c, d, trust, policy)
  }

  /** Digests are hexadecimal. */
  ghost predicate Hexadecimal(c: Crypto) {
    (forall b :: HexText(c.digestBody(b))) && forall p :: HexText(c.digestPayload(p))
  }

  /** Hashes as they are computed. */
  ghost predicate Hashed(d: Deposit) {
    HexHash(d.manifest.manifestHash) && HexHash(d.manifest.contentHash)
  }

  lemma AcceptedHashes(c: Crypto, d: Deposit, trust: TrustList, policy: Policy)
    requires Passes(c, d, trust, policy) && Hexadecimal(c)
    ensures Hashed(d) && ContentHash(c, d.body, BytesRaw) == Some(d.manifest.contentHash)
  {
    hide CanonicalPayload, HexText, Prefixed, Strip;
    MetIff(c, d.manifest, d.body, trust, policy);
    PrefixedDigest(c.digestPayload(CanonicalPayload(d.manifest)));
    PrefixedDigest(c.digestBody(d.body));
  }

  /** Verification looks at a body only through its content hash: no freedom from collisions is
      needed for another body with the same hash to pass. */
  lemma SameContentSameVerdict(c: Crypto, d: Deposit, e: Deposit, trust: TrustList, policy: Policy)
    requires Verify(c, d.manifest, d.body, trust, policy).met && Verify(c, e.manifest, e.body, trust, policy).met
    requires d.manifest.contentHash == e.manifest.contentHash
    ensures Verify(c, d.manifest, e.body, trust, policy).met
  {
    hide ManifestHash;
    MetIff(c, d.manifest, d.body, trust, policy);
    MetIff(c, e.manifest, e.body, trust, policy);
    assert d.manifest.form == BytesRaw && e.manifest.form == BytesRaw;
  }

  // ---- what the files say, and what callers see ----

  function ManifestNode(log: seq<Deposit>, h: Hash): Option<Node> {
    match Latest(log, h) case Some(m) => Some(ManifestFile(Serialize(m))) case None => None
  }

  function BodyNode(log: seq<Deposit>, h: Hash): Option<Node> {
    match LatestBody(log, h) case Some(b) => Some(BodyFile(b)) case None => None
  }

  /** Every hash's files are those of the log. */
  ghost predicate Holds(fs: Files, log: seq<Deposit>) {
    forall h | HexHash(h) ::
      Get(fs, ManifestPath(h)) == ManifestNode(log, h) && Get(fs, BodyPath(h)) == BodyNode(log, h)
  }

  /** Every hash's files read as those of the log. */
  ghost predicate ReadsAs(c: Crypto, fs: Files, log: seq<Deposit>) {
    forall h | HexHash(h) ::
      Open(fs, ManifestPath(h)) == ManifestNode(log, h) && BodyFrom(c, fs, h) == BodyOf(log, h)
  }

  /** `load` and `load_body` answer as the simple maps do, for every hash. */
  ghost predicate Right(c: Crypto, fs: Files, log: seq<Deposit>, trust: TrustList, policy: Policy) {
    forall h | HexHash(h) ::
      LoadFrom(c, fs, Some(trust), policy, h) == LoadOf(log, h) && BodyFrom(c, fs, h) == BodyOf(log, h)
  }

  lemma OpensAsGot(fs: Files, p: Path, node: Option<Node>)
    requires Get(fs, p) == node && (node.Some? ==> !node.value.Link?)
    ensures Open(fs, p) == node
  {
    OpenPlain(fs, p);
  }

  lemma HeldIsRead(c: Crypto, fs: Files, log: seq<Deposit>)
    requires Holds(fs, log)
    ensures ReadsAs(c, fs, log)
  {
    hide ManifestPath, BodyPath, HexHash, Latest, LatestBody, Serialize, Open, Get;
    forall h | HexHash(h)
      ensures Open(fs, ManifestPath(h)) == ManifestNode(log, h) && BodyFrom(c, fs, h) == BodyOf(log, h) {
      OpensAsGot(fs, ManifestPath(h), ManifestNode(log, h));
      OpensAsGot(fs, BodyPath(h), BodyNode(log, h));
    }
  }

  lemma LoadsAsRead(c: Crypto, fs: Files, log: seq<Deposit>, trust: TrustList, policy: Policy, h: Hash)
    requires ReadsAs(c, fs, log) && Accepted(c, log, trust, policy) && Hexadecimal(c) && HexHash(h)
    ensures LoadFrom(c, fs, Some(trust), policy, h) == LoadOf(log, h)
  {
    hide ManifestPath, BodyPath, HexHash, Latest, LatestBody, Serialize, Deserialize, Open, Verify, Hexadecimal,
          ReadBytes;
    LatestIsDeposited(log, h);
    if Latest(log, h).Some? {
      var m := Latest(log, h).value;
      var d :| d in log && d.manifest == m && d.manifest.manifestHash == h;
      RoundTrip(m);
      AcceptedHashes(c, d, trust, policy);
      LatestBodyIsDeposited(log, m.contentHash);
      var e :| e in log && e.body == LatestBody(log, m.contentHash).value
                && e.manifest.contentHash == m.contentHash;
      SameContentSameVerdict(c, d, e, trust, policy);
      assert BodyFrom(c, fs, m.contentHash) == Bytes(e.body);
    }
  }

  /** Where the files read as the log, callers see the simple maps. */
  lemma RightAsRead(c: Crypto, fs: Files, log: seq<Deposit>, trust: TrustList, policy: Policy)
    requires ReadsAs(c, fs, log) && Accepted(c, log, trust, policy) && Hexadecimal(c)
    ensures Right(c, fs, log, trust, policy)
  {
    hide HexHash, LoadFrom, BodyFrom, LoadOf, BodyOf, Accepted, Hexadecimal, Open, ManifestNode, ManifestPath;
    forall h | HexHash(h) ensures LoadFrom(c, fs, Some(trust), policy, h) == LoadOf(log, h) {
      LoadsAsRead(c, fs, log, trust, policy, h);
    }
  }

  // ---- one commit ----

  /** The log after a commit: it grows when manifest and body got into the store. */
  function Next(fs: Files, log: seq<Deposit>, d: Deposit): seq<Deposit> {
    if Stores(Try(fs, d).outcome) then log + [d] else log
  }

  /** No directory that the commit makes has the name of a hash's file. */
  ghost predicate MakesNoHashFile(fs: Files, m: Manifest) {
    forall p | Makes(fs, m, p) :: !HashFile(p)
  }

  function VersionOf(d: Deposit): Path {
    VersionPath(d.manifest.cartridgeId, d.manifest.version)
  }

  /** Nothing the commit makes or links takes the place of a hash's file. */
  ghost predicate Clear(fs: Files, d: Deposit) {
    && MakesNoHashFile(fs, d.manifest)
    && (Try(fs, d).outcome.Committed? ==> !HashFile(VersionOf(d)))
  }

  /** The same, but a link may stand for a body that is, byte for byte, the manifest it leads to. */
  ghost predicate Safe(c: Crypto, fs: Files, log: seq<Deposit>, d: Deposit) {
    && MakesNoHashFile(fs, d.manifest)
    && (Try(fs, d).outcome.Committed? ==>
          && !DigestFile(VersionOf(d), ".json")
          && forall h | HexHash(h) && BodyPath(h) == VersionOf(d) ::
               LatestBody(log + [d], h) == Some(c.fileBytes(Serialize(d.manifest))))
  }

  lemma MadeAt(fs: Files, m: Manifest, p: Path)
    requires HashFile(p) && MakesNoHashFile(fs, m)
    ensures Get(MakeAll(fs, m).files, p) == Get(fs, p)
  {
    hide HashFile, MakeAll;
    MakeAllMeans(fs, m);
    assert !Makes(fs, m, p);
  }

  lemma OwnFilesFree(fs: Files, log: seq<Deposit>, d: Deposit)
    requires Holds(fs, log) && Hashed(d) && MakesNoHashFile(fs, d.manifest)
    ensures !Try(fs, d).outcome.ManifestBlocked? && !Try(fs, d).outcome.BodyBlocked?
  {
    hide ManifestPath, BodyPath, HeadPath, VersionPath, VersionEntry, HexHash, Latest, LatestBody, Serialize, Try,
          MakeAll, DigestFile, Reachable;
    OutcomeMeans(fs, d);
    HashFilesOf(d.manifest.manifestHash);
    HashFilesOf(d.manifest.contentHash);
    MadeAt(fs, d.manifest, ManifestPath(d.manifest.manifestHash));
    MadeAt(fs, d.manifest, BodyPath(d.manifest.contentHash));
  }

  /** At a hash's file there is what the log says, or the version's link. */
  lemma AtHashFiles(fs: Files, log: seq<Deposit>, d: Deposit, h: Hash)
    requires Holds(fs, log) && Hashed(d) && MakesNoHashFile(fs, d.manifest) && HexHash(h)
    ensures var r := Try(fs, d);
            && Get(r.files, ManifestPath(h))
               == (if r.outcome.Committed? && VersionOf(d) == ManifestPath(h)
                   then Some(LinkFrom(ManifestPath(h), d.manifest.manifestHash))
                   else ManifestNode(Next(fs, log, d), h))
            && Get(r.files, BodyPath(h))
               == (if r.outcome.Committed? && VersionOf(d) == BodyPath(h)
                   then Some(LinkFrom(BodyPath(h), d.manifest.manifestHash))
                   else BodyNode(Next(fs, log, d), h))
  {
    hide ManifestPath, BodyPath, HeadPath, VersionPath, HexHash, Latest, LatestBody, Serialize, Try, MakeAll,
          DigestFile, LinkFrom, MakesNoHashFile, Get;
    var m := d.manifest;
    HashFilesOf(h);
    HashFilesOf(m.manifestHash);
    HashFilesOf(m.contentHash);
    SuffixesDiffer(ManifestPath(h));
    SuffixesDiffer(BodyPath(h));
    HeadsAreNoHashFiles(m.cartridgeId);
    ManifestPathsDiffer(h, m.manifestHash);
    BodyPathsDiffer(h, m.contentHash);
    OwnFilesFree(fs, log, d);
    TryMeans(fs, d, ManifestPath(h));
    TryMeans(fs, d, BodyPath(h));
    MadeAt(fs, m, ManifestPath(h));
    MadeAt(fs, m, BodyPath(h));
    LastOfLog(log, d);
  }

  lemma ClearHolds(fs: Files, log: seq<Deposit>, d: Deposit)
    requires Holds(fs, log) && Hashed(d) && Clear(fs, d)
    ensures Holds(Try(fs, d).files, Next(fs, log, d))
  {
    hide ManifestPath, BodyPath, VersionOf, HexHash, Latest, LatestBody, Serialize, Try, DigestFile, LinkFrom,
          MakesNoHashFile, Get, ManifestNode, BodyNode, Next;
    forall h | HexHash(h)
      ensures Get(Try(fs, d).files, ManifestPath(h)) == ManifestNode(Next(fs, log, d), h)
      ensures Get(Try(fs, d).files, BodyPath(h)) == BodyNode(Next(fs, log, d), h)
    {
      AtHashFiles(fs, log, d, h);
      HashFilesOf(h);
    }
  }

  /** The version's link gives the new manifest to whoever opens it, unless it stands in the place
      of that manifest itself. */
  lemma VersionOpens(fs: Files, log: seq<Deposit>, d: Deposit)
    requires Holds(fs, log) && Hashed(d) && MakesNoHashFile(fs, d.manifest) && Try(fs, d).outcome.Committed?
    ensures Open(Try(fs, d).files, VersionOf(d))
            == if VersionOf(d) == ManifestPath(d.manifest.manifestHash) then None
               else Some(ManifestFile(Serialize(d.manifest)))
  {
    hide ManifestPath, BodyPath, VersionPath, HexHash, Latest, LatestBody, Serialize, Try, RelPath, Parent,
          MakesNoHashFile;
    var fs', h := Try(fs, d).files, d.manifest.manifestHash;
    ManifestPathPlain(h);
    TryMeans(fs, d, VersionOf(d));
    if VersionOf(d) == ManifestPath(h) {
      LoopGoesNowhere(fs', VersionOf(d), |fs'|);
    } else {
      AtHashFiles(fs, log, d, h);
      LastOfLog(log, d);
      OpenLink(fs', VersionOf(d), ManifestPath(h));
    }
  }

  lemma SafeReads(c: Crypto, fs: Files, log: seq<Deposit>, d: Deposit)
    requires Holds(fs, log) && Hashed(d) && Safe(c, fs, log, d)
    ensures ReadsAs(c, Try(fs, d).files, Next(fs, log, d))
  {
    hide ManifestPath, BodyPath, VersionOf, HexHash, Latest, LatestBody, Serialize, Try, DigestFile, LinkFrom,
          MakesNoHashFile, Open, Get;
    var r, next := Try(fs, d), Next(fs, log, d);
    forall h | HexHash(h)
      ensures Open(r.files, ManifestPath(h)) == ManifestNode(next, h)
      ensures BodyFrom(c, r.files, h) == BodyOf(next, h)
    {
      AtHashFiles(fs, log, d, h);
      HashFilesOf(h);
      OpensAsGot(r.files, ManifestPath(h), ManifestNode(next, h));
      if r.outcome.Committed? && VersionOf(d) == BodyPath(h) {
        HashFilesOf(d.manifest.manifestHash);
        SuffixesDiffer(BodyPath(h));
        VersionOpens(fs, log, d);
      } else {
        OpensAsGot(r.files, BodyPath(h), BodyNode(next, h));
      }
    }
  }

  ghost predicate RightAt(c: Crypto, fs: Files, log: seq<Deposit>, trust: TrustList, policy: Policy, h: Hash) {
    LoadFrom(c, fs, Some(trust), policy, h) == LoadOf(log, h) && BodyFrom(c, fs, h) == BodyOf(log, h)
  }

  /** A directory with the name of a hash's file is read as one. */
  lemma MadeFileIsWrong(c: Crypto, fs: Files, log: seq<Deposit>, d: Deposit, trust: TrustList, policy: Policy, p: Path)
    returns (h: Hash)
    requires Holds(fs, log) && Hashed(d) && Makes(fs, d.manifest, p) && HashFile(p)
    ensures HexHash(h) && !RightAt(c, Try(fs, d).files, Next(fs, log, d), trust, policy, h)
  {
    hide ManifestPath, BodyPath, HeadPath, VersionPath, VersionEntry, HexHash, Latest, LatestBody, Serialize, Try,
          MakeAll, DigestFile, LinkFrom, Reachable, Deserialize, Verify;
    HashFileIff(p);
    h :| HexHash(h) && (p == ManifestPath(h) || p == BodyPath(h));
    MakeAllMeans(fs, d.manifest);
    OutcomeMeans(fs, d);
    TryMeans(fs, d, p);
    HeadsAreNoHashFiles(d.manifest.cartridgeId);
    LastOfLog(log, d);
    OpenPlain(Try(fs, d).files, p);
  }

  /** A link with the name of a manifest's file leads to another manifest. */
  lemma ManifestLinkIsWrong(c: Crypto, fs: Files, log: seq<Deposit>, d: Deposit, trust: TrustList, policy: Policy,
        h: Hash)
    requires Holds(fs, log) && Hashed(d) && MakesNoHashFile(fs, d.manifest) && Try(fs, d).outcome.Committed?
    requires HexHash(h) && ManifestPath(h) == VersionOf(d)
    ensures LoadFrom(c, Try(fs, d).files, Some(trust), policy, h) != LoadOf(log + [d], h)
  {
    hide ManifestPath, BodyPath, VersionOf, HexHash, Latest, LatestBody, Serialize, Try, MakesNoHashFile,
          Deserialize, Verify, Open, Holds;
    VersionOpens(fs, log, d);
    LastOfLog(log, d);
    RoundTrip(d.manifest);
    ManifestPathsDiffer(h, d.manifest.manifestHash);
    LatestIsDeposited(log, h);
  }

  /** A link with the name of a body's file leads to the bytes of the manifest. */
  lemma BodyLinkReads(c: Crypto, fs: Files, log: seq<Deposit>, d: Deposit, h: Hash)
    requires Holds(fs, log) && Hashed(d) && MakesNoHashFile(fs, d.manifest) && Try(fs, d).outcome.Committed?
    requires HexHash(h) && BodyPath(h) == VersionOf(d)
    ensures BodyFrom(c, Try(fs, d).files, h) == Bytes(c.fileBytes(Serialize(d.manifest)))
  {
    hide ManifestPath, BodyPath, VersionOf, HexHash, Serialize, Try, MakesNoHashFile, DigestFile, Open, Holds;
    VersionOpens(fs, log, d);
    HashFilesOf(h);
    HashFilesOf(d.manifest.manifestHash);
    SuffixesDiffer(VersionOf(d));
  }

  lemma LinkIsWrong(c: Crypto, fs: Files, log: seq<Deposit>, d: Deposit, trust: TrustList, policy: Policy)
    returns (h: Hash)
    requires Holds(fs, log) && Hashed(d) && MakesNoHashFile(fs, d.manifest) && Try(fs, d).outcome.Committed?
    requires !Safe(c, fs, log, d)
    ensures HexHash(h) && !RightAt(c, Try(fs, d).files, Next(fs, log, d), trust, policy, h)
  {
    hide ManifestPath, BodyPath, VersionOf, HexHash, LatestBody, Serialize, Try, DigestFile, MakesNoHashFile,
          Holds, LoadFrom, LoadOf, BodyFrom;
    if DigestFile(VersionOf(d), ".json") {
      h := HashOfFile(VersionOf(d), ".json");
      ManifestLinkIsWrong(c, fs, log, d, trust, policy, h);
    } else {
      h :| HexHash(h) && BodyPath(h) == VersionOf(d)
           && LatestBody(log + [d], h) != Some(c.fileBytes(Serialize(d.manifest)));
      BodyLinkReads(c, fs, log, d, h);
    }
  }

  lemma NextAccepted(c: Crypto, fs: Files, log: seq<Deposit>, d: Deposit, trust: TrustList, policy: Policy)
    requires Accepted(c, log, trust, policy) && Passes(c, d, trust, policy)
    ensures Accepted(c, Next(fs, log, d), trust, policy)
  {
    hide Passes, Try;
  }

  /** After one more verified commit, `load` and `load_body` are still right for every hash exactly
      when nothing it made or linked took the place of a hash's file. */
  lemma StaysRightIff(c: Crypto, fs: Files, log: seq<Deposit>, d: Deposit, trust: TrustList, policy: Policy)
    requires Holds(fs, log) && Accepted(c, log, trust, policy) && Passes(c, d, trust, policy) && Hexadecimal(c)
    ensures Right(c, Try(fs, d).files, Next(fs, log, d), trust, policy) <==> Safe(c, fs, log, d)
  {
    hide HexHash, HashFile, Holds, Accepted, Passes, Hexadecimal, LoadFrom, BodyFrom, LoadOf, BodyOf, Try, Next, Makes,
          VersionOf, LatestBody, ManifestPath, BodyPath, Serialize, DigestFile, ReadsAs;
    AcceptedHashes(c, d, trust, policy);
    if Safe(c, fs, log, d) {
      SafeReads(c, fs, log, d);
      NextAccepted(c, fs, log, d, trust, policy);
      RightAsRead(c, Try(fs, d).files, Next(fs, log, d), trust, policy);
    } else if MakesNoHashFile(fs, d.manifest) {
      var h := LinkIsWrong(c, fs, log, d, trust, policy);
    } else {
      var p :| Makes(fs, d.manifest, p) && HashFile(p);
      var h := MadeFileIsWrong(c, fs, log, d, trust, policy, p);
    }
  }

  // ---- runs of commits ----

  function After(ds: seq<Deposit>): Files {
    if ds == [] then map[] else Try(After(ds[..|ds| - 1]), ds[|ds| - 1]).files
  }

  /** The deposits that got into the store. */
  function Log(ds: seq<Deposit>): seq<Deposit> {
    if ds == [] then [] else
    var n := |ds| - 1;
    Next(After(ds[..n]), Log(ds[..n]), ds[n])
  }

  lemma OneMore(ds: seq<Deposit>, d: Deposit)
    ensures After(ds + [d]) == Try(After(ds), d).files
    ensures Log(ds + [d]) == Next(After(ds), Log(ds), d)
  {
    hide Try, Next;
    assert (ds + [d])[..|ds|] == ds;
  }

  lemma {:induction false} LogAccepted(c: Crypto, ds: seq<Deposit>, trust: TrustList, policy: Policy)
    requires Accepted(c, ds, trust, policy)
    ensures Accepted(c, Log(ds), trust, policy)
  {
    hide Passes, Next;
    if ds != [] {
      var n := |ds| - 1;
      LogAccepted(c, ds[..n], trust, policy);
      NextAccepted(c, After(ds[..n]), Log(ds[..n]), ds[n], trust, policy);
    }
  }

  /** No commit of the run took the place of a hash's file. */
  ghost predicate AllClear(ds: seq<Deposit>) {
    ds == [] || (AllClear(ds[..|ds| - 1]) && Clear(After(ds[..|ds| - 1]), ds[|ds| - 1]))
  }

  /** Then the files of the hashes are those of the log. */
  lemma {:induction false} StoreMeans(ds: seq<Deposit>)
    requires AllClear(ds) && forall d | d in ds :: Hashed(d)
    ensures Holds(After(ds), Log(ds))
  {
    hide Hashed, Clear, Try, Next, HexHash, ManifestPath, BodyPath;
    if ds == [] {
    } else {
      hide Holds;
      var n := |ds| - 1;
      StoreMeans(ds[..n]);
      assert ds[n] in ds;
      ClearHolds(After(ds[..n]), Log(ds[..n]), ds[n]);
    }
  }

  lemma AllHashed(c: Crypto, ds: seq<Deposit>, trust: TrustList, policy: Policy)
    requires Accepted(c, ds, trust, policy) && Hexadecimal(c)
    ensures forall d | d in ds :: Hashed(d)
  {
    hide Passes, Hashed, Hexadecimal, ContentHash;
    forall d | d in ds ensures Hashed(d) {
      AcceptedHashes(c, d, trust, policy);
    }
  }

  /** `load` and `load_body` over any run of commits that is clear: a hash ever stored loads and gives
      the last manifest stored under it, any other hash is not found; and so for the bodies. */
  lemma LoadRefines(c: Crypto, ds: seq<Deposit>, trust: TrustList, policy: Policy)
    requires Accepted(c, ds, trust, policy) && Hexadecimal(c) && AllClear(ds)
    ensures Right(c, After(ds), Log(ds), trust, policy)
  {
    hide *;
    AllHashed(c, ds, trust, policy);
    StoreMeans(ds);
    HeldIsRead(c, After(ds), Log(ds));
    LogAccepted(c, ds, trust, policy);
    RightAsRead(c, After(ds), Log(ds), trust, policy);
  }

  /** The version does not name the file of a body that is, byte for byte, this very manifest: only a
      fixed point of the digest would. */
  ghost predicate NotItsOwnName(c: Crypto, d: Deposit) {
    forall h | HexHash(h) && BodyPath(h) == VersionOf(d) ::
      ContentHash(c, c.fileBytes(Serialize(d.manifest)), BytesRaw) != Some(h)
  }

  lemma SafeIsClear(c: Crypto, fs: Files, log: seq<Deposit>, d: Deposit, trust: TrustList, policy: Policy)
    requires Accepted(c, log, trust, policy) && Passes(c, d, trust, policy) && Hexadecimal(c) && NotItsOwnName(c, d)
    ensures Safe(c, fs, log, d) <==> Clear(fs, d)
  {
    hide ManifestPath, BodyPath, VersionOf, HexHash, LatestBody, Serialize, Try, DigestFile, MakesNoHashFile, Passes,
          ContentHash, Hexadecimal;
    if Safe(c, fs, log, d) && Try(fs, d).outcome.Committed? && DigestFile(VersionOf(d), ".body") {
      var h := HashOfFile(VersionOf(d), ".body");
      LatestBodyIsDeposited(log + [d], h);
      var e :| e in log + [d] && e.body == LatestBody(log + [d], h).value && e.manifest.contentHash == h;
      AcceptedHashes(c, e, trust, policy);
    }
    if Clear(fs, d) && Try(fs, d).outcome.Committed? {
      forall h | HexHash(h) ensures BodyPath(h) != VersionOf(d) { HashFilesOf(h); }
    }
  }

  /** Readers are right after the run, and were after each of its commits. */
  ghost predicate AlwaysRight(c: Crypto, ds: seq<Deposit>, trust: TrustList, policy: Policy) {
    && Right(c, After(ds), Log(ds), trust, policy)
    && (ds != [] ==> AlwaysRight(c, ds[..|ds| - 1], trust, policy))
  }

  /** Over a whole run: readers are right after every commit exactly when every commit was clear. */
  lemma {:induction false} AlwaysRightIff(c: Crypto, ds: seq<Deposit>, trust: TrustList, policy: Policy)
    requires Accepted(c, ds, trust, policy) && Hexadecimal(c) && forall d | d in ds :: NotItsOwnName(c, d)
    ensures AlwaysRight(c, ds, trust, policy) <==> AllClear(ds)
  {
    if ds == [] {
      LoadRefines(c, ds, trust, policy);
    } else {
      hide Right, Clear, Safe, Try, Next, Passes, Hashed, Hexadecimal, NotItsOwnName, Holds;
      var n := |ds| - 1;
      var d, fs, log := ds[n], After(ds[..n]), Log(ds[..n]);
      assert d in ds && Passes(c, d, trust, policy);
      AlwaysRightIff(c, ds[..n], trust, policy);
      if AllClear(ds[..n]) {
        AllHashed(c, ds[..n], trust, policy);
        StoreMeans(ds[..n]);
        LogAccepted(c, ds[..n], trust, policy);
        StaysRightIff(c, fs, log, d, trust, policy);
        SafeIsClear(c, fs, log, d, trust, policy);
      }
    }
  }
}
