/** The heads of the Librarian's store over runs of commits (maestro/librarian/store.py:268-284, 332-350),
    and the commits that raise half-way. */
module StoreHeads {
  import opened Wrappers
  import opened Manifests
  import opened Addressing
  import opened StorePaths
  import opened StoreFiles
  import opened Verification
  import opened CommitSteps
  import opened LibrarianStore

  /** The log of heads after a commit: it grows when the head's link was written. */
  function NextHeads(fs: Files, heads: seq<Deposit>, d: Deposit): seq<Deposit> {
    if Heads(Try(fs, d).outcome) then heads + [d] else heads
  }

  /** The deposits whose head was linked. */
  function HeadLog(ds: seq<Deposit>): seq<Deposit> {
    if ds == [] then [] else
    var n := |ds| - 1;
    NextHeads(After(ds[..n]), HeadLog(ds[..n]), ds[n])
  }

  /** What `head` should answer: the manifest now stored under the hash last linked for the id. */
  function HeadOf(heads: seq<Deposit>, log: seq<Deposit>, id: CartridgeId): Option<Manifest> {
    match HeadHash(heads, id) case Some(h) => Latest(log, h) case None => None
  }

  /** The head's link is there, or nothing that opens to a manifest. */
  ghost predicate HeadHolds(fs: Files, heads: seq<Deposit>, id: CartridgeId) {
    match HeadHash(heads, id)
    case Some(h) => Get(fs, HeadPath(id)) == Some(LinkFrom(HeadPath(id), h))
    case None => HeadPath(id) !in fs || IsDir(fs, HeadPath(id))
  }

  /** The commit writes a link of its own at another id's head. */
  predicate Takes(fs: Files, d: Deposit, id: CartridgeId) {
    && d.manifest.cartridgeId != id
    && (|| (Heads(Try(fs, d).outcome) && HeadPath(d.manifest.cartridgeId) == HeadPath(id))
        || (Try(fs, d).outcome.Committed? && VersionOf(d) == HeadPath(id)))
  }

  lemma TakesAnother(fs: Files, d: Deposit, id: CartridgeId)
    requires Takes(fs, d, id)
    ensures d.manifest.cartridgeId != id
  {
    hide Try;
  }

  /** Every head linked leads to a hash that is stored. */
  ghost predicate Rooted(heads: seq<Deposit>, log: seq<Deposit>) {
    forall d | d in heads :: d in log && HexHash(d.manifest.manifestHash)
  }

  lemma HeadStored(heads: seq<Deposit>, log: seq<Deposit>, id: CartridgeId)
    requires Rooted(heads, log) && HeadHash(heads, id).Some?
    ensures var h := HeadHash(heads, id).value;
            HexHash(h) && Latest(log, h).Some? && Latest(log, h).value.manifestHash == h
  {
    hide HexHash, HeadHash, Latest;
    HeadIsDeposited(heads, id);
    var d :| d in heads && d.manifest.manifestHash == HeadHash(heads, id).value;
    LatestIsDeposited(log, d.manifest.manifestHash);
  }

  lemma OpensHead(fs: Files, p: Path, h: Hash, log: seq<Deposit>)
    requires Holds(fs, log) && HexHash(h) && Latest(log, h).Some? && Get(fs, p) == Some(LinkFrom(p, h))
    ensures Open(fs, p) == Some(ManifestFile(Serialize(Latest(log, h).value)))
  {
    hide ManifestPath, HexHash, Latest, Serialize, RelPath, Parent, Open;
    ManifestPathPlain(h);
    assert Get(fs, ManifestPath(h)) == ManifestNode(log, h);
    OpenLink(fs, p, ManifestPath(h));
  }

  /** Where the link is the log's, `head` answers as it should. */
  lemma HeadReads(fs: Files, heads: seq<Deposit>, log: seq<Deposit>, id: CartridgeId)
    requires Holds(fs, log) && HeadHolds(fs, heads, id) && Rooted(heads, log)
    ensures HeadFrom(fs, id) == HeadOf(heads, log, id)
  {
    hide Holds, HeadPath, HexHash, HeadHash, Latest, Serialize, Deserialize, LinkFrom, Open;
    match HeadHash(heads, id) {
      case Some(h) =>
        HeadStored(heads, log, id);
        OpensHead(fs, HeadPath(id), h, log);
        RoundTrip(Latest(log, h).value);
      case None =>
        OpenPlain(fs, HeadPath(id));
    }
  }

  lemma RootedNext(fs: Files, heads: seq<Deposit>, log: seq<Deposit>, d: Deposit)
    requires Rooted(heads, log) && Hashed(d)
    ensures Rooted(NextHeads(fs, heads, d), Next(fs, log, d))
  {
    hide HexHash, Try;
  }

  lemma HeadWritten(fs: Files, d: Deposit, id: CartridgeId)
    requires Hashed(d)
    ensures var r := Try(fs, d);
            Get(r.files, HeadPath(id))
            == if Takes(fs, d, id) || (Heads(r.outcome) && d.manifest.cartridgeId == id)
               then Some(LinkFrom(HeadPath(id), d.manifest.manifestHash))
               else Get(MakeAll(fs, d.manifest).files, HeadPath(id))
    ensures Heads(Try(fs, d).outcome) ==> !IsDir(MakeAll(fs, d.manifest).files, HeadPath(d.manifest.cartridgeId))
  {
    hide ManifestPath, BodyPath, HeadPath, VersionPath, HexHash, Serialize, Try, MakeAll, DigestFile, LinkFrom, Get,
          Reachable, VersionEntry;
    TryMeans(fs, d, HeadPath(id));
    OutcomeMeans(fs, d);
    HeadsAreNoHashFiles(id);
    HashFilesOf(d.manifest.manifestHash);
    HashFilesOf(d.manifest.contentHash);
  }

  /** A commit that leaves another id's head alone, or links it to the same hash, keeps it. */
  lemma HeadKept(fs: Files, heads: seq<Deposit>, d: Deposit, id: CartridgeId)
    requires HeadHolds(fs, heads, id) && Hashed(d)
    requires Takes(fs, d, id) ==> HeadHash(heads, id) == Some(d.manifest.manifestHash)
    ensures HeadHolds(Try(fs, d).files, NextHeads(fs, heads, d), id)
  {
    hide HeadPath, HexHash, HeadHash, Try, LinkFrom, Takes, MakeAll;
    HeadWritten(fs, d, id);
    MakeAllMeans(fs, d.manifest);
    LastOfLog(heads, d);
  }

  lemma TakenReads(fs: Files, log: seq<Deposit>, d: Deposit, id: CartridgeId)
    requires Holds(Try(fs, d).files, Next(fs, log, d)) && Hashed(d) && Takes(fs, d, id)
    ensures HeadFrom(Try(fs, d).files, id) == Some(d.manifest)
  {
    hide Holds, HeadPath, HexHash, Latest, Serialize, Deserialize, LinkFrom, Open, Try, VersionOf;
    HeadWritten(fs, d, id);
    LastOfLog(log, d);
    OpensHead(Try(fs, d).files, HeadPath(id), d.manifest.manifestHash, Next(fs, log, d));
    RoundTrip(d.manifest);
  }

  /** After one more commit that is clear, an id's head is still right exactly when the commit took no
      other id's head, or linked it to the hash it had. */
  lemma HeadStaysRightIff(fs: Files, heads: seq<Deposit>, log: seq<Deposit>, d: Deposit, id: CartridgeId)
    requires Holds(fs, log) && HeadHolds(fs, heads, id) && Rooted(heads, log) && Hashed(d) && Clear(fs, d)
    ensures HeadFrom(Try(fs, d).files, id) == HeadOf(NextHeads(fs, heads, d), Next(fs, log, d), id)
            <==> (Takes(fs, d, id) ==> HeadHash(heads, id) == Some(d.manifest.manifestHash))
  {
    hide Holds, HeadHolds, Clear, HexHash, HeadHash, Latest, Try, Takes, HeadFrom;
    ClearHolds(fs, log, d);
    RootedNext(fs, heads, log, d);
    if Takes(fs, d, id) ==> HeadHash(heads, id) == Some(d.manifest.manifestHash) {
      HeadKept(fs, heads, d, id);
      HeadReads(Try(fs, d).files, NextHeads(fs, heads, d), Next(fs, log, d), id);
    } else {
      TakenReads(fs, log, d, id);
      LastOfLog(heads, d);
      TakesAnother(fs, d, id);
      if HeadHash(heads, id).Some? {
        HeadStored(NextHeads(fs, heads, d), Next(fs, log, d), id);
      }
    }
  }

  // ---- heads over runs ----

  /** A commit that takes the id's head links it to the hash it had. */
  ghost predicate Untouched(ds: seq<Deposit>, d: Deposit, id: CartridgeId) {
    Takes(After(ds), d, id) ==> HeadHash(HeadLog(ds), id) == Some(d.manifest.manifestHash)
  }

  /** So does every commit of the run. */
  ghost predicate Untaken(ds: seq<Deposit>, id: CartridgeId) {
    ds == [] || (Untaken(ds[..|ds| - 1], id) && Untouched(ds[..|ds| - 1], ds[|ds| - 1], id))
  }

  ghost predicate HeadRight(ds: seq<Deposit>, id: CartridgeId) {
    HeadFrom(After(ds), id) == HeadOf(HeadLog(ds), Log(ds), id)
  }

  /** Then its link is that of the log. */
  lemma {:induction false} HeadsHold(ds: seq<Deposit>, id: CartridgeId)
    requires AllClear(ds) && forall d | d in ds :: Hashed(d)
    ensures Holds(After(ds), Log(ds)) && Rooted(HeadLog(ds), Log(ds))
    ensures Untaken(ds, id) ==> HeadHolds(After(ds), HeadLog(ds), id)
  {
    hide Hashed, Clear, Try, Next, NextHeads, Takes, HexHash, ManifestPath, BodyPath, HeadPath;
    if ds == [] {
    } else {
      hide HeadHolds, Holds, Rooted;
      var n := |ds| - 1;
      assert ds[n] in ds;
      HeadsHold(ds[..n], id);
      ClearHolds(After(ds[..n]), Log(ds[..n]), ds[n]);
      RootedNext(After(ds[..n]), HeadLog(ds[..n]), Log(ds[..n]), ds[n]);
      if Untaken(ds, id) {
        HeadKept(After(ds[..n]), HeadLog(ds[..n]), ds[n], id);
      }
    }
  }

  /** `head` over any clear run that leaves the id's head alone: an id ever linked resolves, through its
      relative link, to the manifest now stored under the hash last linked for it; any other is unknown. */
  lemma HeadRefines(c: Crypto, ds: seq<Deposit>, trust: TrustList, policy: Policy, id: CartridgeId)
    requires Accepted(c, ds, trust, policy) && Hexadecimal(c) && AllClear(ds) && Untaken(ds, id)
    ensures HeadRight(ds, id)
    ensures HeadHash(HeadLog(ds), id).Some? ==> HeadFrom(After(ds), id).Some?
  {
    hide Accepted, Hexadecimal, AllClear, Untaken, Hashed, Holds, HeadHolds, Rooted, HeadFrom, HeadHash, Latest,
          HexHash;
    AllHashed(c, ds, trust, policy);
    HeadsHold(ds, id);
    HeadReads(After(ds), HeadLog(ds), Log(ds), id);
    if HeadHash(HeadLog(ds), id).Some? {
      HeadStored(HeadLog(ds), Log(ds), id);
    }
  }

  /** The id's head is right after the run, and was after each of its commits. */
  ghost predicate HeadAlwaysRight(ds: seq<Deposit>, id: CartridgeId) {
    HeadRight(ds, id) && (ds != [] ==> HeadAlwaysRight(ds[..|ds| - 1], id))
  }

  /** Over a whole clear run: an id's head is right after every commit exactly when no commit took it
      for another hash. */
  lemma {:induction false} HeadAlwaysRightIff(ds: seq<Deposit>, id: CartridgeId)
    requires AllClear(ds) && forall d | d in ds :: Hashed(d)
    ensures HeadAlwaysRight(ds, id) <==> Untaken(ds, id)
  {
    hide Hashed, Clear, Try, Next, NextHeads, Takes, HeadPath;
    if ds != [] {
      hide HeadHolds, Holds, Rooted, HeadFrom, HeadOf, HeadHash;
      var n := |ds| - 1;
      assert ds[n] in ds;
      HeadAlwaysRightIff(ds[..n], id);
      if Untaken(ds[..n], id) {
        HeadsHold(ds[..n], id);
        HeadStaysRightIff(After(ds[..n]), HeadLog(ds[..n]), Log(ds[..n]), ds[n], id);
      }
    }
  }

  // ---- commits that raise ----

  /** `load` and `load_body` answer alike before and after, for every hash. */
  ghost predicate SameAnswers(c: Crypto, a: Files, b: Files, trust: TrustList, policy: Policy) {
    forall h | HexHash(h) ::
      && LoadFrom(c, a, Some(trust), policy, h) == LoadFrom(c, b, Some(trust), policy, h)
      && BodyFrom(c, a, h) == BodyFrom(c, b, h)
  }

  /** A commit that raises half-way is not undone: the readers' answers are as before exactly when it had
      not got to its two files, or when these were stored already. */
  lemma RaisedIsSilentIff(c: Crypto, fs: Files, log: seq<Deposit>, d: Deposit, trust: TrustList, policy: Policy)
    requires Holds(fs, log) && Accepted(c, log, trust, policy) && Passes(c, d, trust, policy) && Hexadecimal(c)
    requires Clear(fs, d)
    ensures SameAnswers(c, fs, Try(fs, d).files, trust, policy)
            <==> (Stores(Try(fs, d).outcome) ==>
                    && Latest(log, d.manifest.manifestHash) == Some(d.manifest)
                    && LatestBody(log, d.manifest.contentHash) == Some(d.body))
  {
    hide HexHash, Holds, Accepted, Passes, Hexadecimal, LoadFrom, BodyFrom, Try, Clear, Latest, LatestBody;
    AcceptedHashes(c, d, trust, policy);
    ClearHolds(fs, log, d);
    NextAccepted(c, fs, log, d, trust, policy);
    HeldIsRead(c, fs, log);
    RightAsRead(c, fs, log, trust, policy);
    HeldIsRead(c, Try(fs, d).files, Next(fs, log, d));
    RightAsRead(c, Try(fs, d).files, Next(fs, log, d), trust, policy);
    LastOfLog(log, d);
  }

  /** What a commit that got to its head leaves behind, whether or not it raised afterwards. */
  lemma HeadIsLoaded(c: Crypto, fs: Files, log: seq<Deposit>, d: Deposit, trust: TrustList, policy: Policy)
    requires Holds(fs, log) && Accepted(c, log, trust, policy) && Passes(c, d, trust, policy) && Hexadecimal(c)
    requires Clear(fs, d) && Heads(Try(fs, d).outcome)
    ensures LoadFrom(c, Try(fs, d).files, Some(trust), policy, d.manifest.manifestHash) == Loaded(d.manifest)
    ensures HeadFrom(Try(fs, d).files, d.manifest.cartridgeId) == Some(d.manifest)
  {
    hide HexHash, HeadPath, Holds, Accepted, Passes, Hexadecimal, LoadFrom, BodyFrom, Try, Clear, Latest, LatestBody,
          LinkFrom, Serialize, Deserialize, Open, Takes;
    AcceptedHashes(c, d, trust, policy);
    ClearHolds(fs, log, d);
    NextAccepted(c, fs, log, d, trust, policy);
    HeldIsRead(c, Try(fs, d).files, Next(fs, log, d));
    RightAsRead(c, Try(fs, d).files, Next(fs, log, d), trust, policy);
    LastOfLog(log, d);
    HeadWritten(fs, d, d.manifest.cartridgeId);
    OpensHead(Try(fs, d).files, HeadPath(d.manifest.cartridgeId), d.manifest.manifestHash, Next(fs, log, d));
    RoundTrip(d.manifest);
  }
}
