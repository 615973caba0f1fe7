/** One commit of the Librarian (maestro/librarian/store.py:303-352): its directories, its two files and
    its two links, in order, and what readers make of the files. */
module CommitSteps {
  import opened Wrappers
  import opened Manifests
  import opened Addressing
  import opened StorePaths
  import opened StoreFiles
  import opened Verification

  datatype Deposit = Deposit(manifest: Manifest, body: Body)

  // ---- the steps ----

  /** Where a commit stopped, if it did: what was done before stays done. */
  datatype Outcome = Committed | DirBlocked | ManifestBlocked | BodyBlocked | HeadBlocked | VersionBlocked

  datatype Attempt = Attempt(files: Files, outcome: Outcome)

  function MakeAll(fs: Files, m: Manifest): Step {
    var one := MakeDirs(fs, ShardDir(m.manifestHash));
    var two := if one.ok then MakeDirs(one.files, ShardDir(m.contentHash)) else one;
    if two.ok then MakeDirs(two.files, VersionsDir(m.cartridgeId)) else two
  }

  function LinkFrom(p: Path, h: Hash): Node {
    Link(RelPath(ManifestPath(h), Parent(p)))
  }

  function Try(fs: Files, d: Deposit): Attempt {
    var m := d.manifest;
    var head, version := HeadPath(m.cartridgeId), VersionPath(m.cartridgeId, m.version);
    var made := MakeAll(fs, m);
    if !made.ok then Attempt(made.files, DirBlocked)
    else
      var one := Put(made.files, ManifestPath(m.manifestHash), ManifestFile(Serialize(m)));
      if !one.ok then Attempt(one.files, ManifestBlocked)
      else
        var two := Put(one.files, BodyPath(m.contentHash), BodyFile(d.body));
        if !two.ok then Attempt(two.files, BodyBlocked)
        else
          var three := Put(two.files, head, LinkFrom(head, m.manifestHash));
          if !three.ok then Attempt(three.files, HeadBlocked)
          else
            var four := Put(three.files, version, LinkFrom(version, m.manifestHash));
            if Reachable(three.files, VersionEntry(m.cartridgeId, m.version)) && four.ok
            then Attempt(four.files, Committed)
            else Attempt(three.files, VersionBlocked)
  }

  /** The manifest and its body are both in the store, even when the commit raised later. */
  predicate Stores(o: Outcome) {
    o.Committed? || o.HeadBlocked? || o.VersionBlocked?
  }

  predicate Heads(o: Outcome) {
    o.Committed? || o.VersionBlocked?
  }

  /** A directory that this commit makes. */
  predicate Makes(fs: Files, m: Manifest, p: Path) {
    p !in fs && p in MakeAll(fs, m).files
  }

  /** A directory that a commit needs. */
  ghost predicate Needs(m: Manifest, p: Path) {
    OnTheWay(ShardDir(m.manifestHash), p) || OnTheWay(ShardDir(m.contentHash), p)
    || OnTheWay(VersionsDir(m.cartridgeId), p)
  }

  lemma MakeAllMeans(fs: Files, m: Manifest)
    ensures var r := MakeAll(fs, m);
            && (forall p | p in fs :: p in r.files && r.files[p] == fs[p])
            && (forall p | p in r.files && p !in fs :: r.files[p] == Directory && Needs(m, p))
            && (r.ok <==> forall p | Needs(m, p) && p in fs :: IsDir(fs, p))
            && (r.ok ==> forall p | Needs(m, p) :: IsDir(r.files, p))
  {
    hide Norm, MakeDirs, ShardDir, VersionsDir, OnTheWay;
    var one := MakeDirs(fs, ShardDir(m.manifestHash));
    MakeDirsMeans(fs, ShardDir(m.manifestHash));
    MakeDirsMeans(one.files, ShardDir(m.contentHash));
    MakeDirsMeans(MakeDirs(one.files, ShardDir(m.contentHash)).files, VersionsDir(m.cartridgeId));
  }

  /** What is at a path after a commit: the last step that wrote there. */
  lemma TryMeans(fs: Files, d: Deposit, p: Path)
    ensures var m, r, made := d.manifest, Try(fs, d), MakeAll(fs, d.manifest).files;
            Get(r.files, p)
            == if r.outcome.Committed? && p == VersionPath(m.cartridgeId, m.version)
               then Some(LinkFrom(p, m.manifestHash))
               else if Heads(r.outcome) && p == HeadPath(m.cartridgeId) then Some(LinkFrom(p, m.manifestHash))
               else if Stores(r.outcome) && p == BodyPath(m.contentHash) then Some(BodyFile(d.body))
               else if (Stores(r.outcome) || r.outcome.BodyBlocked?) && p == ManifestPath(m.manifestHash)
               then Some(ManifestFile(Serialize(m)))
               else Get(made, p)
  {
    hide MakeAll, ManifestPath, BodyPath, HeadPath, VersionPath, VersionEntry, LinkFrom, Serialize, Reachable;
  }

  lemma PutFails(fs: Files, p: Path, node: Node)
    ensures Put(fs, p, node).ok <==> !IsDir(fs, p)
  {
  }

  lemma PutKeepsDirs(fs: Files, p: Path, node: Node, raw: Path)
    requires !node.Directory?
    ensures forall q :: IsDir(Put(fs, p, node).files, q) == IsDir(fs, q)
    ensures Reachable(Put(fs, p, node).files, raw) == Reachable(fs, raw)
  {
    hide Norm;
  }

  /** Where a commit stops is seen beforehand: in the directories it needs and the names they have. */
  lemma OutcomeMeans(fs: Files, d: Deposit)
    ensures var m, o, made := d.manifest, Try(fs, d).outcome, MakeAll(fs, d.manifest);
            var noManifest, noBody := IsDir(made.files, ManifestPath(m.manifestHash)),
                                      IsDir(made.files, BodyPath(m.contentHash));
            var noHead := IsDir(made.files, HeadPath(m.cartridgeId));
            var noVersion := IsDir(made.files, VersionPath(m.cartridgeId, m.version))
                             || !Reachable(made.files, VersionEntry(m.cartridgeId, m.version));
            && (o.DirBlocked? <==> !made.ok)
            && (o.ManifestBlocked? <==> made.ok && noManifest)
            && (o.BodyBlocked? <==> made.ok && !noManifest && noBody)
            && (o.HeadBlocked? <==> made.ok && !noManifest && !noBody && noHead)
            && (o.VersionBlocked? <==> made.ok && !noManifest && !noBody && !noHead && noVersion)
  {
    hide MakeAll, ManifestPath, BodyPath, HeadPath, VersionPath, VersionEntry, Serialize, Reachable, Put, IsDir;
    var m, made := d.manifest, MakeAll(fs, d.manifest).files;
    var raw := VersionEntry(m.cartridgeId, m.version);
    var head := HeadPath(m.cartridgeId);
    var one := Put(made, ManifestPath(m.manifestHash), ManifestFile(Serialize(m)));
    var two := Put(one.files, BodyPath(m.contentHash), BodyFile(d.body));
    PutKeepsDirs(made, ManifestPath(m.manifestHash), ManifestFile(Serialize(m)), raw);
    PutKeepsDirs(one.files, BodyPath(m.contentHash), BodyFile(d.body), raw);
    PutKeepsDirs(two.files, head, LinkFrom(head, m.manifestHash), raw);
    assert forall f, p, n :: Put(f, p, n).ok <==> !IsDir(f, p) by {
      forall f, p, n ensures Put(f, p, n).ok <==> !IsDir(f, p) { PutFails(f, p, n); }
    }
  }

  // ---- reading ----

  datatype Read = Bytes(body: Body) | Absent | IsADirectory

  /** `read_bytes`, for a path that may not exist. */
  function ReadBytes(c: Crypto, fs: Files, p: Path): Read {
    match Open(fs, p)
    case None => Absent
    case Some(ManifestFile(j)) => Bytes(c.fileBytes(j))
    case Some(BodyFile(b)) => Bytes(b)
    case Some(_) => IsADirectory
  }

  datatype LoadResult =
    | Loaded(manifest: Manifest) | NoRoot | NotFound | Unreadable | BodyMissing | BodyRaises | NoTrustList
    | Unverified(report: Report)

  function LoadFrom(c: Crypto, fs: Files, trust: Option<TrustList>, policy: Policy, h: Hash): LoadResult {
    match Open(fs, ManifestPath(h))
    case None => NotFound
    case Some(node) =>
      if !node.ManifestFile? || Deserialize(node.json).None? then Unreadable
      else
        var m := Deserialize(node.json).value;
        match ReadBytes(c, fs, BodyPath(m.contentHash))
        case Absent => BodyMissing
        case IsADirectory => BodyRaises
        case Bytes(body) =>
          if trust.None? then NoTrustList
          else
            var r := Verify(c, m, body, trust.value, policy);
            if r.met then Loaded(m) else Unverified(r)
  }

  function BodyFrom(c: Crypto, fs: Files, h: Hash): Read {
    ReadBytes(c, fs, BodyPath(h))
  }

  function HeadFrom(fs: Files, id: CartridgeId): Option<Manifest> {
    match Open(fs, HeadPath(id))
    case Some(ManifestFile(j)) => Deserialize(j)
    case _ => None
  }

  /** Whatever the files hold: `load` returns only what is endorsed by the trusted keys, with the body
      that is read under its content hash. */
  lemma LoadedIsEndorsed(c: Crypto, fs: Files, trust: TrustList, policy: Policy, h: Hash)
    requires LoadFrom(c, fs, Some(trust), policy, h).Loaded?
    ensures var m := LoadFrom(c, fs, Some(trust), policy, h).manifest;
            exists body :: BodyFrom(c, fs, m.contentHash) == Bytes(body) && Endorsed(c, m, body, trust, policy)
  {
    hide ManifestPath, BodyPath, Verify, Endorsed, Deserialize, Open;
    var m := LoadFrom(c, fs, Some(trust), policy, h).manifest;
    var body := BodyFrom(c, fs, m.contentHash).body;
    AcceptedIff(c, m, body, trust, policy);
  }
}
