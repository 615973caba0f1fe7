/** The Librarian (maestro/librarian/store.py:168-352): the object that commits and reads. */
module Librarian {
  import opened Wrappers
  import opened Manifests
  import opened Addressing
  import opened StorePaths
  import opened StoreFiles
  import opened Verification
  import opened CommitSteps
  import opened LibrarianStore
  import opened StoreHeads

  datatype CommitError = NoRootDir | NoTrust | ThresholdNotMet(report: Report) | FileSystem(at: Outcome)

  class Librarian {
    const crypto: Crypto
    const hasRoot: bool
    const trust: Option<TrustList>
    const policy: Policy
    var files: Files
    /** Every commit that passed verification, in order. */
    ghost var deposits: seq<Deposit>

    ghost predicate Valid()
      reads this
    {
      && files == After(deposits)
      && (if trust.Some? then Accepted(crypto, deposits, trust.value, policy) else deposits == [])
    }

    constructor (crypto: Crypto, hasRoot: bool, trust: Option<TrustList>, policy: Policy)
      ensures this.crypto == crypto && this.hasRoot == hasRoot && this.trust == trust && this.policy == policy
      ensures Valid() && files == map[] && deposits == []
    {
      this.crypto, this.hasRoot, this.trust, this.policy := crypto, hasRoot, trust, policy;
      files, deposits := map[], [];
    }

    method MkDir(raw: Path) returns (ok: bool)
      modifies this`files
      ensures Step(files, ok) == MakeDirs(old(files), raw)
    {
      var r := MakeDirs(files, raw);
      files := r.files;
      return r.ok;
    }

    method Replace(p: Path, node: Node) returns (ok: bool)
      modifies this`files
      ensures Step(files, ok) == Put(old(files), p, node)
    {
      if IsDir(files, p) {
        return false;
      }
      files := files[p := node];
      return true;
    }

    /** The steps on the file system; each may raise, and nothing is taken back. */
    method Write(d: Deposit) returns (o: Outcome)
      modifies this`files
      ensures Attempt(files, o) == Try(old(files), d)
    {
      hide MakeDirs, ManifestPath, BodyPath, HeadPath, VersionPath, VersionEntry, RelPath, Serialize, Reachable;
      var m := d.manifest;
      var made := MkDir(ShardDir(m.manifestHash));
      if made {
        made := MkDir(ShardDir(m.contentHash));
      }
      if made {
        made := MkDir(VersionsDir(m.cartridgeId));
      }
      if !made {
        return DirBlocked;
      }
      var manifestPath, headPath := ManifestPath(m.manifestHash), HeadPath(m.cartridgeId);
      var versionPath := VersionPath(m.cartridgeId, m.version);
      var ok := Replace(manifestPath, ManifestFile(Serialize(m)));
      if !ok {
        return ManifestBlocked;
      }
      ok := Replace(BodyPath(m.contentHash), BodyFile(d.body));
      if !ok {
        return BodyBlocked;
      }
      ok := Replace(headPath, Link(RelPath(manifestPath, Parent(headPath))));
      if !ok {
        return HeadBlocked;
      }
      if !Reachable(files, VersionEntry(m.cartridgeId, m.version)) {
        return VersionBlocked;
      }
      ok := Replace(versionPath, Link(RelPath(manifestPath, Parent(versionPath))));
      return if ok then Committed else VersionBlocked;
    }

    /** A commit that does not verify writes nothing; one that does goes as far as the file system lets
        it. */
    method Commit(m: Manifest, body: Body) returns (r: Result<Manifest, CommitError>)
      requires Valid()
      modifies this`files, this`deposits
      ensures Valid()
      ensures var d, t := Deposit(m, body), Try(old(files), Deposit(m, body));
              if hasRoot && trust.Some? && Verify(crypto, m, body, trust.value, policy).met then
                && files == t.files && deposits == old(deposits) + [d]
                && r == if t.outcome.Committed? then Ok(m) else Err(FileSystem(t.outcome))
              else
                && files == old(files) && deposits == old(deposits)
                && r == Err(if !hasRoot then NoRootDir else if trust.None? then NoTrust
                            else ThresholdNotMet(Verify(crypto, m, body, trust.value, policy)))
      ensures hasRoot && trust.Some? ==>
                (r.Err? && r.error.ThresholdNotMet? <==> !Endorsed(crypto, m, body, trust.value, policy))
      ensures r.Ok? ==> trust.Some? && Endorsed(crypto, m, body, trust.value, policy)
    {
      hide Verify, Try, After, Endorsed;
      if trust.Some? {
        AcceptedIff(crypto, m, body, trust.value, policy);
      }
      if !hasRoot {
        return Err(NoRootDir);
      }
      if trust.None? {
        return Err(NoTrust);
      }
      var report := Verify(crypto, m, body, trust.value, policy);
      if !report.met {
        return Err(ThresholdNotMet(report));
      }
      var o := Write(Deposit(m, body));
      OneMore(deposits, Deposit(m, body));
      deposits := deposits + [Deposit(m, body)];
      return if o.Committed? then Ok(m) else Err(FileSystem(o));
    }

    /** What a caller sees: the last manifest stored under the hash. */
    method Load(h: Hash) returns (r: LoadResult)
      requires Valid()
      ensures r == if hasRoot then LoadFrom(crypto, files, trust, policy, h) else NoRoot
      ensures hasRoot && trust.Some? && Hexadecimal(crypto) && AllClear(deposits) && HexHash(h) ==>
                r == LoadOf(Log(deposits), h)
      ensures r.Loaded? ==>
                && trust.Some?
                && exists body ::
                     && BodyFrom(crypto, files, r.manifest.contentHash) == Bytes(body)
                     && Endorsed(crypto, r.manifest, body, trust.value, policy)
    {
      hide Endorsed;
      if trust.Some? && LoadFrom(crypto, files, trust, policy, h).Loaded? {
        LoadedIsEndorsed(crypto, files, trust.value, policy, h);
      }
      hide Verify, Open, Deserialize, After, Log, LoadOf, BodyOf, HexHash, ManifestPath, BodyPath, AllClear,
            Hexadecimal;
      if hasRoot && trust.Some? && Hexadecimal(crypto) && AllClear(deposits) {
        LoadRefines(crypto, deposits, trust.value, policy);
      }
      if !hasRoot {
        return NoRoot;
      }
      var node := Open(files, ManifestPath(h));
      if node.None? {
        return NotFound;
      }
      if !node.value.ManifestFile? {
        return Unreadable;
      }
      var m := Deserialize(node.value.json);
      if m.None? {
        return Unreadable;
      }
      var b := ReadBytes(crypto, files, BodyPath(m.value.contentHash));
      if b.Absent? {
        return BodyMissing;
      }
      if b.IsADirectory? {
        return BodyRaises;
      }
      if trust.None? {
        return NoTrustList;
      }
      var report := Verify(crypto, m.value, b.body, trust.value, policy);
      return if report.met then Loaded(m.value) else Unverified(report);
    }

    /** What a caller sees: the last body stored under the hash. */
    method LoadBody(h: Hash) returns (r: Read)
      requires Valid()
      ensures r == if hasRoot then BodyFrom(crypto, files, h) else Absent
      ensures hasRoot && trust.Some? && Hexadecimal(crypto) && AllClear(deposits) && HexHash(h) ==>
                r == BodyOf(Log(deposits), h)
    {
      hide After, Log, LoadFrom, LoadOf, BodyOf, HexHash, BodyFrom, AllClear, Hexadecimal;
      if hasRoot && trust.Some? && Hexadecimal(crypto) && AllClear(deposits) {
        LoadRefines(crypto, deposits, trust.value, policy);
      }
      if !hasRoot {
        return Absent;
      }
      r := BodyFrom(crypto, files, h);
    }

    /** What a caller sees: the manifest now stored under the hash last linked for the id. */
    method Head(id: CartridgeId) returns (r: Option<Manifest>)
      requires Valid()
      ensures r == if hasRoot then HeadFrom(files, id) else None
      ensures hasRoot && trust.Some? && Hexadecimal(crypto) && AllClear(deposits) && Untaken(deposits, id) ==>
                r == HeadOf(HeadLog(deposits), Log(deposits), id)
    {
      hide After, Log, HeadLog, HeadOf, HeadFrom, AllClear, Untaken, Hexadecimal;
      if hasRoot && trust.Some? && Hexadecimal(crypto) && AllClear(deposits) && Untaken(deposits, id) {
        HeadRefines(crypto, deposits, trust.value, policy, id);
      }
      if !hasRoot {
        return None;
      }
      r := HeadFrom(files, id);
    }
  }
}
