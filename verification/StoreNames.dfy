/** Which ids and versions keep the Librarian's store a simple map (maestro/librarian/store.py:332-350): they
    are joined into paths as they come. */
module StoreNames {
  import opened Wrappers
  import opened Manifests
  import opened Addressing
  import opened StorePaths
  import opened StoreFiles
  import opened Verification
  import opened CommitSteps
  import opened LibrarianStore
  import opened StoreHeads

  // ---- names that stay inside ----

  /** Proper path components only. */
  predicate Proper(parts: seq<string>) {
    forall s | s in parts :: Plain(s)
  }

  /** An id and a version that never climb: "a/b" and "2024/01" are of this kind. */
  predicate Inside(m: Manifest) {
    Proper(Split(m.cartridgeId.text)) && Proper(Split(m.version))
  }

  lemma {:induction false} NormProper(p: Path)
    requires Proper(p)
    ensures Norm(p) == p
  {
    hide Plain;
    if p != [] {
      var n := |p| - 1;
      assert p[n] in p && p == p[..n] + [p[n]];
      NormProper(p[..n]);
      NormPlain(p[..n], p[n]);
    }
  }

  lemma {:induction false} WayIsPrefix(raw: Path, p: Path)
    requires Proper(raw) && OnTheWay(raw, p)
    ensures p <= raw
  {
    hide Plain, Norm;
    NormProper(raw);
    if p != raw {
      WayIsPrefix(raw[..|raw| - 1], p);
    }
  }

  lemma {:induction false} PrefixOnTheWay(raw: Path, i: nat)
    requires Proper(raw) && i <= |raw|
    ensures OnTheWay(raw, raw[..i])
    decreases |raw|
  {
    hide Plain, Norm;
    NormProper(raw);
    assert raw[..|raw|] == raw;
    if i < |raw| {
      assert raw[..|raw| - 1][..i] == raw[..i];
      PrefixOnTheWay(raw[..|raw| - 1], i);
    }
  }

  lemma WayIff(raw: Path, p: Path)
    requires Proper(raw)
    ensures OnTheWay(raw, p) <==> p <= raw
  {
    hide Proper, OnTheWay;
    if OnTheWay(raw, p) {
      WayIsPrefix(raw, p);
    }
    if p <= raw {
      PrefixOnTheWay(raw, |p|);
      assert raw[..|p|] == p;
    }
  }

  lemma JoinProper(base: Path, text: string)
    requires Proper(Split(text))
    ensures Join(base, text) == base + Split(text)
  {
    if text != "" && text[0] == '/' {
      assert "" in Split(text);
    }
  }

  /** The paths of a manifest whose names stay inside, written out. */
  lemma InsidePaths(m: Manifest)
    requires Inside(m)
    ensures var dir := ["by-id"] + Split(m.cartridgeId.text);
            && VersionsDir(m.cartridgeId) == dir + ["versions"] && Proper(dir + ["versions"])
            && HeadPath(m.cartridgeId) == dir + ["head"]
            && VersionEntry(m.cartridgeId, m.version) == dir + ["versions"] + Split(m.version)
            && VersionPath(m.cartridgeId, m.version) == dir + ["versions"] + Split(m.version)
            && Proper(dir + ["versions"] + Split(m.version))
  {
    var dir := ["by-id"] + Split(m.cartridgeId.text);
    hide Split, Norm, Join;
    JoinProper(["by-id"], m.cartridgeId.text);
    JoinProper(dir + ["versions"], m.version);
    assert Plain("by-id") && Plain("versions") && Plain("head");
    NormProper(dir + ["head"]);
    NormProper(dir + ["versions"] + Split(m.version));
  }

  lemma ShardDirs(h: Hash)
    requires HexHash(h)
    ensures ShardDir(h) == ["by-hash", Shard(h.text)] && Proper(ShardDir(h))
  {
    ShardIsHex(h);
    hide Norm, Join, Split, Strip, Shard, HexText;
    HexIsPlain(Shard(h.text), "");
    assert Shard(h.text) + "" == Shard(h.text);
    JoinPlain(["by-hash"], Shard(h.text));
    assert Plain("by-hash");
  }

  lemma DirOfId(id: CartridgeId)
    requires Proper(Split(id.text))
    ensures VersionsDir(id) == ["by-id"] + Split(id.text) + ["versions"] && Proper(VersionsDir(id))
    ensures HeadPath(id) == ["by-id"] + Split(id.text) + ["head"]
  {
    hide Split, Norm, Join;
    JoinProper(["by-id"], id.text);
    assert Plain("by-id") && Plain("versions") && Plain("head");
    NormProper(["by-id"] + Split(id.text) + ["head"]);
  }

  /** Every directory a commit needs whose id stays inside is one of these. */
  lemma NeedsMeans(m: Manifest, p: Path)
    requires Proper(Split(m.cartridgeId.text)) && HexHash(m.manifestHash) && HexHash(m.contentHash)
    ensures Needs(m, p)
            <==> p <= ["by-hash", Shard(m.manifestHash.text)] || p <= ["by-hash", Shard(m.contentHash.text)]
                 || p <= ["by-id"] + Split(m.cartridgeId.text) + ["versions"]
  {
    DirOfId(m.cartridgeId);
    ShardDirs(m.manifestHash);
    ShardDirs(m.contentHash);
    hide Split, Shard, Proper, HexHash, ShardDir, VersionsDir, HeadPath, OnTheWay;
    WayIff(ShardDir(m.manifestHash), p);
    WayIff(ShardDir(m.contentHash), p);
    WayIff(VersionsDir(m.cartridgeId), p);
  }

  lemma InsideId(m: Manifest)
    requires Inside(m)
    ensures Proper(Split(m.cartridgeId.text))
  {
    hide Split, Proper;
  }

  /** An id that stays inside makes no directory with the name of a hash's file. */
  lemma InsideIdMakesNoHashFile(fs: Files, d: Deposit)
    requires Proper(Split(d.manifest.cartridgeId.text)) && Hashed(d)
    ensures MakesNoHashFile(fs, d.manifest)
  {
    hide Split, Shard, Proper, HexHash, HexText, MakeAll, Needs;
    MakeAllMeans(fs, d.manifest);
    forall p | Makes(fs, d.manifest, p) ensures !HashFile(p) {
      NeedsMeans(d.manifest, p);
    }
  }

  /** Names that stay inside never take the place of a hash's file, whatever is in the store. */
  lemma InsideIsClear(fs: Files, d: Deposit)
    requires Inside(d.manifest) && Hashed(d)
    ensures Clear(fs, d)
  {
    hide Split, Proper, Inside, HexHash, HexText, VersionsDir, HeadPath, VersionPath, VersionEntry, Try,
          MakesNoHashFile;
    InsidePaths(d.manifest);
    InsideId(d.manifest);
    InsideIdMakesNoHashFile(fs, d);
  }

  /** So readers are right over any run with such names. */
  lemma {:induction false} InsideNamesAreClear(ds: seq<Deposit>)
    requires forall d | d in ds :: Inside(d.manifest) && Hashed(d)
    ensures AllClear(ds)
  {
    hide Inside, Hashed, Clear;
    if ds != [] {
      var n := |ds| - 1;
      assert ds[n] in ds;
      InsideNamesAreClear(ds[..n]);
      InsideIsClear(After(ds[..n]), ds[n]);
    }
  }

  // ---- plain names ----

  predicate PlainNamed(m: Manifest) {
    Plain(m.cartridgeId.text) && Plain(m.version)
  }

  /** Ids and versions of one component each: neither `commit` nor `anchor` checks it. */
  ghost predicate PlainNames(ds: seq<Deposit>) {
    forall d | d in ds :: PlainNamed(d.manifest)
  }

  lemma PlainParts(text: string)
    requires Plain(text)
    ensures Split(text) == [text] && Proper(Split(text))
  {
    SplitWhole(text);
  }

  predicate DirShape(p: Path) {
    || p == []
    || ((p[0] == "by-id" || p[0] == "by-hash") && |p| <= 2)
    || (p[0] == "by-id" && |p| == 3 && p[2] == "versions")
  }

  /** Directories and files are where plain names put them. */
  ghost predicate WellPlaced(fs: Files) {
    forall p | p in fs :: fs[p].Directory? <==> DirShape(p)
  }

  lemma PlainNeeds(d: Deposit, p: Path)
    requires Hashed(d) && Plain(d.manifest.cartridgeId.text) && Needs(d.manifest, p)
    ensures DirShape(p)
  {
    PlainParts(d.manifest.cartridgeId.text);
    hide Split, Shard, Proper, HexHash, Plain, Needs;
    NeedsMeans(d.manifest, p);
  }

  /** The directories of a commit with a plain id can be made, and leave the store well placed. */
  lemma PlainDirs(fs: Files, d: Deposit)
    requires WellPlaced(fs) && Hashed(d) && Plain(d.manifest.cartridgeId.text)
    ensures MakeAll(fs, d.manifest).ok && WellPlaced(MakeAll(fs, d.manifest).files)
  {
    hide MakeAll, Needs, DirShape, HexHash, Plain;
    MakeAllMeans(fs, d.manifest);
    forall p | Needs(d.manifest, p) ensures DirShape(p) {
      PlainNeeds(d, p);
    }
  }

  lemma HashFileShape(p: Path)
    requires HashFile(p)
    ensures !DirShape(p)
  {
    hide HexText;
  }

  lemma PlainReach(fs: Files, d: Deposit)
    requires WellPlaced(fs) && Hashed(d) && PlainNamed(d.manifest)
    ensures Reachable(MakeAll(fs, d.manifest).files, VersionEntry(d.manifest.cartridgeId, d.manifest.version))
  {
    var m := d.manifest;
    var made := MakeAll(fs, m).files;
    PlainParts(m.cartridgeId.text);
    PlainParts(m.version);
    InsidePaths(m);
    hide Split, Shard, HexHash, HexText, Plain, MakeAll, Needs, Norm, VersionEntry, VersionPath, VersionsDir, HeadPath;
    PlainDirs(fs, d);
    MakeAllMeans(fs, m);
    var raw := VersionEntry(m.cartridgeId, m.version);
    forall i | 0 <= i < |raw| ensures IsDir(made, Norm(raw[..i])) {
      NormProper(raw[..i]);
      NeedsMeans(m, raw[..i]);
    }
  }

  lemma HeadShape(id: CartridgeId)
    requires Plain(id.text)
    ensures !DirShape(HeadPath(id))
  {
    PlainParts(id.text);
    DirOfId(id);
    hide Split, Plain, HeadPath;
    assert "head"[0] != "versions"[0];
  }

  lemma OwnHashFiles(d: Deposit)
    requires Hashed(d)
    ensures HashFile(ManifestPath(d.manifest.manifestHash)) && HashFile(BodyPath(d.manifest.contentHash))
  {
    hide HexHash, ManifestPath, BodyPath, DigestFile;
    HashFilesOf(d.manifest.manifestHash);
    HashFilesOf(d.manifest.contentHash);
  }

  /** With a plain id only the version's link can fail. */
  lemma PlainBlocks(fs: Files, d: Deposit)
    requires WellPlaced(fs) && Hashed(d) && Plain(d.manifest.cartridgeId.text)
    ensures var m, made := d.manifest, MakeAll(fs, d.manifest).files;
            Try(fs, d).outcome
            == if IsDir(made, VersionPath(m.cartridgeId, m.version))
                  || !Reachable(made, VersionEntry(m.cartridgeId, m.version))
               then VersionBlocked else Committed
  {
    var m := d.manifest;
    hide Split, Shard, HexHash, HexText, Plain, Try, MakeAll, VersionEntry, HashFile, ManifestPath, BodyPath,
          VersionPath, HeadPath, Reachable, DirShape;
    PlainDirs(fs, d);
    OwnHashFiles(d);
    HashFileShape(ManifestPath(m.manifestHash));
    HashFileShape(BodyPath(m.contentHash));
    HeadShape(m.cartridgeId);
    OutcomeMeans(fs, d);
  }

  lemma VersionShape(m: Manifest)
    requires PlainNamed(m)
    ensures !DirShape(VersionPath(m.cartridgeId, m.version))
  {
    IdPaths(m.cartridgeId, m.version);
    hide VersionPath, HeadPath;
  }

  /** A commit with plain names runs through. */
  lemma PlainCommits(fs: Files, d: Deposit)
    requires WellPlaced(fs) && Hashed(d) && PlainNamed(d.manifest)
    ensures Try(fs, d).outcome == Committed && WellPlaced(Try(fs, d).files)
  {
    var m := d.manifest;
    hide Split, Shard, HexHash, HexText, Plain, Try, MakeAll, VersionEntry, HashFile, ManifestPath, BodyPath,
          VersionPath, HeadPath, Reachable, DirShape, Serialize, RelPath, Parent;
    PlainDirs(fs, d);
    PlainReach(fs, d);
    PlainBlocks(fs, d);
    VersionShape(m);
    HeadShape(m.cartridgeId);
    OwnHashFiles(d);
    HashFileShape(ManifestPath(m.manifestHash));
    HashFileShape(BodyPath(m.contentHash));
    forall p ensures var r := Try(fs, d).files; p in r ==> (r[p].Directory? <==> DirShape(p)) {
      TryMeans(fs, d, p);
    }
  }

  lemma PlainTakesNothing(fs: Files, d: Deposit, id: CartridgeId)
    requires PlainNamed(d.manifest) && Plain(id.text)
    ensures !Takes(fs, d, id)
  {
    IdPaths(d.manifest.cartridgeId, d.manifest.version);
    IdPaths(id, d.manifest.version);
    hide Plain, HeadPath, VersionPath, Try;
    assert HeadPath(id)[1] == id.text && HeadPath(d.manifest.cartridgeId)[1] == d.manifest.cartridgeId.text;
  }

  lemma PlainInside(m: Manifest)
    requires PlainNamed(m)
    ensures Inside(m)
  {
    hide Split, Proper, Plain;
    PlainParts(m.cartridgeId.text);
    PlainParts(m.version);
  }

  /** A run with plain names: every commit runs through, is clear, and leaves the other heads alone. */
  lemma {:induction false} PlainRun(ds: seq<Deposit>, id: CartridgeId)
    requires PlainNames(ds) && (forall d | d in ds :: Hashed(d)) && Plain(id.text)
    ensures WellPlaced(After(ds)) && AllClear(ds) && Untaken(ds, id) && Log(ds) == ds && HeadLog(ds) == ds
  {
    hide Hashed, PlainNamed, Plain, Clear, Try, Takes, DirShape, Inside;
    if ds == [] {
    } else {
      hide WellPlaced;
      var n := |ds| - 1;
      assert ds[n] in ds && ds == ds[..n] + [ds[n]];
      PlainRun(ds[..n], id);
      PlainCommits(After(ds[..n]), ds[n]);
      PlainTakesNothing(After(ds[..n]), ds[n], id);
      assert Clear(After(ds[..n]), ds[n]) by {
        PlainInside(ds[n].manifest);
        InsideIsClear(After(ds[..n]), ds[n]);
      }
    }
  }

  /** With plain names the store is the two simple maps of the commits themselves. */
  lemma PlainNamesRefine(c: Crypto, ds: seq<Deposit>, trust: TrustList, policy: Policy, id: CartridgeId)
    requires Accepted(c, ds, trust, policy) && Hexadecimal(c) && PlainNames(ds) && Plain(id.text)
    ensures Right(c, After(ds), ds, trust, policy)
    ensures HeadFrom(After(ds), id) == HeadOf(ds, ds, id)
  {
    hide Accepted, Hexadecimal, PlainNames, Plain, Right, AllClear, Untaken, Hashed, HeadFrom, HeadHash, WellPlaced;
    AllHashed(c, ds, trust, policy);
    PlainRun(ds, id);
    LoadRefines(c, ds, trust, policy);
    HeadRefines(c, ds, trust, policy, id);
  }

  // ---- with or without the algorithm prefix ----

  /** The hash a bare digest stands for. */
  function Full(h: Hash): Hash {
    Hash(HASH_PREFIX + Strip(h.text))
  }

  lemma FullHash(h: Hash)
    requires HexText(Strip(h.text))
    ensures HexHash(Full(h)) && ManifestPath(Full(h)) == ManifestPath(h) && BodyPath(Full(h)) == BodyPath(h)
  {
    hide Norm, Join, HexText;
    PrefixedDigest(Strip(h.text));
  }

  /** Any string that strips to a hexadecimal digest reads as the prefixed hash, whatever is stored. */
  lemma AnyHashReads(c: Crypto, fs: Files, trust: Option<TrustList>, policy: Policy, h: Hash)
    requires HexText(Strip(h.text))
    ensures LoadFrom(c, fs, trust, policy, h) == LoadFrom(c, fs, trust, policy, Full(h))
    ensures BodyFrom(c, fs, h) == BodyFrom(c, fs, Full(h))
  {
    hide ManifestPath, BodyPath, Verify, Deserialize, Open, Full, Strip, HexText, HexHash, ReadBytes;
    FullHash(h);
  }

  // ---- names that do harm ----

  lemma SlashedPath(m: Manifest, a: string, b: string)
    requires Plain(m.cartridgeId.text) && m.version == a + "/" + b && Plain(a) && Plain(b)
    ensures Inside(m) && VersionEntry(m.cartridgeId, m.version) == ["by-id", m.cartridgeId.text, "versions", a, b]
  {
    PlainParts(m.cartridgeId.text);
    SplitAt(a, b);
    PlainParts(b);
    hide Plain, Split, Norm, VersionsDir, HeadPath, VersionPath;
    assert Split(m.version) == [a, b];
    InsidePaths(m);
  }

  lemma SlashedReach(fs: Files, d: Deposit, a: string, b: string)
    requires WellPlaced(fs) && Hashed(d) && Plain(d.manifest.cartridgeId.text)
    requires d.manifest.version == a + "/" + b && Plain(a) && Plain(b)
    ensures !Reachable(MakeAll(fs, d.manifest).files, VersionEntry(d.manifest.cartridgeId, d.manifest.version))
  {
    var id := d.manifest.cartridgeId.text;
    hide HexHash, HexText, Plain, MakeAll, Norm, VersionEntry;
    SlashedPath(d.manifest, a, b);
    PlainDirs(fs, d);
    var raw := ["by-id", id, "versions", a, b];
    assert raw[..4] == ["by-id", id, "versions", a];
    assert Plain("by-id") && Plain("versions") by { hide *; PlainWords(); }
    NormProper(raw[..4]);
    assert !DirShape(raw[..4]);
  }

  /** A version with a slash needs a directory that no commit with plain names makes: the commit raises
      and yet is not undone; the manifest loads and is the id's head. */
  lemma SlashedVersionRaises(c: Crypto, ds: seq<Deposit>, d: Deposit, trust: TrustList, policy: Policy, a: string,
        b: string)
    requires Accepted(c, ds, trust, policy) && Passes(c, d, trust, policy) && Hexadecimal(c) && PlainNames(ds)
    requires Plain(d.manifest.cartridgeId.text) && d.manifest.version == a + "/" + b && Plain(a) && Plain(b)
    ensures Try(After(ds), d).outcome == VersionBlocked
    ensures LoadFrom(c, After(ds + [d]), Some(trust), policy, d.manifest.manifestHash) == Loaded(d.manifest)
    ensures HeadFrom(After(ds + [d]), d.manifest.cartridgeId) == Some(d.manifest)
  {
    var m, fs := d.manifest, After(ds);
    hide Accepted, Passes, Hexadecimal, Plain, PlainNames, After, Log, AllClear, Holds, Hashed, WellPlaced, Clear, Try,
          MakeAll, Reachable, VersionEntry, VersionPath, HeadPath, ManifestPath, BodyPath, Inside, LoadFrom, HeadFrom;
    AllHashed(c, ds, trust, policy);
    AcceptedHashes(c, d, trust, policy);
    PlainRun(ds, m.cartridgeId);
    SlashedPath(m, a, b);
    SlashedReach(fs, d, a, b);
    PlainBlocks(fs, d);
    InsideIsClear(fs, d);
    StoreMeans(ds);
    LogAccepted(c, ds, trust, policy);
    OneMore(ds, d);
    HeadIsLoaded(c, fs, Log(ds), d, trust, policy);
  }

  lemma FirstDirs(a: Deposit)
    requires Hashed(a) && PlainNamed(a.manifest)
    ensures var fs := Try(map[], a).files; WellPlaced(fs) && IsDir(fs, ["by-hash", Shard(a.manifest.manifestHash.text)])
  {
    var p := ["by-hash", Shard(a.manifest.manifestHash.text)];
    PlainParts(a.manifest.cartridgeId.text);
    hide Split, Shard, HexHash, Plain, Try, MakeAll, Needs, Serialize, LinkFrom, ManifestPath, BodyPath, HeadPath,
          VersionPath;
    PlainCommits(map[], a);
    PlainDirs(map[], a);
    MakeAllMeans(map[], a.manifest);
    NeedsMeans(a.manifest, p);
    TryMeans(map[], a, p);
  }

  lemma ClimbIsReachable(made: Files, id: CartridgeId, h: Hash)
    requires Plain(id.text) && HexHash(h)
    requires forall p | p <= ["by-id", id.text, "versions"] || p <= ["by-hash", Shard(h.text)] :: IsDir(made, p)
    ensures Reachable(made, VersionEntry(id, ClimbTo(h)))
  {
    var shard, file := Shard(h.text), Strip(h.text) + ".json";
    ShardIsHex(h);
    HexIsPlain(Strip(h.text), ".json");
    HexIsPlain(shard, "");
    assert shard + "" == shard;
    hide Shard, Strip, HexHash, HexText, Plain, Norm, VersionEntry, ManifestPath, VersionPath, IsDir;
    ClimbingVersion(id, h);
    var raw := VersionEntry(id, ClimbTo(h));
    hide ClimbTo;
    forall i | 0 <= i < |raw| ensures IsDir(made, Norm(raw[..i])) {
      ClimbStaysIn(id.text, shard, file, i);
    }
  }

  lemma ClimbDirs(fs: Files, b: Deposit, h: Hash, p: Path)
    requires WellPlaced(fs) && Hashed(b) && Plain(b.manifest.cartridgeId.text)
    requires IsDir(fs, ["by-hash", Shard(h.text)])
    requires p <= ["by-id", b.manifest.cartridgeId.text, "versions"] || p <= ["by-hash", Shard(h.text)]
    ensures IsDir(MakeAll(fs, b.manifest).files, p)
  {
    var m := b.manifest;
    var shard := ["by-hash", Shard(h.text)];
    PlainParts(m.cartridgeId.text);
    hide Split, Shard, HexHash, Plain, MakeAll, Needs, Proper, DirShape;
    PlainDirs(fs, b);
    MakeAllMeans(fs, m);
    NeedsMeans(m, p);
    if p <= shard && p != shard {
      assert p <= ["by-hash", Shard(m.manifestHash.text)];
    }
  }

  lemma ClimbReach(fs: Files, b: Deposit, h: Hash)
    requires WellPlaced(fs) && Hashed(b) && Plain(b.manifest.cartridgeId.text) && HexHash(h)
    requires b.manifest.version == ClimbTo(h) && IsDir(fs, ["by-hash", Shard(h.text)])
    ensures Try(fs, b).outcome == Committed && VersionOf(b) == ManifestPath(h)
  {
    var m := b.manifest;
    var made := MakeAll(fs, m).files;
    hide Split, Shard, HexHash, HexText, Plain, Try, MakeAll, VersionEntry, ManifestPath, VersionPath, ClimbTo,
          Reachable, DirShape;
    ClimbingVersion(m.cartridgeId, h);
    PlainDirs(fs, b);
    PlainBlocks(fs, b);
    HashFilesOf(h);
    HashFileShape(ManifestPath(h));
    forall p | p <= ["by-id", m.cartridgeId.text, "versions"] || p <= ["by-hash", Shard(h.text)]
      ensures IsDir(made, p) {
      ClimbDirs(fs, b, h, p);
    }
    ClimbIsReachable(made, m.cartridgeId, h);
  }

  lemma LoadsWhatItOpens(c: Crypto, fs: Files, trust: TrustList, policy: Policy, h: Hash, d: Deposit)
    requires Passes(c, d, trust, policy)
    requires Open(fs, ManifestPath(h)) == Some(ManifestFile(Serialize(d.manifest)))
    requires Get(fs, BodyPath(d.manifest.contentHash)) == Some(BodyFile(d.body))
    ensures LoadFrom(c, fs, Some(trust), policy, h) == Loaded(d.manifest)
  {
    hide ManifestPath, BodyPath, Verify, Serialize, Deserialize;
    OpenPlain(fs, BodyPath(d.manifest.contentHash));
    hide Open;
    RoundTrip(d.manifest);
  }

  /** A version's link with the name of another manifest's file gives the new manifest for that hash. */
  lemma LinkReplaces(c: Crypto, fs: Files, log: seq<Deposit>, d: Deposit, trust: TrustList, policy: Policy, h: Hash)
    requires Holds(fs, log) && Hashed(d) && MakesNoHashFile(fs, d.manifest) && Try(fs, d).outcome.Committed?
    requires Passes(c, d, trust, policy) && HexHash(h) && h != d.manifest.manifestHash
    requires VersionOf(d) == ManifestPath(h)
    ensures LoadFrom(c, Try(fs, d).files, Some(trust), policy, h) == Loaded(d.manifest)
  {
    hide ManifestPath, BodyPath, VersionOf, HexHash, DigestFile, Serialize, Try, MakesNoHashFile, LoadFrom, Open, Holds,
          Get, LinkFrom, Passes, LatestBody;
    VersionOpens(fs, log, d);
    ManifestPathsDiffer(h, d.manifest.manifestHash);
    AtHashFiles(fs, log, d, d.manifest.contentHash);
    HashFilesOf(h);
    HashFilesOf(d.manifest.contentHash);
    SuffixesDiffer(VersionOf(d));
    LastOfLog(log, d);
    LoadsWhatItOpens(c, Try(fs, d).files, trust, policy, h, d);
  }

  lemma FirstRun(a: Deposit)
    requires Hashed(a) && Inside(a.manifest)
    ensures After([a]) == Try(map[], a).files && AllClear([a]) && Holds(After([a]), Log([a]))
  {
    hide Try, Next, Clear, Inside, Hashed, HexHash, Holds;
    assert [a][..0] == [];
    InsideIsClear(map[], a);
    StoreMeans([a]);
  }

  /** Two accepted commits, the second with a version that climbs to the first's file: loading the first
      hash gives the second manifest, whose hash it is not. */
  lemma VersionCanReplaceAManifest(c: Crypto, a: Deposit, b: Deposit, trust: TrustList, policy: Policy)
    requires Passes(c, a, trust, policy) && Passes(c, b, trust, policy) && Hexadecimal(c)
    requires PlainNamed(a.manifest) && Plain(b.manifest.cartridgeId.text)
    requires b.manifest.version == ClimbTo(a.manifest.manifestHash)
    requires a.manifest.manifestHash != b.manifest.manifestHash
    ensures Try(After([a]), b).outcome == Committed
    ensures LoadFrom(c, After([a] + [b]), Some(trust), policy, a.manifest.manifestHash) == Loaded(b.manifest)
  {
    var h, fs := a.manifest.manifestHash, After([a]);
    hide Passes, Hexadecimal, PlainNamed, Plain, Inside, HexHash, ClimbTo, Try, Next, After, Log, Holds,
          MakesNoHashFile, AllClear, WellPlaced, LoadFrom, Shard, VersionOf, Proper, Split;
    AcceptedHashes(c, a, trust, policy);
    AcceptedHashes(c, b, trust, policy);
    PlainInside(a.manifest);
    PlainParts(b.manifest.cartridgeId.text);
    FirstRun(a);
    FirstDirs(a);
    ClimbReach(fs, b, h);
    InsideIdMakesNoHashFile(fs, b);
    OneMore([a], b);
    LinkReplaces(c, fs, Log([a]), b, trust, policy, h);
  }

  // ---- the head of a nested id ----

  lemma FirstHead(c: Crypto, a: Deposit, trust: TrustList, policy: Policy)
    requires Passes(c, a, trust, policy) && Hexadecimal(c) && Clear(map[], a) && Heads(Try(map[], a).outcome)
    ensures HeadFrom(After([a]), a.manifest.cartridgeId) == Some(a.manifest)
  {
    hide Passes, Hexadecimal, Try, Clear, HeadFrom;
    AcceptedHashes(c, a, trust, policy);
    assert [a][..0] == [] && AllClear([]);
    StoreMeans([]);
    HeadIsLoaded(c, map[], [], a, trust, policy);
  }

  lemma NoFileNeeded(m: Manifest, p: Path)
    requires Inside(m) && HexHash(m.manifestHash) && HexHash(m.contentHash) && HashFile(p)
    ensures !Needs(m, p)
  {
    hide Split, Shard, HexText, HexHash, Needs, Proper;
    NeedsMeans(m, p);
  }

  lemma HeadNotNeeded(m: Manifest)
    requires Inside(m) && HexHash(m.manifestHash) && HexHash(m.contentHash)
    ensures !Needs(m, HeadPath(m.cartridgeId)) && !Needs(m, VersionPath(m.cartridgeId, m.version))
  {
    InsidePaths(m);
    hide Split, Shard, HexText, HexHash, Needs, HeadPath, VersionPath, VersionEntry, VersionsDir, Proper;
    NeedsMeans(m, HeadPath(m.cartridgeId));
    NeedsMeans(m, VersionPath(m.cartridgeId, m.version));
    assert "head"[0] != "versions"[0];
    var dir := ["by-id"] + Split(m.cartridgeId.text);
    assert (dir + ["head"])[|dir|] == "head" && (dir + ["versions"])[|dir|] == "versions";
  }

  /** What the first commit leaves in an empty store. */
  lemma FirstFiles(a: Deposit, p: Path)
    requires Hashed(a) && Inside(a.manifest)
    ensures var fs := Try(map[], a).files;
            && Heads(Try(map[], a).outcome)
            && (IsDir(fs, p) <==> Needs(a.manifest, p))
            && (p in fs && !fs[p].Directory? ==>
                  HashFile(p) || p == HeadPath(a.manifest.cartridgeId) || p == VersionOf(a))
  {
    var m := a.manifest;
    InsidePaths(m);
    hide Split, Shard, HexHash, HexText, Plain, Try, MakeAll, Needs, Serialize, RelPath, Parent, ManifestPath, BodyPath,
          HeadPath, VersionPath, VersionEntry, VersionsDir, Inside, Proper, DigestFile;
    InsideId(m);
    MakeAllMeans(map[], m);
    HashFilesOf(m.manifestHash);
    HashFilesOf(m.contentHash);
    OutcomeMeans(map[], a);
    TryMeans(map[], a, p);
    assert forall q :: Get(map[], q) == None;
    NoFileNeeded(m, ManifestPath(m.manifestHash));
    NoFileNeeded(m, BodyPath(m.contentHash));
    HeadNotNeeded(m);
  }

  lemma NestedParts(id: CartridgeId)
    requires Plain(id.text)
    ensures Split(id.text + "/versions") == [id.text, "versions"] && Proper(Split(id.text + "/versions"))
  {
    SplitAt(id.text, "versions");
    PlainWords();
    PlainParts("versions");
    assert id.text + "/" + "versions" == id.text + "/versions";
  }

  /** The two ids, and all their paths. */
  ghost predicate Nested(a: Deposit, b: Deposit) {
    && Hashed(a) && Hashed(b) && Inside(a.manifest) && Plain(b.manifest.cartridgeId.text)
    && b.manifest.version == "head" && a.manifest.cartridgeId.text == b.manifest.cartridgeId.text + "/versions"
  }

  lemma NestedPaths(a: Deposit, b: Deposit)
    requires Nested(a, b)
    ensures Inside(b.manifest)
    ensures var dir := ["by-id", b.manifest.cartridgeId.text, "versions"];
            && VersionOf(b) == HeadPath(a.manifest.cartridgeId) == dir + ["head"]
            && HeadPath(b.manifest.cartridgeId) == ["by-id", b.manifest.cartridgeId.text, "head"]
            && VersionEntry(b.manifest.cartridgeId, "head") == dir + ["head"]
            && |VersionOf(a)| > 4
  {
    var m, id := b.manifest, b.manifest.cartridgeId;
    PlainParts(id.text);
    PlainWords();
    PlainParts("head");
    NestedParts(id);
    hide Split, HexHash, Plain, VersionEntry, VersionPath, HeadPath, VersionsDir, Proper;
    InsidePaths(a.manifest);
    InsidePaths(m);
  }

  lemma OuterNeeds(b: Deposit, p: Path)
    requires Hashed(b) && Plain(b.manifest.cartridgeId.text)
    ensures var m := b.manifest;
            Needs(m, p) <==> p <= ["by-hash", Shard(m.manifestHash.text)] || p <= ["by-hash", Shard(m.contentHash.text)]
                             || p <= ["by-id", m.cartridgeId.text, "versions"]
  {
    PlainParts(b.manifest.cartridgeId.text);
    hide Split, Shard, HexHash, Plain, Needs, Proper;
    NeedsMeans(b.manifest, p);
    var id := b.manifest.cartridgeId.text;
    assert ["by-id"] + [id] + ["versions"] == ["by-id", id, "versions"];
  }

  lemma InnerNeeds(a: Deposit, id: CartridgeId, p: Path)
    requires Hashed(a) && Plain(id.text) && a.manifest.cartridgeId.text == id.text + "/versions"
    ensures var m := a.manifest;
            Needs(m, p) <==> p <= ["by-hash", Shard(m.manifestHash.text)] || p <= ["by-hash", Shard(m.contentHash.text)]
                             || p <= ["by-id", id.text, "versions", "versions"]
  {
    NestedParts(id);
    hide Split, Shard, HexHash, Plain, Needs, Proper;
    NeedsMeans(a.manifest, p);
    assert ["by-id"] + [id.text, "versions"] + ["versions"] == ["by-id", id.text, "versions", "versions"];
  }

  lemma NestedDirs(a: Deposit, b: Deposit)
    requires Nested(a, b)
    ensures var made := MakeAll(Try(map[], a).files, b.manifest);
            made.ok && forall p :: IsDir(made.files, p) <==> Needs(a.manifest, p) || Needs(b.manifest, p)
  {
    var fs := Try(map[], a).files;
    NestedPaths(a, b);
    hide Shard, HexHash, HexText, Plain, Try, MakeAll, Needs, VersionEntry, VersionPath, HeadPath, Inside, VersionOf;
    MakeAllMeans(fs, b.manifest);
    forall p | Needs(b.manifest, p) && p in fs ensures IsDir(fs, p) {
      FirstFiles(a, p);
      OuterNeeds(b, p);
    }
    forall p ensures IsDir(fs, p) <==> Needs(a.manifest, p) { FirstFiles(a, p); }
  }

  /** After a commit of the nested id, one of the plain id and the version "head" runs through. */
  lemma NestedCommits(a: Deposit, b: Deposit)
    requires Nested(a, b)
    ensures Try(Try(map[], a).files, b).outcome == Committed
  {
    var fs, m := Try(map[], a).files, b.manifest;
    var made := MakeAll(fs, m).files;
    NestedPaths(a, b);
    InsidePaths(m);
    hide Split, Shard, HexHash, HexText, Plain, Try, MakeAll, Needs, VersionEntry, ManifestPath, BodyPath, VersionPath,
          HeadPath, VersionsDir, Proper, Inside, HashFile, IsDir;
    NestedDirs(a, b);
    OutcomeMeans(fs, b);
    OwnHashFiles(b);
    NoFileNeeded(m, ManifestPath(m.manifestHash));
    NoFileNeeded(m, BodyPath(m.contentHash));
    NoFileNeeded(a.manifest, ManifestPath(m.manifestHash));
    NoFileNeeded(a.manifest, BodyPath(m.contentHash));
    HeadNotNeeded(a.manifest);
    HeadNotNeeded(m);
    InnerNeeds(a, m.cartridgeId, HeadPath(m.cartridgeId));
    var raw := VersionEntry(m.cartridgeId, m.version);
    assert "head"[0] != "versions"[0];
    forall i | 0 <= i < |raw| ensures IsDir(made, Norm(raw[..i])) {
      NormProper(raw[..i]);
      OuterNeeds(b, raw[..i]);
    }
  }

  /** An id "a/versions" committed first and the id "a" with version "head" after it: the first id's
      head is then the second manifest. */
  lemma VersionCanReplaceAHead(c: Crypto, a: Deposit, b: Deposit, trust: TrustList, policy: Policy)
    requires Passes(c, a, trust, policy) && Passes(c, b, trust, policy) && Hexadecimal(c)
    requires Inside(a.manifest) && Plain(b.manifest.cartridgeId.text) && b.manifest.version == "head"
    requires a.manifest.cartridgeId.text == b.manifest.cartridgeId.text + "/versions"
    ensures Try(After([a]), b).outcome == Committed
    ensures HeadFrom(After([a]), a.manifest.cartridgeId) == Some(a.manifest)
    ensures HeadFrom(After([a] + [b]), a.manifest.cartridgeId) == Some(b.manifest)
  {
    hide Passes, Hexadecimal, Plain, Inside, HexHash, Try, Next, After, Log, Holds, AllClear, Clear, HeadFrom,
          VersionOf;
    AcceptedHashes(c, a, trust, policy);
    AcceptedHashes(c, b, trust, policy);
    NestedPaths(a, b);
    NestedCommits(a, b);
    FirstRun(a);
    FirstFiles(a, []);
    InsideIsClear(map[], a);
    InsideIsClear(After([a]), b);
    FirstHead(c, a, trust, policy);
    OneMore([a], b);
    ClearHolds(After([a]), Log([a]), b);
    TakenReads(After([a]), Log([a]), b, a.manifest.cartridgeId);
  }
}
