/** Where the Librarian's store puts things (maestro/librarian/store.py): ids, versions and hashes are
    joined into paths as they come, so a text that is not a plain name can lead elsewhere. */
module StorePaths {
  import opened Wrappers
  import opened Manifests
  import opened Addressing

  type Path = seq<string>

  function AfterColon(s: string): Option<string> {
    if s == "" then None
    else if s[0] == ':' then Some(s[1..])
    else AfterColon(s[1..])
  }

  /** `_strip_hash_prefix`: what follows the first colon, or everything. */
  function Strip(s: string): string {
    match AfterColon(s) case Some(rest) => rest case None => s
  }

  /** `_shard_dir`: the first two characters. */
  function Shard(s: string): string {
    var bare := Strip(s);
    if |bare| > 2 then bare[..2] else bare
  }

  function Parent(p: Path): Path {
    if p == [] then [] else p[..|p| - 1]
  }

  function Shared(a: Path, b: Path): (n: nat)
    ensures n <= |a| && n <= |b| && a[..n] == b[..n]
  {
    if a == [] || b == [] || a[0] != b[0] then 0 else 1 + Shared(a[1..], b[1..])
  }

  /** It is all they share: no longer front is common. */
  lemma {:induction false} SharedIsLongest(a: Path, b: Path, n: nat)
    requires n <= |a| && n <= |b| && a[..n] == b[..n]
    ensures n <= Shared(a, b)
  {
    if n > 0 {
      assert a[0] == a[..n][0] == b[..n][0] == b[0];
      assert a[1..][..n - 1] == a[..n][1..] == b[..n][1..] == b[1..][..n - 1];
      SharedIsLongest(a[1..], b[1..], n - 1);
    }
  }

  function Ups(n: nat): Path {
    if n == 0 then [] else [".."] + Ups(n - 1)
  }

  /** `os.path.relpath(target, start)`. */
  function RelPath(target: Path, start: Path): Path {
    var n := Shared(target, start);
    Ups(|start| - n) + target[n..]
  }

  /** Following a relative link from the directory `start`. */
  function Resolve(start: Path, rel: Path): Path
    decreases |rel|
  {
    if rel == [] then start
    else if rel[0] == ".." then Resolve(Parent(start), rel[1..])
    else Resolve(start + [rel[0]], rel[1..])
  }

  lemma {:induction false} ResolveDown(start: Path, rel: Path)
    requires ".." !in rel
    ensures Resolve(start, rel) == start + rel
    decreases |rel|
  {
    if rel == [] {
      assert start + rel == start;
    } else {
      ResolveDown(start + [rel[0]], rel[1..]);
      assert start + [rel[0]] + rel[1..] == start + rel;
    }
  }

  lemma {:induction false} ResolveUp(start: Path, n: nat, rel: Path)
    requires n <= |start|
    ensures Resolve(start, Ups(n) + rel) == Resolve(start[..|start| - n], rel)
    decreases n
  {
    if n == 0 {
      assert Ups(0) + rel == rel && start[..|start|] == start;
    } else {
      assert Ups(n) + rel == [".."] + (Ups(n - 1) + rel);
      assert (Ups(n) + rel)[1..] == Ups(n - 1) + rel;
      ResolveUp(Parent(start), n - 1, rel);
      assert Parent(start)[..|start| - 1 - (n - 1)] == start[..|start| - n];
    }
  }

  /** A relative link leads back to its target from the directory it was computed for. */
  lemma RelPathResolves(target: Path, start: Path)
    requires ".." !in target
    ensures Resolve(start, RelPath(target, start)) == target
  {
    hide Shared, Ups, Resolve, Parent;
    var n := Shared(target, start);
    assert ".." !in target[n..];
    ResolveUp(start, |start| - n, target[n..]);
    assert start[..|start| - (|start| - n)] == start[..n] == target[..n];
    ResolveDown(target[..n], target[n..]);
    assert target[..n] + target[n..] == target;
  }

  // ---- joining texts into paths ----

  /** `text.split("/")`. */
  function Split(s: string): (r: seq<string>)
    ensures r != []
  {
    if s == "" then [""]
    else if s[0] == '/' then [""] + Split(s[1..])
    else var rest := Split(s[1..]); [[s[0]] + rest[0]] + rest[1..]
  }

  /** `base / text`: an absolute text replaces the base. */
  function Join(base: Path, text: string): Path {
    if text != "" && text[0] == '/' then ["/"] + Split(text) else base + Split(text)
  }

  /** What the file system makes of a path: empty and "." components fall away, ".." goes up. */
  function Norm(p: Path): Path {
    if p == [] then []
    else
      var n := |p| - 1;
      var front, last := Norm(p[..n]), p[n];
      if last == "" || last == "." then front else if last == ".." then Parent(front) else front + [last]
  }

  function ManifestPath(h: Hash): Path {
    Norm(Join(Join(["by-hash"], Shard(h.text)), Strip(h.text) + ".json"))
  }

  function BodyPath(h: Hash): Path {
    Norm(Join(Join(["by-hash"], Shard(h.text)), Strip(h.text) + ".body"))
  }

  function HeadPath(id: CartridgeId): Path {
    Norm(Join(["by-id"], id.text) + ["head"])
  }

  /** The directories a commit makes, and the link of its version, as they are written. */
  function ShardDir(h: Hash): Path {
    Join(["by-hash"], Shard(h.text))
  }

  function VersionsDir(id: CartridgeId): Path {
    Join(["by-id"], id.text) + ["versions"]
  }

  function VersionEntry(id: CartridgeId, version: string): Path {
    Join(VersionsDir(id), version)
  }

  function VersionPath(id: CartridgeId, version: string): Path {
    Norm(VersionEntry(id, version))
  }

  // ---- plain names stay where they are put ----

  /** One proper path component. */
  predicate Plain(s: string) {
    '/' !in s && s != "" && s != "." && s != ".."
  }

  predicate HexDigit(ch: char) {
    '0' <= ch <= '9' || 'a' <= ch <= 'f'
  }

  predicate HexText(s: string) {
    s != "" && forall i | 0 <= i < |s| :: HexDigit(s[i])
  }

  predicate Prefixed(h: Hash) {
    |h.text| >= |HASH_PREFIX| && h.text[..|HASH_PREFIX|] == HASH_PREFIX
  }

  /** A hash as `compute_*_hash` makes it: prefix and hexadecimal digest. */
  predicate HexHash(h: Hash) {
    Prefixed(h) && HexText(Strip(h.text))
  }

  lemma PlainWords()
    ensures Plain("by-id") && Plain("versions") && Plain("by-hash") && Plain("head")
  {
  }

  lemma {:induction false} SplitWhole(s: string)
    requires '/' !in s
    ensures Split(s) == [s]
  {
    if s != "" {
      assert s[0] in s && s == [s[0]] + s[1..];
      forall ch | ch in s[1..] ensures ch != '/' { assert ch in s; }
      SplitWhole(s[1..]);
    }
  }

  lemma {:induction false} SplitAt(a: string, b: string)
    requires '/' !in a
    ensures Split(a + "/" + b) == [a] + Split(b)
  {
    var s := a + "/" + b;
    if a == "" {
      assert s[0] == '/' && s[1..] == b;
    } else {
      assert s[0] == a[0] && a[0] in a && s[1..] == a[1..] + "/" + b;
      forall ch | ch in a[1..] ensures ch != '/' { assert ch in a; }
      SplitAt(a[1..], b);
      assert a == [a[0]] + a[1..];
    }
  }

  lemma JoinPlain(base: Path, s: string)
    requires Plain(s)
    ensures Join(base, s) == base + [s]
  {
    assert s[0] in s;
    SplitWhole(s);
  }

  lemma NormNext(p: Path, c: string)
    ensures Norm(p + [c])
            == if c == "" || c == "." then Norm(p) else if c == ".." then Parent(Norm(p)) else Norm(p) + [c]
  {
    assert (p + [c])[..|p|] == p;
  }

  lemma NormPlain(p: Path, s: string)
    requires Plain(s)
    ensures Norm(p + [s]) == Norm(p) + [s]
  {
    NormNext(p, s);
  }

  lemma Roots()
    ensures Norm(["by-id"]) == ["by-id"] && Norm(["by-hash"]) == ["by-hash"]
  {
    NormPlain([], "by-id");
    NormPlain([], "by-hash");
    assert [] + ["by-id"] == ["by-id"] && [] + ["by-hash"] == ["by-hash"];
  }

  lemma HexIsPlain(s: string, suffix: string)
    requires HexText(s) && (suffix == "" || suffix == ".json" || suffix == ".body")
    ensures Plain(s + suffix)
  {
    var t := s + suffix;
    assert HexDigit(s[0]) && t[0] == s[0];
    forall i | 0 <= i < |t| ensures t[i] != '/' {
      if i < |s| { assert HexDigit(s[i]); } else { assert t[i] == suffix[i - |s|]; }
    }
  }

  lemma ShardIsHex(h: Hash)
    requires HexText(Strip(h.text))
    ensures HexText(Shard(h.text))
  {
  }

  lemma ThreeNames(root: string, a: string, b: string)
    requires root == "by-hash" && Plain(a) && Plain(b)
    ensures Norm(Join(Join([root], a), b)) == [root, a, b]
  {
    hide Norm, Join, Plain;
    Roots();
    JoinPlain([root], a);
    assert [root] + [a] == [root, a];
    JoinPlain([root, a], b);
    NormPlain([root], a);
    NormPlain([root, a], b);
    assert [root, a] + [b] == [root, a, b];
  }

  /** A hash goes to its shard. */
  lemma HashPaths(h: Hash)
    requires HexText(Strip(h.text))
    ensures ManifestPath(h) == ["by-hash", Shard(h.text), Strip(h.text) + ".json"]
    ensures BodyPath(h) == ["by-hash", Shard(h.text), Strip(h.text) + ".body"]
  {
    var shard, bare := Shard(h.text), Strip(h.text);
    ShardIsHex(h);
    hide Norm, Join, Strip, Shard, Plain, HexText;
    HexIsPlain(shard, "");
    assert shard + "" == shard;
    HexIsPlain(bare, ".json");
    HexIsPlain(bare, ".body");
    ThreeNames("by-hash", shard, bare + ".json");
    ThreeNames("by-hash", shard, bare + ".body");
  }

  /** A plain id has a directory of its own, and a plain version a link in it. */
  lemma IdPaths(id: CartridgeId, version: string)
    requires Plain(id.text)
    ensures HeadPath(id) == ["by-id", id.text, "head"]
    ensures Plain(version) ==> VersionPath(id, version) == ["by-id", id.text, "versions", version]
  {
    hide Norm, Join;
    Roots();
    JoinPlain(["by-id"], id.text);
    assert ["by-id"] + [id.text] == ["by-id", id.text];
    NormPlain(["by-id"], id.text);
    NormPlain(["by-id", id.text], "head");
    assert ["by-id", id.text] + ["head"] == ["by-id", id.text, "head"];
    var base := ["by-id", id.text, "versions"];
    assert ["by-id", id.text] + ["versions"] == base;
    NormPlain(["by-id", id.text], "versions");
    if Plain(version) {
      JoinPlain(base, version);
      NormPlain(base, version);
      assert base + [version] == ["by-id", id.text, "versions", version];
    }
  }

  lemma {:induction false} ColonSplits(before: string, after: string)
    requires ':' !in before
    ensures AfterColon(before + ":" + after) == Some(after)
  {
    var s := before + ":" + after;
    if before == [] {
      assert s[0] == ':' && s[1..] == after;
    } else {
      assert s[0] == before[0] && s[0] in before && s[1..] == before[1..] + ":" + after;
      ColonSplits(before[1..], after);
    }
  }

  lemma StripsPrefix(h: Hash)
    requires Prefixed(h)
    ensures Strip(h.text) == h.text[|HASH_PREFIX|..]
  {
    assert h.text == h.text[..7] + h.text[7..] && h.text[..7] == "sha256" + ":";
    assert h.text == "sha256" + ":" + h.text[7..];
    ColonSplits("sha256", h.text[7..]);
  }

  lemma SameSuffix(a: string, b: string, suffix: string)
    requires a + suffix == b + suffix
    ensures a == b
  {
    assert |a| == |b|;
    assert a == (a + suffix)[..|a|] == (b + suffix)[..|b|] == b;
  }

  lemma StripInjective(a: Hash, b: Hash)
    requires Prefixed(a) && Prefixed(b) && Strip(a.text) == Strip(b.text)
    ensures a == b
  {
    StripsPrefix(a);
    StripsPrefix(b);
    assert a.text == a.text[..7] + a.text[7..] && b.text == b.text[..7] + b.text[7..];
  }

  lemma ManifestPathsDiffer(a: Hash, b: Hash)
    requires HexHash(a) && HexHash(b)
    ensures ManifestPath(a) == ManifestPath(b) <==> a == b
  {
    HashPaths(a);
    HashPaths(b);
    hide Strip, Shard, ManifestPath, HexText;
    if ManifestPath(a) == ManifestPath(b) {
      assert ManifestPath(a)[2] == ManifestPath(b)[2];
      SameSuffix(Strip(a.text), Strip(b.text), ".json");
      StripInjective(a, b);
    }
  }

  lemma BodyPathsDiffer(a: Hash, b: Hash)
    requires HexHash(a) && HexHash(b)
    ensures BodyPath(a) == BodyPath(b) <==> a == b
  {
    HashPaths(a);
    HashPaths(b);
    hide Strip, Shard, BodyPath, HexText;
    if BodyPath(a) == BodyPath(b) {
      assert BodyPath(a)[2] == BodyPath(b)[2];
      SameSuffix(Strip(a.text), Strip(b.text), ".body");
      StripInjective(a, b);
    }
  }

  // ---- the files of hashes ----

  lemma PrefixedDigest(x: string)
    ensures Prefixed(Hash(HASH_PREFIX + x)) && Strip(HASH_PREFIX + x) == x
  {
    StripsPrefix(Hash(HASH_PREFIX + x));
    assert (HASH_PREFIX + x)[|HASH_PREFIX|..] == x;
  }

  /** The file of some digest, with one of the two suffixes. */
  predicate DigestFile(p: Path, suffix: string) {
    && |p| == 3 && p[0] == "by-hash" && |p[2]| > |suffix| && p[2][|p[2]| - |suffix|..] == suffix
    && var bare := p[2][..|p[2]| - |suffix|];
       HexText(bare) && p[1] == if |bare| > 2 then bare[..2] else bare
  }

  /** Where the store keeps the manifest or the body of a hash. */
  predicate HashFile(p: Path) {
    DigestFile(p, ".json") || DigestFile(p, ".body")
  }

  lemma DigestFileOf(shard: string, bare: string, suffix: string)
    requires HexText(bare) && suffix != "" && shard == (if |bare| > 2 then bare[..2] else bare)
    ensures DigestFile(["by-hash", shard, bare + suffix], suffix)
  {
    var name := bare + suffix;
    assert name[..|name| - |suffix|] == bare && name[|name| - |suffix|..] == suffix;
  }

  /** The hash whose file it is. */
  lemma HashOfFile(p: Path, suffix: string) returns (h: Hash)
    requires DigestFile(p, suffix) && (suffix == ".json" || suffix == ".body")
    ensures HexHash(h) && p == if suffix == ".json" then ManifestPath(h) else BodyPath(h)
  {
    var bare := p[2][..|p[2]| - |suffix|];
    h := Hash(HASH_PREFIX + bare);
    PrefixedDigest(bare);
    HashPaths(h);
    hide Strip, ManifestPath, BodyPath, HexText;
    assert bare + suffix == p[2];
    assert p == [p[0], p[1], p[2]];
  }

  lemma HashFilesOf(h: Hash)
    requires HexHash(h)
    ensures DigestFile(ManifestPath(h), ".json") && DigestFile(BodyPath(h), ".body")
  {
    HashPaths(h);
    hide Strip, ManifestPath, BodyPath, HexText, DigestFile;
    DigestFileOf(Shard(h.text), Strip(h.text), ".json");
    DigestFileOf(Shard(h.text), Strip(h.text), ".body");
  }

  lemma SuffixesDiffer(p: Path)
    ensures !(DigestFile(p, ".json") && DigestFile(p, ".body"))
  {
    hide HexText;
    assert ".json"[1] != ".body"[1];
  }

  /** These are the paths of hexadecimal hashes and no others. */
  lemma HashFileIff(p: Path)
    ensures HashFile(p) <==> exists h | HexHash(h) :: p == ManifestPath(h) || p == BodyPath(h)
  {
    hide ManifestPath, BodyPath, HexHash, DigestFile;
    if DigestFile(p, ".json") {
      var h := HashOfFile(p, ".json");
    } else if DigestFile(p, ".body") {
      var h := HashOfFile(p, ".body");
    }
    if h :| HexHash(h) && (p == ManifestPath(h) || p == BodyPath(h)) {
      HashFilesOf(h);
    }
  }

  /** A head is never one of them, whatever the id. */
  lemma HeadsAreNoHashFiles(id: CartridgeId)
    ensures HeadPath(id) != [] && !HashFile(HeadPath(id))
  {
    hide Norm, HexText;
    var base := Join(["by-id"], id.text);
    NormPlain(base, "head");
    var p := HeadPath(id);
    assert p[|p| - 1] == "head";
    assert "head"[|"head"| - 1] == 'd' && ".json"[4] == 'n' && ".body"[4] == 'y';
    if |p| == 3 { assert |p[2]| == 4; }
  }

  lemma ManifestPathPlain(h: Hash)
    requires HexHash(h)
    ensures ".." !in ManifestPath(h)
  {
    HashPaths(h);
    ShardIsHex(h);
    hide Strip, Shard, ManifestPath;
    HexIsPlain(Strip(h.text), ".json");
    HexIsPlain(Shard(h.text), "");
    assert Shard(h.text) + "" == Shard(h.text);
  }

  // ---- other names do not ----

  /** The version that climbs out of its directory to the file of the manifest `h`. */
  function ClimbTo(h: Hash): string {
    "../../../by-hash/" + Shard(h.text) + "/" + Strip(h.text) + ".json"
  }

  lemma ThreeUp(s: string)
    ensures Split("../../../" + s) == ["..", "..", ".."] + Split(s)
  {
    hide Split;
    var one := ".." + "/" + s;
    var two := ".." + "/" + one;
    SplitAt("..", s);
    SplitAt("..", one);
    SplitAt("..", two);
    assert "../../../" + s == ".." + "/" + two;
  }

  lemma SplitClimb(shard: string, file: string)
    requires Plain(shard) && Plain(file)
    ensures Split("../../../by-hash/" + shard + "/" + file) == ["..", "..", "..", "by-hash", shard, file]
  {
    SplitWhole(file);
    hide Split;
    var two := shard + "/" + file;
    SplitAt(shard, file);
    SplitAt("by-hash", two);
    ThreeUp("by-hash" + "/" + two);
    assert "../../../by-hash/" + shard + "/" + file == "../../../" + ("by-hash" + "/" + two);
  }

  lemma NothingIsRoot()
    ensures Norm([]) == []
  {
  }

  /** The way up and down again, directory by directory. */
  lemma ClimbWay(id: string, shard: string, file: string)
    requires Plain(id) && Plain(shard) && Plain(file)
    ensures var raw := ["by-id", id, "versions", "..", "..", "..", "by-hash", shard, file];
            && Norm(raw[..0]) == [] && Norm(raw[..1]) == ["by-id"] && Norm(raw[..2]) == ["by-id", id]
            && Norm(raw[..3]) == ["by-id", id, "versions"] && Norm(raw[..4]) == ["by-id", id]
            && Norm(raw[..5]) == ["by-id"] && Norm(raw[..6]) == [] && Norm(raw[..7]) == ["by-hash"]
            && Norm(raw[..8]) == ["by-hash", shard] && Norm(raw) == ["by-hash", shard, file]
  {
    hide Plain, Norm;
    Roots();
    var raw := ["by-id", id, "versions", "..", "..", "..", "by-hash", shard, file];
    assert raw[..0] == [] && raw[..1] == ["by-id"] && raw[..2] == raw[..1] + [id];
    assert raw[..3] == raw[..2] + ["versions"] && raw[..4] == raw[..3] + [".."] && raw[..5] == raw[..4] + [".."];
    assert raw[..6] == raw[..5] + [".."] && raw[..7] == raw[..6] + ["by-hash"] && raw[..8] == raw[..7] + [shard];
    assert raw == raw[..8] + [file];
    NormPlain(raw[..1], id);
    assert Plain("versions") && Plain("by-hash") by { PlainWords(); }
    NormPlain(raw[..2], "versions");
    NormNext(raw[..3], "..");
    NormNext(raw[..4], "..");
    NormNext(raw[..5], "..");
    NormPlain(raw[..6], "by-hash");
    NormPlain(raw[..7], shard);
    NormPlain(raw[..8], file);
    assert Norm([]) == [] by { NothingIsRoot(); }
  }

  lemma ClimbStaysIn(id: string, shard: string, file: string, i: nat)
    requires Plain(id) && Plain(shard) && Plain(file) && i < 9
    ensures var p := Norm(["by-id", id, "versions", "..", "..", "..", "by-hash", shard, file][..i]);
            p <= ["by-id", id, "versions"] || p <= ["by-hash", shard]
  {
    hide Plain, Norm;
    ClimbWay(id, shard, file);
  }

  /** Such a version as it is written, and the file it names. */
  lemma ClimbingVersion(id: CartridgeId, h: Hash)
    requires Plain(id.text) && HexHash(h)
    ensures VersionPath(id, ClimbTo(h)) == ManifestPath(h)
    ensures VersionEntry(id, ClimbTo(h))
            == ["by-id", id.text, "versions", "..", "..", "..", "by-hash", Shard(h.text), Strip(h.text) + ".json"]
  {
    var shard, file := Shard(h.text), Strip(h.text) + ".json";
    HashPaths(h);
    ShardIsHex(h);
    HexIsPlain(Strip(h.text), ".json");
    HexIsPlain(shard, "");
    assert shard + "" == shard;
    hide Strip, Shard, ManifestPath, HexText, Norm, Split;
    SplitClimb(shard, file);
    assert ClimbTo(h) == "../../../by-hash/" + shard + "/" + file;
    JoinPlain(["by-id"], id.text);
    assert VersionsDir(id) == ["by-id", id.text, "versions"];
    assert VersionEntry(id, ClimbTo(h)) == ["by-id", id.text, "versions", "..", "..", "..", "by-hash", shard, file];
    ClimbWay(id.text, shard, file);
  }

  /** A version called "head" of one id names the head of another. */
  lemma NestedId(id: CartridgeId)
    requires Plain(id.text)
    ensures VersionPath(id, "head") == HeadPath(CartridgeId(id.text + "/versions"))
  {
    hide Norm, Split;
    IdPaths(id, "head");
    var nested, base := id.text + "/versions", ["by-id", id.text, "versions"];
    SplitAt(id.text, "versions");
    SplitWhole("versions");
    assert id.text + "/" + "versions" == nested && nested[0] == id.text[0] && id.text[0] in id.text;
    assert Split(nested) == [id.text, "versions"];
    assert Join(["by-id"], nested) == base;
    Roots();
    NormPlain(["by-id"], id.text);
    assert ["by-id"] + [id.text] == ["by-id", id.text];
    NormPlain(["by-id", id.text], "versions");
    assert ["by-id", id.text] + ["versions"] == base;
    NormPlain(base, "head");
    assert base + ["head"] == ["by-id", id.text, "versions", "head"];
  }
}
