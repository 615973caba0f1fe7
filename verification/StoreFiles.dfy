/** The file system under the Librarian's store (maestro/librarian/store.py): directories, files and
    links, each step of which may fail and leave what was done before it. */
module StoreFiles {
  import opened Wrappers
  import opened Manifests
  import opened Addressing
  import opened StorePaths

  datatype Node = Directory | ManifestFile(json: Json) | BodyFile(body: Body) | Link(to: Path)

  type Files = map<Path, Node>

  function Get(fs: Files, p: Path): Option<Node> {
    if p in fs then Some(fs[p]) else None
  }

  predicate IsDir(fs: Files, p: Path) {
    p in fs && fs[p].Directory?
  }

  // ---- reading ----

  /** What a path leads to over at most so many links. */
  function Follow(fs: Files, p: Path, links: nat): Option<Node>
    decreases links
  {
    if p !in fs then None
    else if !fs[p].Link? then Some(fs[p])
    else if links == 0 then None
    else Follow(fs, Resolve(Parent(p), fs[p].to), links - 1)
  }

  /** What opening a path reads; more links than there are paths are a loop. */
  function Open(fs: Files, p: Path): Option<Node> {
    Follow(fs, p, |fs|)
  }

  lemma OpenPlain(fs: Files, p: Path)
    requires p !in fs || !fs[p].Link?
    ensures Open(fs, p) == Get(fs, p)
  {
  }

  lemma OpenLink(fs: Files, p: Path, target: Path)
    requires ".." !in target && Get(fs, p) == Some(Link(RelPath(target, Parent(p))))
    requires target in fs && !fs[target].Link?
    ensures Open(fs, p) == Some(fs[target])
  {
    hide RelPath, Resolve, Parent;
    RelPathResolves(target, Parent(p));
    assert |fs| > 0;
    assert Follow(fs, p, |fs|) == Follow(fs, target, |fs| - 1);
  }

  lemma {:induction false} LoopGoesNowhere(fs: Files, p: Path, links: nat)
    requires ".." !in p && Get(fs, p) == Some(Link(RelPath(p, Parent(p))))
    ensures Follow(fs, p, links) == None
    decreases links
  {
    hide RelPath, Resolve, Parent;
    RelPathResolves(p, Parent(p));
    if links > 0 {
      LoopGoesNowhere(fs, p, links - 1);
    }
  }

  // ---- writing ----

  datatype Step = Step(files: Files, ok: bool)

  function MakeDir(fs: Files, p: Path): Step {
    if p in fs then Step(fs, fs[p].Directory?) else Step(fs[p := Directory], true)
  }

  /** `mkdir(parents=True, exist_ok=True)`: every directory on the way, up to the first that is
      something else. */
  function MakeDirs(fs: Files, raw: Path): Step {
    var front := if raw == [] then Step(fs, true) else MakeDirs(fs, raw[..|raw| - 1]);
    if front.ok then MakeDir(front.files, Norm(raw)) else front
  }

  /** `os.replace` of a file or a link: anything but a directory gives way. */
  function Put(fs: Files, p: Path, node: Node): Step {
    if IsDir(fs, p) then Step(fs, false) else Step(fs[p := node], true)
  }

  /** Every directory on the way is there. */
  predicate Reachable(fs: Files, raw: Path) {
    forall i | 0 <= i < |raw| :: IsDir(fs, Norm(raw[..i]))
  }

  /** A directory on the way down a path, itself included. */
  ghost predicate OnTheWay(raw: Path, p: Path) {
    p == Norm(raw) || (raw != [] && OnTheWay(raw[..|raw| - 1], p))
  }

  /** Making directories changes nothing that is there, and whether it succeeds is seen beforehand. */
  lemma {:induction false} MakeDirsMeans(fs: Files, raw: Path)
    ensures var r := MakeDirs(fs, raw);
            && (forall p | p in fs :: p in r.files && r.files[p] == fs[p])
            && (forall p | p in r.files && p !in fs :: r.files[p] == Directory && OnTheWay(raw, p))
            && (r.ok <==> forall p | OnTheWay(raw, p) && p in fs :: IsDir(fs, p))
            && (r.ok ==> forall p | OnTheWay(raw, p) :: IsDir(r.files, p))
  {
    hide Norm;
    if raw != [] {
      MakeDirsMeans(fs, raw[..|raw| - 1]);
    }
  }
}
