/**
 The index of a download folder by recording code (ISRC). A rebuild adopts what the last build
 knew of files whose size and time are unchanged and reads the others; downloads add to the index
 as they finish.

 ISRCs are upper-case here: the reader and Add both fold them before they are stored.
 */
module IsrcIndex {
  import opened Bytes

  type Path = string

  /** What a directory walk finds: a path and the file's size and time. */
  datatype Found = Found(path: Path, size: int, modTime: int)

  datatype FileEntry = FileEntry(size: int, modTime: int, isrc: string)

  type Files = map<Path, FileEntry>
  type Index = map<string, Path>

  /** The folder: which supported files it has, with size and time, and what reading one gives: its
      ISRC, or nothing for a file without one, or unreadable. */
  datatype Disk = Disk(files: map<Path, (int, int)>, read: Path -> string)

  /** A full scan: every supported file, read. */
  function Scan(d: Disk): Files {
    map p | p in d.files :: FileEntry(d.files[p].0, d.files[p].1, d.read(p))
  }

  /** The walk visits every supported file once. */
  ghost predicate IsWalk(d: Disk, walk: seq<Found>) {
    && (forall f <- walk :: f.path in d.files && d.files[f.path] == (f.size, f.modTime))
    && Distinct(walk)
    && (forall p <- d.files :: exists i :: 0 <= i < |walk| && walk[i].path == p)
  }

  predicate Adopted(prev: Files, f: Found) {
    f.path in prev && prev[f.path].size == f.size && prev[f.path].modTime == f.modTime
  }

  /** What a rebuild makes of the last build's entries and the folder. */
  function Rebuilt(d: Disk, prev: Files): Files {
    map p | p in d.files ::
      if p in prev && (prev[p].size, prev[p].modTime) == d.files[p] then prev[p]
      else FileEntry(d.files[p].0, d.files[p].1, d.read(p))
  }

  /** What the last build knew of an unchanged file is what reading it now gives. */
  ghost predicate Truthful(d: Disk, prev: Files) {
    forall p <- prev :: p in d.files && (prev[p].size, prev[p].modTime) == d.files[p] ==> prev[p].isrc == d.read(p)
  }

  /** An ISRC is indexed exactly if some file carries it, and then with such a file. */
  ghost predicate Indexes(index: Index, files: Files) {
    && (forall isrc <- index :: isrc != "" && index[isrc] in files && files[index[isrc]].isrc == isrc)
    && (forall p <- files :: files[p].isrc != "" ==> files[p].isrc in index)
  }

  class Isrc {
    var index: Index
    var files: Files

    constructor ()
      ensures index == map[] && files == map[]
    {
      index, files := map[], map[];
    }

    /** One file's entry, and its ISRC pointing to it. */
    method Enter(path: Path, e: FileEntry)
      requires Indexes(index, files) && path !in files
      modifies this
      ensures files == old(files)[path := e] && Indexes(index, files)
    {
      files := files[path := e];
      if e.isrc != "" { index := index[e.isrc := path]; }
    }

    /** buildISRCIndex on a fresh index: adopt the unchanged, then read the rest. */
    method Build(d: Disk, prev: Files, walk: seq<Found>)
      requires index == map[] && files == map[] && IsWalk(d, walk)
      modifies this
      ensures files == Rebuilt(d, prev) && Indexes(index, files)
    {
      var toParse := AdoptUnchanged(d, prev, walk);
      var isrcs := ParseAll(d, toParse);
      ghost var adopted := files.Keys;
      TodoFacts(prev, walk);
      for i := 0 to |toParse|
        invariant Indexes(index, files) && PartOf(files, Rebuilt(d, prev))
        invariant files.Keys == adopted + Paths(toParse[..i])
      {
        var task := toParse[i];
        assert task in toParse && task in walk;
        PathsMore(toParse, i);
        Enter(task.path, FileEntry(task.size, task.modTime, isrcs[i]));
      }
      assert toParse[..|toParse|] == toParse;
      Complete(d, prev, walk, files);
    }

    method AdoptUnchanged(d: Disk, prev: Files, walk: seq<Found>) returns (toParse: seq<Found>)
      requires index == map[] && files == map[] && IsWalk(d, walk)
      modifies this
      ensures Indexes(index, files) && PartOf(files, Rebuilt(d, prev))
      ensures toParse == Todo(prev, walk) && files.Keys == AdoptedPaths(prev, walk)
    {
      hide Indexes, PartOf, Todo, AdoptedPaths, Distinct, Rebuilt, Adopted;
      toParse := [];
      NothingYet(d, prev, walk);
      for i := 0 to |walk|
        invariant Indexes(index, files) && PartOf(files, Rebuilt(d, prev))
        invariant toParse == Todo(prev, walk[..i]) && files.Keys == AdoptedPaths(prev, walk[..i])
      {
        var f := walk[i];
        AdoptedMore(prev, walk, i);
        if Adopted(prev, f) {
          AdoptedIsPart(d, prev, walk, i, files);
          Enter(f.path, prev[f.path]);
        } else {
          toParse := toParse + [f];
        }
      }
      assert walk[..|walk|] == walk;
    }

    /** The workers fill one slot each; a file that makes the parser panic reads as without ISRC. */
    method ParseAll(d: Disk, toParse: seq<Found>) returns (isrcs: seq<string>)
      ensures |isrcs| == |toParse| && forall i :: 0 <= i < |isrcs| ==> isrcs[i] == d.read(toParse[i].path)
    {
      isrcs := [];
      for i := 0 to |toParse|
        invariant |isrcs| == i && forall k :: 0 <= k < i ==> isrcs[k] == d.read(toParse[k].path)
      {
        isrcs := isrcs + [d.read(toParse[i].path)];
      }
    }

    /** A finished download is indexed; its file entry only if the file is there. */
    method Add(isrc: string, path: Path, stat: Option<(int, int)>)
      modifies this
      ensures if isrc == "" || path == "" then index == old(index) && files == old(files)
              else index == old(index)[isrc := path]
                   && files == if stat.None? then old(files)
                               else old(files)[path := FileEntry(stat.value.0, stat.value.1, isrc)]
    {
      if isrc == "" || path == "" { return; }
      index := index[isrc := path];
      if stat.Some? { files := files[path := FileEntry(stat.value.0, stat.value.1, isrc)]; }
    }

    method Remove(isrc: string)
      modifies this`index
      ensures index == if isrc == "" then old(index) else old(index) - {isrc}
    {
      if isrc == "" { return; }
      index := index - {isrc};
    }

    method Lookup(isrc: string) returns (path: Option<Path>)
      ensures path == if isrc != "" && isrc in index then Some(index[isrc]) else None
    {
      if isrc == "" { return None; }
      if isrc in index { return Some(index[isrc]); }
      return None;
    }
  }

  ghost predicate PartOf(some: Files, all: Files) {
    forall p <- some :: p in all && some[p] == all[p]
  }

  ghost predicate Distinct(fs: seq<Found>) {
    forall i, j | 0 <= i < j < |fs| :: fs[i].path != fs[j].path
  }

  function Paths(fs: seq<Found>): set<Path> {
    set f | f in fs :: f.path
  }

  /** The files that have to be read, in the order of the walk. */
  function Todo(prev: Files, walk: seq<Found>): seq<Found> {
    if walk == [] then [] else
    var rest, f := Todo(prev, walk[..|walk| - 1]), walk[|walk| - 1];
    if Adopted(prev, f) then rest else rest + [f]
  }

  function AdoptedPaths(prev: Files, walk: seq<Found>): set<Path> {
    set f | f in walk && Adopted(prev, f) :: f.path
  }

  lemma AdoptedMore(prev: Files, walk: seq<Found>, i: nat)
    requires Distinct(walk) && i < |walk|
    ensures Todo(prev, walk[..i + 1]) == Todo(prev, walk[..i]) + if Adopted(prev, walk[i]) then [] else [walk[i]]
    ensures AdoptedPaths(prev, walk[..i + 1])
         == AdoptedPaths(prev, walk[..i]) + if Adopted(prev, walk[i]) then {walk[i].path} else {}
    ensures walk[i].path !in AdoptedPaths(prev, walk[..i])
  {
    assert walk[..i + 1] == walk[..i] + [walk[i]];
  }

  lemma NothingYet(d: Disk, prev: Files, walk: seq<Found>)
    ensures Indexes(map[], map[]) && PartOf(map[], Rebuilt(d, prev))
    ensures Todo(prev, walk[..0]) == [] && AdoptedPaths(prev, walk[..0]) == {}
  {
  }

  lemma AdoptedIsPart(d: Disk, prev: Files, walk: seq<Found>, i: nat, files: Files)
    requires IsWalk(d, walk) && i < |walk| && Adopted(prev, walk[i]) && PartOf(files, Rebuilt(d, prev))
    ensures walk[i].path in prev && PartOf(files[walk[i].path := prev[walk[i].path]], Rebuilt(d, prev))
  {
    assert walk[i] in walk;
  }

  lemma {:induction false} TodoMembers(prev: Files, walk: seq<Found>)
    ensures forall f :: f in Todo(prev, walk) <==> f in walk && !Adopted(prev, f)
    decreases |walk|
  {
    if walk != [] {
      var n := |walk| - 1;
      TodoMembers(prev, walk[..n]);
      assert walk == walk[..n] + [walk[n]];
    }
  }

  lemma {:induction false} TodoDistinct(prev: Files, walk: seq<Found>)
    requires Distinct(walk)
    ensures Distinct(Todo(prev, walk))
    decreases |walk|
  {
    if walk != [] {
      var n := |walk| - 1;
      TodoMembers(prev, walk[..n]);
      TodoDistinct(prev, walk[..n]);
      var rest := Todo(prev, walk[..n]);
      forall f | f in rest ensures f.path != walk[n].path {
        var i :| 0 <= i < n && walk[..n][i] == f;
      }
    }
  }

  lemma OnePerPath(walk: seq<Found>, f: Found, g: Found)
    requires Distinct(walk) && f in walk && g in walk && f.path == g.path
    ensures f == g
  {
  }

  lemma TodoFacts(prev: Files, walk: seq<Found>)
    requires Distinct(walk)
    ensures Distinct(Todo(prev, walk)) && Paths(Todo(prev, walk)) !! AdoptedPaths(prev, walk)
    ensures forall f <- Todo(prev, walk) :: f in walk
    ensures Paths(Todo(prev, walk)) + AdoptedPaths(prev, walk) == Paths(walk)
  {
    hide Distinct, Todo, Adopted;
    TodoMembers(prev, walk);
    TodoDistinct(prev, walk);
    forall p | p in Paths(Todo(prev, walk)) && p in AdoptedPaths(prev, walk) ensures false {
      var f :| f in Todo(prev, walk) && f.path == p;
      var g :| g in walk && Adopted(prev, g) && g.path == p;
      OnePerPath(walk, f, g);
    }
    forall p | p in Paths(walk) ensures p in Paths(Todo(prev, walk)) + AdoptedPaths(prev, walk) {
      var f :| f in walk && f.path == p;
      if !Adopted(prev, f) {
        assert f in Todo(prev, walk);
      }
    }
  }

  lemma PathsMore(fs: seq<Found>, i: nat)
    requires Distinct(fs) && i < |fs|
    ensures Paths(fs[..i + 1]) == Paths(fs[..i]) + {fs[i].path} && fs[i].path !in Paths(fs[..i])
    ensures fs[i].path in Paths(fs)
  {
    assert fs[..i + 1] == fs[..i] + [fs[i]];
  }

  lemma Complete(d: Disk, prev: Files, walk: seq<Found>, files: Files)
    requires IsWalk(d, walk) && PartOf(files, Rebuilt(d, prev)) && Paths(walk) <= files.Keys
    ensures files == Rebuilt(d, prev)
  {
    forall p | p in d.files ensures p in files {
      var i :| 0 <= i < |walk| && walk[i].path == p;
      assert walk[i] in walk;
    }
  }

  // ----- what the index is worth -----

  /** A rebuild equals a full scan exactly if what it adopts is true. */
  lemma RebuiltIsScanIff(d: Disk, prev: Files)
    ensures Rebuilt(d, prev) == Scan(d) <==> Truthful(d, prev)
  {
    if Rebuilt(d, prev) == Scan(d) {
      forall p | p in prev && p in d.files && (prev[p].size, prev[p].modTime) == d.files[p]
        ensures prev[p].isrc == d.read(p)
      {
        assert Rebuilt(d, prev)[p] == Scan(d)[p];
      }
    }
  }

  /** Size and time determine what is in a file, whenever one looks at it. */
  type Contents = (Path, int, int) -> string

  ghost predicate Consistent(d: Disk, c: Contents) {
    forall p <- d.files :: d.read(p) == c(p, d.files[p].0, d.files[p].1)
  }

  ghost predicate Known(files: Files, c: Contents) {
    forall p <- files :: files[p].isrc == c(p, files[p].size, files[p].modTime)
  }

  /** The entries of the index in the cache and, while a rebuild is under way, the copy it works from. */
  datatype Cached = Cached(files: Files, copied: Option<Files>)

  const EMPTY := Cached(map[], None)

  /** What happens to the index of a folder. A rebuild copies the entries, walks the folder, which it
      finds as `d`, and installs a new index; downloads are added to the one in the cache meanwhile. */
  datatype Event =
    | Copy
    | Install(d: Disk)
    | AddFile(isrc: string, path: Path, stat: Option<(int, int)>)
    | Invalidate

  function Added(files: Files, isrc: string, path: Path, stat: Option<(int, int)>): Files {
    if isrc == "" || path == "" || stat.None? then files
    else files[path := FileEntry(stat.value.0, stat.value.1, isrc)]
  }

  function After(s: Cached, e: Event): Cached {
    match e
    case Copy => s.(copied := Some(s.files))
    case Install(d) => if s.copied.None? then s else Cached(Rebuilt(d, s.copied.value), None)
    case AddFile(isrc, path, stat) => s.(files := Added(s.files, isrc, path, stat))
    case Invalidate => s.(files := map[])
  }

  /** The folder is consistent at every rebuild, and each Add gave the file's true ISRC. */
  ghost predicate True(e: Event, c: Contents) {
    match e
    case Install(d) => Consistent(d, c)
    case AddFile(isrc, path, stat) => stat.Some? ==> isrc == c(path, stat.value.0, stat.value.1)
    case _ => true
  }

  ghost predicate AllKnown(s: Cached, c: Contents) {
    Known(s.files, c) && (s.copied.Some? ==> Known(s.copied.value, c))
  }

  function Run(s: Cached, es: seq<Event>): Cached
    decreases |es|
  {
    if es == [] then s else Run(After(s, es[0]), es[1..])
  }

  lemma {:induction false} RunKnows(s: Cached, es: seq<Event>, c: Contents)
    requires AllKnown(s, c) && forall e <- es :: True(e, c)
    ensures AllKnown(Run(s, es), c)
    decreases |es|
  {
    hide True, AllKnown, After;
    if es != [] {
      StepKnows(s, es[0], c);
      RunKnows(After(s, es[0]), es[1..], c);
    }
  }

  lemma StepKnows(s: Cached, e: Event, c: Contents)
    requires AllKnown(s, c) && True(e, c)
    ensures AllKnown(After(s, e), c)
  {
  }

  /** However the folder changed and whatever was added before and during the rebuild: if size and time
      determine the content and every Add was true, a rebuild installs what reading every supported file
      its walk found would give. */
  lemma RebuildEqualsScan(es: seq<Event>, d: Disk, c: Contents)
    requires (forall e <- es :: True(e, c)) && Consistent(d, c) && Run(EMPTY, es).copied.Some?
    ensures After(Run(EMPTY, es), Install(d)) == Cached(Scan(d), None)
  {
    RunKnows(EMPTY, es, c);
    RebuiltIsScanIff(d, Run(EMPTY, es).copied.value);
  }

  /** Once the copy is made, what is added or dropped until the rebuild is installed has no part in it: the
      new index finds an ISRC added meanwhile exactly if the walk found a file that carries it. */
  lemma {:induction false} AddedMeanwhile(s: Cached, during: seq<Event>, d: Disk)
    requires s.copied.Some? && forall e <- during :: !e.Copy? && !e.Install?
    ensures After(Run(s, during), Install(d)) == After(s, Install(d))
    decreases |during|
  {
    if during != [] {
      AddedMeanwhile(After(s, during[0]), during[1..], d);
    }
  }

  lemma AddedMeanwhileIff(es: seq<Event>, during: seq<Event>, add: Event, d: Disk, c: Contents, index: Index)
    requires (forall e <- es :: True(e, c)) && Consistent(d, c)
    requires add in during && add.AddFile? && add.isrc != "" && forall e <- during :: !e.Copy? && !e.Install?
    requires Indexes(index, After(Run(After(Run(EMPTY, es), Copy), during), Install(d)).files)
    ensures add.isrc in index <==> exists p :: p in d.files && d.read(p) == add.isrc
  {
    RunKnows(EMPTY, es, c);
    AddedMeanwhile(After(Run(EMPTY, es), Copy), during, d);
    RebuiltIsScanIff(d, Run(EMPTY, es).files);
    IndexedIff(d, index, add.isrc);
  }

  /** A download that ends behind the walk of a rebuild: the cache knew it and does not when the rebuild is
      installed. */
  lemma AddedBehindWalkIsLost(isrc: string, path: Path)
    requires isrc != "" && path != ""
    ensures var nothing := Disk(map[], (p: Path) => "");
            var s := Run(EMPTY, [Copy, AddFile(isrc, path, Some((1, 1)))]);
            path in s.files && After(s, Install(nothing)).files == map[]
  {
    var add := AddFile(isrc, path, Some((1, 1)));
    assert [Copy, add][1..] == [add] && [add][1..] == [];
    assert Run(EMPTY, [Copy, add]) == Run(After(EMPTY, Copy), [add]);
    assert Run(After(EMPTY, Copy), [add]) == After(After(EMPTY, Copy), add);
  }

  /** After a rebuild an ISRC is found exactly if some file carries it, and the path found is such a file. */
  lemma IndexedIff(d: Disk, index: Index, isrc: string)
    requires Indexes(index, Scan(d)) && isrc != ""
    ensures isrc in index <==> exists p :: p in d.files && d.read(p) == isrc
    ensures isrc in index ==> index[isrc] in d.files && d.read(index[isrc]) == isrc
  {
    if isrc in index {
      assert index[isrc] in Scan(d);
    }
    if p :| p in d.files && d.read(p) == isrc {
      assert p in Scan(d);
    }
  }

  /** Between rebuilds the index stays exact under an Add if the file is there, unless its path was
      indexed under another ISRC, which then keeps pointing to it. */
  lemma AddStaysExactIff(index: Index, files: Files, isrc: string, path: Path, stat: Option<(int, int)>)
    requires Indexes(index, files) && isrc != "" && path != ""
    ensures Indexes(index[isrc := path], Added(files, isrc, path, stat))
       <==> if stat.Some? then path in files && files[path].isrc != "" && files[path].isrc != isrc
                               ==> index[files[path].isrc] != path
            else path in files && files[path].isrc == isrc
  {
    var index', files' := index[isrc := path], Added(files, isrc, path, stat);
    assert isrc in index' && index'[isrc] == path;
    if stat.Some? && path in files && files[path].isrc != "" && files[path].isrc != isrc {
      assert files[path].isrc in index';
    }
  }

  /** A file retagged from ISRC "A" to "B" and added as "B": "A" still leads to it. */
  lemma RetaggedFileKeepsOldIsrc(path: Path)
    requires path != ""
    ensures var index: Index, files: Files := map["A" := path], map[path := FileEntry(1, 1, "A")];
            var index', files' := index["B" := path], Added(files, "B", path, Some((2, 2)));
            Indexes(index, files) && "A" in index' && files'[index'["A"]].isrc == "B" && !Indexes(index', files')
  {
    var index: Index, files: Files := map["A" := path], map[path := FileEntry(1, 1, "A")];
    assert Indexes(index, files);
    AddStaysExactIff(index, files, "B", path, Some((2, 2)));
  }

  /** A rebuild works from what was indexed when it copied; after an invalidation it reads every file. */
  lemma RebuildStartsFrom(s: Cached, d: Disk)
    ensures After(After(s, Copy), Install(d)) == Cached(Rebuilt(d, s.files), None)
    ensures After(After(After(s, Invalidate), Copy), Install(d)) == Cached(Scan(d), None)
  {
    RebuiltIsScanIff(d, map[]);
  }
}
