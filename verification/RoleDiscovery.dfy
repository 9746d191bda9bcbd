/**
 The directory walk that finds agent role files
 (codex-rs/agent-roles/src/discovery.rs), run on a file system that maps directory
 paths to listings.  A path without a listing is a directory that is not found.
 */
module RoleDiscovery {
  import opened Ordering
  import opened Results

  type Path = Key

  datatype Entry = Entry(name: string, isDirectory: bool, isFile: bool)
  datatype Listing = Entries(entries: seq<Entry>) | Denied
  type Folders = map<Path, Listing>

  // The index of the last dot of a file name, or its length.
  function LastDot(name: string): (i: nat)
    ensures i <= |name|
  {
    if name == "" then 0
    else
      var k := LastDot(name[1..]);
      if k < |name| - 1 then k + 1 else if name[0] == '.' then 0 else |name|
  }

  // `Path::extension() == Some("toml")`: a leading dot starts no extension.
  predicate HasTomlExtension(name: string) {
    name != ".." && 0 < LastDot(name) < |name| && name[LastDot(name) + 1..] == "toml"
  }

  predicate IsRoleFile(e: Entry) {
    !e.isDirectory && e.isFile && HasTomlExtension(e.name)
  }

  // ---------------------------------------------------------- the recursive traversal

  // The listed directories at or under a path: fewer at every level.
  ghost function Below(fs: Folders, dir: Path): set<Path> {
    set p | p in fs && dir <= p
  }

  lemma ChildBelow(fs: Folders, dir: Path, name: string)
    requires dir in fs
    ensures Below(fs, dir + [name]) < Below(fs, dir)
  {
    assert dir in Below(fs, dir) && dir !in Below(fs, dir + [name]);
    forall p | p in Below(fs, dir + [name])
      ensures p in Below(fs, dir)
    {
      assert (dir + [name])[..|dir|] == dir;
      assert p[..|dir|] == dir;
    }
  }

  // The role files under a directory, and those under the entries of one.
  ghost function FilesUnder(fs: Folders, dir: Path): multiset<Path>
    decreases Below(fs, dir), 1, 0
  {
    if dir in fs && fs[dir].Entries? then FilesAmong(fs, dir, fs[dir].entries) else multiset{}
  }

  ghost function FilesAmong(fs: Folders, dir: Path, es: seq<Entry>): multiset<Path>
    requires dir in fs
    decreases Below(fs, dir), 0, |es|
  {
    if es == [] then multiset{}
    else
      var path := dir + [es[0].name];
      ChildBelow(fs, dir, es[0].name);
      (if es[0].isDirectory then FilesUnder(fs, path)
       else if IsRoleFile(es[0]) then multiset{path} else multiset{})
      + FilesAmong(fs, dir, es[1..])
  }

  ghost function FilesOf(fs: Folders, dir: Path, e: Entry): multiset<Path> {
    if e.isDirectory then FilesUnder(fs, dir + [e.name])
    else if IsRoleFile(e) then multiset{dir + [e.name]} else multiset{}
  }

  // Some directory of the tree exists but cannot be read.
  ghost predicate AnyDenied(fs: Folders, dir: Path)
    decreases Below(fs, dir), 1, 0
  {
    dir in fs && (fs[dir].Denied? || DeniedAmong(fs, dir, fs[dir].entries))
  }

  ghost predicate DeniedAmong(fs: Folders, dir: Path, es: seq<Entry>)
    requires dir in fs
    decreases Below(fs, dir), 0, |es|
  {
    es != [] &&
    (ChildBelow(fs, dir, es[0].name);
     (es[0].isDirectory && AnyDenied(fs, dir + [es[0].name])) || DeniedAmong(fs, dir, es[1..]))
  }

  // How many directories the walk pops in all.
  ghost function Visits(fs: Folders, dir: Path): nat
    ensures Visits(fs, dir) > 0
    decreases Below(fs, dir), 1, 0
  {
    1 + if dir in fs && fs[dir].Entries? then VisitsAmong(fs, dir, fs[dir].entries) else 0
  }

  ghost function VisitsAmong(fs: Folders, dir: Path, es: seq<Entry>): nat
    requires dir in fs
    decreases Below(fs, dir), 0, |es|
  {
    if es == [] then 0
    else
      ChildBelow(fs, dir, es[0].name);
      (if es[0].isDirectory then Visits(fs, dir + [es[0].name]) else 0) + VisitsAmong(fs, dir, es[1..])
  }

  // ------------------------------------------------------------------ the stack walk

  ghost function StackFiles(fs: Folders, dirs: seq<Path>): multiset<Path> {
    if dirs == [] then multiset{}
    else StackFiles(fs, dirs[..|dirs| - 1]) + FilesUnder(fs, dirs[|dirs| - 1])
  }

  ghost function StackVisits(fs: Folders, dirs: seq<Path>): nat {
    if dirs == [] then 0
    else StackVisits(fs, dirs[..|dirs| - 1]) + Visits(fs, dirs[|dirs| - 1])
  }

  ghost predicate StackDenied(fs: Folders, dirs: seq<Path>) {
    dirs != [] && (StackDenied(fs, dirs[..|dirs| - 1]) || AnyDenied(fs, dirs[|dirs| - 1]))
  }

  lemma Pushed(fs: Folders, dirs: seq<Path>, d: Path)
    ensures StackFiles(fs, dirs + [d]) == StackFiles(fs, dirs) + FilesUnder(fs, d)
    ensures StackVisits(fs, dirs + [d]) == StackVisits(fs, dirs) + Visits(fs, d)
    ensures StackDenied(fs, dirs + [d]) <==> StackDenied(fs, dirs) || AnyDenied(fs, d)
  {
    assert (dirs + [d])[..|dirs|] == dirs;
  }

  method ScanDirectory(fs: Folders, dir: Path, entries: seq<Entry>, dirs0: seq<Path>, files0: seq<Path>)
      returns (dirs: seq<Path>, files: seq<Path>)
    requires dir in fs
    ensures multiset(files) + StackFiles(fs, dirs)
         == multiset(files0) + StackFiles(fs, dirs0) + FilesAmong(fs, dir, entries)
    ensures StackVisits(fs, dirs) == StackVisits(fs, dirs0) + VisitsAmong(fs, dir, entries)
    ensures StackDenied(fs, dirs) <==> StackDenied(fs, dirs0) || DeniedAmong(fs, dir, entries)
  {
    hide FilesUnder, FilesAmong, AnyDenied, DeniedAmong, Visits, VisitsAmong, StackFiles, StackVisits, StackDenied;
    dirs, files := dirs0, files0;
    NothingAmong(fs, dir);
    assert entries[0..] == entries;
    for k := 0 to |entries|
      invariant multiset(files) + StackFiles(fs, dirs) + FilesAmong(fs, dir, entries[k..])
             == multiset(files0) + StackFiles(fs, dirs0) + FilesAmong(fs, dir, entries)
      invariant StackVisits(fs, dirs) + VisitsAmong(fs, dir, entries[k..])
             == StackVisits(fs, dirs0) + VisitsAmong(fs, dir, entries)
      invariant StackDenied(fs, dirs) || DeniedAmong(fs, dir, entries[k..])
           <==> StackDenied(fs, dirs0) || DeniedAmong(fs, dir, entries)
    {
      var entry := entries[k];
      var path := dir + [entry.name];
      Pushed(fs, dirs, path);
      ScanStep(fs, dir, entries, k);
      if entry.isDirectory {
        dirs := dirs + [path];
        continue;
      }
      if entry.isFile && HasTomlExtension(entry.name) {
        files := files + [path];
      }
    }
    assert entries[|entries|..] == [];
  }

  lemma NothingAmong(fs: Folders, dir: Path)
    requires dir in fs
    ensures FilesAmong(fs, dir, []) == multiset{} && VisitsAmong(fs, dir, []) == 0 && !DeniedAmong(fs, dir, [])
  {
  }

  lemma ScanStep(fs: Folders, dir: Path, entries: seq<Entry>, k: nat)
    requires dir in fs && k < |entries|
    ensures var e, rest := entries[k], entries[k + 1..];
      && FilesAmong(fs, dir, entries[k..]) == FilesOf(fs, dir, e) + FilesAmong(fs, dir, rest)
      && VisitsAmong(fs, dir, entries[k..])
         == (if e.isDirectory then Visits(fs, dir + [e.name]) else 0) + VisitsAmong(fs, dir, rest)
      && (DeniedAmong(fs, dir, entries[k..])
          <==> (e.isDirectory && AnyDenied(fs, dir + [e.name])) || DeniedAmong(fs, dir, rest))
  {
    hide FilesUnder, AnyDenied, Visits;
    assert entries[k..][0] == entries[k] && entries[k..][1..] == entries[k + 1..];
  }

  ghost predicate InOrder(paths: seq<Path>) {
    forall i, j :: 0 <= i < j < |paths| ==> KeyLe(paths[i], paths[j])
  }

  function Insert(paths: seq<Path>, p: Path): (r: seq<Path>)
    requires InOrder(paths)
    ensures InOrder(r) && multiset(r) == multiset(paths) + multiset{p}
  {
    KeyTotal(p, p);
    if paths == [] then [p]
    else
      KeyTotal(p, paths[0]);
      if KeyLe(p, paths[0]) then
        BeforeAll(p, paths);
        assert paths == [paths[0]] + paths[1..];
        [p] + paths
      else
        var rest := Insert(paths[1..], p);
        AfterFirst(paths, p, rest);
        [paths[0]] + rest
  }

  lemma BeforeAll(p: Path, paths: seq<Path>)
    requires InOrder(paths) && paths != [] && KeyLe(p, paths[0])
    ensures InOrder([p] + paths)
  {
    forall j | 0 < j < |paths|
      ensures KeyLe(p, paths[j])
    {
      KeyTransitive(p, paths[0], paths[j]);
    }
  }

  lemma AfterFirst(paths: seq<Path>, p: Path, rest: seq<Path>)
    requires InOrder(paths) && paths != [] && KeyLe(paths[0], p)
    requires InOrder(rest) && multiset(rest) == multiset(paths[1..]) + multiset{p}
    ensures InOrder([paths[0]] + rest)
    ensures multiset([paths[0]] + rest) == multiset(paths) + multiset{p}
  {
    assert paths == [paths[0]] + paths[1..];
    forall j | 0 <= j < |rest|
      ensures KeyLe(paths[0], rest[j])
    {
      assert rest[j] in multiset(rest);
      if rest[j] != p {
        assert rest[j] in multiset(paths[1..]);
        var i :| 0 <= i < |paths[1..]| && paths[1..][i] == rest[j];
        assert paths[i + 1] == rest[j];
      }
    }
  }

  method SortPaths(files: seq<Path>) returns (r: seq<Path>)
    ensures InOrder(r) && multiset(r) == multiset(files)
  {
    r := [];
    for k := 0 to |files|
      invariant InOrder(r) && multiset(r) == multiset(files[..k])
    {
      assert files[..k + 1] == files[..k] + [files[k]];
      r := Insert(r, files[k]);
    }
    assert files[..|files|] == files;
  }

  // The walk ends, fails exactly when some directory of the tree cannot be read, and
  // otherwise returns in order the files the recursive traversal finds.
  method CollectRoleFiles(fs: Folders, dir: Path) returns (r: Result<seq<Path>, ()>)
    ensures r.Err? <==> AnyDenied(fs, dir)
    ensures r.Ok? ==> InOrder(r.value) && multiset(r.value) == FilesUnder(fs, dir)
  {
    var files: seq<Path> := [];
    var dirs := [dir];
    Pushed(fs, [], dir);
    assert [] + [dir] == dirs;
    while dirs != []
      invariant multiset(files) + StackFiles(fs, dirs) == FilesUnder(fs, dir)
      invariant StackDenied(fs, dirs) <==> AnyDenied(fs, dir)
      decreases StackVisits(fs, dirs)
    {
      var next := dirs[|dirs| - 1];
      dirs := dirs[..|dirs| - 1];
      if next !in fs {
        continue;
      }
      if fs[next].Denied? {
        return Err(());
      }
      dirs, files := ScanDirectory(fs, next, fs[next].entries, dirs, files);
    }
    files := SortPaths(files);
    r := Ok(files);
  }

  // The order determines the list: two ordered lists with the same files are equal.
  lemma {:induction false} InOrderUnique(a: seq<Path>, b: seq<Path>)
    requires InOrder(a) && InOrder(b) && multiset(a) == multiset(b)
    ensures a == b
    decreases |a|
  {
    if a == [] {
      assert |multiset(b)| == 0;
    } else {
      SameFirst(a, b);
      WithoutFirst(a);
      WithoutFirst(b);
      InOrderUnique(a[1..], b[1..]);
      assert a == [a[0]] + a[1..] && b == [b[0]] + b[1..];
    }
  }

  lemma WithoutFirst(a: seq<Path>)
    requires InOrder(a) && a != []
    ensures InOrder(a[1..]) && multiset(a[1..]) == multiset(a) - multiset{a[0]}
  {
    assert a == [a[0]] + a[1..];
  }

  lemma SameFirst(a: seq<Path>, b: seq<Path>)
    requires InOrder(a) && InOrder(b) && multiset(a) == multiset(b) && a != []
    ensures b != [] && a[0] == b[0]
  {
    assert a[0] in multiset(b);
    assert b[0] in multiset(a);
    FirstIsLeast(a, b[0]);
    FirstIsLeast(b, a[0]);
    KeyTotal(a[0], b[0]);
  }

  lemma FirstIsLeast(paths: seq<Path>, p: Path)
    requires InOrder(paths) && p in paths
    ensures KeyLe(paths[0], p)
  {
    var i :| 0 <= i < |paths| && paths[i] == p;
    KeyTotal(p, p);
  }

  // Membership in declarative terms: a role file is found when its own entry is a role
  // file and every directory above it, down from the root, is listed as a directory.
  ghost predicate Reached(fs: Folders, dir: Path, rest: Path)
    decreases |rest|, 1
  {
    && rest != [] && dir in fs && fs[dir].Entries?
    && exists e :: e in fs[dir].entries && LeadsTo(fs, dir, e, rest)
  }

  ghost predicate LeadsTo(fs: Folders, dir: Path, e: Entry, rest: Path)
    requires rest != []
    decreases |rest|, 0
  {
    e.name == rest[0]
    && if |rest| == 1 then IsRoleFile(e) else e.isDirectory && Reached(fs, dir + [rest[0]], rest[1..])
  }

  lemma {:induction false} FilesUnderIff(fs: Folders, dir: Path, p: Path)
    ensures p in FilesUnder(fs, dir) <==> dir <= p && Reached(fs, dir, p[|dir|..])
    decreases Below(fs, dir), 1, 0
  {
    if dir in fs && fs[dir].Entries? {
      FilesAmongIff(fs, dir, fs[dir].entries, p);
    }
  }

  lemma {:induction false} FilesAmongIff(fs: Folders, dir: Path, es: seq<Entry>, p: Path)
    requires dir in fs
    ensures p in FilesAmong(fs, dir, es) <==> dir < p && exists e :: e in es && LeadsTo(fs, dir, e, p[|dir|..])
    decreases Below(fs, dir), 0, |es|
  {
    if es != [] {
      var e := es[0];
      FilesAmongIff(fs, dir, es[1..], p);
      ChildBelow(fs, dir, e.name);
      FilesUnderIff(fs, dir + [e.name], p);
      assert es == [e] + es[1..];
      OneEntryIff(fs, dir, e, p);
    }
  }

  lemma OneEntryIff(fs: Folders, dir: Path, e: Entry, p: Path)
    requires var path := dir + [e.name];
      p in FilesUnder(fs, path) <==> path <= p && Reached(fs, path, p[|path|..])
    ensures p in FilesOf(fs, dir, e) <==> dir < p && LeadsTo(fs, dir, e, p[|dir|..])
  {
    hide FilesUnder;
    var path := dir + [e.name];
    assert path <= p <==> dir < p && p[|dir|] == e.name;
    assert path == p <==> path <= p && |p| == |dir| + 1;
    if dir < p {
      var rest := p[|dir|..];
      assert rest[1..] == p[|path|..] && rest[0] == p[|dir|];
    }
  }

  // ------------------------------------------------------------- files two walks share

  ghost predicate Shared(fs: Folders, a: Path, b: Path, p: Path) {
    p in FilesUnder(fs, a) && p in FilesUnder(fs, b)
  }

  // A file system with one file, each directory on its way listing the next.
  function OneFile(p: Path): Folders {
    map d | d in (set k | 0 <= k < |p| :: p[..k]) :: Entries([Entry(p[|d|], |d| + 1 < |p|, |d| + 1 == |p|)])
  }

  lemma {:induction false} OneFileReached(p: Path, k: nat)
    requires k < |p| && HasTomlExtension(p[|p| - 1])
    ensures Reached(OneFile(p), p[..k], p[k..])
    decreases |p| - k
  {
    var fs, d, rest, e := OneFile(p), p[..k], p[k..], Entry(p[k], k + 1 < |p|, k + 1 == |p|);
    assert d in fs && fs[d] == Entries([e]);
    if k + 1 < |p| {
      assert p[..k + 1] == d + [rest[0]] && p[k + 1..] == rest[1..];
      OneFileReached(p, k + 1);
    }
    assert LeadsTo(fs, d, e, rest);
  }

  lemma FoundInOneFile(a: Path, p: Path)
    requires a < p && p[|p| - 1] == "r.toml"
    ensures p in FilesUnder(OneFile(p), a)
  {
    hide OneFile, Reached, HasTomlExtension;
    TomlName();
    OneFileReached(p, |a|);
    assert p[..|a|] == a;
    FilesUnderIff(OneFile(p), a, p);
  }

  // Two directories can have a role file in common exactly when one is the other or lies
  // inside it.
  lemma SharedFileIff(a: Path, b: Path)
    ensures (exists fs: Folders, p: Path :: Shared(fs, a, b, p)) <==> a <= b || b <= a
  {
    hide FilesUnder, OneFile, Reached;
    if fs: Folders, p: Path :| Shared(fs, a, b, p) {
      FilesUnderIff(fs, a, p);
      FilesUnderIff(fs, b, p);
    }
    if a <= b || b <= a {
      var p := (if a <= b then b else a) + ["r.toml"];
      FoundInOneFile(a, p);
      FoundInOneFile(b, p);
      assert Shared(OneFile(p), a, b, p);
    }
  }

  lemma TomlName()
    ensures HasTomlExtension("r.toml")
  {
    var name, tail, extension := "r.toml", ".toml", "toml";
    NoDot(extension);
    assert tail[1..] == extension && LastDot(tail) == 0;
    assert name[1..] == tail && LastDot(name) == 1;
    assert name[2..] == extension;
  }

  lemma {:induction false} NoDot(s: string)
    requires '.' !in s
    ensures LastDot(s) == |s|
  {
    if s != "" {
      NoDot(s[1..]);
    }
  }
}
