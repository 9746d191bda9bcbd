/**
 The agent role loader (codex-rs/agent-roles/src/loader.rs): strict loading of one
 configuration, and lenient loading of layers that inherit from the ones below.

 Reading and parsing files, file metadata and directory listings are given by `Files`.
 */
module RoleLoader {
  import opened Ordering
  import opened Results
  import opened RoleConfig
  import opened RoleDiscovery

  datatype Role = Role(description: Option<string>, configFile: Option<Key>, nicknames: Option<seq<string>>)
  type Roles = map<string, Role>

  datatype RoleToml = RoleToml(description: Option<string>, configFile: Option<Key>, nicknames: Option<seq<string>>)
  type Declarations = map<string, RoleToml>

  datatype Meta = NoSuchPath | RegularFile | OtherKind
  datatype Files = Files(meta: Key -> Meta, contents: Key -> Contents, folders: Folders)

  datatype Agents = NoAgents | BadAgents | Declared(roles: Declarations)
  datatype Layer = Layer(agents: Agents, folder: Option<Key>)

  function NameKey(name: string): Key {
    [name]
  }

  // The order a BTreeMap is iterated in.
  function Names(s: set<string>): (r: seq<string>)
    ensures forall x :: x in r <==> x in s
    ensures |r| == |s|
  {
    NameKeyInjective();
    Sorted(s, NameKey)
  }

  lemma NameKeyInjective()
    ensures Injective(NameKey)
  {
    forall x, y | NameKey(x) == NameKey(y)
      ensures x == y
    {
      assert NameKey(x)[0] == NameKey(y)[0];
    }
  }

  lemma NamesDistinct(s: set<string>)
    ensures IsSorted(Names(s), NameKey)
  {
    NameKeyInjective();
    SortedIsSorted(s, NameKey);
  }

  // ------------------------------------------------------------------ declared roles

  function ConfigFileError(files: Files, configFile: Option<Key>): Option<RoleError> {
    if configFile.None? then None
    else match files.meta(configFile.value)
      case NoSuchPath => Some(MissingConfigFile)
      case OtherKind => Some(ConfigFileNotAFile)
      case RegularFile => None
  }

  function RoleFromToml(files: Files, toml: RoleToml): Result<Role, RoleError> {
    if ConfigFileError(files, toml.configFile).Some? then Err(ConfigFileError(files, toml.configFile).value)
    else
      var description := NormalizeDescription(toml.description);
      if description.Err? then Err(description.error)
      else
        var nicknames := NormalizeNicknames(toml.nicknames);
        if nicknames.Err? then Err(nicknames.error)
        else Ok(Role(description.value, toml.configFile, nicknames.value))
  }

  function Or<T>(a: Option<T>, b: Option<T>): Option<T> {
    if a.Some? then a else b
  }

  function ReadDeclared(files: Files, name: string, toml: RoleToml): Result<(string, Role), RoleError> {
    var role := RoleFromToml(files, toml);
    if role.Err? then Err(role.error)
    else if role.value.configFile.None? then Ok((name, role.value))
    else
      var parsed := ParseRoleFile(files.contents(role.value.configFile.value), Some(name));
      if parsed.Err? then Err(parsed.error)
      else
        Ok((parsed.value.name,
            Role(Or(parsed.value.description, role.value.description), role.value.configFile,
                 Or(parsed.value.nicknames, role.value.nicknames))))
  }

  // ----------------------------------------------------------------- strict loading

  function AddStrict(files: Files, decls: Declarations, roles: Roles, n: string): Result<Roles, RoleError>
    requires n in decls
  {
    var read := ReadDeclared(files, n, decls[n]);
    if read.Err? then Err(read.error)
    else if read.value.1.description.None? then Err(NoDescription(read.value.0))
    else if read.value.0 in roles then Err(DuplicateRole(read.value.0))
    else Ok(roles[read.value.0 := read.value.1])
  }

  function StrictScan(files: Files, decls: Declarations, names: seq<string>): Result<Roles, RoleError>
    requires forall n :: n in names ==> n in decls
  {
    if names == [] then Ok(map[])
    else
      var front, n := StrictScan(files, decls, names[..|names| - 1]), names[|names| - 1];
      if front.Err? then front else AddStrict(files, decls, front.value, n)
  }

  function LoadStrict(files: Files, agents: Option<Declarations>): Result<Roles, RoleError> {
    if agents.None? then Ok(map[]) else StrictScan(files, agents.value, Names(agents.value.Keys))
  }

  lemma {:induction false} StrictErrorStays(files: Files, decls: Declarations, names: seq<string>, k: nat)
    requires forall n :: n in names ==> n in decls
    requires k <= |names| && StrictScan(files, decls, names[..k]).Err?
    ensures StrictScan(files, decls, names) == StrictScan(files, decls, names[..k])
    decreases |names| - k
  {
    hide AddStrict;
    if k < |names| {
      assert names[..k + 1][..k] == names[..k];
      StrictErrorStays(files, decls, names, k + 1);
    } else {
      assert names[..k] == names;
    }
  }

  lemma StrictStep(files: Files, decls: Declarations, names: seq<string>, k: nat)
    requires forall n :: n in names ==> n in decls
    requires k < |names| && StrictScan(files, decls, names[..k]).Ok?
    ensures StrictScan(files, decls, names[..k + 1])
         == AddStrict(files, decls, StrictScan(files, decls, names[..k]).value, names[k])
  {
    hide AddStrict;
    assert names[..k + 1][..k] == names[..k];
  }

  lemma NothingStrict(files: Files, decls: Declarations)
    ensures StrictScan(files, decls, []) == Ok(map[])
  {
  }

  method LoadWithoutLayers(files: Files, agents: Option<Declarations>) returns (r: Result<Roles, RoleError>)
    ensures r == LoadStrict(files, agents)
  {
    hide ReadDeclared, Names, StrictScan;
    var roles: Roles := map[];
    if agents.None? {
      return Ok(roles);
    }
    var decls := agents.value;
    NothingStrict(files, decls);
    var names := Names(decls.Keys);
    for k := 0 to |names|
      invariant StrictScan(files, decls, names[..k]) == Ok(roles)
    {
      StrictStep(files, decls, names, k);
      var read := ReadDeclared(files, names[k], decls[names[k]]);
      if read.Err? {
        StrictErrorStays(files, decls, names, k + 1);
        return Err(read.error);
      }
      var (name, role) := read.value;
      if role.description.None? {
        StrictErrorStays(files, decls, names, k + 1);
        return Err(NoDescription(name));
      }
      if name in roles {
        StrictErrorStays(files, decls, names, k + 1);
        return Err(DuplicateRole(name));
      }
      roles := roles[name := role];
    }
    assert names[..|names|] == names;
    r := Ok(roles);
  }

  // -------------------------------------------------------------- one lenient layer

  datatype LayerScan = LayerScan(roles: Roles, files: set<Key>, warnings: seq<RoleError>)

  function AddDeclared(files: Files, decls: Declarations, s: LayerScan, n: string): LayerScan
    requires n in decls
  {
    var read := ReadDeclared(files, n, decls[n]);
    if read.Err? then s.(warnings := s.warnings + [read.error])
    else
      var (name, role) := read.value;
      var s1 := s.(files := s.files + if role.configFile.Some? then {role.configFile.value} else {});
      if name in s.roles then s1.(warnings := s.warnings + [DuplicateRole(name)])
      else s1.(roles := s.roles[name := role])
  }

  function DeclaredScan(files: Files, decls: Declarations, names: seq<string>): LayerScan
    requires forall n :: n in names ==> n in decls
  {
    if names == [] then LayerScan(map[], {}, [])
    else AddDeclared(files, decls, DeclaredScan(files, decls, names[..|names| - 1]), names[|names| - 1])
  }

  datatype RoleScan = RoleScan(roles: Roles, warnings: seq<RoleError>)

  function AddDiscovered(files: Files, declared: set<Key>, s: RoleScan, p: Key): RoleScan {
    if p in declared then s
    else
      var parsed := ParseRoleFile(files.contents(p), None);
      if parsed.Err? then s.(warnings := s.warnings + [parsed.error])
      else if parsed.value.name in s.roles then s.(warnings := s.warnings + [DuplicateRole(parsed.value.name)])
      else
        s.(roles := s.roles[parsed.value.name := Role(parsed.value.description, Some(p), parsed.value.nicknames)])
  }

  function DiscoveredScan(files: Files, declared: set<Key>, paths: seq<Key>): RoleScan {
    if paths == [] then RoleScan(map[], [])
    else AddDiscovered(files, declared, DiscoveredScan(files, declared, paths[..|paths| - 1]), paths[|paths| - 1])
  }

  ghost function Ordered(m: multiset<Key>): (r: seq<Key>)
    ensures InOrder(r) && multiset(r) == m
    decreases |m|
  {
    if m == multiset{} then [] else var p :| p in m; Insert(Ordered(m - multiset{p}), p)
  }

  ghost function RoleFilesIn(files: Files, dir: Key): seq<Key> {
    Ordered(FilesUnder(files.folders, dir))
  }

  method DiscoverAgentRoles(files: Files, dir: Key, declared: set<Key>) returns (r: Result<RoleScan, ()>)
    ensures r.Err? <==> AnyDenied(files.folders, dir)
    ensures r.Ok? ==> r.value == DiscoveredScan(files, declared, RoleFilesIn(files, dir))
  {
    hide FilesUnder, AnyDenied, DiscoveredScan;
    var found := CollectRoleFiles(files.folders, dir);
    if found.Err? {
      return Err(());
    }
    InOrderUnique(found.value, RoleFilesIn(files, dir));
    var roles, warnings := ScanDiscovered(files, declared, found.value);
    r := Ok(RoleScan(roles, warnings));
  }

  method ScanDiscovered(files: Files, declared: set<Key>, paths: seq<Key>) returns (roles: Roles, warnings: seq<RoleError>)
    ensures RoleScan(roles, warnings) == DiscoveredScan(files, declared, paths)
  {
    hide ParseRoleFile;
    roles, warnings := map[], [];
    for k := 0 to |paths|
      invariant RoleScan(roles, warnings) == DiscoveredScan(files, declared, paths[..k])
    {
      assert paths[..k + 1][..k] == paths[..k];
      if paths[k] in declared {
        continue;
      }
      var parsed := ParseRoleFile(files.contents(paths[k]), None);
      if parsed.Err? {
        warnings := warnings + [parsed.error];
        continue;
      }
      if parsed.value.name in roles {
        warnings := warnings + [DuplicateRole(parsed.value.name)];
        continue;
      }
      roles := roles[parsed.value.name := Role(parsed.value.description, Some(paths[k]), parsed.value.nicknames)];
    }
    assert paths[..|paths|] == paths;
  }

  // `agent_roles_directory_for_config_folder`.
  function AgentsDirectory(folder: Key, rzcodexNamespace: bool): Key {
    if rzcodexNamespace && folder != [] && folder[|folder| - 1] == ".codex" then
      folder[..|folder| - 1] + [".rzcodex"] + ["agents"]
    else folder + ["agents"]
  }

  predicate IsCodexFolder(folder: Key) {
    folder != [] && folder[|folder| - 1] == ".codex"
  }

  // The walk of one layer under the separate namespace and the walk of a `.codex` layer
  // under the official one can have a file in common exactly when one of the folders lies
  // inside the other's role directory.
  lemma NamespaceIsSeparateIff(folder: Key, other: Key)
    requires IsCodexFolder(other)
    ensures (exists fs: Folders, p: Key :: Shared(fs, AgentsDirectory(folder, true), AgentsDirectory(other, false), p))
      <==> AgentsDirectory(folder, true) <= other || AgentsDirectory(other, false) <= folder
  {
    var a, o := AgentsDirectory(folder, true), AgentsDirectory(other, false);
    SharedFileIff(a, o);
    RootsDiffer(folder, other);
    assert o[..|o| - 1] == other;
    AgentsParent(folder, o);
  }

  lemma RootsDiffer(folder: Key, other: Key)
    requires IsCodexFolder(other)
    ensures AgentsDirectory(folder, true) != AgentsDirectory(other, false)
  {
    var a, o := AgentsDirectory(folder, true), AgentsDirectory(other, false);
    assert o[..|o| - 1] == other;
    assert ".codex"[1] != ".rzcodex"[1];
    assert a[..|a| - 1] != other;
  }

  // No role directory of an official layer is the `.rzcodex` folder itself.
  lemma AgentsParent(folder: Key, o: Key)
    requires o != [] && o[|o| - 1] == "agents" && o != AgentsDirectory(folder, true)
    ensures o <= AgentsDirectory(folder, true) <==> o <= folder
  {
    var a := AgentsDirectory(folder, true);
    assert a[|a| - 1] == "agents";
    if IsCodexFolder(folder) {
      assert a[|a| - 2] == ".rzcodex" && a[..|a| - 2] == folder[..|folder| - 1];
      assert ".rzcodex"[0] != "agents"[0] && ".codex"[0] != "agents"[0];
    } else {
      assert a[..|a| - 1] == folder;
    }
  }

  // In particular two layers of one `.codex` folder never do, and those of any other
  // folder always can: only `.codex` folders have a separate role directory.
  lemma SameFolderSharesIff(folder: Key)
    ensures (exists fs: Folders, p: Key :: Shared(fs, AgentsDirectory(folder, true), AgentsDirectory(folder, false), p))
      <==> !IsCodexFolder(folder)
  {
    var a, o := AgentsDirectory(folder, true), AgentsDirectory(folder, false);
    SharedFileIff(a, o);
    if IsCodexFolder(folder) {
      NamespaceIsSeparateIff(folder, folder);
    }
  }

  // A `.codex` folder inside a role directory: the recursive walk finds its roles.
  lemma NestedFolderIsShared()
    ensures exists fs: Folders, p: Key ::
      Shared(fs, AgentsDirectory(["a"], true), AgentsDirectory(["a", "agents", ".codex"], false), p)
  {
    var other := ["a", "agents", ".codex"];
    NamespaceIsSeparateIff(["a"], other);
    assert other[2] == ".codex" && AgentsDirectory(["a"], true) == other[..2];
  }

  // Roles found in the folder join the declared ones; a name already declared stays.
  function JoinWarnings(s: LayerScan, d: RoleScan): seq<RoleError> {
    s.warnings + d.warnings + Duplicates(Names(set n | n in d.roles && n in s.roles))
  }

  function Join(s: LayerScan, d: RoleScan): RoleScan {
    RoleScan(d.roles + s.roles, JoinWarnings(s, d))
  }

  function OwnScan(files: Files, layer: Layer): LayerScan {
    match layer.agents
    case NoAgents => LayerScan(map[], {}, [])
    case BadAgents => LayerScan(map[], {}, [MalformedAgents])
    case Declared(decls) => DeclaredScan(files, decls, Names(decls.Keys))
  }

  // One layer: None when its directory cannot be read.
  ghost function LayerRoles(files: Files, layer: Layer, rzcodexNamespace: bool): Option<RoleScan> {
    var own := OwnScan(files, layer);
    if layer.folder.None? then Some(RoleScan(own.roles, own.warnings))
    else
      var dir := AgentsDirectory(layer.folder.value, rzcodexNamespace);
      if AnyDenied(files.folders, dir) then None
      else Some(Join(own, DiscoveredScan(files, own.files, RoleFilesIn(files, dir))))
  }

  method ScanDeclared(files: Files, decls: Declarations) returns (roles: Roles, declared: set<Key>, warnings: seq<RoleError>)
    ensures LayerScan(roles, declared, warnings) == DeclaredScan(files, decls, Names(decls.Keys))
  {
    hide ReadDeclared, Names;
    var names := Names(decls.Keys);
    roles, declared, warnings := map[], {}, [];
    for k := 0 to |names|
      invariant LayerScan(roles, declared, warnings) == DeclaredScan(files, decls, names[..k])
    {
      assert names[..k + 1][..k] == names[..k];
      var read := ReadDeclared(files, names[k], decls[names[k]]);
      if read.Err? {
        warnings := warnings + [read.error];
        continue;
      }
      var (name, role) := read.value;
      if role.configFile.Some? {
        declared := declared + {role.configFile.value};
      }
      if name in roles {
        warnings := warnings + [DuplicateRole(name)];
        continue;
      }
      roles := roles[name := role];
    }
    assert names[..|names|] == names;
  }

  // One more discovered role, over the declared ones.
  lemma JoinSnoc(found: Roles, own: Roles, names: seq<string>, k: nat)
    requires IsSorted(names, NameKey) && k < |names| && names[k] in found
    ensures var before, n := Restrict(found, names[..k]) + own, names[k];
      && (n in before <==> n in own)
      && Restrict(found, names[..k + 1]) + own == if n in own then before else before[n := found[n]]
  {
    hide Restrict, IsSorted;
    RestrictSnoc(found, names, k);
  }

  method JoinDiscovered(own: LayerScan, found: RoleScan) returns (roles: Roles, warnings: seq<RoleError>)
    ensures RoleScan(roles, warnings) == Join(own, found)
  {
    hide Names, Duplicates, Restrict, IsSorted, Keep;
    KeepNone(set n | n in found.roles && n in own.roles);
    var names := Names(found.roles.Keys);
    NamesDistinct(found.roles.Keys);
    roles, warnings := own.roles, own.warnings + found.warnings;
    ghost var clashing := set n | n in found.roles && n in own.roles;
    NothingListed(found.roles);
    for k := 0 to |names|
      invariant roles == Restrict(found.roles, names[..k]) + own.roles
      invariant warnings == own.warnings + found.warnings + Duplicates(Keep(names[..k], clashing))
    {
      KeepSnoc(names, k, clashing);
      DuplicatesSnoc(Keep(names[..k], clashing), names[k]);
      JoinSnoc(found.roles, own.roles, names, k);
      if names[k] in roles {
        warnings := warnings + [DuplicateRole(names[k])];
        continue;
      }
      roles := roles[names[k] := found.roles[names[k]]];
    }
    assert names[..|names|] == names;
    NamesKeep(found.roles.Keys, clashing);
    RestrictAll(found.roles, names);
  }

  lemma KeepNone(t: set<string>)
    ensures Keep([], t) == []
  {
  }

  function Restrict(roles: Roles, names: seq<string>): Roles {
    map n | n in names && n in roles :: roles[n]
  }

  lemma NothingListed(roles: Roles)
    ensures Restrict(roles, []) == map[] && Duplicates([]) == []
  {
  }

  lemma RestrictAll(roles: Roles, names: seq<string>)
    requires forall n :: n in roles <==> n in names
    ensures Restrict(roles, names) == roles
  {
  }

  lemma RestrictSnoc(roles: Roles, names: seq<string>, k: nat)
    requires IsSorted(names, NameKey) && k < |names| && names[k] in roles
    ensures names[k] !in Restrict(roles, names[..k])
    ensures Restrict(roles, names[..k + 1]) == Restrict(roles, names[..k])[names[k] := roles[names[k]]]
  {
    hide KeyLe;
    assert names[..k + 1] == names[..k] + [names[k]];
    assert names[k] !in names[..k];
  }

  function Duplicates(names: seq<string>): seq<RoleError> {
    seq(|names|, i requires 0 <= i < |names| => DuplicateRole(names[i]))
  }

  lemma DuplicatesSnoc(names: seq<string>, n: string)
    ensures Duplicates(names + [n]) == Duplicates(names) + [DuplicateRole(n)]
    ensures Duplicates(names + []) == Duplicates(names)
  {
    assert names + [] == names;
  }

  lemma NamesKeep(s: set<string>, t: set<string>)
    requires t <= s
    ensures Keep(Names(s), t) == Names(t)
  {
    NameKeyInjective();
    KeepSorted(s, t, NameKey);
  }

  // ------------------------------------------------------------- merging the layers

  // `merge_missing_role_fields`.
  function MergeMissing(role: Role, fallback: Option<Role>): Role {
    if fallback.None? then role
    else
      Role(Or(role.description, fallback.value.description), Or(role.configFile, fallback.value.configFile),
           Or(role.nicknames, fallback.value.nicknames))
  }

  function Lookup(roles: Roles, n: string): Option<Role> {
    if n in roles then Some(roles[n]) else None
  }

  function Merged(roles: Roles, layer: Roles, n: string): Role
    requires n in layer
  {
    MergeMissing(layer[n], Lookup(roles, n))
  }

  function Undescribed(roles: Roles, layer: Roles): set<string> {
    set n | n in layer && Merged(roles, layer, n).description.None?
  }

  // The roles after some names of a layer have been merged in.
  function MergedOn(roles: Roles, layer: Roles, names: set<string>): Roles {
    roles + map n | n in layer && n in names && n !in Undescribed(roles, layer) :: Merged(roles, layer, n)
  }

  function MissingDescriptions(names: seq<string>): seq<RoleError> {
    seq(|names|, i requires 0 <= i < |names| => NoDescription(names[i]))
  }

  function MergeLayer(s: RoleScan, layer: Roles): RoleScan {
    RoleScan(MergedOn(s.roles, layer, layer.Keys),
             s.warnings + MissingDescriptions(Names(Undescribed(s.roles, layer))))
  }

  lemma MergedOnSnoc(roles: Roles, layer: Roles, names: seq<string>, k: nat)
    requires IsSorted(names, NameKey) && k < |names| && names[k] in layer
    ensures var before, n := MergedOn(roles, layer, Elements(names[..k])), names[k];
      var after := MergedOn(roles, layer, Elements(names[..k + 1]));
      && Lookup(before, n) == Lookup(roles, n)
      && after == if n in Undescribed(roles, layer) then before else before[n := Merged(roles, layer, n)]
  {
    hide KeyLe, Merged, MergedOn;
    var done, n := Elements(names[..k]), names[k];
    assert names[..k + 1] == names[..k] + [n];
    assert n !in names[..k];
    assert Elements(names[..k + 1]) == done + {n};
    MergedOnMore(roles, layer, done, n);
  }

  lemma MergedOnMore(roles: Roles, layer: Roles, done: set<string>, n: string)
    requires n in layer && n !in done
    ensures var before := MergedOn(roles, layer, done);
      && Lookup(before, n) == Lookup(roles, n)
      && MergedOn(roles, layer, done + {n})
         == if n in Undescribed(roles, layer) then before else before[n := Merged(roles, layer, n)]
  {
    hide Merged, Undescribed;
  }

  lemma MissingSnoc(names: seq<string>, n: string)
    ensures MissingDescriptions(names + [n]) == MissingDescriptions(names) + [NoDescription(n)]
    ensures MissingDescriptions(names + []) == MissingDescriptions(names)
    ensures MissingDescriptions([]) == []
  {
    assert names + [] == names;
  }

  lemma UndescribedIff(roles: Roles, layer: Roles, n: string)
    requires n in layer
    ensures n in Undescribed(roles, layer) <==> Merged(roles, layer, n).description.None?
  {
  }

  lemma UndescribedNamed(roles: Roles, layer: Roles)
    ensures Undescribed(roles, layer) <= layer.Keys
  {
  }

  method MergeLayerRoles(roles0: Roles, layerRoles: Roles, warnings0: seq<RoleError>)
      returns (roles: Roles, warnings: seq<RoleError>)
    ensures RoleScan(roles, warnings) == MergeLayer(RoleScan(roles0, warnings0), layerRoles)
  {
    hide Names, MissingDescriptions, MergedOn, Undescribed, Keep, IsSorted, MergeMissing;
    var names := Names(layerRoles.Keys);
    NamesDistinct(layerRoles.Keys);
    roles, warnings := roles0, warnings0;
    ghost var bare := Undescribed(roles0, layerRoles);
    MergedNone(roles0, layerRoles);
    MissingSnoc([], "");
    KeepNone(bare);
    for k := 0 to |names|
      invariant roles == MergedOn(roles0, layerRoles, Elements(names[..k]))
      invariant warnings == warnings0 + MissingDescriptions(Keep(names[..k], bare))
    {
      KeepSnoc(names, k, bare);
      MissingSnoc(Keep(names[..k], bare), names[k]);
      MergedOnSnoc(roles0, layerRoles, names, k);
      UndescribedIff(roles0, layerRoles, names[k]);
      var merged := MergeMissing(layerRoles[names[k]], Lookup(roles, names[k]));
      if merged.description.None? {
        warnings := warnings + [NoDescription(names[k])];
        continue;
      }
      roles := roles[names[k] := merged];
    }
    assert names[..|names|] == names;
    UndescribedNamed(roles0, layerRoles);
    NamesKeep(layerRoles.Keys, bare);
    assert Elements(names) == layerRoles.Keys;
  }

  lemma MergedNone(roles: Roles, layer: Roles)
    ensures MergedOn(roles, layer, Elements([])) == roles
  {
  }

  ghost function LoadLayers(files: Files, layers: seq<Layer>, rzcodexNamespace: bool): Option<RoleScan> {
    if layers == [] then Some(RoleScan(map[], []))
    else
      var below := LoadLayers(files, layers[..|layers| - 1], rzcodexNamespace);
      var top := LayerRoles(files, layers[|layers| - 1], rzcodexNamespace);
      if below.None? || top.None? then None
      else Some(MergeLayer(below.value.(warnings := below.value.warnings + top.value.warnings), top.value.roles))
  }

  lemma {:induction false} LayersErrorStays(files: Files, layers: seq<Layer>, ns: bool, k: nat)
    requires k <= |layers| && LoadLayers(files, layers[..k], ns).None?
    ensures LoadLayers(files, layers, ns).None?
    decreases |layers| - k
  {
    hide LayerRoles, MergeLayer;
    if k < |layers| {
      assert layers[..k + 1][..k] == layers[..k];
      LayersErrorStays(files, layers, ns, k + 1);
    } else {
      assert layers[..k] == layers;
    }
  }

  method LoadOneLayer(files: Files, layer: Layer, ns: bool) returns (r: Option<RoleScan>)
    ensures r == LayerRoles(files, layer, ns)
  {
    hide AnyDenied, RoleFilesIn, DiscoveredScan, DeclaredScan, Join;
    var roles: Roles, declared: set<Key>, warnings: seq<RoleError> := map[], {}, [];
    match layer.agents {
      case NoAgents =>
      case BadAgents =>
        warnings := [MalformedAgents];
      case Declared(decls) =>
        roles, declared, warnings := ScanDeclared(files, decls);
    }
    if layer.folder.None? {
      return Some(RoleScan(roles, warnings));
    }
    ghost var own := LayerScan(roles, declared, warnings);
    var found := DiscoverAgentRoles(files, AgentsDirectory(layer.folder.value, ns), declared);
    if found.Err? {
      return None;
    }
    roles, warnings := JoinDiscovered(LayerScan(roles, declared, warnings), found.value);
    r := Some(RoleScan(roles, warnings));
  }

  // `load_agent_roles`: without layers the strict loader, otherwise the layers low to
  // high; None stands for the directory error that ends the load.
  method LoadAgentRoles(files: Files, agents: Option<Declarations>, layers: seq<Layer>, ns: bool)
      returns (r: Result<RoleScan, Option<RoleError>>)
    ensures layers == [] ==> match LoadStrict(files, agents)
      case Ok(roles) => r == Ok(RoleScan(roles, []))
      case Err(e) => r == Err(Some(e))
    ensures layers != [] ==> match LoadLayers(files, layers, ns)
      case Some(scan) => r == Ok(scan)
      case None => r == Err(None)
  {
    hide LayerRoles, MergeLayer, LoadStrict;
    if layers == [] {
      var strict := LoadWithoutLayers(files, agents);
      match strict {
        case Ok(roles) => return Ok(RoleScan(roles, []));
        case Err(e) => return Err(Some(e));
      }
    }
    var roles: Roles, warnings: seq<RoleError> := map[], [];
    for k := 0 to |layers|
      invariant LoadLayers(files, layers[..k], ns) == Some(RoleScan(roles, warnings))
    {
      assert layers[..k + 1][..k] == layers[..k];
      var layer := LoadOneLayer(files, layers[k], ns);
      if layer.None? {
        LayersErrorStays(files, layers, ns, k + 1);
        return Err(None);
      }
      roles, warnings := MergeLayerRoles(roles, layer.value.roles, warnings + layer.value.warnings);
    }
    assert layers[..|layers|] == layers;
    r := Ok(RoleScan(roles, warnings));
  }

  // ------------------------------------------------- the closed form of the layering

  ghost function MergeAll(ls: seq<Roles>): RoleScan {
    if ls == [] then RoleScan(map[], []) else MergeLayer(MergeAll(ls[..|ls| - 1]), ls[|ls| - 1])
  }

  // The lowest layer that describes a role, or the number of layers.
  ghost function FirstDescribed(ls: seq<Roles>, n: string): (i: nat)
    ensures i <= |ls|
    ensures i < |ls| ==> n in ls[i] && ls[i][n].description.Some?
    ensures forall k :: 0 <= k < i && n in ls[k] ==> ls[k][n].description.None?
  {
    if ls == [] then 0
    else
      var i, top := FirstDescribed(ls[..|ls| - 1], n), ls[|ls| - 1];
      if i < |ls| - 1 then i
      else if n in top && top[n].description.Some? then i
      else |ls|
  }

  // The last value a field is given from layer `from` upward.
  ghost function LastDescription(ls: seq<Roles>, n: string, from: nat): Option<string> {
    if |ls| <= from then None
    else Or(if n in ls[|ls| - 1] then ls[|ls| - 1][n].description else None, LastDescription(ls[..|ls| - 1], n, from))
  }

  ghost function LastConfigFile(ls: seq<Roles>, n: string, from: nat): Option<Key> {
    if |ls| <= from then None
    else Or(if n in ls[|ls| - 1] then ls[|ls| - 1][n].configFile else None, LastConfigFile(ls[..|ls| - 1], n, from))
  }

  ghost function LastNicknames(ls: seq<Roles>, n: string, from: nat): Option<seq<string>> {
    if |ls| <= from then None
    else Or(if n in ls[|ls| - 1] then ls[|ls| - 1][n].nicknames else None, LastNicknames(ls[..|ls| - 1], n, from))
  }

  // The layers below a bound that name a role.
  ghost function Mentions(ls: seq<Roles>, n: string, bound: nat): set<nat>
    requires bound <= |ls|
  {
    set i: nat | i < bound && n in ls[i]
  }

  ghost function UndescribedLayers(ls: seq<Roles>, n: string): set<nat> {
    Mentions(ls, n, FirstDescribed(ls, n))
  }

  lemma MergeLayerAt(s: RoleScan, layer: Roles, n: string)
    ensures var r := MergeLayer(s, layer).roles;
      Lookup(r, n) ==
        if n in layer && Merged(s.roles, layer, n).description.Some? then Some(Merged(s.roles, layer, n))
        else Lookup(s.roles, n)
  {
  }

  // A role is loaded exactly when some layer describes it, with each field as last
  // given from the lowest describing layer upward.
  lemma {:induction false} LayersClosedForm(ls: seq<Roles>, n: string)
    ensures var i := FirstDescribed(ls, n);
      Lookup(MergeAll(ls).roles, n) ==
        if i == |ls| then None
        else Some(Role(LastDescription(ls, n, i), LastConfigFile(ls, n, i), LastNicknames(ls, n, i)))
    ensures n in MergeAll(ls).roles ==> MergeAll(ls).roles[n].description.Some?
    decreases |ls|
  {
    if ls != [] {
      var front, top := ls[..|ls| - 1], ls[|ls| - 1];
      LayersClosedForm(front, n);
      MergeLayerAt(MergeAll(front), top, n);
      var i := FirstDescribed(ls, n);
      if i == |ls| - 1 {
        assert LastDescription(front, n, i) == None && LastConfigFile(front, n, i) == None;
        assert LastNicknames(front, n, i) == None;
      }
    }
  }

  // Each layer below that names the role without a description gives one warning.
  lemma {:induction false} LayersWarnings(ls: seq<Roles>, n: string)
    ensures multiset(MergeAll(ls).warnings)[NoDescription(n)] == |UndescribedLayers(ls, n)|
    ensures forall e :: e in MergeAll(ls).warnings ==> e.NoDescription?
    decreases |ls|
  {
    hide Undescribed, MergedOn, FirstDescribed, UndescribedLayers, Names, IsSorted;
    if ls == [] {
      NoLayers(n);
    } else {
      var front, top := ls[..|ls| - 1], ls[|ls| - 1];
      LayersWarnings(front, n);
      LayersClosedForm(front, n);
      var s := MergeAll(front);
      var bare := Undescribed(s.roles, top);
      NamesDistinct(bare);
      MissingCount(Names(bare), n);
      UndescribedGrow(ls, n);
      BareIff(ls, s.roles, n);
    }
  }

  lemma NoLayers(n: string)
    ensures |UndescribedLayers([], n)| == 0
  {
  }

  // The top layer leaves a role undescribed exactly when no layer describes it.
  lemma BareIff(ls: seq<Roles>, below: Roles, n: string)
    requires ls != []
    requires var front := ls[..|ls| - 1];
      && (n in below <==> FirstDescribed(front, n) < |front|)
      && (n in below ==> below[n].description.Some?)
    ensures n in Undescribed(below, ls[|ls| - 1]) <==> n in ls[|ls| - 1] && FirstDescribed(ls, n) == |ls|
  {
    FirstDescribedStep(ls, n);
  }

  lemma UndescribedGrow(ls: seq<Roles>, n: string)
    requires ls != []
    ensures |UndescribedLayers(ls, n)| == |UndescribedLayers(ls[..|ls| - 1], n)|
      + if n in ls[|ls| - 1] && FirstDescribed(ls, n) == |ls| then 1 else 0
  {
    hide FirstDescribed, Mentions;
    FirstDescribedStep(ls, n);
    MentionsFront(ls, n, FirstDescribed(ls[..|ls| - 1], n));
    MentionsAll(ls, n);
  }

  lemma MentionsFront(ls: seq<Roles>, n: string, bound: nat)
    requires bound < |ls|
    ensures Mentions(ls, n, bound) == Mentions(ls[..|ls| - 1], n, bound)
  {
  }

  lemma MentionsAll(ls: seq<Roles>, n: string)
    requires ls != []
    ensures |Mentions(ls, n, |ls|)| == |Mentions(ls, n, |ls| - 1)| + if n in ls[|ls| - 1] then 1 else 0
  {
    var last: nat := |ls| - 1;
    var below, all := Mentions(ls, n, last), Mentions(ls, n, |ls|);
    if n in ls[last] {
      assert all == below + {last} && last !in below;
    } else {
      assert all == below;
    }
  }

  lemma FirstDescribedStep(ls: seq<Roles>, n: string)
    requires ls != []
    ensures var front := ls[..|ls| - 1];
      FirstDescribed(ls, n) == FirstDescribed(front, n)
      || (FirstDescribed(front, n) == |ls| - 1 && FirstDescribed(ls, n) == |ls|)
  {
  }

  lemma {:induction false} MissingCount(names: seq<string>, n: string)
    requires IsSorted(names, NameKey)
    ensures multiset(MissingDescriptions(names))[NoDescription(n)] == if n in names then 1 else 0
    decreases |names|
  {
    hide KeyLe;
    if names != [] {
      var front, last := names[..|names| - 1], names[|names| - 1];
      MissingCount(front, n);
      MissingSnoc(front, last);
      assert names == front + [last] && last !in front;
    }
  }

  // The loader itself: its roles are the closed form over what its layers define.
  ghost predicate Defines(files: Files, layers: seq<Layer>, ns: bool, ls: seq<Roles>) {
    |ls| == |layers|
    && forall i :: 0 <= i < |layers| ==>
         LayerRoles(files, layers[i], ns).Some? && LayerRoles(files, layers[i], ns).value.roles == ls[i]
  }

  // Only the merge says that a role has no description.
  ghost predicate Plain(warnings: seq<RoleError>) {
    forall e :: e in warnings ==> !e.NoDescription?
  }

  lemma {:induction false} NicknameErrorsPlain(names: seq<string>)
    ensures NormalizeList(names).Err? ==> !NormalizeList(names).error.NoDescription?
    decreases |names|
  {
    if names != [] {
      NicknameErrorsPlain(names[..|names| - 1]);
    }
  }

  lemma NicknamesPlain(names: Option<seq<string>>)
    ensures NormalizeNicknames(names).Err? ==> !NormalizeNicknames(names).error.NoDescription?
  {
    hide NormalizeList;
    if names.Some? {
      NicknameErrorsPlain(names.value);
    }
  }

  lemma DescriptionPlain(description: Option<string>)
    ensures NormalizeDescription(description).Err? ==> !NormalizeDescription(description).error.NoDescription?
  {
    hide Trim;
  }

  lemma ParseErrorsPlain(contents: Contents, hint: Option<string>)
    ensures ParseRoleFile(contents, hint).Err? ==> !ParseRoleFile(contents, hint).error.NoDescription?
  {
    hide Trim, NormalizeNicknames, NormalizeDescription, IsTrimmed;
    if contents.RoleFile? {
      NicknamesPlain(contents.raw.nicknames);
      DescriptionPlain(contents.raw.description);
    }
  }

  lemma TomlErrorsPlain(files: Files, toml: RoleToml)
    ensures RoleFromToml(files, toml).Err? ==> !RoleFromToml(files, toml).error.NoDescription?
    ensures RoleFromToml(files, toml).Ok? ==> RoleFromToml(files, toml).value.configFile == toml.configFile
  {
    hide NormalizeNicknames, NormalizeDescription;
    NicknamesPlain(toml.nicknames);
    DescriptionPlain(toml.description);
  }

  lemma ReadErrorsPlain(files: Files, name: string, toml: RoleToml)
    ensures ReadDeclared(files, name, toml).Err? ==> !ReadDeclared(files, name, toml).error.NoDescription?
  {
    hide ParseRoleFile, RoleFromToml;
    TomlErrorsPlain(files, toml);
    if toml.configFile.Some? {
      ParseErrorsPlain(files.contents(toml.configFile.value), Some(name));
    }
  }

  lemma {:induction false} DeclaredPlain(files: Files, decls: Declarations, names: seq<string>)
    requires forall n :: n in names ==> n in decls
    ensures Plain(DeclaredScan(files, decls, names).warnings)
    decreases |names|
  {
    hide ReadDeclared;
    if names != [] {
      var n := names[|names| - 1];
      DeclaredPlain(files, decls, names[..|names| - 1]);
      ReadErrorsPlain(files, n, decls[n]);
    }
  }

  lemma {:induction false} DiscoveredPlain(files: Files, declared: set<Key>, paths: seq<Key>)
    ensures Plain(DiscoveredScan(files, declared, paths).warnings)
    decreases |paths|
  {
    hide ParseRoleFile;
    if paths != [] {
      DiscoveredPlain(files, declared, paths[..|paths| - 1]);
      ParseErrorsPlain(files.contents(paths[|paths| - 1]), None);
    }
  }

  lemma LayerPlain(files: Files, layer: Layer, ns: bool)
    ensures LayerRoles(files, layer, ns).Some? ==> Plain(LayerRoles(files, layer, ns).value.warnings)
  {
    hide DeclaredScan, DiscoveredScan, AnyDenied, RoleFilesIn, Names;
    if layer.agents.Declared? {
      DeclaredPlain(files, layer.agents.roles, Names(layer.agents.roles.Keys));
    }
    if layer.folder.Some? {
      DiscoveredPlain(files, OwnScan(files, layer).files, RoleFilesIn(files, AgentsDirectory(layer.folder.value, ns)));
    }
  }

  // Adding a layer to two scans with the same roles adds the same mentions.
  lemma MergePlain(below: RoleScan, same: RoleScan, own: seq<RoleError>, layer: Roles, n: string)
    requires Plain(own) && below.roles == same.roles
    requires multiset(below.warnings)[NoDescription(n)] == multiset(same.warnings)[NoDescription(n)]
    ensures var a, b := MergeLayer(below.(warnings := below.warnings + own), layer), MergeLayer(same, layer);
      a.roles == b.roles && multiset(a.warnings)[NoDescription(n)] == multiset(b.warnings)[NoDescription(n)]
  {
    hide MergedOn, MissingDescriptions, Undescribed, Names;
    assert NoDescription(n) !in own;
  }

  lemma {:induction false} LoadLayersIsMergeAll(files: Files, layers: seq<Layer>, ns: bool, ls: seq<Roles>, n: string)
    requires Defines(files, layers, ns, ls)
    ensures LoadLayers(files, layers, ns).Some?
    ensures LoadLayers(files, layers, ns).value.roles == MergeAll(ls).roles
    ensures multiset(LoadLayers(files, layers, ns).value.warnings)[NoDescription(n)]
         == multiset(MergeAll(ls).warnings)[NoDescription(n)]
    decreases |layers|
  {
    hide LayerRoles, MergeLayer, Plain;
    if layers != [] {
      var front, top := layers[..|layers| - 1], layers[|layers| - 1];
      LoadLayersIsMergeAll(files, front, ns, ls[..|ls| - 1], n);
      LayerPlain(files, top, ns);
      var own := LayerRoles(files, top, ns).value;
      MergePlain(LoadLayers(files, front, ns).value, MergeAll(ls[..|ls| - 1]), own.warnings, own.roles, n);
    }
  }

  // The loader over any layers whose directories can be read: its roles are the closed
  // form, and each undescribed mention below gives exactly one warning.
  lemma LoadLayersClosedForm(files: Files, layers: seq<Layer>, ns: bool, ls: seq<Roles>, n: string)
    requires Defines(files, layers, ns, ls)
    ensures LoadLayers(files, layers, ns).Some?
    ensures var i := FirstDescribed(ls, n);
      Lookup(LoadLayers(files, layers, ns).value.roles, n) ==
        if i == |ls| then None
        else Some(Role(LastDescription(ls, n, i), LastConfigFile(ls, n, i), LastNicknames(ls, n, i)))
    ensures multiset(LoadLayers(files, layers, ns).value.warnings)[NoDescription(n)] == |UndescribedLayers(ls, n)|
  {
    hide LoadLayers, MergeAll, Defines, LayerRoles;
    LoadLayersIsMergeAll(files, layers, ns, ls, n);
    LayersClosedForm(ls, n);
    LayersWarnings(ls, n);
  }

  // ---------------------------------------------------------- what is loaded is usable

  ghost predicate GoodRole(r: Role) {
    && (r.description.Some? ==> r.description.value != "" && IsTrimmed(r.description.value))
    && NormalizeNicknames(r.nicknames) == Ok(r.nicknames)
  }

  ghost predicate GoodRoles(roles: Roles) {
    forall n :: n in roles ==> GoodRole(roles[n])
  }

  lemma ParsedGood(contents: Contents, hint: Option<string>, configFile: Option<Key>)
    ensures var r := ParseRoleFile(contents, hint);
      r.Ok? ==> GoodRole(Role(r.value.description, configFile, r.value.nicknames))
  {
    hide Trim, NormalizeList, IsTrimmed;
    if contents.RoleFile? {
      NicknamesFixed(contents.raw.nicknames);
    }
  }

  lemma ReadGood(files: Files, name: string, toml: RoleToml)
    ensures var r := ReadDeclared(files, name, toml); r.Ok? ==> GoodRole(r.value.1)
  {
    hide ParseRoleFile, NormalizeNicknames, NormalizeDescription;
    NicknamesFixed(toml.nicknames);
    if toml.configFile.Some? {
      ParsedGood(files.contents(toml.configFile.value), Some(name), None);
    }
  }

  lemma {:induction false} DeclaredGood(files: Files, decls: Declarations, names: seq<string>)
    requires forall n :: n in names ==> n in decls
    ensures GoodRoles(DeclaredScan(files, decls, names).roles)
    decreases |names|
  {
    hide ReadDeclared, GoodRole;
    if names != [] {
      var n := names[|names| - 1];
      DeclaredGood(files, decls, names[..|names| - 1]);
      ReadGood(files, n, decls[n]);
    }
  }

  lemma {:induction false} DiscoveredGood(files: Files, declared: set<Key>, paths: seq<Key>)
    ensures GoodRoles(DiscoveredScan(files, declared, paths).roles)
    decreases |paths|
  {
    hide ParseRoleFile, GoodRole;
    if paths != [] {
      DiscoveredGood(files, declared, paths[..|paths| - 1]);
      ParsedGood(files.contents(paths[|paths| - 1]), None, Some(paths[|paths| - 1]));
    }
  }

  lemma NoRolesGood()
    ensures GoodRoles(map[])
  {
  }

  lemma JoinGood(s: LayerScan, d: RoleScan)
    requires GoodRoles(s.roles) && GoodRoles(d.roles)
    ensures GoodRoles(Join(s, d).roles)
  {
    hide GoodRole, JoinWarnings;
  }

  lemma LayerGood(files: Files, layer: Layer, ns: bool)
    ensures LayerRoles(files, layer, ns).Some? ==> GoodRoles(LayerRoles(files, layer, ns).value.roles)
  {
    hide DeclaredScan, DiscoveredScan, AnyDenied, RoleFilesIn, Names, GoodRoles, AgentsDirectory, Join;
    NoRolesGood();
    if layer.agents.Declared? {
      DeclaredGood(files, layer.agents.roles, Names(layer.agents.roles.Keys));
    }
    if layer.folder.Some? {
      var own, paths := OwnScan(files, layer), RoleFilesIn(files, AgentsDirectory(layer.folder.value, ns));
      DiscoveredGood(files, own.files, paths);
      JoinGood(own, DiscoveredScan(files, own.files, paths));
    }
  }

  // Every role the layers load has a trimmed, non-empty description and a nickname list
  // that normalization leaves alone.
  lemma {:induction false} LoadLayersGood(files: Files, layers: seq<Layer>, ns: bool)
    ensures LoadLayers(files, layers, ns).Some? ==>
      forall n :: n in LoadLayers(files, layers, ns).value.roles ==>
        GoodRole(LoadLayers(files, layers, ns).value.roles[n])
        && LoadLayers(files, layers, ns).value.roles[n].description.Some?
    decreases |layers|
  {
    hide LayerRoles, MissingDescriptions, Names;
    if layers != [] && LoadLayers(files, layers, ns).Some? {
      var front, top := layers[..|layers| - 1], layers[|layers| - 1];
      LoadLayersGood(files, front, ns);
      LayerGood(files, top, ns);
      MergeGood(LoadLayers(files, front, ns).value.roles, LayerRoles(files, top, ns).value.roles);
    }
  }

  lemma MergeGood(roles: Roles, layer: Roles)
    requires GoodRoles(roles) && GoodRoles(layer)
    requires forall n :: n in roles ==> roles[n].description.Some?
    ensures var r := MergedOn(roles, layer, layer.Keys);
      GoodRoles(r) && forall n :: n in r ==> r[n].description.Some?
  {
    hide NormalizeNicknames;
    forall n | n in layer
      ensures GoodRole(Merged(roles, layer, n))
    {
    }
  }

  // ------------------------------------------------------ strict and lenient agreement

  ghost predicate AllDescribed(roles: Roles) {
    forall n :: n in roles ==> roles[n].description.Some?
  }

  lemma {:induction false} ScansAgree(files: Files, decls: Declarations, names: seq<string>)
    requires forall n :: n in names ==> n in decls
    ensures var s := DeclaredScan(files, decls, names);
      && (StrictScan(files, decls, names).Ok? <==> s.warnings == [] && AllDescribed(s.roles))
      && (StrictScan(files, decls, names).Ok? ==> StrictScan(files, decls, names).value == s.roles)
    decreases |names|
  {
    hide ReadDeclared;
    if names != [] {
      ScansAgree(files, decls, names[..|names| - 1]);
      var front, n := DeclaredScan(files, decls, names[..|names| - 1]), names[|names| - 1];
      var read := ReadDeclared(files, n, decls[n]);
      if read.Ok? && read.value.0 !in front.roles {
        DescribedOneMore(front.roles, read.value.0, read.value.1);
      }
    }
  }

  lemma DescribedOneMore(roles: Roles, n: string, role: Role)
    requires n !in roles
    ensures AllDescribed(roles[n := role]) <==> AllDescribed(roles) && role.description.Some?
  {
    if AllDescribed(roles[n := role]) {
      forall m | m in roles
        ensures roles[m].description.Some?
      {
        assert roles[n := role][m] == roles[m];
      }
      assert roles[n := role][n] == role;
    }
  }

  lemma MergeIntoNothing(layer: Roles)
    ensures Undescribed(map[], layer) == {} <==> AllDescribed(layer)
    ensures AllDescribed(layer) ==> MergedOn(map[], layer, layer.Keys) == layer
  {
    if Undescribed(map[], layer) == {} {
      forall n | n in layer
        ensures layer[n].description.Some?
      {
        assert n !in Undescribed(map[], layer);
      }
    }
  }

  // On one layer without a folder the lenient loader is silent exactly when the strict
  // one succeeds on the same declarations, and then both load the same roles.
  lemma StrictAndLenientAgree(files: Files, decls: Declarations, ns: bool)
    ensures var lenient := LoadLayers(files, [Layer(Declared(decls), None)], ns);
      && lenient.Some?
      && (lenient.value.warnings == [] <==> LoadStrict(files, Some(decls)).Ok?)
      && (LoadStrict(files, Some(decls)).Ok? ==> LoadStrict(files, Some(decls)).value == lenient.value.roles)
  {
    hide DeclaredScan, StrictScan, AllDescribed, Undescribed, MergedOn, Names;
    var layers := [Layer(Declared(decls), None)];
    var s := DeclaredScan(files, decls, Names(decls.Keys));
    ScansAgree(files, decls, Names(decls.Keys));
    MergeIntoNothing(s.roles);
    assert layers[..0] == [];
    assert LoadLayers(files, layers[..0], ns) == Some(RoleScan(map[], []));
    var bare := Undescribed(map[], s.roles);
    assert LoadLayers(files, layers, ns) ==
      Some(RoleScan(MergedOn(map[], s.roles, s.roles.Keys), [] + s.warnings + MissingDescriptions(Names(bare))));
    assert |Names(bare)| == 0 <==> bare == {};
  }

  // What the strict loader returns is usable as well.
  lemma LoadStrictGood(files: Files, decls: Declarations)
    ensures var r := LoadStrict(files, Some(decls));
      r.Ok? ==> forall n :: n in r.value ==> GoodRole(r.value[n]) && r.value[n].description.Some?
  {
    hide LoadStrict, LoadLayers, GoodRole;
    StrictAndLenientAgree(files, decls, false);
    LoadLayersGood(files, [Layer(Declared(decls), None)], false);
  }

  // ---------------------------------------------------------------- discovered roles

  // The file at position i gives role n.
  ghost predicate Gives(files: Files, declared: set<Key>, p: Key, n: string) {
    p !in declared && ParseRoleFile(files.contents(p), None).Ok? && ParseRoleFile(files.contents(p), None).value.name == n
  }

  ghost function Undeclared(paths: seq<Key>, declared: set<Key>): nat {
    if paths == [] then 0
    else Undeclared(paths[..|paths| - 1], declared) + if paths[|paths| - 1] in declared then 0 else 1
  }

  ghost function FirstTrue(bs: seq<bool>): (i: nat)
    ensures i <= |bs| && (i < |bs| ==> bs[i]) && forall k :: 0 <= k < i ==> !bs[k]
  {
    if bs == [] then 0
    else
      var i := FirstTrue(bs[..|bs| - 1]);
      if i < |bs| - 1 || bs[|bs| - 1] then i else |bs|
  }

  ghost function Giving(files: Files, declared: set<Key>, paths: seq<Key>, n: string): (bs: seq<bool>)
    ensures |bs| == |paths| && forall i :: 0 <= i < |bs| ==> (bs[i] <==> Gives(files, declared, paths[i], n))
  {
    seq(|paths|, i requires 0 <= i < |paths| => Gives(files, declared, paths[i], n))
  }

  // The first position whose file gives a name, or the number of files.
  ghost function FirstGiving(files: Files, declared: set<Key>, paths: seq<Key>, n: string): (i: nat)
    ensures i <= |paths|
  {
    FirstTrue(Giving(files, declared, paths, n))
  }

  lemma FirstGivingSnoc(files: Files, declared: set<Key>, paths: seq<Key>, n: string)
    requires paths != []
    ensures var front, last := paths[..|paths| - 1], paths[|paths| - 1];
      var i := FirstGiving(files, declared, front, n);
      FirstGiving(files, declared, paths, n) == if i < |front| || Gives(files, declared, last, n) then i else |paths|
  {
    hide Gives;
    var front := paths[..|paths| - 1];
    assert Giving(files, declared, paths, n)[..|front|] == Giving(files, declared, front, n);
  }

  // One file adds a role, where it gives a new name, or else one warning.
  lemma OneDiscovered(files: Files, declared: set<Key>, s: RoleScan, p: Key, n: string)
    ensures var r := AddDiscovered(files, declared, s, p);
      && |r.roles| + |r.warnings| == |s.roles| + |s.warnings| + (if p in declared then 0 else 1)
      && (n in r.roles <==> n in s.roles || Gives(files, declared, p, n))
      && (n in s.roles ==> r.roles[n] == s.roles[n])
      && (n in r.roles && n !in s.roles ==> r.roles[n].configFile == Some(p))
  {
    hide ParseRoleFile;
  }

  // A name is taken from the first undeclared file that gives it, and every undeclared
  // file gives either a role or exactly one warning.
  lemma {:induction false} DiscoveredFirst(files: Files, declared: set<Key>, paths: seq<Key>, n: string)
    ensures var s, i := DiscoveredScan(files, declared, paths), FirstGiving(files, declared, paths, n);
      && |s.roles| + |s.warnings| == Undeclared(paths, declared)
      && (n in s.roles <==> i < |paths|)
      && (n in s.roles ==> s.roles[n].configFile == Some(paths[i]))
    decreases |paths|
  {
    hide AddDiscovered, FirstGiving, Gives;
    if paths == [] {
      assert FirstGiving(files, declared, paths, n) == 0;
    } else {
      var front, last := paths[..|paths| - 1], paths[|paths| - 1];
      DiscoveredFirst(files, declared, front, n);
      FirstGivingSnoc(files, declared, paths, n);
      OneDiscovered(files, declared, DiscoveredScan(files, declared, front), last, n);
    }
  }

  // Over a directory the first file is the least path: each name comes from the least
  // undeclared role file under the directory that parses to it.
  lemma DiscoveredLeast(files: Files, dir: Key, declared: set<Key>, n: string)
    ensures var s := DiscoveredScan(files, declared, RoleFilesIn(files, dir));
      && (n in s.roles <==> exists p :: p in FilesUnder(files.folders, dir) && Gives(files, declared, p, n))
      && (n in s.roles ==> LeastGiving(files, dir, declared, s.roles[n].configFile, n))
  {
    hide Gives, FilesUnder, DiscoveredScan, FirstGiving, LeastGiving;
    var paths := RoleFilesIn(files, dir);
    DiscoveredFirst(files, declared, paths, n);
    FirstIsLeastGiving(files, declared, paths, FilesUnder(files.folders, dir), n);
    if FirstGiving(files, declared, paths, n) < |paths| {
      var p := paths[FirstGiving(files, declared, paths, n)];
      LeastGivingIs(files, dir, declared, p, n);
    }
  }

  lemma LeastGivingIs(files: Files, dir: Key, declared: set<Key>, p: Key, n: string)
    requires p in FilesUnder(files.folders, dir) && Gives(files, declared, p, n)
    requires forall q :: q in FilesUnder(files.folders, dir) && Gives(files, declared, q, n) ==> KeyLe(p, q)
    ensures LeastGiving(files, dir, declared, Some(p), n)
  {
    hide Gives, FilesUnder, KeyLe;
  }

  lemma FirstIsLeastGiving(files: Files, declared: set<Key>, paths: seq<Key>, all: multiset<Key>, n: string)
    requires InOrder(paths) && multiset(paths) == all
    ensures var i := FirstGiving(files, declared, paths, n);
      && (i < |paths| <==> exists p :: p in all && Gives(files, declared, p, n))
      && (i < |paths| ==> paths[i] in all && Gives(files, declared, paths[i], n))
      && (i < |paths| ==> forall p :: p in all && Gives(files, declared, p, n) ==> KeyLe(paths[i], p))
  {
    hide Gives, KeyLe;
    var i := FirstGiving(files, declared, paths, n);
    forall p | p in all && Gives(files, declared, p, n)
      ensures i < |paths| && KeyLe(paths[i], p)
    {
      assert p in paths;
      var k :| 0 <= k < |paths| && paths[k] == p;
      KeyTotal(p, p);
    }
    if i < |paths| {
      assert paths[i] in multiset(paths);
    }
  }

  ghost predicate LeastGiving(files: Files, dir: Key, declared: set<Key>, configFile: Option<Key>, n: string) {
    && configFile.Some? && Gives(files, declared, configFile.value, n)
    && configFile.value in FilesUnder(files.folders, dir)
    && forall p :: p in FilesUnder(files.folders, dir) && Gives(files, declared, p, n) ==> KeyLe(configFile.value, p)
  }
}
