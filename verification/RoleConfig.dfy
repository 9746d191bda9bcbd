/**
 Agent role files and the normalization of their fields
 (codex-rs/agent-roles/src/agent_role_config.rs).  TOML reading is a given: a file is
 unreadable, malformed, or the four fields the code looks at.
 */
module RoleConfig {
  import opened Ordering
  import opened Results

  datatype RoleError =
    | BlankDescription | BlankInstructions | MissingInstructions | MissingName
    | NoNicknames | BlankNickname | DuplicateNickname | BadNickname
    | UnreadableFile | MalformedFile | MissingConfigFile | ConfigFileNotAFile
    | NoDescription(name: string) | DuplicateRole(name: string) | MalformedAgents

  // The characters with the Unicode property White_Space, which `str::trim` removes.
  predicate IsWhite(c: char) {
    var n := c as int;
    9 <= n <= 13 || n == 0x20 || n == 0x85 || n == 0xA0 || n == 0x1680 || 0x2000 <= n <= 0x200A
    || n == 0x2028 || n == 0x2029 || n == 0x202F || n == 0x205F || n == 0x3000
  }

  predicate IsTrimmed(s: string) {
    s == "" || (!IsWhite(s[0]) && !IsWhite(s[|s| - 1]))
  }

  function TrimStart(s: string): (r: string)
    ensures r == "" || !IsWhite(r[0])
    ensures |r| <= |s| && r == s[|s| - |r|..]
  {
    if s != "" && IsWhite(s[0]) then TrimStart(s[1..]) else s
  }

  function TrimEnd(s: string): (r: string)
    ensures r == "" || !IsWhite(r[|r| - 1])
    ensures |r| <= |s| && r == s[..|r|]
  {
    if s != "" && IsWhite(s[|s| - 1]) then TrimEnd(s[..|s| - 1]) else s
  }

  function Trim(s: string): (r: string)
    ensures IsTrimmed(r)
    ensures IsTrimmed(s) <==> r == s
  {
    TrimEnd(TrimStart(s))
  }

  function NormalizeDescription(description: Option<string>): (r: Result<Option<string>, RoleError>)
    ensures r.Ok? && r.value.Some? ==> r.value.value != "" && IsTrimmed(r.value.value)
    ensures r.Ok? <==> (description.Some? ==> Trim(description.value) != "")
  {
    if description.None? then Ok(None)
    else if Trim(description.value) == "" then Err(BlankDescription)
    else Ok(Some(Trim(description.value)))
  }

  predicate IsNicknameChar(c: char) {
    'a' <= c <= 'z' || 'A' <= c <= 'Z' || '0' <= c <= '9' || c == ' ' || c == '-' || c == '_'
  }

  predicate IsNicknameText(name: string) {
    forall k :: 0 <= k < |name| ==> IsNicknameChar(name[k])
  }

  // What a normalized list may hold.
  ghost predicate GoodNickname(name: string) {
    name != "" && IsTrimmed(name) && IsNicknameText(name)
  }

  ghost predicate Distinct(names: seq<string>) {
    forall i, j :: 0 <= i < j < |names| ==> names[i] != names[j]
  }

  ghost predicate GoodNicknames(names: seq<string>) {
    (forall name :: name in names ==> GoodNickname(name)) && Distinct(names)
  }

  ghost function TrimAll(names: seq<string>): (r: seq<string>)
    ensures |r| == |names| && forall i :: 0 <= i < |r| ==> r[i] == Trim(names[i])
  {
    seq(|names|, i requires 0 <= i < |names| => Trim(names[i]))
  }

  // The check of one candidate against those already accepted, in the order of the code.
  function NicknameError(seen: set<string>, name: string): Option<RoleError> {
    if name == "" then Some(BlankNickname)
    else if name in seen then Some(DuplicateNickname)
    else if !IsNicknameText(name) then Some(BadNickname)
    else None
  }

  function NormalizeList(names: seq<string>): Result<seq<string>, RoleError> {
    if names == [] then Ok([])
    else
      var front := NormalizeList(names[..|names| - 1]);
      var name := Trim(names[|names| - 1]);
      if front.Err? then front
      else if NicknameError(Elements(front.value), name).Some? then Err(NicknameError(Elements(front.value), name).value)
      else Ok(front.value + [name])
  }

  function NormalizeNicknames(names: Option<seq<string>>): Result<Option<seq<string>>, RoleError> {
    if names.None? then Ok(None)
    else if names.value == [] then Err(NoNicknames)
    else
      var r := NormalizeList(names.value);
      if r.Ok? then Ok(Some(r.value)) else Err(r.error)
  }

  lemma {:induction false} ErrorStays(names: seq<string>, k: nat)
    requires k <= |names| && NormalizeList(names[..k]).Err?
    ensures NormalizeList(names) == NormalizeList(names[..k])
    decreases |names| - k
  {
    if k < |names| {
      assert names[..k + 1][..k] == names[..k];
      ErrorStays(names, k + 1);
    } else {
      assert names[..k] == names;
    }
  }

  lemma NormalizeNothing()
    ensures NormalizeList([]) == Ok([])
  {
  }

  lemma NormalizeStep(names: seq<string>, k: nat)
    requires k < |names| && NormalizeList(names[..k]).Ok?
    ensures var front, name := NormalizeList(names[..k]).value, Trim(names[k]);
      var error := NicknameError(Elements(front), name);
      NormalizeList(names[..k + 1]) == if error.Some? then Err(error.value) else Ok(front + [name])
  {
    hide Trim, NicknameError;
    assert names[..k + 1][..k] == names[..k];
  }

  method NormalizeNicknameCandidates(candidates: Option<seq<string>>) returns (r: Result<Option<seq<string>>, RoleError>)
    ensures r == NormalizeNicknames(candidates)
  {
    hide Trim, IsNicknameText, NormalizeList;
    if candidates.None? {
      return Ok(None);
    }
    var nicknames := candidates.value;
    if nicknames == [] {
      return Err(NoNicknames);
    }
    var normalized: seq<string>, seen: set<string> := [], {};
    NormalizeNothing();
    for k := 0 to |nicknames|
      invariant NormalizeList(nicknames[..k]) == Ok(normalized) && seen == Elements(normalized)
    {
      NormalizeStep(nicknames, k);
      var nickname := Trim(nicknames[k]);
      var error := None;
      if nickname == "" {
        error := Some(BlankNickname);
      } else if nickname in seen {
        error := Some(DuplicateNickname);
      } else if !IsNicknameText(nickname) {
        error := Some(BadNickname);
      }
      assert error == NicknameError(seen, nickname);
      if error.Some? {
        ErrorStays(nicknames, k + 1);
        return Err(error.value);
      }
      seen := seen + {nickname};
      normalized := normalized + [nickname];
    }
    assert nicknames[..|nicknames|] == nicknames;
    r := Ok(Some(normalized));
  }

  // A list is accepted exactly when its trimmed candidates are good and distinct, and
  // then it becomes those.
  lemma {:induction false} NormalizeListIff(names: seq<string>)
    ensures NormalizeList(names).Ok? <==> GoodNicknames(TrimAll(names))
    ensures NormalizeList(names).Ok? ==> NormalizeList(names).value == TrimAll(names)
    decreases |names|
  {
    hide Trim, GoodNicknames, NicknameError;
    if names == [] {
      NoNicknamesGood();
      assert TrimAll(names) == [];
    } else {
      var front, name := names[..|names| - 1], Trim(names[|names| - 1]);
      NormalizeListIff(front);
      assert TrimAll(names) == TrimAll(front) + [name];
      GoodSnoc(TrimAll(front), name);
    }
  }

  lemma NoNicknamesGood()
    ensures GoodNicknames([])
  {
  }

  lemma GoodSnoc(front: seq<string>, name: string)
    ensures IsTrimmed(name) ==> (GoodNicknames(front + [name]) <==>
      GoodNicknames(front) && NicknameError(Elements(front), name).None?)
  {
    hide IsTrimmed, IsNicknameText;
    var all := front + [name];
    assert all[|front|] == name && forall i :: 0 <= i < |front| ==> all[i] == front[i];
    assert forall x :: x in all <==> x in front || x == name;
    if name in front {
      var i :| 0 <= i < |front| && front[i] == name;
      assert all[i] == all[|front|];
    }
  }

  // A normalized nickname list is a fixed point of normalization.
  lemma NicknamesFixed(names: Option<seq<string>>)
    ensures var r := NormalizeNicknames(names);
      (r.Ok? ==> NormalizeNicknames(r.value) == r)
      && (r.Ok? && r.value.Some? ==> r.value.value != [] && GoodNicknames(r.value.value))
  {
    var r := NormalizeNicknames(names);
    if r.Ok? && r.value.Some? {
      NormalizeListIff(names.value);
      NormalizeListIff(r.value.value);
      assert TrimAll(r.value.value) == r.value.value by {
        forall i | 0 <= i < |r.value.value|
          ensures Trim(r.value.value[i]) == r.value.value[i]
        {
          assert r.value.value[i] in r.value.value;
        }
      }
    }
  }

  // --------------------------------------------------------------------- role files

  datatype RawRole = RawRole(
    name: Option<string>, description: Option<string>, nicknames: Option<seq<string>>, instructions: Option<string>)

  datatype Contents = Unreadable | Malformed | RoleFile(raw: RawRole)

  datatype ParsedRole = ParsedRole(name: string, description: Option<string>, nicknames: Option<seq<string>>)

  function InstructionsError(instructions: Option<string>, required: bool): Option<RoleError> {
    if instructions.Some? && Trim(instructions.value) == "" then Some(BlankInstructions)
    else if instructions.None? && required then Some(MissingInstructions)
    else None
  }

  function RoleName(name: Option<string>, hint: Option<string>): Option<string> {
    if name.Some? && Trim(name.value) != "" then Some(Trim(name.value)) else hint
  }

  function ParseRoleFile(contents: Contents, hint: Option<string>): Result<ParsedRole, RoleError> {
    match contents
    case Unreadable => Err(UnreadableFile)
    case Malformed => Err(MalformedFile)
    case RoleFile(raw) =>
      var description := NormalizeDescription(raw.description);
      if description.Err? then Err(description.error)
      else if InstructionsError(raw.instructions, hint.None?).Some? then
        Err(InstructionsError(raw.instructions, hint.None?).value)
      else if RoleName(raw.name, hint).None? then Err(MissingName)
      else
        var nicknames := NormalizeNicknames(raw.nicknames);
        if nicknames.Err? then Err(nicknames.error)
        else Ok(ParsedRole(RoleName(raw.name, hint).value, description.value, nicknames.value))
  }
}
