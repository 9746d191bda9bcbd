/**
 The command-line printer of scripts/rzcodex-bridge-launcher.cs and the argument
 parser of the Microsoft C runtime that reads its output.

 The printer is EscapeArgument/JoinArguments.  The parser is written from the
 documented rules: 2n backslashes before a quote give n backslashes and toggle
 quoting, 2n+1 give n backslashes and a literal quote, other backslashes are
 literal, blanks outside quotes separate arguments, and the program name is
 read with literal backslashes.  `doubling` selects the newer runtimes, where
 two quotes inside a quoted stretch also stand for one literal quote.
 */
module LauncherArguments {
  import opened Sequences


  predicate IsBlank(c: char) {
    c == ' ' || c == '\t'
  }

  predicate NeedsQuotes(arg: string) {
    exists i :: 0 <= i < |arg| && (IsBlank(arg[i]) || arg[i] == '\"' || arg[i] == '\\')
  }

  function Backslashes(n: nat): (s: string)
    ensures |s| == n && forall i :: 0 <= i < n ==> s[i] == '\\'
  {
    if n == 0 then "" else ['\\'] + Backslashes(n - 1)
  }

  lemma Assoc4(a: string, b: string, c: string, d: string)
    ensures a + (b + (c + d)) == a + b + c + d
  {
  }

  lemma Snip(c: char, t: string)
    ensures ([c] + t)[0] == c && ([c] + t)[1..] == t
  {
  }

  // ---------------------------------------------------------------- printer

  // The quoted form of what is left of an argument, `pending` backslashes after
  // the last character written, up to and including the closing quote.
  function EscapeBody(arg: string, pending: nat): string {
    if arg == "" then Backslashes(2 * pending) + "\""
    else if arg[0] == '\\' then EscapeBody(arg[1..], pending + 1)
    else if arg[0] == '\"' then Backslashes(2 * pending + 1) + ("\"" + EscapeBody(arg[1..], 0))
    else Backslashes(pending) + ([arg[0]] + EscapeBody(arg[1..], 0))
  }

  function Escape(arg: string): string {
    if arg == "" then "\"\""
    else if !NeedsQuotes(arg) then arg
    else "\"" + EscapeBody(arg, 0)
  }

  function Join(args: seq<string>): string {
    if args == [] then "" else Escape(args[0]) + SepJoin(args[1..])
  }

  // What follows an argument that has been printed.
  function SepJoin(args: seq<string>): string
    decreases args, 0
  {
    if args == [] then "" else " " + Escape(args[0]) + SepJoin(args[1..])
  }

  method EscapeArgument(arg: string) returns (line: string)
    ensures line == Escape(arg)
  {
    if arg == "" {
      return "\"\"";
    }
    var needsQuotes := false;
    var i := 0;
    while i < |arg| && !needsQuotes
      invariant 0 <= i <= |arg|
      invariant needsQuotes ==> NeedsQuotes(arg)
      invariant !needsQuotes ==>
        forall k :: 0 <= k < i ==> !IsBlank(arg[k]) && arg[k] != '\"' && arg[k] != '\\'
      decreases |arg| - i, !needsQuotes
    {
      var c := arg[i];
      if c == ' ' || c == '\t' || c == '\"' || c == '\\' {
        needsQuotes := true;
      } else {
        i := i + 1;
      }
    }
    if !needsQuotes {
      return arg;
    }
    var builder := "\"";
    var backslashCount := 0;
    i := 0;
    while i < |arg|
      invariant 0 <= i <= |arg| && 0 <= backslashCount
      invariant builder + EscapeBody(arg[i..], backslashCount) == "\"" + EscapeBody(arg, 0)
    {
      var c := arg[i];
      assert arg[i..][0] == c && arg[i..][1..] == arg[i + 1..];
      if c == '\\' {
        backslashCount := backslashCount + 1;
      } else {
        ghost var rest := EscapeBody(arg[i + 1..], 0);
        if c == '\"' {
          Assoc4(builder, Backslashes(2 * backslashCount + 1), "\"", rest);
          builder := builder + Backslashes(backslashCount * 2 + 1) + "\"";
        } else {
          Assoc4(builder, Backslashes(backslashCount), [c], rest);
          builder := builder + Backslashes(backslashCount) + [c];
        }
        backslashCount := 0;
      }
      i := i + 1;
    }
    assert arg[i..] == "";
    line := builder + Backslashes(backslashCount * 2) + "\"";
    Assoc(builder, Backslashes(2 * backslashCount), "\"");
  }

  // The part of the line still to be written when the loop is at index i.
  ghost function Remaining(args: seq<string>, startIndex: nat, i: nat): string {
    if i >= |args| then ""
    else if i == startIndex then Join(args[i..])
    else SepJoin(args[i..])
  }

  // The builder at index i holds all but what remains of the line.
  ghost predicate Written(args: seq<string>, startIndex: nat, i: nat, builder: string) {
    builder + Remaining(args, startIndex, i) == Remaining(args, startIndex, startIndex)
  }

  lemma WrittenStep(args: seq<string>, startIndex: nat, i: nat, builder: string)
    requires startIndex <= i < |args| && Written(args, startIndex, i, builder)
    ensures Written(args, startIndex, i + 1, (if i > startIndex then builder + " " else builder) + Escape(args[i]))
  {
    assert args[i..][1..] == args[i + 1..];
    var e, t := Escape(args[i]), SepJoin(args[i + 1..]);
    if i > startIndex {
      Assoc(builder, " " + e, t);
      Assoc(builder, " ", e);
    } else {
      Assoc(builder, e, t);
    }
  }

  lemma WrittenStart(args: seq<string>, startIndex: nat)
    ensures Written(args, startIndex, startIndex, "")
  {
    var whole := Remaining(args, startIndex, startIndex);
    assert "" + whole == whole;
  }

  lemma WrittenEnd(args: seq<string>, startIndex: nat, i: nat, builder: string)
    requires i >= |args| && Written(args, startIndex, i, builder)
    ensures builder == if startIndex <= |args| then Join(args[startIndex..]) else ""
  {
    assert builder + "" == builder;
  }

  method JoinArguments(args: seq<string>, startIndex: nat) returns (line: string)
    ensures line == if startIndex <= |args| then Join(args[startIndex..]) else ""
  {
    hide Written, Join, Escape;
    WrittenStart(args, startIndex);
    var builder, i := "", startIndex;
    while i < |args|
      invariant startIndex <= i
      invariant Written(args, startIndex, i, builder)
    {
      WrittenStep(args, startIndex, i, builder);
      if i > startIndex {
        builder := builder + " ";
      }
      var escaped := EscapeArgument(args[i]);
      builder := builder + escaped;
      i := i + 1;
    }
    WrittenEnd(args, startIndex, i, builder);
    line := builder;
  }

  // ----------------------------------------------------------------- parser

  // The command line ends at the first NUL.
  function UntilNul(line: string): string {
    if line == "" || line[0] == '\0' then "" else [line[0]] + UntilNul(line[1..])
  }

  // The program name read so far, and what follows the blank that ends it.
  function ParseProgram(s: string, quoted: bool, name: string): (string, string) {
    if s == "" then (name, "")
    else if s[0] == '\"' then ParseProgram(s[1..], !quoted, name)
    else if IsBlank(s[0]) && !quoted then (name, s[1..])
    else ParseProgram(s[1..], quoted, name + [s[0]])
  }

  function ParseArgs(s: string, doubling: bool): seq<string>
    decreases |s|, 1
  {
    if s == "" then []
    else if IsBlank(s[0]) then ParseArgs(s[1..], doubling)
    else ParseArg(s, false, 0, "", doubling)
  }

  // One argument, `slashes` backslashes seen since the last other character.
  function ParseArg(s: string, quoted: bool, slashes: nat, arg: string, doubling: bool): seq<string>
    decreases |s|, 0
  {
    if s == "" then [arg + Backslashes(slashes)]
    else if s[0] == '\\' then ParseArg(s[1..], quoted, slashes + 1, arg, doubling)
    else if s[0] == '\"' then
      var arg' := arg + Backslashes(slashes / 2);
      if slashes % 2 == 1 then ParseArg(s[1..], quoted, 0, arg' + "\"", doubling)
      else if doubling && quoted && |s| > 1 && s[1] == '\"' then ParseArg(s[2..], quoted, 0, arg' + "\"", doubling)
      else ParseArg(s[1..], !quoted, 0, arg', doubling)
    else if IsBlank(s[0]) && !quoted then [arg + Backslashes(slashes)] + ParseArgs(s[1..], doubling)
    else ParseArg(s[1..], quoted, 0, arg + Backslashes(slashes) + [s[0]], doubling)
  }

  function ParseCommandLine(line: string, doubling: bool): (argv: seq<string>)
    ensures |argv| > 0
  {
    var (program, rest) := ParseProgram(UntilNul(line), false, "");
    [program] + ParseArgs(rest, doubling)
  }

  // ------------------------------------------------------ arguments come back

  lemma {:induction false} ParseBackslashes(n: nat, s: string, quoted: bool, slashes: nat, arg: string, doubling: bool)
    ensures ParseArg(Backslashes(n) + s, quoted, slashes, arg, doubling)
         == ParseArg(s, quoted, slashes + n, arg, doubling)
  {
    if n == 0 {
      assert Backslashes(n) + s == s;
    } else {
      assert (Backslashes(n) + s)[1..] == Backslashes(n - 1) + s;
      ParseBackslashes(n - 1, s, quoted, slashes + 1, arg, doubling);
    }
  }

  // The quoted form up to the next character that is not a backslash.
  lemma BodyShape(z: string, pending: nat, t: string) returns (n: nat, c: char, rest: string)
    requires z == "" || z[0] != '\\'
    ensures c == if z == "" then '\"' else z[0]
    ensures n == if z == "" then 2 * pending else if c == '\"' then 2 * pending + 1 else pending
    ensures rest == if z == "" then t else EscapeBody(z[1..], 0) + t
    ensures EscapeBody(z, pending) + t == Backslashes(n) + ([c] + rest)
  {
    c := if z == "" then '\"' else z[0];
    n := if z == "" then 2 * pending else if c == '\"' then 2 * pending + 1 else pending;
    rest := if z == "" then t else EscapeBody(z[1..], 0) + t;
    if z == "" {
      Assoc(Backslashes(n), [c], t);
    } else {
      var e := EscapeBody(z[1..], 0);
      Assoc(Backslashes(n), [c] + e, t);
      Assoc([c], e, t);
    }
  }

  // The parser over one step of the quoted form, in either quoting state.
  lemma BodyStep(z: string, pending: nat, t: string, quoted: bool, arg: string, doubling: bool)
    requires z == "" || z[0] != '\\'
    requires t != "" ==> t[0] == ' '
    ensures ParseArg(EscapeBody(z, pending) + t, quoted, 0, arg, doubling) ==
      if z == "" then ParseArg(t, !quoted, 0, arg + Backslashes(pending), doubling)
      else if IsBlank(z[0]) && !quoted then [arg + Backslashes(pending)] + ParseArgs(EscapeBody(z[1..], 0) + t, doubling)
      else ParseArg(EscapeBody(z[1..], 0) + t, quoted, 0, arg + Backslashes(pending) + [z[0]], doubling)
  {
    var n, c, rest := BodyShape(z, pending, t);
    ParseBackslashes(n, [c] + rest, quoted, 0, arg, doubling);
    Snip(c, rest);
    assert n / 2 == if c == '\"' then pending else n / 2;
  }

  // The pending count of the printer is the backslash count of the parser.
  lemma {:induction false} ParseEscapeBody(a: string, pending: nat, t: string, arg: string, doubling: bool)
    requires t != "" ==> t[0] == ' '
    ensures ParseArg(EscapeBody(a, pending) + t, true, 0, arg, doubling)
         == ParseArg(t, false, 0, arg + (Backslashes(pending) + a), doubling)
    decreases a
  {
    hide ParseArg;
    if a != "" && a[0] == '\\' {
      ParseEscapeBody(a[1..], pending + 1, t, arg, doubling);
      BackslashesShift(pending, a);
    } else {
      BodyStep(a, pending, t, true, arg, doubling);
      if a == "" {
        assert Backslashes(pending) + a == Backslashes(pending);
      } else {
        ParseEscapeBody(a[1..], 0, t, arg + Backslashes(pending) + [a[0]], doubling);
        assert Backslashes(0) + a[1..] == a[1..];
        Assoc4(arg, Backslashes(pending), [a[0]], a[1..]);
        assert [a[0]] + a[1..] == a;
      }
    }
  }

  lemma BackslashesShift(n: nat, a: string)
    requires a != "" && a[0] == '\\'
    ensures Backslashes(n + 1) + a[1..] == Backslashes(n) + a
  {
    BackslashesSnoc(n);
    assert "\\" + a[1..] == a;
    Assoc(Backslashes(n), "\\", a[1..]);
  }

  lemma {:induction false} BackslashesSnoc(n: nat)
    ensures Backslashes(n + 1) == Backslashes(n) + "\\"
  {
  }

  lemma {:induction false} ParsePlain(a: string, t: string, quoted: bool, arg: string, doubling: bool)
    requires !NeedsQuotes(a)
    ensures ParseArg(a + t, quoted, 0, arg, doubling) == ParseArg(t, quoted, 0, arg + a, doubling)
  {
    if a == "" {
      assert a + t == t && arg + a == arg;
    } else {
      assert (a + t)[1..] == a[1..] + t;
      assert arg + Backslashes(0) + [a[0]] == arg + [a[0]];
      ParsePlain(a[1..], t, quoted, arg + [a[0]], doubling);
      assert arg + [a[0]] + a[1..] == arg + a;
    }
  }

  // Reading one printed argument: what it does from either quoting state.
  lemma EscapeStep(x: string, t: string, quoted: bool, arg: string, doubling: bool)
    requires t != "" ==> t[0] == ' '
    requires doubling ==> !quoted
    ensures ParseArg(Escape(x) + t, quoted, 0, arg, doubling) ==
      if x == "" then ParseArg(t, quoted, 0, arg, doubling)
      else if NeedsQuotes(x) then ParseArg(EscapeBody(x, 0) + t, !quoted, 0, arg, doubling)
      else ParseArg(t, quoted, 0, arg + x, doubling)
  {
    assert arg + Backslashes(0) == arg;
    if x != "" && !NeedsQuotes(x) {
      ParsePlain(x, t, quoted, arg, doubling);
    } else {
      var u := (if x == "" then "\"" else EscapeBody(x, 0)) + t;
      Assoc("\"", if x == "" then "\"" else EscapeBody(x, 0), t);
      assert "\"" + "\"" == "\"\"";
      assert Escape(x) + t == ['\"'] + u;
      Snip('\"', u);
      if x == "" {
        Snip('\"', t);
      }
    }
  }

  lemma ParseEscape(a: string, t: string, doubling: bool)
    requires t != "" ==> t[0] == ' '
    ensures Escape(a) != "" && !IsBlank(Escape(a)[0])
    ensures ParseArg(Escape(a) + t, false, 0, "", doubling) == ParseArg(t, false, 0, a, doubling)
  {
    EscapeStep(a, t, false, "", doubling);
    assert "" + (Backslashes(0) + a) == a && "" + a == a;
    if NeedsQuotes(a) {
      ParseEscapeBody(a, 0, t, "", doubling);
    }
  }

  // One printed argument in front of a tail that starts a new one.
  lemma ParseFirst(a: string, t: string, doubling: bool)
    requires t != "" ==> t[0] == ' '
    ensures ParseArgs(Escape(a) + t, doubling) == [a] + ParseArgs(t, doubling)
  {
    ParseEscape(a, t, doubling);
    assert (Escape(a) + t)[0] == Escape(a)[0];
    ParseEndOfArg(a, t, doubling);
  }

  lemma {:induction false} ParseSepJoin(args: seq<string>, doubling: bool)
    ensures ParseArgs(SepJoin(args), doubling) == args
    decreases |args|
  {
    if args != [] {
      ParseSepJoin(args[1..], doubling);
      ParseFirst(args[0], SepJoin(args[1..]), doubling);
      SepJoinShape(args);
      assert [args[0]] + args[1..] == args;
    }
  }

  lemma SepJoinShape(args: seq<string>)
    requires args != []
    ensures SepJoin(args) == " " + Join(args) && SepJoin(args)[1..] == Join(args)
  {
    assert " " + Escape(args[0]) + SepJoin(args[1..]) == " " + (Escape(args[0]) + SepJoin(args[1..]));
  }

  lemma ParseEndOfArg(a: string, t: string, doubling: bool)
    requires t != "" ==> t[0] == ' '
    ensures ParseArg(t, false, 0, a, doubling) == [a] + ParseArgs(t, doubling)
  {
    assert a + Backslashes(0) == a;
  }

  // ------------------------------------------------------- the program name

  ghost predicate OddQuotes(a: string) {
    a != "" && (OddQuotes(a[1..]) != (a[0] == '\"'))
  }

  // A blank follows an odd number of quotes; `odd` counts those already seen.
  ghost predicate HasOddBlank(a: string, odd: bool) {
    a != "" && ((IsBlank(a[0]) && odd) || HasOddBlank(a[1..], odd != (a[0] == '\"')))
  }

  ghost function Trailing(a: string, pending: nat): nat {
    if a == "" then pending
    else Trailing(a[1..], if a[0] == '\\' then pending + 1 else 0)
  }

  lemma {:induction false} ProgramBackslashes(n: nat, s: string, quoted: bool, name: string)
    ensures ParseProgram(Backslashes(n) + s, quoted, name) == ParseProgram(s, quoted, name + Backslashes(n))
  {
    if n == 0 {
      assert Backslashes(n) + s == s && name + Backslashes(n) == name;
    } else {
      assert (Backslashes(n) + s)[1..] == Backslashes(n - 1) + s;
      ProgramBackslashes(n - 1, s, quoted, name + "\\");
      assert name + "\\" + Backslashes(n - 1) == name + Backslashes(n);
    }
  }

  lemma {:induction false} ProgramPlain(a: string, t: string, quoted: bool, name: string)
    requires !NeedsQuotes(a)
    ensures ParseProgram(a + t, quoted, name) == ParseProgram(t, quoted, name + a)
  {
    if a == "" {
      assert a + t == t && name + a == name;
    } else {
      assert (a + t)[1..] == a[1..] + t;
      ProgramPlain(a[1..], t, quoted, name + [a[0]]);
      assert name + [a[0]] + a[1..] == name + a;
    }
  }

  // The step of the program-name scanner over the quoted form.
  lemma ProgramStep(a: string, pending: nat, odd: bool, t: string, name: string)
    requires a == "" || a[0] != '\\'
    ensures ParseProgram(EscapeBody(a, pending) + t, !odd, name) ==
      if a == "" then ParseProgram(t, odd, name + Backslashes(2 * pending))
      else if a[0] == '\"' then ParseProgram(EscapeBody(a[1..], 0) + t, odd, name + Backslashes(2 * pending + 1))
      else if IsBlank(a[0]) && odd then (name + Backslashes(pending), EscapeBody(a[1..], 0) + t)
      else ParseProgram(EscapeBody(a[1..], 0) + t, !odd, name + Backslashes(pending) + [a[0]])
  {
    var n, c, rest := BodyShape(a, pending, t);
    ProgramBackslashes(n, [c] + rest, !odd, name);
    Snip(c, rest);
  }

  // What the scanner keeps of the quoted form: all but the quotes.
  ghost function ProgramText(a: string, pending: nat): string {
    if a == "" then Backslashes(2 * pending)
    else if a[0] == '\\' then ProgramText(a[1..], pending + 1)
    else if a[0] == '\"' then Backslashes(2 * pending + 1) + ProgramText(a[1..], 0)
    else Backslashes(pending) + ([a[0]] + ProgramText(a[1..], 0))
  }

  // When no blank ends the name early, all of the quoted form is consumed.
  lemma {:induction false} ProgramBody(a: string, pending: nat, odd: bool, t: string, name: string)
    requires !HasOddBlank(a, odd)
    ensures ParseProgram(EscapeBody(a, pending) + t, !odd, name)
         == ParseProgram(t, odd != OddQuotes(a), name + ProgramText(a, pending))
    decreases a
  {
    if a != "" && a[0] == '\\' {
      ProgramBody(a[1..], pending + 1, odd, t, name);
    } else {
      ProgramStep(a, pending, odd, t, name);
      if a != "" {
        var rest := ProgramText(a[1..], 0);
        if a[0] == '\"' {
          var b := Backslashes(2 * pending + 1);
          ProgramBody(a[1..], 0, !odd, t, name + b);
          Assoc(name, b, rest);
        } else {
          var b := Backslashes(pending);
          ProgramBody(a[1..], 0, odd, t, name + b + [a[0]]);
          Assoc4(name, b, [a[0]], rest);
        }
      }
    }
  }

  // Without quotes only the trailing backslashes change: they are doubled.
  lemma {:induction false} ProgramTextNoQuote(a: string, pending: nat)
    requires '\"' !in a
    ensures ProgramText(a, pending) == Backslashes(pending) + a + Backslashes(Trailing(a, pending))
    decreases a
  {
    if a == "" {
      BackslashesAdd(pending, pending);
      assert Backslashes(pending) + a == Backslashes(pending);
    } else if a[0] == '\\' {
      ProgramTextNoQuote(a[1..], pending + 1);
      BackslashesShift(pending, a);
    } else {
      ProgramTextNoQuote(a[1..], 0);
      var b, e := Backslashes(pending), Backslashes(Trailing(a[1..], 0));
      assert Backslashes(0) + a[1..] == a[1..];
      Assoc4(b, [a[0]], a[1..], e);
      Assoc(b, [a[0]], a[1..]);
      assert [a[0]] + a[1..] == a;
    }
  }

  // Reading one printed argument as part of the name, from either quoting state.
  lemma ProgramArgStep(x: string, t: string, quoted: bool, name: string)
    ensures ParseProgram(Escape(x) + t, quoted, name) ==
      if x == "" then ParseProgram(t, quoted, name)
      else if NeedsQuotes(x) then ParseProgram(EscapeBody(x, 0) + t, !quoted, name)
      else ParseProgram(t, quoted, name + x)
  {
    if x != "" && !NeedsQuotes(x) {
      ProgramPlain(x, t, quoted, name);
    } else {
      var u := (if x == "" then "\"" else EscapeBody(x, 0)) + t;
      Assoc("\"", if x == "" then "\"" else EscapeBody(x, 0), t);
      assert "\"" + "\"" == "\"\"";
      assert Escape(x) + t == ['\"'] + u;
      Snip('\"', u);
      if x == "" {
        Snip('\"', t);
      }
    }
  }

  lemma ProgramQuotedStep(x: string, t: string, name: string)
    ensures ParseProgram(" " + Escape(x) + t, true, name) == ParseProgram(Escape(x) + t, true, name + " ")
  {
    Assoc(" ", Escape(x), t);
    Snip(' ', Escape(x) + t);
  }

  lemma {:induction false} BackslashesAdd(m: nat, n: nat)
    ensures Backslashes(m) + Backslashes(n) == Backslashes(m + n)
  {
  }

  // A blank after an odd number of quotes ends the name inside the quoted form.
  lemma {:induction false} ProgramSplit(a: string, pending: nat, odd: bool, t: string, name: string)
      returns (post: string)
    requires HasOddBlank(a, odd)
    ensures ParseProgram(EscapeBody(a, pending) + t, !odd, name).1 == EscapeBody(post, 0) + t
    ensures Blanks(post) < Blanks(a)
    decreases a
  {
    if a[0] == '\\' {
      post := ProgramSplit(a[1..], pending + 1, odd, t, name);
    } else {
      ProgramStep(a, pending, odd, t, name);
      if a[0] == '\"' {
        post := ProgramSplit(a[1..], 0, !odd, t, name + Backslashes(2 * pending + 1));
      } else if IsBlank(a[0]) && odd {
        post := a[1..];
      } else {
        post := ProgramSplit(a[1..], 0, odd, t, name + Backslashes(pending) + [a[0]]);
      }
    }
  }

  lemma {:induction false} ProgramHasNoQuote(s: string, quoted: bool, name: string)
    requires '\"' !in name
    ensures '\"' !in ParseProgram(s, quoted, name).0
    decreases |s|
  {
    if s != "" && !(IsBlank(s[0]) && !quoted) {
      ProgramHasNoQuote(s[1..], if s[0] == '\"' then !quoted else quoted, if s[0] == '\"' then name else name + [s[0]]);
    }
  }

  lemma {:induction false} TrailingIsEnd(a: string, pending: nat)
    ensures a != "" ==> (Trailing(a, pending) > 0 <==> a[|a| - 1] == '\\')
    decreases a
  {
    if |a| > 1 {
      TrailingIsEnd(a[1..], if a[0] == '\\' then pending + 1 else 0);
    } else if a != "" {
      assert a[1..] == "";
    }
  }

  lemma {:induction false} NoQuoteFacts(a: string)
    requires '\"' !in a
    ensures !OddQuotes(a) && !HasOddBlank(a, false)
  {
    if a != "" {
      NoQuoteFacts(a[1..]);
    }
  }

  // --------------------------------------------- counting blanks and other characters

  ghost function Blanks(s: string): nat {
    if s == "" then 0 else (if IsBlank(s[0]) then 1 else 0) + Blanks(s[1..])
  }

  ghost function Ink(s: string): nat {
    if s == "" then 0 else (if IsBlank(s[0]) then 0 else 1) + Ink(s[1..])
  }

  ghost function AllBlanks(ys: seq<string>): nat {
    if ys == [] then 0 else Blanks(ys[0]) + AllBlanks(ys[1..])
  }

  ghost function AllInk(ys: seq<string>): nat {
    if ys == [] then 0 else Ink(ys[0]) + AllInk(ys[1..])
  }

  lemma {:induction false} BlanksAppend(a: string, b: string)
    ensures Blanks(a + b) == Blanks(a) + Blanks(b) && Ink(a + b) == Ink(a) + Ink(b)
  {
    if a == "" {
      assert a + b == b;
    } else {
      assert (a + b)[1..] == a[1..] + b;
      BlanksAppend(a[1..], b);
    }
  }

  lemma {:induction false} BackslashesAreInk(n: nat)
    ensures Blanks(Backslashes(n)) == 0 && Ink(Backslashes(n)) == n
  {
    if n > 0 {
      BackslashesAreInk(n - 1);
    }
  }

  lemma {:induction false} PlainHasNoBlanks(a: string)
    requires !NeedsQuotes(a)
    ensures Blanks(a) == 0
  {
    if a != "" {
      assert forall i :: 0 <= i < |a[1..]| ==> a[1..][i] == a[i + 1];
      PlainHasNoBlanks(a[1..]);
    }
  }

  lemma QuotedStep(x: string, t: string, c: string)
    ensures ParseArg(" " + Escape(x) + t, true, 0, c, false) == ParseArg(Escape(x) + t, true, 0, c + " ", false)
  {
    Assoc(" ", Escape(x), t);
    Snip(' ', Escape(x) + t);
    assert c + Backslashes(0) == c;
  }

  lemma BlankBody(z: string, t: string)
    requires z != "" && IsBlank(z[0])
    ensures ParseArgs(EscapeBody(z, 0) + t, false) == ParseArgs(EscapeBody(z[1..], 0) + t, false)
  {
    var n, c, rest := BodyShape(z, 0, t);
    assert Backslashes(0) + ([c] + rest) == [c] + rest;
    Snip(c, rest);
  }

  lemma BodyStartsUnblank(z: string, pending: nat)
    requires pending > 0 || z == "" || !IsBlank(z[0])
    ensures EscapeBody(z, pending) != "" && !IsBlank(EscapeBody(z, pending)[0])
    decreases z
  {
    if z != "" && z[0] == '\\' {
      BodyStartsUnblank(z[1..], pending + 1);
    }
  }

  // Read with quoting inverted, the separators are the only blanks kept, and each
  // argument boundary costs a blank of some argument.
  lemma {:induction false} CountSep(rest: seq<string>, c: string)
    ensures var r := ParseArg(SepJoin(rest), true, 0, c, false);
      AllBlanks(r) == Blanks(c) + |rest| && |r| <= 1 + AllBlanks(rest)
    decreases |rest|, 0
  {
    if rest == [] {
      assert c + Backslashes(0) == c;
    } else {
      var x, t := rest[0], SepJoin(rest[1..]);
      QuotedStep(x, t, c);
      EscapeStep(x, t, true, c + " ", false);
      BlanksAppend(c, " ");
      assert Blanks(" ") == 1;
      if NeedsQuotes(x) {
        CountBody(x, 0, rest[1..], c + " ");
      } else {
        PlainHasNoBlanks(x);
        BlanksAppend(c + " ", x);
        CountSep(rest[1..], if x == "" then c + " " else c + " " + x);
      }
    }
  }

  lemma {:induction false} CountBody(z: string, pending: nat, rest: seq<string>, c: string)
    ensures var r := ParseArg(EscapeBody(z, pending) + SepJoin(rest), false, 0, c, false);
      AllBlanks(r) == Blanks(c) + |rest| && |r| <= 1 + Blanks(z) + AllBlanks(rest)
    decreases |rest|, 2 * |z| + 1
  {
    var c' := c + Backslashes(pending);
    BlanksAppend(c, Backslashes(pending));
    BackslashesAreInk(pending);
    if z != "" && z[0] == '\\' {
      CountBody(z[1..], pending + 1, rest, c);
    } else {
      BodyStep(z, pending, SepJoin(rest), false, c, false);
      if z == "" {
        CountSep(rest, c');
      } else if IsBlank(z[0]) {
        CountArgs(z[1..], rest);
      } else {
        BlanksAppend(c', [z[0]]);
        CountBody(z[1..], 0, rest, c' + [z[0]]);
      }
    }
  }

  lemma {:induction false} CountArgs(z: string, rest: seq<string>)
    ensures var r := ParseArgs(EscapeBody(z, 0) + SepJoin(rest), false);
      AllBlanks(r) == |rest| && |r| <= 1 + Blanks(z) + AllBlanks(rest)
    decreases |rest|, 2 * |z| + 2
  {
    var s := EscapeBody(z, 0) + SepJoin(rest);
    if z != "" && IsBlank(z[0]) {
      BlankBody(z, SepJoin(rest));
      CountArgs(z[1..], rest);
    } else {
      BodyStartsUnblank(z, 0);
      CountBody(z, 0, rest, "");
    }
  }

  // The other characters do not depend on the quoting state at all.
  ghost function InkOf(s: string, slashes: nat): nat {
    if s == "" then slashes
    else if s[0] == '\\' then InkOf(s[1..], slashes + 1)
    else if s[0] == '\"' then slashes / 2 + slashes % 2 + InkOf(s[1..], 0)
    else slashes + (if IsBlank(s[0]) then 0 else 1) + InkOf(s[1..], 0)
  }

  lemma InkOne(c: char)
    ensures Ink([c]) == if IsBlank(c) then 0 else 1
  {
  }

  lemma {:induction false} InkOfParse(s: string, quoted: bool, slashes: nat, arg: string)
    ensures AllInk(ParseArg(s, quoted, slashes, arg, false)) == Ink(arg) + InkOf(s, slashes)
    decreases |s|, 0
  {
    hide Ink, Blanks;
    InkOne('\"');
    BlanksAppend(arg, Backslashes(slashes));
    BackslashesAreInk(slashes);
    if s != "" {
      if s[0] == '\\' {
        InkOfParse(s[1..], quoted, slashes + 1, arg);
      } else if s[0] == '\"' {
        var arg' := arg + Backslashes(slashes / 2);
        BlanksAppend(arg, Backslashes(slashes / 2));
        BackslashesAreInk(slashes / 2);
        if slashes % 2 == 1 {
          BlanksAppend(arg', "\"");
          InkOfParse(s[1..], quoted, 0, arg' + "\"");
        } else {
          InkOfParse(s[1..], !quoted, 0, arg');
        }
      } else if IsBlank(s[0]) && !quoted {
        InkOfParseArgs(s[1..]);
      } else {
        var arg' := arg + Backslashes(slashes);
        InkOne(s[0]);
        BlanksAppend(arg', [s[0]]);
        InkOfParse(s[1..], quoted, 0, arg' + [s[0]]);
      }
    }
  }

  lemma {:induction false} InkOfParseArgs(s: string)
    ensures AllInk(ParseArgs(s, false)) == InkOf(s, 0)
    decreases |s|, 1
  {
    if s != "" && IsBlank(s[0]) {
      InkOfParseArgs(s[1..]);
    } else if s != "" {
      InkOfParse(s, false, 0, "");
    }
  }

  lemma {:induction false} InkOfBackslashes(n: nat, s: string, slashes: nat)
    ensures InkOf(Backslashes(n) + s, slashes) == InkOf(s, slashes + n)
  {
    if n == 0 {
      assert Backslashes(n) + s == s;
    } else {
      assert (Backslashes(n) + s)[1..] == Backslashes(n - 1) + s;
      InkOfBackslashes(n - 1, s, slashes + 1);
    }
  }

  lemma {:induction false} InkOfBody(z: string, pending: nat, t: string)
    ensures InkOf(EscapeBody(z, pending) + t, 0) == pending + Ink(z) + InkOf(t, 0)
    decreases z
  {
    if z != "" && z[0] == '\\' {
      InkOfBody(z[1..], pending + 1, t);
    } else {
      var n, c, rest := BodyShape(z, pending, t);
      InkOfBackslashes(n, [c] + rest, 0);
      Snip(c, rest);
      if z != "" {
        InkOfBody(z[1..], 0, t);
      }
    }
  }

  // --------------------------------------------- the two quoting rules compared

  // The rule of the doubled quote keeps every argument and only adds quotes to them.
  ghost predicate AddsTo(a: string, b: string) {
    Blanks(a) == Blanks(b) && (a == b || Ink(a) < Ink(b))
  }

  ghost predicate AddsToAll(r: seq<string>, q: seq<string>) {
    |r| == |q| && AllBlanks(r) == AllBlanks(q) && (r == q || AllInk(r) < AllInk(q))
  }

  lemma AddsAppend(a: string, b: string, c: string)
    requires AddsTo(a, b)
    ensures AddsTo(a + c, b + c)
  {
    BlanksAppend(a, c);
    BlanksAppend(b, c);
  }

  lemma AddsQuote(a: string, b: string)
    requires AddsTo(a, b)
    ensures AddsTo(a, b + "\"")
  {
    BlanksAppend(b, "\"");
  }

  lemma AddsCons(a: string, b: string, r: seq<string>, q: seq<string>)
    requires AddsTo(a, b) && AddsToAll(r, q)
    ensures AddsToAll([a] + r, [b] + q)
  {
    assert ([a] + r)[1..] == r && ([b] + q)[1..] == q;
  }

  lemma NothingAdds()
    ensures AddsToAll([], [])
  {
  }

  lemma {:induction false} DoublingAddsArg(s: string, quoted: bool, slashes: nat, a: string, b: string)
    requires AddsTo(a, b)
    ensures AddsToAll(ParseArg(s, quoted, slashes, a, false), ParseArg(s, quoted, slashes, b, true))
    decreases |s|, 0
  {
    hide AddsTo, AddsToAll;
    AddsAppend(a, b, Backslashes(slashes));
    var aa, bb := a + Backslashes(slashes), b + Backslashes(slashes);
    if s == "" {
      NothingAdds();
      AddsCons(aa, bb, [], []);
      assert [aa] + [] == [aa] && [bb] + [] == [bb];
    } else if IsBlank(s[0]) && !quoted {
      DoublingAdds(s[1..]);
      AddsCons(aa, bb, ParseArgs(s[1..], false), ParseArgs(s[1..], true));
    } else if s[0] == '\\' {
      DoublingAddsArg(s[1..], quoted, slashes + 1, a, b);
    } else if s[0] == '\"' {
      var h := Backslashes(slashes / 2);
      AddsAppend(a, b, h);
      if slashes % 2 == 1 {
        AddsAppend(a + h, b + h, "\"");
        DoublingAddsArg(s[1..], quoted, 0, a + h + "\"", b + h + "\"");
      } else if quoted && |s| > 1 && s[1] == '\"' {
        AddsQuote(a + h, b + h);
        assert s[1..][1..] == s[2..] && a + h + Backslashes(0) == a + h;
        DoublingAddsArg(s[2..], quoted, 0, a + h, b + h + "\"");
      } else {
        DoublingAddsArg(s[1..], !quoted, 0, a + h, b + h);
      }
    } else {
      AddsAppend(aa, bb, [s[0]]);
      DoublingAddsArg(s[1..], quoted, 0, aa + [s[0]], bb + [s[0]]);
    }
  }

  lemma {:induction false} DoublingAdds(s: string)
    ensures AddsToAll(ParseArgs(s, false), ParseArgs(s, true))
    decreases |s|, 1
  {
    if s != "" && IsBlank(s[0]) {
      DoublingAdds(s[1..]);
    } else if s != "" {
      DoublingAddsArg(s, false, 0, "", "");
    }
  }

  // --------------------------------------------- a broken program name loses the rest

  lemma {:induction false} FirstKeepsPrefix(s: string, quoted: bool, slashes: nat, arg: string)
    ensures var r := ParseArg(s, quoted, slashes, arg, false); |r| > 0 && arg <= r[0]
    decreases |s|
  {
    if s != "" {
      if s[0] == '\\' {
        FirstKeepsPrefix(s[1..], quoted, slashes + 1, arg);
      } else if s[0] == '\"' {
        var arg' := arg + Backslashes(slashes / 2);
        if slashes % 2 == 1 {
          FirstKeepsPrefix(s[1..], quoted, 0, arg' + "\"");
        } else {
          FirstKeepsPrefix(s[1..], !quoted, 0, arg');
        }
      } else if !(IsBlank(s[0]) && !quoted) {
        FirstKeepsPrefix(s[1..], quoted, 0, arg + Backslashes(slashes) + [s[0]]);
      }
    }
  }

  // A line read from inside a fresh quote never gives its own arguments.
  lemma {:induction false} QuotedNotSelf(xs: seq<string>)
    ensures ParseArg(SepJoin(xs), true, 0, "", false) != xs
    decreases |xs|
  {
    if xs != [] && ParseArg(SepJoin(xs), true, 0, "", false) == xs {
      var x, t := xs[0], SepJoin(xs[1..]);
      QuotedStep(x, t, "");
      assert "" + " " == " ";
      FirstKeepsPrefix(Escape(x) + t, true, 0, " ");
      assert x[0] == ' ' && NeedsQuotes(x);
      EscapeStep(x, t, true, " ", false);
      BodyStep(x, 0, t, false, " ", false);
      assert " " + Backslashes(0) == " ";
      assert x == " " && x[1..] == "";
      SkipBlankBody("", t);
      QuotedNotSelf(xs[1..]);
    }
  }

  lemma {:induction false} SkipBlankBody(z: string, t: string)
    requires Ink(z) == 0
    requires t != "" ==> t[0] == ' '
    ensures ParseArgs(EscapeBody(z, 0) + t, false) == ParseArg(t, true, 0, "", false)
  {
    if z == "" {
      BodyStartsUnblank(z, 0);
      BodyStep(z, 0, t, false, "", false);
      assert "" + Backslashes(0) == "";
    } else {
      BlankBody(z, t);
      SkipBlankBody(z[1..], t);
    }
  }

  lemma SplitInk(post: string, xs: seq<string>)
    ensures AllInk(ParseArgs(EscapeBody(post, 0) + SepJoin(xs), false)) == Ink(post) + AllInk(xs)
  {
    var t := SepJoin(xs);
    InkOfParseArgs(EscapeBody(post, 0) + t);
    InkOfBody(post, 0, t);
    InkOfParseArgs(t);
    ParseSepJoin(xs, false);
  }

  lemma SplitLosesRest(post: string, xs: seq<string>, doubling: bool)
    ensures ParseArgs(EscapeBody(post, 0) + SepJoin(xs), doubling) != xs
  {
    var line := EscapeBody(post, 0) + SepJoin(xs);
    DoublingAdds(line);
    SplitInk(post, xs);
    if ParseArgs(line, doubling) == xs {
      SkipBlankBody(post, SepJoin(xs));
      QuotedNotSelf(xs);
    }
  }

  // A name still inside quotes swallows arguments or the blanks in them.
  lemma {:induction false} OddLosesRest(xs: seq<string>, name: string)
    ensures var r := ParseArgs(ParseProgram(SepJoin(xs), true, name).1, false);
      if xs == [] then r == [] else |r| < |xs| || AllBlanks(r) < AllBlanks(xs)
    decreases |xs|
  {
    if xs != [] {
      var x, t := xs[0], SepJoin(xs[1..]);
      ProgramQuotedStep(x, t, name);
      ProgramArgStep(x, t, true, name + " ");
      if !NeedsQuotes(x) {
        OddLosesRest(xs[1..], if x == "" then name + " " else name + " " + x);
      } else if HasOddBlank(x, true) {
        var post := ProgramSplit(x, 0, true, t, name + " ");
        CountArgs(post, xs[1..]);
      } else {
        ProgramBody(x, 0, true, t, name + " ");
        if OddQuotes(x) {
          OpenEnd(xs[1..], name + " " + ProgramText(x, 0));
        } else {
          OddLosesRest(xs[1..], name + " " + ProgramText(x, 0));
        }
      }
    }
  }

  // A name that has closed its quotes ends at the separator.
  lemma OpenEnd(xs: seq<string>, name: string)
    ensures ParseProgram(SepJoin(xs), false, name) == (name, Join(xs))
    ensures ParseArgs(Join(xs), false) == xs && ParseArgs(Join(xs), true) == xs
  {
    ParseSepJoin(xs, false);
    ParseSepJoin(xs, true);
    if xs != [] {
      SepJoinShape(xs);
    }
  }

  // ------------------------------------------------------------- main results

  ghost predicate NulFree(args: seq<string>) {
    forall a :: a in args ==> '\0' !in a
  }

  // The program name closes its own quotes before any blank of its own, and no
  // other argument follows a name that leaves them open.
  ghost predicate ClosedProgram(args: seq<string>)
    requires args != []
  {
    !HasOddBlank(args[0], false) && (OddQuotes(args[0]) ==> |args| == 1)
  }

  lemma {:induction false} UntilNulId(s: string)
    requires '\0' !in s
    ensures UntilNul(s) == s
  {
    if s != "" {
      UntilNulId(s[1..]);
    }
  }

  lemma {:induction false} BodyNulFree(a: string, pending: nat)
    requires '\0' !in a
    ensures '\0' !in EscapeBody(a, pending)
    decreases a
  {
    if a != "" {
      BodyNulFree(a[1..], if a[0] == '\\' then pending + 1 else 0);
    }
  }

  lemma {:induction false} SepJoinNulFree(args: seq<string>)
    requires NulFree(args)
    ensures '\0' !in SepJoin(args)
    decreases |args|
  {
    if args != [] {
      BodyNulFree(args[0], 0);
      SepJoinNulFree(args[1..]);
    }
  }

  // The whole line, without its NUL check, starting at the program name.
  lemma LineShape(args: seq<string>, doubling: bool)
    requires args != [] && NulFree(args)
    ensures var p := ParseProgram(Escape(args[0]) + SepJoin(args[1..]), false, "");
      ParseCommandLine(Join(args), doubling) == [p.0] + ParseArgs(p.1, doubling)
  {
    BodyNulFree(args[0], 0);
    SepJoinNulFree(args[1..]);
    UntilNulId(Join(args));
  }

  lemma ProgramEscape(a: string, t: string) returns (name: string)
    requires !HasOddBlank(a, false)
    ensures ParseProgram(Escape(a) + t, false, "") == ParseProgram(t, OddQuotes(a), name)
    ensures '\"' !in a ==> name == a + Backslashes(Trailing(a, 0))
  {
    ProgramArgStep(a, t, false, "");
    assert a + Backslashes(0) == a == "" + a == Backslashes(0) + a;
    if NeedsQuotes(a) {
      name := ProgramText(a, 0);
      ProgramBody(a, 0, false, t, "");
      assert "" + name == name;
      if '\"' !in a {
        ProgramTextNoQuote(a, 0);
      }
    } else {
      name := a;
      NoQuoteFacts(a);
      TrailingIsEnd(a, 0);
    }
  }

  // Every argument after the program name comes back, under both quoting rules.
  lemma TailComesBack(args: seq<string>, doubling: bool)
    requires args != [] && NulFree(args) && ClosedProgram(args)
    ensures ParseCommandLine(Join(args), doubling)[1..] == args[1..]
  {
    LineShape(args, doubling);
    var name := ProgramEscape(args[0], SepJoin(args[1..]));
    OpenEnd(args[1..], name);
  }

  lemma OpenBlankLosesTail(args: seq<string>, doubling: bool)
    requires args != [] && HasOddBlank(args[0], false)
    ensures ParseArgs(ParseProgram(Escape(args[0]) + SepJoin(args[1..]), false, "").1, doubling) != args[1..]
  {
    var a, t := args[0], SepJoin(args[1..]);
    if !NeedsQuotes(a) {
      NoQuoteFacts(a);
    }
    ProgramArgStep(a, t, false, "");
    var post := ProgramSplit(a, 0, false, t, "");
    SplitLosesRest(post, args[1..], doubling);
  }

  // Exactly when: the condition on the program name is also necessary, under both rules.
  lemma TailComesBackIff(args: seq<string>, doubling: bool)
    requires args != [] && NulFree(args)
    ensures ParseCommandLine(Join(args), doubling)[1..] == args[1..] <==> ClosedProgram(args)
  {
    if ClosedProgram(args) {
      TailComesBack(args, doubling);
    } else {
      LineShape(args, doubling);
      if HasOddBlank(args[0], false) {
        OpenBlankLosesTail(args, doubling);
      } else {
        var name := ProgramEscape(args[0], SepJoin(args[1..]));
        OddLosesRest(args[1..], name);
        DoublingAdds(ParseProgram(SepJoin(args[1..]), true, name).1);
      }
    }
  }

  // The program name comes back exactly when it has no quote and no final backslash.
  lemma ProgramComesBackIff(args: seq<string>, doubling: bool)
    requires args != [] && NulFree(args)
    ensures ParseCommandLine(Join(args), doubling)[0] == args[0]
      <==> '\"' !in args[0] && (args[0] != "" ==> args[0][|args[0]| - 1] != '\\')
  {
    LineShape(args, doubling);
    var a, t := args[0], SepJoin(args[1..]);
    if '\"' in a {
      ProgramHasNoQuote(Escape(a) + t, false, "");
    } else {
      NoQuoteFacts(a);
      var name := ProgramEscape(a, t);
      OpenEnd(args[1..], name);
      TrailingIsEnd(a, 0);
      assert |name| == |a| + Trailing(a, 0);
      if Trailing(a, 0) == 0 {
        assert name == a;
      }
    }
  }

  // The line as a whole comes back, in particular for every program path without
  // quotes that does not end in a backslash.
  lemma CommandLineRoundTrip(args: seq<string>, doubling: bool)
    requires args != [] && NulFree(args)
    requires '\"' !in args[0] && (args[0] != "" ==> args[0][|args[0]| - 1] != '\\')
    ensures ParseCommandLine(Join(args), doubling) == args
  {
    NoQuoteFacts(args[0]);
    TailComesBack(args, doubling);
    ProgramComesBackIff(args, doubling);
    var r := ParseCommandLine(Join(args), doubling);
    assert r == [r[0]] + r[1..] && args == [args[0]] + args[1..];
  }

  // A program name with a quote before a blank: the next argument is lost.
  lemma QuotedProgramLosesTail(doubling: bool)
    ensures ParseCommandLine(Join(["a\" b", "c"]), doubling)[1..] != ["c"]
  {
    var args := ["a\" b", "c"];
    var a := args[0];
    assert a[1..] == "\" b" && a[1..][1..] == " b";
    assert HasOddBlank(a[1..][1..], true);
    assert HasOddBlank(a[1..], false);
    assert HasOddBlank(a, false);
    TailComesBackIff(args, doubling);
  }
}
