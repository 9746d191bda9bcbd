/**
 Release version translation (sdk/python/release_version.py).  The regular expressions
 are small scanners: `Scan` reads the normalized form, `Rewrite` applies one of the
 four suffix rewrites.
 */
module ReleaseVersion {
  import opened Results
  import opened Sequences

  datatype Kind = Alpha | Beta | Rc
  datatype Pre = Pre(kind: Kind, number: string)
  datatype Version = Version(base: string, pre: Option<Pre>, post: Option<string>)

  predicate IsDigit(c: char) {
    '0' <= c <= '9'
  }

  predicate AllDigits(s: string) {
    forall i :: 0 <= i < |s| ==> IsDigit(s[i])
  }

  predicate IsNumber(s: string) {
    s != "" && AllDigits(s)
  }

  // The characters `str.strip` removes.
  predicate IsSpace(c: char) {
    var n := c as int;
    9 <= n <= 13 || 0x1C <= n <= 0x20 || n == 0x85 || n == 0xA0 || n == 0x1680 || 0x2000 <= n <= 0x200A
    || n == 0x2028 || n == 0x2029 || n == 0x202F || n == 0x205F || n == 0x3000
  }

  function StripLeft(s: string): string {
    if s != "" && IsSpace(s[0]) then StripLeft(s[1..]) else s
  }

  function StripRight(s: string): string {
    if s != "" && IsSpace(s[|s| - 1]) then StripRight(s[..|s| - 1]) else s
  }

  function Strip(s: string): string {
    StripRight(StripLeft(s))
  }

  // ------------------------------------------------------------- the normalized form

  function LeadingDigits(s: string): (n: nat)
    ensures n <= |s| && AllDigits(s[..n])
    ensures n < |s| ==> !IsDigit(s[n])
  {
    if s == "" || !IsDigit(s[0]) then 0 else 1 + LeadingDigits(s[1..])
  }

  // The length of the longest prefix of numbers separated by dots.
  function BaseLength(s: string): (n: nat)
    ensures n <= |s|
    decreases |s|
  {
    var d := LeadingDigits(s);
    if d > 0 && |s| > d + 1 && s[d] == '.' && IsDigit(s[d + 1]) then d + 1 + BaseLength(s[d + 1..]) else d
  }

  predicate IsBase(s: string) {
    s != "" && BaseLength(s) == |s|
  }

  function Short(k: Kind): string {
    match k case Alpha => "a" case Beta => "b" case Rc => "rc"
  }

  function Long(k: Kind): string {
    match k case Alpha => "alpha" case Beta => "beta" case Rc => "rc"
  }

  function PrintPre(p: Option<Pre>): string {
    if p.Some? then Short(p.value.kind) + p.value.number else ""
  }

  function PrintPost(p: Option<string>): string {
    if p.Some? then ".post" + p.value else ""
  }

  function Print(v: Version): string {
    v.base + (PrintPre(v.pre) + PrintPost(v.post))
  }

  predicate Valid(v: Version) {
    IsBase(v.base) && (v.pre.Some? ==> IsNumber(v.pre.value.number)) && (v.post.Some? ==> IsNumber(v.post.value))
  }

  function ScanKind(s: string): Option<Kind> {
    if "a" <= s then Some(Alpha) else if "b" <= s then Some(Beta) else if "rc" <= s then Some(Rc) else None
  }

  function ScanPre(s: string): (Option<Pre>, string) {
    var k := ScanKind(s);
    if k.None? then (None, s)
    else
      var t := s[|Short(k.value)|..];
      var d := LeadingDigits(t);
      if d == 0 then (None, s) else (Some(Pre(k.value, t[..d])), t[d..])
  }

  function ScanPost(s: string): Option<Option<string>> {
    if s == "" then Some(None)
    else if ".post" <= s && IsNumber(s[5..]) then Some(Some(s[5..]))
    else None
  }

  // `_NORMALIZED_CODEX_VERSION_PATTERN.fullmatch`, with its groups.
  function Scan(s: string): Option<Version> {
    var b := BaseLength(s);
    var (pre, rest) := ScanPre(s[b..]);
    var post := ScanPost(rest);
    if b == 0 || post.None? then None else Some(Version(s[..b], pre, post.value))
  }

  lemma Cut(a: string, b: string)
    ensures (a + b)[..|a|] == a && (a + b)[|a|..] == b
  {
  }

  lemma {:induction false} LeadingDigitsOf(d: string, t: string)
    requires AllDigits(d) && (t != "" ==> !IsDigit(t[0]))
    ensures LeadingDigits(d + t) == |d|
  {
    if d == "" {
      assert d + t == t;
    } else {
      assert (d + t)[1..] == d[1..] + t;
      LeadingDigitsOf(d[1..], t);
    }
  }

  lemma BaseLengthDotted(d: string, t: string)
    requires IsNumber(d) && t != "" && IsDigit(t[0])
    ensures BaseLength(d + ("." + t)) == |d| + 1 + BaseLength(t)
  {
    LeadingDigitsOf(d, "." + t);
    assert (d + ("." + t))[|d| + 1..] == t;
  }

  lemma BaseLengthLast(d: string, t: string)
    requires IsNumber(d) && (t != "" ==> !IsDigit(t[0]))
    requires |t| > 1 && t[0] == '.' ==> !IsDigit(t[1])
    ensures BaseLength(d + t) == |d|
  {
    LeadingDigitsOf(d, t);
  }

  // A base is one number, or a number, a dot and a base.
  lemma BaseShape(b: string) returns (d: string, t: string)
    requires IsBase(b)
    ensures IsNumber(d) && |t| < |b|
    ensures if t == "" then b == d else b == d + ("." + t) && IsBase(t) && IsDigit(t[0])
  {
    var n := LeadingDigits(b);
    d, t := b[..n], if n == |b| then "" else b[n + 1..];
    assert n < |b| ==> b == b[..n] + ([b[n]] + b[n + 1..]);
  }

  lemma {:induction false} BaseLengthOf(b: string, t: string)
    requires IsBase(b) && (t != "" ==> !IsDigit(t[0]))
    requires |t| > 1 && t[0] == '.' ==> !IsDigit(t[1])
    ensures BaseLength(b + t) == |b|
    decreases |b|
  {
    hide BaseLength, IsNumber;
    var d, u := BaseShape(b);
    if u == "" {
      BaseLengthLast(d, t);
    } else {
      BaseLengthOf(u, t);
      BaseLengthDotted(d, u + t);
      Assoc(".", u, t);
      Assoc(d, "." + u, t);
    }
  }

  lemma LeadingDigitsPositive(s: string)
    ensures LeadingDigits(s) > 0 <==> s != "" && IsDigit(s[0])
  {
  }

  lemma BaseLengthCases(s: string)
    ensures var d, n := LeadingDigits(s), BaseLength(s);
      && n >= d && (n > 0 ==> d > 0)
      && (n > d ==> d + 1 < |s| && s[d] == '.' && IsDigit(s[d + 1]) && n == d + 1 + BaseLength(s[d + 1..]))
  {
    hide LeadingDigits;
  }

  lemma SliceDotted(s: string, d: nat, m: nat)
    requires d + 1 + m <= |s| && s[d] == '.'
    ensures s[..d + 1 + m] == s[..d] + ("." + s[d + 1..][..m])
  {
  }

  // A longest prefix is a base of its own.
  lemma {:induction false} BaseLengthFixed(s: string)
    ensures BaseLength(s) > 0 <==> s != "" && IsDigit(s[0])
    ensures BaseLength(s) > 0 ==> IsBase(s[..BaseLength(s)])
    decreases |s|
  {
    hide BaseLength, LeadingDigits;
    var d, n := LeadingDigits(s), BaseLength(s);
    LeadingDigitsPositive(s);
    BaseLengthCases(s);
    if n > d {
      var rest := s[d + 1..];
      BaseLengthFixed(rest);
      SliceDotted(s, d, n - d - 1);
      BaseLengthDotted(s[..d], rest[..n - d - 1]);
    } else if n > 0 {
      assert s[..d] == s[..d] + "";
      BaseLengthLast(s[..d], "");
    }
  }

  lemma ScanKindOf(k: Kind, t: string)
    ensures ScanKind(Short(k) + t) == Some(k)
  {
    var s := Short(k) + t;
    assert s[0] == Short(k)[0] && Short(k) <= s;
  }

  lemma NoKind(t: string)
    requires t == "" || t[0] == '.'
    ensures ScanKind(t) == None
  {
  }

  lemma ScanPreOf(p: Option<Pre>, t: string)
    requires p.Some? ==> IsNumber(p.value.number)
    requires t == "" || t[0] == '.'
    ensures ScanPre(PrintPre(p) + t) == (p, t)
  {
    hide ScanKind;
    if p.None? {
      assert PrintPre(p) + t == t;
      NoKind(t);
    } else {
      var k, d := p.value.kind, p.value.number;
      Assoc(Short(k), d, t);
      ScanKindOf(k, d + t);
      Cut(Short(k), d + t);
      LeadingDigitsOf(d, t);
      Cut(d, t);
    }
  }

  lemma ScanPostOf(p: Option<string>)
    requires p.Some? ==> IsNumber(p.value)
    ensures ScanPost(PrintPost(p)) == Some(p)
  {
    if p.Some? {
      Cut(".post", p.value);
    }
  }

  lemma SuffixStart(p: Option<Pre>, q: Option<string>)
    requires q.Some? ==> IsNumber(q.value)
    ensures var t := PrintPre(p) + PrintPost(q);
      (t != "" ==> !IsDigit(t[0])) && (|t| > 1 && t[0] == '.' ==> !IsDigit(t[1]))
  {
  }

  // The scanner reads back every printed version ...
  lemma ScanPrint(v: Version)
    requires Valid(v)
    ensures Scan(Print(v)) == Some(v)
  {
    hide BaseLength, ScanPre, PrintPre, ScanPost, IsNumber;
    var post := PrintPost(v.post);
    var t := PrintPre(v.pre) + post;
    SuffixStart(v.pre, v.post);
    BaseLengthOf(v.base, t);
    Cut(v.base, t);
    ScanPreOf(v.pre, post);
    ScanPostOf(v.post);
  }

  lemma Rejoin(s: string, n: nat)
    requires n <= |s|
    ensures s == s[..n] + s[n..]
  {
  }

  lemma ScanKindSound(s: string)
    ensures var k := ScanKind(s);
      k.Some? ==> Short(k.value) <= s
  {
  }

  lemma PreJoin(s: string, k: Kind, d: nat)
    requires Short(k) <= s && d <= |s| - |Short(k)|
    ensures var u := s[|Short(k)|..];
      s == (Short(k) + u[..d]) + u[d..]
  {
    var u := s[|Short(k)|..];
    Rejoin(s, |Short(k)|);
    Rejoin(u, d);
    Assoc(Short(k), u[..d], u[d..]);
  }

  lemma ScanPreSound(s: string)
    ensures var (p, t) := ScanPre(s);
      s == PrintPre(p) + t && (p.Some? ==> IsNumber(p.value.number))
  {
    hide LeadingDigits, AllDigits, ScanKind, Short;
    if ScanKind(s).Some? {
      var k := ScanKind(s).value;
      ScanKindSound(s);
      PreJoin(s, k, LeadingDigits(s[|Short(k)|..]));
    }
    assert s == "" + s;
  }

  lemma ScanPostSound(s: string)
    ensures var p := ScanPost(s);
      p.Some? ==> s == PrintPost(p.value) && (p.value.Some? ==> IsNumber(p.value.value))
  {
    if s != "" && ScanPost(s).Some? {
      assert s == s[..5] + s[5..];
    }
  }

  // ... and reads nothing else.
  lemma ScanSound(s: string)
    ensures Scan(s).Some? ==> Valid(Scan(s).value) && Print(Scan(s).value) == s
  {
    hide BaseLength, ScanPre, ScanPost, PrintPre, PrintPost, IsNumber;
    if Scan(s).Some? {
      var b := BaseLength(s);
      BaseLengthFixed(s);
      ScanPreSound(s[b..]);
      ScanPostSound(ScanPre(s[b..]).1);
      assert s == s[..b] + s[b..];
    }
  }

  lemma ScanIff(s: string, v: Version)
    ensures Scan(s) == Some(v) <==> Valid(v) && Print(v) == s
  {
    hide Scan, Print, Valid;
    ScanSound(s);
    if Valid(v) {
      ScanPrint(v);
    }
  }

  // ------------------------------------------------------------- the suffix rewrites

  datatype Form = HotfixForm | NumberedForm(kind: Kind)
  datatype Suffix = Hotfix(alpha: string, fix: string) | Numbered(kind: Kind, number: string)

  predicate ValidSuffix(x: Suffix) {
    match x
    case Hotfix(n, h) => IsNumber(n) && IsNumber(h)
    case Numbered(_, n) => IsNumber(n)
  }

  function FormOf(x: Suffix): Form {
    if x.Hotfix? then HotfixForm else NumberedForm(x.kind)
  }

  function Name(f: Form): string {
    if f.HotfixForm? then Long(Alpha) else Long(f.kind)
  }

  function Numbers(x: Suffix): string {
    match x
    case Hotfix(n, h) => n + ("." + h)
    case Numbered(_, n) => n
  }

  function Dot(dotted: bool): string {
    if dotted then "." else ""
  }

  // How a release tag spells a suffix, with or without the optional dot ...
  function Dashed(x: Suffix, dotted: bool): string {
    ("-" + Name(FormOf(x))) + (Dot(dotted) + Numbers(x))
  }

  function PreOf(x: Suffix): Pre {
    match x
    case Hotfix(n, _) => Pre(Alpha, n)
    case Numbered(k, n) => Pre(k, n)
  }

  function PostOf(x: Suffix): Option<string> {
    if x.Hotfix? then Some(x.fix) else None
  }

  // ... and how a normalized version spells it.
  function Plain(x: Suffix): string {
    PrintPre(Some(PreOf(x))) + PrintPost(PostOf(x))
  }

  function ReadNumbers(f: Form, u: string): Option<Suffix> {
    match f
    case HotfixForm =>
      var d := LeadingDigits(u);
      if 0 < d < |u| && u[d] == '.' && IsNumber(u[d + 1..]) then Some(Hotfix(u[..d], u[d + 1..])) else None
    case NumberedForm(k) => if IsNumber(u) then Some(Numbered(k, u)) else None
  }

  // Matches one of the four patterns against the whole of `s`; each ends in `$`.
  function ReadSuffix(f: Form, s: string): Option<Suffix> {
    var head := "-" + Name(f);
    if !(head <= s) then None
    else
      var t := s[|head|..];
      ReadNumbers(f, if t != "" && t[0] == '.' then t[1..] else t)
  }

  // `re.sub`: the leftmost match is replaced; it reaches the end of the text, so there is no other.
  function Rewrite(f: Form, s: string): string {
    var m := ReadSuffix(f, s);
    if m.Some? then Plain(m.value)
    else if s == "" then ""
    else [s[0]] + Rewrite(f, s[1..])
  }

  function Rewritten(s: string): string {
    var s1 := Rewrite(HotfixForm, s);
    var s2 := Rewrite(NumberedForm(Alpha), s1);
    var s3 := Rewrite(NumberedForm(Beta), s2);
    Rewrite(NumberedForm(Rc), s3)
  }

  function Unprefixed(s: string): string {
    if "rust-v" <= s then s[6..] else if "v" <= s then s[1..] else s
  }

  // The text the rewrites work on.
  function Body(version: string): string {
    Unprefixed(Strip(version))
  }

  datatype Failure = CouldNotNormalize | NotARuntimeVersion

  function Normalize(version: string): Result<string, Failure> {
    var n := Rewritten(Body(version));
    if Scan(n).Some? then Ok(n) else Err(CouldNotNormalize)
  }

  predicate NoDash(s: string) {
    '-' !in s
  }

  lemma NumbersOf(x: Suffix)
    requires ValidSuffix(x)
    ensures ReadNumbers(FormOf(x), Numbers(x)) == Some(x)
  {
    if x.Hotfix? {
      LeadingDigitsOf(x.alpha, "." + x.fix);
      Cut(x.alpha, "." + x.fix);
      assert Numbers(x)[|x.alpha| + 1..] == x.fix;
    }
  }

  lemma NumbersStart(x: Suffix)
    requires ValidSuffix(x)
    ensures Numbers(x) != "" && IsDigit(Numbers(x)[0])
  {
  }

  lemma ReadSuffixOf(x: Suffix, dotted: bool)
    requires ValidSuffix(x)
    ensures ReadSuffix(FormOf(x), Dashed(x, dotted)) == Some(x)
  {
    hide ReadNumbers, Numbers, ValidSuffix;
    NumbersOf(x);
    NumbersStart(x);
    Cut("-" + Name(FormOf(x)), Dot(dotted) + Numbers(x));
    Cut(Dot(dotted), Numbers(x));
  }

  lemma NumbersSound(f: Form, u: string)
    ensures var x := ReadNumbers(f, u);
      x.Some? ==> FormOf(x.value) == f && ValidSuffix(x.value) && u == Numbers(x.value)
  {
    if f.HotfixForm? && ReadNumbers(f, u).Some? {
      var d := LeadingDigits(u);
      assert u == u[..d] + ([u[d]] + u[d + 1..]);
    }
  }

  lemma ReadSuffixSound(f: Form, s: string) returns (dotted: bool)
    requires ReadSuffix(f, s).Some?
    ensures var x := ReadSuffix(f, s).value;
      FormOf(x) == f && ValidSuffix(x) && s == Dashed(x, dotted)
  {
    hide ReadNumbers, ValidSuffix, Numbers;
    var head := "-" + Name(f);
    var t := s[|head|..];
    dotted := t != "" && t[0] == '.';
    var u := if dotted then t[1..] else t;
    NumbersSound(f, u);
    assert s == head + t;
    assert t == Dot(dotted) + u;
  }

  lemma RewriteStays(f: Form, c: char, rest: string)
    requires ReadSuffix(f, [c] + rest) == None
    ensures Rewrite(f, [c] + rest) == [c] + Rewrite(f, rest)
  {
    hide ReadSuffix, Plain;
    assert ([c] + rest)[1..] == rest;
  }

  lemma NoDashNoMatch(f: Form, c: char, rest: string)
    requires c != '-'
    ensures ReadSuffix(f, [c] + rest) == None
  {
    hide ReadNumbers;
    assert ([c] + rest)[0] != ("-" + Name(f))[0];
  }

  lemma FirstAndRest(b: string, t: string)
    requires b != ""
    ensures b + t == [b[0]] + (b[1..] + t)
  {
  }

  lemma {:induction false} RewriteAfter(f: Form, b: string, t: string)
    requires NoDash(b)
    ensures Rewrite(f, b + t) == b + Rewrite(f, t)
  {
    hide Rewrite, ReadSuffix;
    if b == "" {
      assert b + t == t && b + Rewrite(f, t) == Rewrite(f, t);
    } else {
      assert b[0] in b;
      RewriteAfter(f, b[1..], t);
      NoDashNoMatch(f, b[0], b[1..] + t);
      RewriteStays(f, b[0], b[1..] + t);
      FirstAndRest(b, t);
      FirstAndRest(b, Rewrite(f, t));
    }
  }

  lemma RewriteSame(f: Form, s: string)
    requires NoDash(s)
    ensures Rewrite(f, s) == s
  {
    RewriteAfter(f, s, "");
    assert s + "" == s;
  }

  // A dash that opens no match stays, with what follows it up to the next dash.
  lemma RewriteSkips(f: Form, b: string, t: string)
    requires b != "" && b[0] == '-' && NoDash(b[1..]) && ReadSuffix(f, b + t) == None
    ensures Rewrite(f, b + t) == b + Rewrite(f, t)
  {
    hide Rewrite, ReadSuffix;
    FirstAndRest(b, t);
    RewriteStays(f, b[0], b[1..] + t);
    RewriteAfter(f, b[1..], t);
    FirstAndRest(b, Rewrite(f, t));
  }

  lemma {:induction false} RewriteShape(f: Form, s: string) returns (b: string)
    ensures Rewrite(f, s) == s || (b <= s && ReadSuffix(f, s[|b|..]).Some?
      && Rewrite(f, s) == b + Plain(ReadSuffix(f, s[|b|..]).value))
  {
    hide ReadSuffix, Plain;
    b := "";
    if ReadSuffix(f, s).Some? {
      assert s[|b|..] == s;
    } else if s != "" {
      var c := RewriteShape(f, s[1..]);
      b := [s[0]] + c;
      if Rewrite(f, s[1..]) != s[1..] {
        assert s[|b|..] == s[1..][|c|..];
        Assoc([s[0]], c, Plain(ReadSuffix(f, s[|b|..]).value));
      }
    }
  }

  // ------------------------------------------------------------- what each spelling becomes

  lemma DigitsNoDash(s: string)
    requires AllDigits(s)
    ensures NoDash(s)
  {
  }

  lemma {:induction false} BaseNoDash(b: string)
    requires IsBase(b)
    ensures NoDash(b)
    decreases |b|
  {
    hide BaseLength;
    var d, t := BaseShape(b);
    DigitsNoDash(d);
    if t != "" {
      BaseNoDash(t);
    }
  }

  lemma PlainNoDash(x: Suffix)
    requires ValidSuffix(x)
    ensures NoDash(Plain(x))
  {
    DigitsNoDash(PreOf(x).number);
    if x.Hotfix? {
      DigitsNoDash(x.fix);
    }
  }

  lemma PrintNoDash(v: Version)
    requires Valid(v)
    ensures NoDash(Print(v))
  {
    hide IsBase;
    BaseNoDash(v.base);
    if v.pre.Some? {
      DigitsNoDash(v.pre.value.number);
    }
    if v.post.Some? {
      DigitsNoDash(v.post.value);
    }
  }

  lemma NumbersNoDash(x: Suffix)
    requires ValidSuffix(x)
    ensures NoDash(Numbers(x))
  {
    DigitsNoDash(PreOf(x).number);
    if x.Hotfix? {
      DigitsNoDash(x.fix);
    }
  }

  lemma DashedOneDash(x: Suffix, dotted: bool)
    requires ValidSuffix(x)
    ensures var s := Dashed(x, dotted);
      s != "" && s[0] == '-' && NoDash(s[1..])
  {
    hide ValidSuffix, Numbers;
    NumbersNoDash(x);
    assert Dashed(x, dotted)[1..] == Name(FormOf(x)) + (Dot(dotted) + Numbers(x));
  }

  lemma NumbersOther(f: Form, x: Suffix)
    requires ValidSuffix(x) && f != FormOf(x) && Name(f) == Name(FormOf(x))
    ensures ReadNumbers(f, Numbers(x)) == None
  {
    if x.Hotfix? {
      assert Numbers(x)[|x.alpha|] == '.';
    } else {
      assert Numbers(x) == x.number + "";
      LeadingDigitsOf(x.number, "");
    }
  }

  lemma ReadOther(f: Form, x: Suffix, dotted: bool)
    requires ValidSuffix(x) && f != FormOf(x)
    ensures ReadSuffix(f, Dashed(x, dotted)) == None
  {
    hide ReadNumbers, Numbers, ValidSuffix, Name;
    if Name(f) == Name(FormOf(x)) {
      var head := "-" + Name(FormOf(x));
      NumbersOther(f, x);
      NumbersStart(x);
      Cut(head, Dot(dotted) + Numbers(x));
      Cut(Dot(dotted), Numbers(x));
    } else {
      NamesApart(f, FormOf(x), Dot(dotted) + Numbers(x));
    }
  }

  lemma NamesApart(f: Form, g: Form, t: string)
    requires Name(f) != Name(g)
    ensures !("-" + Name(f) <= ("-" + Name(g)) + t)
  {
    var head, other := "-" + Name(g), "-" + Name(f);
    assert (head + t)[1] == head[1] != other[1];
  }

  lemma RewriteDashed(f: Form, b: string, x: Suffix, dotted: bool)
    requires NoDash(b) && ValidSuffix(x)
    ensures Rewrite(f, b + Dashed(x, dotted)) == b + if f == FormOf(x) then Plain(x) else Dashed(x, dotted)
  {
    hide ReadSuffix, Dashed, Plain, ValidSuffix;
    var s := Dashed(x, dotted);
    RewriteAfter(f, b, s);
    if f == FormOf(x) {
      ReadSuffixOf(x, dotted);
    } else {
      ReadOther(f, x, dotted);
      DashedOneDash(x, dotted);
      assert s + "" == s;
      RewriteSkips(f, s, "");
      RewriteSame(f, "");
    }
  }

  lemma ConcatNoDash(a: string, b: string)
    requires NoDash(a) && NoDash(b)
    ensures NoDash(a + b)
  {
  }

  lemma RewrittenDashed(b: string, x: Suffix, dotted: bool)
    requires NoDash(b) && ValidSuffix(x)
    ensures Rewritten(b + Dashed(x, dotted)) == b + Plain(x)
  {
    hide Rewrite, Plain, Dashed, ValidSuffix, NoDash;
    PlainNoDash(x);
    assert FormOf(x) == HotfixForm || FormOf(x).kind == Alpha || FormOf(x).kind == Beta || FormOf(x).kind == Rc;
    ConcatNoDash(b, Plain(x));
    RewriteDashed(HotfixForm, b, x, dotted);
    RewriteDashed(NumberedForm(Alpha), b, x, dotted);
    RewriteDashed(NumberedForm(Beta), b, x, dotted);
    RewriteDashed(NumberedForm(Rc), b, x, dotted);
    RewriteSame(NumberedForm(Alpha), b + Plain(x));
    RewriteSame(NumberedForm(Beta), b + Plain(x));
    RewriteSame(NumberedForm(Rc), b + Plain(x));
  }

  lemma RewrittenSame(s: string)
    requires NoDash(s)
    ensures Rewritten(s) == s
  {
    hide Rewrite, NoDash;
    RewriteSame(HotfixForm, s);
    RewriteSame(NumberedForm(Alpha), s);
    RewriteSame(NumberedForm(Beta), s);
    RewriteSame(NumberedForm(Rc), s);
  }

  lemma BetNoMatch(f: Form, t: string)
    requires t != "" && t[0] == '-'
    ensures ReadSuffix(f, "-bet" + t) == None
  {
    hide ReadNumbers;
    var s, head := "-bet" + t, "-" + Name(f);
    assert s[4] == '-' && s[1] == 'b';
    assert head[1] != 'b' || head == "-beta";
  }

  lemma RewriteBet(f: Form, b: string, x: Suffix, dotted: bool)
    requires NoDash(b) && ValidSuffix(x)
    ensures Rewrite(f, b + ("-bet" + Dashed(x, dotted)))
      == b + ("-bet" + if f == FormOf(x) then Plain(x) else Dashed(x, dotted))
  {
    hide Dashed, Plain, Rewrite, ReadSuffix, ValidSuffix;
    var s := Dashed(x, dotted);
    RewriteAfter(f, b, "-bet" + s);
    DashedOneDash(x, dotted);
    BetNoMatch(f, s);
    RewriteSkips(f, "-bet", s);
    RewriteDashed(f, "", x, dotted);
    assert "" + s == s && "" + Plain(x) == Plain(x);
  }

  lemma BetaCompleted(n: string)
    ensures "-bet" + Plain(Numbered(Alpha, n)) == Dashed(Numbered(Beta, n), false)
  {
    assert Plain(Numbered(Alpha, n)) == "a" + n;
    assert "-bet" + ("a" + n) == "-beta" + ("" + n);
  }

  // The alpha rewrite can complete the word "beta", which the next rewrite then takes up.
  lemma RewrittenBet(b: string, n: string, dotted: bool)
    requires NoDash(b) && IsNumber(n)
    ensures Rewritten(b + ("-bet" + Dashed(Numbered(Alpha, n), dotted))) == b + Plain(Numbered(Beta, n))
  {
    hide Rewrite, NoDash, IsNumber, Plain, Dashed;
    var x, y := Numbered(Alpha, n), Numbered(Beta, n);
    assert ValidSuffix(x) && ValidSuffix(y);
    RewriteBet(HotfixForm, b, x, dotted);
    RewriteBet(NumberedForm(Alpha), b, x, dotted);
    BetaCompleted(n);
    RewriteDashed(NumberedForm(Beta), b, y, false);
    PlainNoDash(y);
    ConcatNoDash(b, Plain(y));
    RewriteSame(NumberedForm(Rc), b + Plain(y));
  }

  // ------------------------------------------------------------- where a result can come from

  // `s` is `stem` and a number, and the stem ends in `c`, which is no digit.
  predicate Ends(s: string, stem: string, c: char, d: string) {
    s == stem + d && stem != "" && stem[|stem| - 1] == c && !IsDigit(c) && IsNumber(d)
  }

  lemma EndsUnique(s: string, a: string, c: char, d: string, b: string, e: char, f: string)
    requires Ends(s, a, c, d) && Ends(s, b, e, f)
    ensures a == b && c == e && d == f
  {
    assert s[|a| - 1] == c && s[|b| - 1] == e;
    if |a| == |b| {
      Cut(a, d);
      Cut(b, f);
    }
  }

  function Last(s: string): char
    requires s != ""
  {
    s[|s| - 1]
  }

  lemma EndsOf(stem: string, d: string)
    requires stem != "" && !IsDigit(Last(stem)) && IsNumber(d)
    ensures Ends(stem + d, stem, Last(stem), d)
  {
  }

  function PlainEnd(x: Suffix): char {
    if x.Hotfix? then 't' else Last(Short(x.kind))
  }

  function PlainStem(b: string, x: Suffix): string {
    match x
    case Hotfix(n, _) => (b + ("a" + n)) + ".post"
    case Numbered(k, _) => b + Short(k)
  }

  function LastNumber(x: Suffix): string {
    if x.Hotfix? then x.fix else x.number
  }

  lemma PlainEnds(b: string, x: Suffix)
    requires ValidSuffix(x)
    ensures Ends(b + Plain(x), PlainStem(b, x), PlainEnd(x), LastNumber(x))
  {
    hide IsNumber, Ends;
    EndsOf(PlainStem(b, x), LastNumber(x));
    if x.Hotfix? {
      Assoc("a" + x.alpha, ".post", x.fix);
      Assoc(b, "a" + x.alpha, ".post");
      Assoc(b, ("a" + x.alpha) + ".post", x.fix);
    } else {
      Assoc(b, Short(x.kind), x.number);
      assert Plain(x) == Short(x.kind) + x.number;
    }
  }

  function DashedEnd(x: Suffix, dotted: bool): char {
    if x.Hotfix? || dotted then '.' else Last(Long(x.kind))
  }

  function DashedStem(b: string, x: Suffix, dotted: bool): string {
    b + (("-" + Name(FormOf(x))) + (Dot(dotted) + if x.Hotfix? then x.alpha + "." else ""))
  }

  lemma DashedEnds(b: string, x: Suffix, dotted: bool)
    requires ValidSuffix(x)
    ensures Ends(b + Dashed(x, dotted), DashedStem(b, x, dotted), DashedEnd(x, dotted), LastNumber(x))
  {
    hide IsNumber;
    hide Ends;
    EndsOf(DashedStem(b, x, dotted), LastNumber(x));
    var p, d, e, n := "-" + Name(FormOf(x)), Dot(dotted), if x.Hotfix? then x.alpha + "." else "", LastNumber(x);
    if x.Hotfix? {
      Assoc(x.alpha, ".", n);
    } else {
      assert e + n == n;
    }
    Assoc(d, e, n);
    Assoc(p, d + e, n);
    Assoc(b, p + (d + e), n);
  }

  ghost predicate Step(f: Form, s: string, r: string, b: string, x: Suffix, dotted: bool) {
    ValidSuffix(x) && FormOf(x) == f && s == b + Dashed(x, dotted) && r == b + Plain(x)
  }

  lemma RewriteStep(f: Form, s: string) returns (b: string, x: Suffix, dotted: bool)
    ensures Rewrite(f, s) == s || Step(f, s, Rewrite(f, s), b, x, dotted)
  {
    hide ReadSuffix, Plain, Dashed, ValidSuffix, Rewrite;
    b := RewriteShape(f, s);
    x, dotted := Numbered(Rc, ""), false;
    if Rewrite(f, s) != s {
      x := ReadSuffix(f, s[|b|..]).value;
      dotted := ReadSuffixSound(f, s[|b|..]);
      assert s == b + s[|b|..];
    }
  }

  lemma EndsAgree(x: Suffix, y: Suffix, dotted: bool)
    requires FormOf(x) != FormOf(y) && PlainEnd(x) == DashedEnd(y, dotted)
    ensures FormOf(x) == NumberedForm(Alpha) && FormOf(y) == NumberedForm(Beta) && !dotted
  {
  }

  lemma StemsAgree(b: string, x: Suffix, c: string, y: Suffix)
    requires FormOf(x) == NumberedForm(Alpha) && FormOf(y) == NumberedForm(Beta)
    requires PlainStem(b, x) == DashedStem(c, y, false)
    ensures b == c + "-bet"
  {
    assert DashedStem(c, y, false) == c + "-beta";
    assert "-bet" + "a" == "-beta";
    Assoc(c, "-bet", "a");
    Cut(b, "a");
    Cut(c + "-bet", "a");
  }

  // After one rewrite only the completed word "beta" can match again.
  lemma StepAfterStep(b: string, x: Suffix, c: string, y: Suffix, dotted: bool)
    requires ValidSuffix(x) && ValidSuffix(y) && FormOf(x) != FormOf(y)
    requires b + Plain(x) == c + Dashed(y, dotted)
    ensures x.Numbered? && x.kind == Alpha && y == Numbered(Beta, x.number) && b == c + "-bet"
  {
    hide ValidSuffix, Ends, Plain, Dashed, PlainStem, DashedStem, PlainEnd, DashedEnd;
    var s := b + Plain(x);
    PlainEnds(b, x);
    DashedEnds(c, y, dotted);
    EndsUnique(s, PlainStem(b, x), PlainEnd(x), LastNumber(x), DashedStem(c, y, dotted), DashedEnd(y, dotted), LastNumber(y));
    EndsAgree(x, y, dotted);
    StemsAgree(b, x, c, y);
  }

  ghost predicate OneRewrite(s: string, r: string, b: string, x: Suffix, dotted: bool) {
    ValidSuffix(x) && s == b + Dashed(x, dotted) && r == b + Plain(x)
  }

  ghost predicate TwoRewrites(s: string, r: string, b: string, x: Suffix, dotted: bool) {
    x.Numbered? && x.kind == Beta && ValidSuffix(x)
    && s == b + ("-bet" + Dashed(Numbered(Alpha, x.number), dotted)) && r == b + Plain(x)
  }

  ghost predicate Came(s: string, r: string, b: string, x: Suffix, dotted: bool) {
    r == s || OneRewrite(s, r, b, x, dotted) || TwoRewrites(s, r, b, x, dotted)
  }

  lemma NoMore(f: Form, b: string, x: Suffix)
    requires ValidSuffix(x) && FormOf(x) != f && !(FormOf(x) == NumberedForm(Alpha) && f == NumberedForm(Beta))
    ensures Rewrite(f, b + Plain(x)) == b + Plain(x)
  {
    hide Dashed, Plain, ValidSuffix, Rewrite;
    var c, y, dotted := RewriteStep(f, b + Plain(x));
    if Rewrite(f, b + Plain(x)) != b + Plain(x) {
      StepAfterStep(b, x, c, y, dotted);
      assert false;
    }
  }

  lemma AfterAlpha(s: string, r: string, b: string, x: Suffix, dotted: bool) returns (c: string, y: Suffix)
    requires Step(NumberedForm(Alpha), s, r, b, x, dotted)
    ensures Came(s, Rewrite(NumberedForm(Rc), Rewrite(NumberedForm(Beta), r)), c, y, dotted)
  {
    hide Dashed, Plain, ValidSuffix, Rewrite;
    var r' := Rewrite(NumberedForm(Beta), r);
    var d;
    c, y, d := RewriteStep(NumberedForm(Beta), r);
    if r' == r {
      c, y := b, x;
      NoMore(NumberedForm(Rc), b, x);
      assert OneRewrite(s, r, b, x, dotted);
    } else {
      StepAfterStep(b, x, c, y, d);
      Assoc(c, "-bet", Dashed(x, dotted));
      NoMore(NumberedForm(Rc), c, y);
      assert TwoRewrites(s, r', c, y, dotted);
    }
  }

  lemma RewrittenShape(s: string) returns (b: string, x: Suffix, dotted: bool)
    ensures Came(s, Rewritten(s), b, x, dotted)
  {
    hide Rewrite, TwoRewrites, Plain, Dashed, ValidSuffix;
    b, x, dotted := RewriteStep(HotfixForm, s);
    if Rewrite(HotfixForm, s) != s {
      NoMore(NumberedForm(Alpha), b, x);
      NoMore(NumberedForm(Beta), b, x);
      NoMore(NumberedForm(Rc), b, x);
      return;
    }
    b, x, dotted := RewriteStep(NumberedForm(Alpha), s);
    if Rewrite(NumberedForm(Alpha), s) != s {
      b, x := AfterAlpha(s, Rewrite(NumberedForm(Alpha), s), b, x, dotted);
      return;
    }
    b, x, dotted := RewriteStep(NumberedForm(Beta), s);
    if Rewrite(NumberedForm(Beta), s) != s {
      NoMore(NumberedForm(Rc), b, x);
      return;
    }
    b, x, dotted := RewriteStep(NumberedForm(Rc), s);
  }

  // ------------------------------------------------------------- what is accepted

  predicate HasSuffix(w: Version) {
    w.pre.Some? && (w.post.None? || w.pre.value.kind == Alpha)
  }

  function SuffixOf(w: Version): Suffix
    requires HasSuffix(w)
  {
    if w.post.Some? then Hotfix(w.pre.value.number, w.post.value)
    else Numbered(w.pre.value.kind, w.pre.value.number)
  }

  lemma {:induction false} BaseChars(b: string, i: nat)
    requires IsBase(b) && i < |b|
    ensures IsDigit(b[i]) || b[i] == '.'
    decreases |b|
  {
    hide BaseLength;
    var d, t := BaseShape(b);
    if i > |d| {
      BaseChars(t, i - |d| - 1);
    }
  }

  lemma PostEnds(w: Version)
    requires Valid(w) && w.post.Some?
    ensures Ends(Print(w), (w.base + PrintPre(w.pre)) + ".post", 't', w.post.value)
  {
    hide IsNumber, IsBase, PrintPre;
    Assoc(PrintPre(w.pre), ".post", w.post.value);
    Assoc(w.base, PrintPre(w.pre), ".post");
    Assoc(w.base, PrintPre(w.pre) + ".post", w.post.value);
  }

  lemma PreEnds(w: Version)
    requires Valid(w) && w.post.None? && w.pre.Some?
    ensures var p := w.pre.value;
      Ends(Print(w), w.base + Short(p.kind), Last(Short(p.kind)), p.number)
  {
    hide IsNumber, IsBase, Ends;
    var k, n := w.pre.value.kind, w.pre.value.number;
    EndsOf(w.base + Short(k), n);
    Assoc(w.base, Short(k), n);
    assert Print(w) == w.base + (Short(k) + n);
  }

  lemma BareEnds(w: Version, stem: string, c: char, d: string)
    requires Valid(w) && w.post.None? && w.pre.None? && Ends(Print(w), stem, c, d)
    ensures c == '.'
  {
    hide IsNumber, IsBase;
    assert Print(w) == w.base;
    BaseChars(w.base, |stem| - 1);
  }

  // A printed version that ends in a spelled-out suffix has that suffix.
  lemma NumberedTail(w: Version, b: string, k: Kind, n: string)
    requires Valid(w) && IsNumber(n) && Print(w) == b + Plain(Numbered(k, n))
    ensures w == Version(b, Some(Pre(k, n)), None)
  {
    hide IsNumber, IsBase, Ends, Print, Plain;
    var x := Numbered(k, n);
    PlainEnds(b, x);
    if w.post.Some? {
      PostEnds(w);
      EndsUnique(Print(w), PlainStem(b, x), PlainEnd(x), n, (w.base + PrintPre(w.pre)) + ".post", 't', w.post.value);
      assert false;
    } else if w.pre.None? {
      BareEnds(w, PlainStem(b, x), PlainEnd(x), n);
      assert false;
    } else {
      var p := w.pre.value;
      PreEnds(w);
      EndsUnique(Print(w), PlainStem(b, x), PlainEnd(x), n, w.base + Short(p.kind), Last(Short(p.kind)), p.number);
      assert p.kind == k;
      Cut(w.base, Short(k));
      Cut(b, Short(k));
    }
  }

  lemma HotfixTail(w: Version, b: string, n: string, h: string)
    requires Valid(w) && ValidSuffix(Hotfix(n, h)) && Print(w) == b + Plain(Hotfix(n, h))
    ensures w == Version(b, Some(Pre(Alpha, n)), Some(h))
  {
    hide IsNumber, IsBase, Ends, Print, Plain;
    var x := Hotfix(n, h);
    PlainEnds(b, x);
    if w.post.None? && w.pre.None? {
      BareEnds(w, PlainStem(b, x), 't', h);
      assert false;
    } else if w.post.None? {
      var p := w.pre.value;
      PreEnds(w);
      EndsUnique(Print(w), PlainStem(b, x), 't', h, w.base + Short(p.kind), Last(Short(p.kind)), p.number);
      assert false;
    } else {
      PostEnds(w);
      var s, t := w.base + PrintPre(w.pre), b + ("a" + n);
      EndsUnique(Print(w), PlainStem(b, x), 't', h, s + ".post", 't', w.post.value);
      Cut(s, ".post");
      Cut(t, ".post");
      assert s == t;
      HotfixPre(w, b, n);
    }
  }

  lemma HotfixPre(w: Version, b: string, n: string)
    requires Valid(w) && IsNumber(n) && w.base + PrintPre(w.pre) == b + ("a" + n)
    ensures w.base == b && w.pre == Some(Pre(Alpha, n))
  {
    hide IsNumber, IsBase;
    var v := Version(w.base, w.pre, None);
    assert PrintPre(w.pre) + PrintPost(None) == PrintPre(w.pre);
    assert Plain(Numbered(Alpha, n)) == "a" + n;
    NumberedTail(v, b, Alpha, n);
  }

  // The texts that stand for `w`.  The last one is an accident of the order of the rewrites.
  predicate Spells(t: string, w: Version) {
    t == Print(w) || (HasSuffix(w) && exists dotted: bool :: t == w.base + Dashed(SuffixOf(w), dotted)) || SpellsBet(t, w)
  }

  predicate SpellsBet(t: string, w: Version) {
    w.pre.Some? && w.pre.value.kind == Beta && w.post.None?
    && exists dotted: bool :: t == w.base + ("-bet" + Dashed(Numbered(Alpha, w.pre.value.number), dotted))
  }

  lemma RewrittenSpells(t: string, w: Version)
    requires Valid(w) && Spells(t, w)
    ensures Rewritten(t) == Print(w)
  {
    hide IsNumber, IsBase, Rewritten, Dashed, Plain, Print, NoDash;
    BaseNoDash(w.base);
    if t == Print(w) {
      PrintNoDash(w);
      RewrittenSame(t);
    } else if SpellsBet(t, w) {
      var dotted: bool :| t == w.base + ("-bet" + Dashed(Numbered(Alpha, w.pre.value.number), dotted));
      RewrittenBet(w.base, w.pre.value.number, dotted);
      SuffixPlain(w);
    } else {
      var dotted: bool :| t == w.base + Dashed(SuffixOf(w), dotted);
      RewrittenDashed(w.base, SuffixOf(w), dotted);
      SuffixPlain(w);
    }
  }

  lemma SuffixPlain(w: Version)
    requires Valid(w) && HasSuffix(w)
    ensures Print(w) == w.base + Plain(SuffixOf(w)) && ValidSuffix(SuffixOf(w))
  {
  }

  lemma SpellsRewritten(t: string, w: Version)
    requires Valid(w) && Rewritten(t) == Print(w)
    ensures Spells(t, w)
  {
    hide IsNumber, IsBase, Rewritten, Dashed, Plain, Print;
    var b, x, dotted := RewrittenShape(t);
    if Print(w) != t {
      if x.Hotfix? {
        HotfixTail(w, b, x.alpha, x.fix);
      } else {
        NumberedTail(w, b, x.kind, x.number);
      }
      if OneRewrite(t, Print(w), b, x, dotted) {
        assert t == w.base + Dashed(SuffixOf(w), dotted);
      } else {
        assert t == w.base + ("-bet" + Dashed(Numbered(Alpha, w.pre.value.number), dotted));
      }
    }
  }

  // Exactly which texts normalize, and to what.
  lemma NormalizeIff(text: string, w: Version)
    requires Valid(w)
    ensures Normalize(text) == Ok(Print(w)) <==> Spells(Body(text), w)
  {
    hide Valid, Print, Rewritten, Spells, Scan;
    ScanPrint(w);
    if Spells(Body(text), w) {
      RewrittenSpells(Body(text), w);
    } else if Normalize(text) == Ok(Print(w)) {
      SpellsRewritten(Body(text), w);
    }
  }

  // A misspelling that is accepted as a beta: the four rewrites are not independent.
  lemma MisspelledBeta()
    ensures Normalize("1-bet-alpha.7") == Ok("1b7")
  {
    hide Normalize, Valid, Spells, Body, Print;
    var w := BetaSeven();
    PlainBody("1-bet-alpha.7");
    NormalizeIff("1-bet-alpha.7", w);
  }

  lemma BetaSeven() returns (w: Version)
    ensures Valid(w) && Print(w) == "1b7" && Spells("1-bet-alpha.7", w)
  {
    hide Spells;
    w := Version("1", Some(Pre(Beta, "7")), None);
    assert LeadingDigits("1") == 1;
    BetSpelling(w);
  }

  lemma BetSpelling(w: Version)
    requires w == Version("1", Some(Pre(Beta, "7")), None)
    ensures Spells("1-bet-alpha.7", w)
  {
    assert "1-bet-alpha.7" == w.base + ("-bet" + Dashed(Numbered(Alpha, "7"), true));
    assert SpellsBet("1-bet-alpha.7", w);
  }

  // Nothing to strip and no prefix to remove.
  lemma PlainBody(t: string)
    requires t != "" && IsDigit(t[0]) && IsDigit(Last(t))
    ensures Body(t) == t
  {
    StripSame(t);
  }

  // ------------------------------------------------------------- release versions and tags

  // `codex_release_version` after normalization.
  function ReleaseText(normalized: string): string
    requires Scan(normalized).Some?
  {
    var w := Scan(normalized).value;
    if w.pre.Some? && w.pre.value.kind == Alpha && w.post.Some? then
      w.base + ("-alpha." + (w.pre.value.number + ("." + w.post.value)))
    else if w.pre.Some? && w.post.None? then
      w.base + ("-" + Long(w.pre.value.kind) + ("." + w.pre.value.number))
    else normalized
  }

  function Release(version: string): Result<string, Failure> {
    match Normalize(version)
    case Ok(n) => Ok(ReleaseText(n))
    case Err(e) => Err(e)
  }

  function Tag(version: string): Result<string, Failure> {
    match Release(version)
    case Ok(r) => Ok("rust-v" + r)
    case Err(e) => Err(e)
  }

  lemma DashedText(x: Suffix)
    ensures x.Hotfix? ==> Dashed(x, true) == "-alpha." + (x.alpha + ("." + x.fix))
    ensures x.Numbered? ==> Dashed(x, true) == "-" + Long(x.kind) + ("." + x.number)
  {
    hide Long;
    if x.Hotfix? {
      AlphaName();
      Assoc("-alpha", ".", Numbers(x));
      assert "-alpha" + "." == "-alpha.";
    }
  }

  lemma AlphaName()
    ensures "-" + Long(Alpha) == "-alpha"
  {
  }

  lemma ReleaseSpells(w: Version)
    requires Valid(w)
    ensures Scan(Print(w)) == Some(w) && Spells(ReleaseText(Print(w)), w)
  {
    hide IsNumber, IsBase, Scan, Print, Plain, Dashed, SpellsBet;
    ScanPrint(w);
    if HasSuffix(w) {
      DashedText(SuffixOf(w));
      assert ReleaseText(Print(w)) == w.base + Dashed(SuffixOf(w), true);
    }
  }

  lemma NormalizeIsPrinted(text: string) returns (w: Version)
    requires Normalize(text).Ok?
    ensures Valid(w) && Normalize(text).value == Print(w)
  {
    hide Scan, Valid, Print;
    ScanSound(Normalize(text).value);
    w := Scan(Normalize(text).value).value;
  }

  lemma StripSame(s: string)
    requires s != "" && !IsSpace(s[0]) && !IsSpace(Last(s))
    ensures Strip(s) == s
  {
  }

  lemma {:induction false} BaseEdges(b: string)
    requires IsBase(b)
    ensures b != "" && IsDigit(b[0]) && IsDigit(Last(b))
    decreases |b|
  {
    hide BaseLength;
    var d, t := BaseShape(b);
    if t != "" {
      BaseEdges(t);
    }
  }

  lemma EndsInDigit(s: string, stem: string, c: char, d: string)
    requires Ends(s, stem, c, d)
    ensures IsDigit(Last(s))
  {
  }

  lemma PrintLast(w: Version)
    requires Valid(w)
    ensures IsDigit(Last(Print(w)))
  {
    hide IsNumber, Ends, IsBase;
    BaseEdges(w.base);
    if w.post.Some? {
      PostEnds(w);
      EndsInDigit(Print(w), (w.base + PrintPre(w.pre)) + ".post", 't', w.post.value);
    } else if w.pre.Some? {
      var p := w.pre.value;
      PreEnds(w);
      EndsInDigit(Print(w), w.base + Short(p.kind), Last(Short(p.kind)), p.number);
    } else {
      assert Print(w) == w.base;
    }
  }

  lemma DashedLast(b: string, x: Suffix, dotted: bool)
    requires ValidSuffix(x)
    ensures IsDigit(Last(b + Dashed(x, dotted)))
  {
    hide Ends, Dashed;
    DashedEnds(b, x, dotted);
    EndsInDigit(b + Dashed(x, dotted), DashedStem(b, x, dotted), DashedEnd(x, dotted), LastNumber(x));
  }

  // A spelling starts and ends with a digit, so neither stripping nor a prefix touches it.
  lemma SpellingEdges(t: string, w: Version)
    requires Valid(w) && Spells(t, w)
    ensures t != "" && IsDigit(t[0]) && IsDigit(Last(t))
  {
    hide IsNumber, IsBase, Dashed;
    BaseEdges(w.base);
    if t == Print(w) {
      PrintLast(w);
    } else if SpellsBet(t, w) {
      var x := Numbered(Alpha, w.pre.value.number);
      var dotted: bool :| t == w.base + ("-bet" + Dashed(x, dotted));
      DashedLast(w.base + "-bet", x, dotted);
      Assoc(w.base, "-bet", Dashed(x, dotted));
    } else {
      var dotted: bool :| t == w.base + Dashed(SuffixOf(w), dotted);
      DashedLast(w.base, SuffixOf(w), dotted);
    }
  }

  predicate IsPrefix(p: string) {
    p == "" || p == "v" || p == "rust-v"
  }

  lemma BodyOfSpelling(p: string, t: string)
    requires IsPrefix(p) && t != "" && IsDigit(t[0]) && IsDigit(Last(t))
    ensures Body(p + t) == t
  {
    hide Strip;
    StripSame(p + t);
    Cut(p, t);
    assert p == "" ==> p + t == t;
  }

  // Reading back a tag, or the bare or `v`-prefixed release version, gives the version it was made from.
  lemma TagRoundTrip(v: string, p: string)
    requires Normalize(v).Ok? && IsPrefix(p)
    ensures Release(v).Ok? && Normalize(p + Release(v).value) == Normalize(v)
    ensures Tag(v).Ok? && Normalize(Tag(v).value) == Normalize(v)
  {
    hide Spells, Scan, Body, Rewritten, Valid, Print, ReleaseText;
    var w := NormalizeIsPrinted(v);
    var r := ReleaseText(Print(w));
    ReleaseSpells(w);
    SpellingEdges(r, w);
    BodyOfSpelling(p, r);
    BodyOfSpelling("rust-v", r);
    NormalizeIff(p + r, w);
    NormalizeIff("rust-v" + r, w);
  }

  lemma ReleaseIdempotent(v: string)
    requires Release(v).Ok?
    ensures Release(Release(v).value) == Release(v)
  {
    hide Normalize, ReleaseText;
    TagRoundTrip(v, "");
    assert "" + Release(v).value == Release(v).value;
  }

  // Two accepted versions share a tag exactly when they normalize alike.
  lemma SameTagIff(v: string, v': string)
    requires Tag(v).Ok? && Tag(v').Ok?
    ensures Tag(v) == Tag(v') <==> Normalize(v) == Normalize(v')
  {
    hide Normalize, ReleaseText;
    TagRoundTrip(v, "v");
    TagRoundTrip(v', "v");
  }

  // The fixed points of normalization are the texts of the normalized form, and it always reaches one.
  lemma NormalFormsAreFixed(s: string)
    ensures Normalize(s) == Ok(s) <==> Scan(s).Some?
    ensures Normalize(s).Ok? ==> Normalize(Normalize(s).value) == Normalize(s)
  {
    hide Scan, Rewritten, Body, Valid, Print;
    if Scan(s).Some? {
      PrintedIsFixed(s);
    }
    if Normalize(s).Ok? {
      PrintedIsFixed(Normalize(s).value);
    }
  }

  lemma PrintedIsFixed(s: string)
    requires Scan(s).Some?
    ensures Normalize(s) == Ok(s)
  {
    hide Scan, Normalize, Body, Valid, Print;
    ScanSound(s);
    var w := Scan(s).value;
    assert Spells(s, w);
    SpellingEdges(s, w);
    assert "" + s == s;
    BodyOfSpelling("", s);
    NormalizeIff(s, w);
  }

  // ------------------------------------------------------------- Python runtime versions

  // `_PYTHON_RUNTIME_VERSION_PATTERN.fullmatch`: three numbers, then nothing, an alpha or an alpha hotfix.
  predicate IsRuntime(s: string) {
    var w := Scan(s);
    w.Some? && Dots(w.value.base) == 2
    && (if w.value.pre.None? then w.value.post.None? else w.value.pre.value.kind == Alpha)
  }

  function Dots(s: string): nat {
    if s == "" then 0 else (if s[0] == '.' then 1 else 0) + Dots(s[1..])
  }

  function ResolveRuntime(version: string): Result<(string, string), Failure> {
    if !IsRuntime(version) then Err(NotARuntimeVersion)
    else
      match Tag(version)
      case Ok(t) => Ok((version, t))
      case Err(e) => Err(e)
  }

  // Every runtime version resolves, and its tag leads back to it alone.
  lemma RuntimeTagLeadsBack(v: string)
    requires IsRuntime(v)
    ensures ResolveRuntime(v).Ok? && ResolveRuntime(v).value.0 == v
    ensures Normalize(ResolveRuntime(v).value.1) == Ok(v)
  {
    hide Scan, Normalize, ReleaseText;
    PrintedIsFixed(v);
    TagRoundTrip(v, "");
  }

  lemma RuntimeTagsDistinct(v: string, v': string)
    requires ResolveRuntime(v).Ok? && ResolveRuntime(v').Ok? && v != v'
    ensures ResolveRuntime(v).value.1 != ResolveRuntime(v').value.1
  {
    hide IsRuntime, Normalize, ReleaseText;
    RuntimeTagLeadsBack(v);
    RuntimeTagLeadsBack(v');
  }
}
