/**
  Release tags and their order (CompareVersions and parseVersion in upgrade/upgrade.go).

  The version pattern is read by a small parser proved to be the inverse of writing a tag,
  and tags are ordered by seven numbers.
*/
module Versions {

  datatype Option<T> = None | Some(value: T)

  datatype Rank = Alpha | Beta | Rc

  datatype Kind = Dev | Hotfix

  /** A tag as it is written; the numbers are digit strings, leading zeros and all. */
  datatype Suffix = NoSuffix | Suffix(kind: Kind, digits: string)

  datatype Number = Bare | Number(digits: string, suffix: Suffix)

  datatype Pre = Release | Pre(rank: Rank, number: Number)

  datatype Tail = Tail(patch: string, pre: Pre)

  datatype Core = Core(major: string, minor: string, tail: Tail)

  datatype Tag = Tag(v: bool, core: Core)

  predicate IsDigit(c: char) { '0' <= c <= '9' }

  predicate IsNumeral(s: string) { s != "" && forall i | 0 <= i < |s| :: IsDigit(s[i]) }

  function Name(rank: Rank): string {
    match rank case Alpha => "alpha" case Beta => "beta" case Rc => "rc"
  }

  function KindName(kind: Kind): string {
    match kind case Dev => "dev" case Hotfix => "hf"
  }

  // ---- Writing

  function SuffixText(s: Suffix): string {
    match s case NoSuffix => "" case Suffix(kind, digits) => "." + KindName(kind) + "." + digits
  }

  function NumberText(n: Number): string {
    match n case Bare => "" case Number(digits, suffix) => "." + digits + SuffixText(suffix)
  }

  function PreText(p: Pre): string {
    match p case Release => "" case Pre(rank, number) => "-" + Name(rank) + NumberText(number)
  }

  function TailText(t: Tail): string { t.patch + PreText(t.pre) }

  function CoreText(c: Core): string { c.major + ("." + (c.minor + ("." + TailText(c.tail)))) }

  function Text(t: Tag): string { if t.v then "v" + CoreText(t.core) else CoreText(t.core) }

  predicate WellFormedPre(p: Pre) {
    p.Pre? && p.number.Number? ==>
      IsNumeral(p.number.digits) && (p.number.suffix.Suffix? ==> IsNumeral(p.number.suffix.digits))
  }

  predicate WellFormed(c: Core) {
    IsNumeral(c.major) && IsNumeral(c.minor) && IsNumeral(c.tail.patch) && WellFormedPre(c.tail.pre)
  }

  // ---- Reading

  /** How many digits a text starts with. */
  function DigitCount(s: string): (n: nat)
    ensures n <= |s| && (forall i | 0 <= i < n :: IsDigit(s[i])) && (n < |s| ==> !IsDigit(s[n]))
  {
    if s == "" || !IsDigit(s[0]) then 0 else 1 + DigitCount(s[1..])
  }

  function ReadSuffix(s: string): Option<Suffix> {
    if s == "" then Some(NoSuffix)
    else if ".dev." <= s && IsNumeral(s[5..]) then Some(Suffix(Dev, s[5..]))
    else if ".hf." <= s && IsNumeral(s[4..]) then Some(Suffix(Hotfix, s[4..]))
    else None
  }

  function ReadNumber(s: string): Option<Number> {
    if s == "" then Some(Bare)
    else if s[0] != '.' then None
    else
      var n := DigitCount(s[1..]);
      if n == 0 then None
      else match ReadSuffix(s[1 + n..]) case None => None case Some(suffix) => Some(Number(s[1..1 + n], suffix))
  }

  function RankOf(s: string): (r: Option<Rank>)
    ensures r.Some? ==> "-" + Name(r.value) <= s
  {
    if "-alpha" <= s then Some(Alpha) else if "-beta" <= s then Some(Beta) else if "-rc" <= s then Some(Rc) else None
  }

  function ReadPre(s: string): Option<Pre> {
    if s == "" then Some(Release)
    else match RankOf(s)
      case None => None
      case Some(rank) =>
        match ReadNumber(s[1 + |Name(rank)|..]) case None => None case Some(number) => Some(Pre(rank, number))
  }

  /** A numeral and what follows it. */
  datatype Cut = Cut(digits: string, rest: string)

  function ReadNumeral(s: string): Option<Cut> {
    var n := DigitCount(s);
    if n == 0 then None else Some(Cut(s[..n], s[n..]))
  }

  /** A numeral and the dot after it. */
  function ReadPart(s: string): Option<Cut> {
    match ReadNumeral(s)
    case None => None
    case Some(cut) => if cut.rest != "" && cut.rest[0] == '.' then Some(Cut(cut.digits, cut.rest[1..])) else None
  }

  function ReadTail(s: string): Option<Tail> {
    match ReadNumeral(s)
    case None => None
    case Some(patch) =>
      match ReadPre(patch.rest) case None => None case Some(pre) => Some(Tail(patch.digits, pre))
  }

  function ReadCore(s: string): Option<Core> {
    match ReadPart(s)
    case None => None
    case Some(major) =>
      match ReadPart(major.rest)
      case None => None
      case Some(minor) =>
        match ReadTail(minor.rest) case None => None case Some(tail) => Some(Core(major.digits, minor.digits, tail))
  }

  function Read(s: string): Option<Tag> {
    var v := s != "" && s[0] == 'v';
    match ReadCore(if v then s[1..] else s) case None => None case Some(core) => Some(Tag(v, core))
  }

  lemma {:induction false} DigitsThenOther(digits: string, rest: string)
    requires forall i | 0 <= i < |digits| :: IsDigit(digits[i])
    requires rest == "" || !IsDigit(rest[0])
    ensures DigitCount(digits + rest) == |digits|
  {
    if digits == "" {
      assert digits + rest == rest;
    } else {
      assert (digits + rest)[1..] == digits[1..] + rest;
      DigitsThenOther(digits[1..], rest);
    }
  }

  lemma NumeralRoundTrip(digits: string, rest: string)
    requires IsNumeral(digits) && (rest == "" || !IsDigit(rest[0]))
    ensures ReadNumeral(digits + rest) == Some(Cut(digits, rest))
  {
    DigitsThenOther(digits, rest);
  }

  lemma PartRoundTrip(digits: string, rest: string)
    requires IsNumeral(digits)
    ensures ReadPart(digits + ("." + rest)) == Some(Cut(digits, rest))
  {
    NumeralRoundTrip(digits, "." + rest);
    assert ("." + rest)[1..] == rest;
  }

  lemma SuffixRoundTrip(s: Suffix)
    requires s.Suffix? ==> IsNumeral(s.digits)
    ensures ReadSuffix(SuffixText(s)) == Some(s)
  {
    if s.Suffix? {
      var text := SuffixText(s);
      match s.kind
      case Dev => assert ".dev." <= text && text[5..] == s.digits;
      case Hotfix =>
        assert text[1] == 'h';
        assert ".hf." <= text && text[4..] == s.digits;
    }
  }

  lemma NumberRoundTrip(n: Number)
    requires n.Number? ==> IsNumeral(n.digits) && (n.suffix.Suffix? ==> IsNumeral(n.suffix.digits))
    ensures ReadNumber(NumberText(n)) == Some(n)
  {
    if n.Number? {
      var text, rest := NumberText(n), SuffixText(n.suffix);
      assert text[1..] == n.digits + rest;
      DigitsThenOther(n.digits, rest);
      assert text[1 + |n.digits|..] == rest && text[1..1 + |n.digits|] == n.digits;
      SuffixRoundTrip(n.suffix);
    }
  }

  lemma RankRoundTrip(rank: Rank, rest: string)
    ensures RankOf("-" + Name(rank) + rest) == Some(rank)
  {
    var text := "-" + Name(rank) + rest;
    assert text[1] == Name(rank)[0];
    assert "-" + Name(rank) <= text;
  }

  lemma PreRoundTrip(p: Pre)
    requires WellFormedPre(p)
    ensures ReadPre(PreText(p)) == Some(p)
  {
    if p.Pre? {
      NumberRoundTrip(p.number);
      RankRoundTrip(p.rank, NumberText(p.number));
      assert PreText(p)[1 + |Name(p.rank)|..] == NumberText(p.number);
    }
  }

  lemma TailRoundTrip(t: Tail)
    requires IsNumeral(t.patch) && WellFormedPre(t.pre)
    ensures ReadTail(TailText(t)) == Some(t)
  {
    NumeralRoundTrip(t.patch, PreText(t.pre));
    PreRoundTrip(t.pre);
  }

  lemma CoreRoundTrip(c: Core)
    requires WellFormed(c)
    ensures ReadCore(CoreText(c)) == Some(c) && CoreText(c) != "" && IsDigit(CoreText(c)[0])
  {
    var tail := TailText(c.tail);
    PartRoundTrip(c.major, c.minor + ("." + tail));
    PartRoundTrip(c.minor, tail);
    TailRoundTrip(c.tail);
  }

  /** Every written tag is read back as it was written. */
  lemma RoundTrip(t: Tag)
    requires WellFormed(t.core)
    ensures Read(Text(t)) == Some(t)
  {
    CoreRoundTrip(t.core);
    ReadAfterV(CoreText(t.core));
  }

  /** A leading v is dropped before the core is read; a core does not start with one. */
  lemma ReadAfterV(core: string)
    requires core != "" && IsDigit(core[0])
    ensures Read("v" + core) == match ReadCore(core) { case None => None case Some(c) => Some(Tag(true, c)) }
    ensures Read(core) == match ReadCore(core) { case None => None case Some(c) => Some(Tag(false, c)) }
  {
    assert ("v" + core)[0] == 'v' && ("v" + core)[1..] == core;
  }

  lemma SuffixIsText(s: string)
    requires ReadSuffix(s).Some?
    ensures SuffixText(ReadSuffix(s).value) == s
    ensures ReadSuffix(s).value.Suffix? ==> IsNumeral(ReadSuffix(s).value.digits)
  {
    var suffix := ReadSuffix(s).value;
    if suffix.Suffix? {
      var name := "." + KindName(suffix.kind) + ".";
      assert s == name + s[|name|..];
    }
  }

  lemma Dotted(s: string, n: nat)
    requires 1 + n <= |s| && s[0] == '.'
    ensures s == "." + s[1..1 + n] + s[1 + n..]
  {
  }

  lemma LeadingDigits(s: string)
    requires s != "" && DigitCount(s[1..]) > 0
    ensures IsNumeral(s[1..1 + DigitCount(s[1..])])
  {
    var n := DigitCount(s[1..]);
    assert forall i | 0 <= i < n :: s[1..1 + n][i] == s[1..][i];
  }

  lemma NumberIsText(s: string)
    requires ReadNumber(s).Some?
    ensures NumberText(ReadNumber(s).value) == s
    ensures var n := ReadNumber(s).value;
      n.Number? ==> IsNumeral(n.digits) && (n.suffix.Suffix? ==> IsNumeral(n.suffix.digits))
  {
    if s != "" {
      var n := DigitCount(s[1..]);
      SuffixIsText(s[1 + n..]);
      Dotted(s, n);
      LeadingDigits(s);
    }
  }

  lemma PreIsText(s: string)
    requires ReadPre(s).Some?
    ensures PreText(ReadPre(s).value) == s && WellFormedPre(ReadPre(s).value)
  {
    if s != "" {
      var name := "-" + Name(RankOf(s).value);
      NumberIsText(s[|name|..]);
      assert s == name + s[|name|..];
    }
  }

  lemma NumeralIsText(s: string)
    requires ReadNumeral(s).Some?
    ensures var cut := ReadNumeral(s).value; s == cut.digits + cut.rest && IsNumeral(cut.digits)
  {
    var n := DigitCount(s);
    assert s == s[..n] + s[n..];
  }

  lemma PartIsText(s: string)
    requires ReadPart(s).Some?
    ensures var cut := ReadPart(s).value; s == cut.digits + ("." + cut.rest) && IsNumeral(cut.digits)
  {
    NumeralIsText(s);
    var rest := ReadNumeral(s).value.rest;
    assert rest == "." + rest[1..];
  }

  lemma TailIsText(s: string)
    requires ReadTail(s).Some?
    ensures var t := ReadTail(s).value; TailText(t) == s && IsNumeral(t.patch) && WellFormedPre(t.pre)
  {
    NumeralIsText(s);
    PreIsText(ReadNumeral(s).value.rest);
  }

  lemma CoreIsText(s: string)
    requires ReadCore(s).Some?
    ensures CoreText(ReadCore(s).value) == s && WellFormed(ReadCore(s).value)
  {
    var major := ReadPart(s).value;
    var minor := ReadPart(major.rest).value;
    PartIsText(s);
    PartIsText(major.rest);
    TailIsText(minor.rest);
  }

  /** The text after a leading v. */
  function AfterV(s: string): string { if s != "" && s[0] == 'v' then s[1..] else s }

  lemma ReadsCore(s: string)
    requires Read(s).Some?
    ensures ReadCore(AfterV(s)) == Some(Read(s).value.core) && Read(s).value.v == (s != "" && s[0] == 'v')
  {
  }

  lemma WithV(t: Tag, s: string)
    requires CoreText(t.core) == AfterV(s) && t.v == (s != "" && s[0] == 'v')
    ensures Text(t) == s
  {
    if t.v { assert s == "v" + AfterV(s); }
  }

  /** Nothing else is read: what is accepted is the text of a well-formed tag. */
  lemma OnlyTagsAreRead(s: string)
    requires Read(s).Some?
    ensures WellFormed(Read(s).value.core) && Text(Read(s).value) == s
  {
    ReadsCore(s);
    CoreIsText(AfterV(s));
    WithV(Read(s).value, s);
  }

  // ---- Numbers and their order

  const MAX_INT := 0x7FFF_FFFF_FFFF_FFFF

  function Value(digits: string): nat
    requires forall i | 0 <= i < |digits| :: IsDigit(digits[i])
  {
    if digits == "" then 0
    else
      var c := digits[|digits| - 1];
      assert IsDigit(c);
      Value(digits[..|digits| - 1]) * 10 + (c as int - '0' as int)
  }

  function Digit(d: nat): (c: char)
    requires d < 10
    ensures IsDigit(c) && c as int == '0' as int + d
  {
    ('0' as int + d) as char
  }

  /** A number as it is written without leading zeros. */
  function Decimal(n: nat): (s: string)
    ensures IsNumeral(s) && (s[0] == '0' ==> n == 0)
  {
    if n < 10 then [Digit(n)] else Decimal(n / 10) + [Digit(n % 10)]
  }

  /** Reading a number gives the number that was written. */
  lemma {:induction false} ValueOfDecimal(n: nat)
    ensures Value(Decimal(n)) == n
  {
    if n < 10 {
      assert [Digit(n)][..0] == "";
      assert Value("") == 0;
    } else {
      ValueOfDecimal(n / 10);
      assert Decimal(n)[..|Decimal(n)| - 1] == Decimal(n / 10);
    }
  }

  /** Leading zeros do not count. */
  lemma {:induction false} LeadingZero(s: string)
    requires forall i | 0 <= i < |s| :: IsDigit(s[i])
    ensures Value("0" + s) == Value(s)
  {
    if s == "" {
      assert ("0" + s)[..0] == "";
      assert Value("0" + s) == Value("") * 10;
    } else {
      var init := s[..|s| - 1];
      LeadingZero(init);
      assert ("0" + s)[..|s|] == "0" + init;
    }
  }

  lemma DecimalStep(m: nat, low: nat)
    requires m > 0 && low < 10
    ensures Decimal(m * 10 + low) == Decimal(m) + [Digit(low)]
  {
    var n := m * 10 + low;
    assert n / 10 == m && n % 10 == low;
  }

  lemma OneDigit(c: char)
    requires IsDigit(c)
    ensures Value([c]) == c as int - '0' as int && Decimal(Value([c])) == [c]
  {
    assert [c][..0] == "" && Value("") == 0;
    assert Digit(c as int - '0' as int) == c;
  }

  /** Every other numeral is the number it is read as, written out. */
  lemma {:induction false} NumeralIsDecimal(s: string)
    requires IsNumeral(s) && (s == "0" || s[0] != '0')
    ensures s == Decimal(Value(s))
  {
    var init, c := s[..|s| - 1], s[|s| - 1];
    assert s == init + [c];
    assert IsDigit(c);
    if init == "" {
      OneDigit(c);
    } else {
      assert init[0] == s[0];
      NumeralIsDecimal(init);
      FirstDigitCounts(init);
      DecimalStep(Value(init), c as int - '0' as int);
      assert Digit(c as int - '0' as int) == c;
    }
  }

  lemma {:induction false} FirstDigitCounts(s: string)
    requires IsNumeral(s) && s[0] != '0'
    ensures Value(s) > 0
  {
    var init := s[..|s| - 1];
    if init == "" {
      assert IsDigit(s[0]) && Value("") == 0;
    } else {
      assert init[0] == s[0];
      FirstDigitCounts(init);
    }
  }

  /** The suffix rank and number: 0 without one, 1 for a dev build, 2 for a hotfix. */
  function SuffixParts(s: Suffix): seq<nat>
    requires s.Suffix? ==> IsNumeral(s.digits)
  {
    match s
    case NoSuffix => [0, 0]
    case Suffix(kind, digits) => [if kind.Dev? then 1 else 2, Value(digits)]
  }

  function RankPart(rank: Rank): nat {
    match rank case Alpha => 0 case Beta => 1 case Rc => 2
  }

  /** The pre-release rank and number, then the suffix. */
  function PreParts(p: Pre): seq<nat>
    requires WellFormedPre(p)
  {
    match p
    case Release => [3, 0, 0, 0]
    case Pre(rank, Bare) => [RankPart(rank), 0, 0, 0]
    case Pre(rank, Number(digits, suffix)) => [RankPart(rank), Value(digits)] + SuffixParts(suffix)
  }

  function Parts(c: Core): (parts: seq<nat>)
    requires WellFormed(c)
    ensures |parts| == 7
  {
    [Value(c.major), Value(c.minor), Value(c.tail.patch)] + PreParts(c.tail.pre)
  }

  predicate IsSpace(c: char) {
    var code := c as int;
    || 0x9 <= code <= 0xD || code == 0x20 || code == 0x85 || code == 0xA0 || code == 0x1680 || 0x2000 <= code <= 0x200A
    || code == 0x2028 || code == 0x2029 || code == 0x202F || code == 0x205F || code == 0x3000
  }

  /** The white space of Unicode, written out. */
  const SPACES :=
    "\t\n\U{B}\U{C}\r \U{85}\U{A0}\U{1680}\U{2000}\U{2001}\U{2002}\U{2003}\U{2004}\U{2005}\U{2006}\U{2007}\U{2008}\U{2009}\U{200A}\U{2028}\U{2029}\U{202F}\U{205F}\U{3000}"

  lemma SpacesAreThese(i: nat)
    requires i < |SPACES|
    ensures |SPACES| == 25 && IsSpace(SPACES[i])
  {
  }

  lemma OnlyThese(c: char)
    requires IsSpace(c)
    ensures c in SPACES
  {
    var code := c as int;
    if 0x9 <= code <= 0xD { assert SPACES[code - 0x9] == c; }
    else if 0x2000 <= code <= 0x200A { assert SPACES[9 + code - 0x2000] == c; }
    else if code == 0x20 { assert SPACES[5] == c; }
    else if code == 0x85 { assert SPACES[6] == c; }
    else if code == 0xA0 { assert SPACES[7] == c; }
    else if code == 0x1680 { assert SPACES[8] == c; }
    else if code == 0x2028 { assert SPACES[20] == c; }
    else if code == 0x2029 { assert SPACES[21] == c; }
    else if code == 0x202F { assert SPACES[22] == c; }
    else if code == 0x205F { assert SPACES[23] == c; }
    else { assert SPACES[24] == c; }
  }

  function TrimLeft(s: string): string {
    if s != "" && IsSpace(s[0]) then TrimLeft(s[1..]) else s
  }

  function TrimRight(s: string): string {
    if s != "" && IsSpace(s[|s| - 1]) then TrimRight(s[..|s| - 1]) else s
  }

  /** The seven numbers of a release tag; none when the text is not one or a number overflows. */
  function Parse(text: string): (parts: Option<seq<nat>>)
    ensures parts.Some? ==> |parts.value| == 7
  {
    var s := TrimRight(TrimLeft(text));
    match Read(s)
    case None => None
    case Some(tag) =>
      OnlyTagsAreRead(s);
      var parts := Parts(tag.core);
      if forall n | n in parts :: n <= MAX_INT then Some(parts) else None
  }

  ghost predicate EndsWell(s: string) { s == "" || !IsSpace(s[|s| - 1]) }

  lemma PreEndsWell(p: Pre)
    requires WellFormedPre(p)
    ensures EndsWell(PreText(p))
  {
    if p.Pre? && p.number.Number? && p.number.suffix.Suffix? {
      assert EndsWell(p.number.suffix.digits);
      assert EndsWell(SuffixText(p.number.suffix));
    }
  }

  lemma AppendEndsWell(a: string, b: string)
    requires b != "" ==> EndsWell(b)
    requires b == "" ==> EndsWell(a)
    ensures EndsWell(a + b)
  {
  }

  lemma CoreEndsWell(c: Core)
    requires WellFormed(c)
    ensures EndsWell(CoreText(c))
  {
    var tail := TailText(c.tail);
    PreEndsWell(c.tail.pre);
    AppendEndsWell(c.tail.patch, PreText(c.tail.pre));
    AppendEndsWell(".", tail);
    AppendEndsWell(c.minor, "." + tail);
    AppendEndsWell(".", c.minor + ("." + tail));
    AppendEndsWell(c.major, "." + (c.minor + ("." + tail)));
  }

  lemma Trimmed(s: string)
    requires s != "" && !IsSpace(s[0]) && EndsWell(s)
    ensures TrimRight(TrimLeft(s)) == s
  {
  }

  lemma TextIsTrimmed(t: Tag)
    requires WellFormed(t.core)
    ensures TrimRight(TrimLeft(Text(t))) == Text(t)
  {
    var text := CoreText(t.core);
    CoreEndsWell(t.core);
    assert text[0] == t.core.major[0];
    AppendEndsWell("v", text);
    Trimmed(text);
    Trimmed("v" + text);
  }

  /** A tag's text is parsed to its numbers, unless one of them overflows. */
  lemma ParseText(t: Tag)
    requires WellFormed(t.core)
    ensures Parse(Text(t)) == if forall n | n in Parts(t.core) :: n <= MAX_INT then Some(Parts(t.core)) else None
  {
    TextIsTrimmed(t);
    RoundTrip(t);
  }

  lemma {:induction false} TrimLeftDrops(a: string, s: string)
    requires (forall i | 0 <= i < |a| :: IsSpace(a[i])) && s != "" && !IsSpace(s[0])
    ensures TrimLeft(a + s) == s
  {
    if a == "" {
      assert a + s == s;
    } else {
      assert (a + s)[1..] == a[1..] + s;
      TrimLeftDrops(a[1..], s);
    }
  }

  lemma {:induction false} TrimRightDrops(s: string, b: string)
    requires (forall i | 0 <= i < |b| :: IsSpace(b[i])) && EndsWell(s)
    ensures TrimRight(s + b) == s
  {
    if b == "" {
      assert s + b == s;
    } else {
      assert (s + b)[..|s + b| - 1] == s + b[..|b| - 1];
      TrimRightDrops(s, b[..|b| - 1]);
    }
  }

  /** White space around a tag does not matter. */
  lemma SpacesAround(a: string, t: Tag, b: string)
    requires WellFormed(t.core)
    requires (forall i | 0 <= i < |a| :: IsSpace(a[i])) && forall i | 0 <= i < |b| :: IsSpace(b[i])
    ensures Parse(a + Text(t) + b) == Parse(Text(t))
  {
    TextIsTrimmed(t);
    TextEnds(t);
    assert a + Text(t) + b == a + (Text(t) + b);
    TrimLeftDrops(a, Text(t) + b);
    TrimRightDrops(Text(t), b);
  }

  lemma TextEnds(t: Tag)
    requires WellFormed(t.core)
    ensures Text(t) != "" && !IsSpace(Text(t)[0]) && EndsWell(Text(t))
  {
    var text := CoreText(t.core);
    CoreEndsWell(t.core);
    assert text[0] == t.core.major[0];
    AppendEndsWell("v", text);
  }

  /** Lexicographic order: -1, 0 or 1. */
  function Order(a: seq<nat>, b: seq<nat>): int
    requires |a| == |b|
  {
    if a == [] then 0 else if a[0] < b[0] then -1 else if a[0] > b[0] then 1 else Order(a[1..], b[1..])
  }

  lemma {:induction false} OrderIsTotal(a: seq<nat>, b: seq<nat>)
    requires |a| == |b|
    ensures Order(a, b) in {-1, 0, 1} && Order(a, b) == -Order(b, a)
    ensures Order(a, b) == 0 <==> a == b
  {
    if a != [] {
      OrderIsTotal(a[1..], b[1..]);
      if a[0] == b[0] && a[1..] == b[1..] {
        assert a == [a[0]] + a[1..] && b == [b[0]] + b[1..];
      }
    }
  }

  lemma {:induction false} OrderIsTransitive(a: seq<nat>, b: seq<nat>, c: seq<nat>)
    requires |a| == |b| == |c| && Order(a, b) <= 0 && Order(b, c) <= 0
    ensures Order(a, c) <= 0 && (Order(a, c) == 0 ==> a == b == c)
  {
    OrderIsTotal(a, b);
    OrderIsTotal(b, c);
    if a != [] && a[0] == b[0] == c[0] {
      OrderIsTransitive(a[1..], b[1..], c[1..]);
      OrderIsTotal(a[1..], c[1..]);
      if Order(a, c) == 0 {
        assert a == [a[0]] + a[1..] && b == [b[0]] + b[1..] && c == [c[0]] + c[1..];
      }
    }
  }

  /** The order of two texts, or none when one of them is no tag. */
  method CompareVersions(a: string, b: string) returns (result: int, ok: bool)
    ensures ok <==> Parse(a).Some? && Parse(b).Some?
    ensures ok ==> result == Order(Parse(a).value, Parse(b).value)
    ensures !ok ==> result == 0
  {
    var left, right := Parse(a), Parse(b);
    if left.None? || right.None? {
      return 0, false;
    }
    result := CompareParts(left.value, right.value);
    ok := true;
  }

  /** The loop over the seven numbers. */
  method CompareParts(x: seq<nat>, y: seq<nat>) returns (result: int)
    requires |x| == |y| == 7
    ensures result == Order(x, y)
  {
    for i := 0 to 7
      invariant Order(x, y) == Order(x[i..], y[i..])
    {
      assert x[i..][1..] == x[i + 1..] && y[i..][1..] == y[i + 1..];
      if x[i] < y[i] {
        return -1;
      }
      if x[i] > y[i] {
        return 1;
      }
    }
    return 0;
  }

  lemma {:induction false} OrderAfter(prefix: seq<nat>, a: seq<nat>, b: seq<nat>)
    requires |a| == |b|
    ensures Order(prefix + a, prefix + b) == Order(a, b)
  {
    if prefix == [] {
      assert prefix + a == a && prefix + b == b;
    } else {
      assert (prefix + a)[1..] == prefix[1..] + a && (prefix + b)[1..] == prefix[1..] + b;
      OrderAfter(prefix[1..], a, b);
    }
  }

  /** How the tags of one release are ordered. */
  ghost predicate Before(p: Pre, q: Pre)
    requires WellFormedPre(p) && WellFormedPre(q)
  {
    Order(PreParts(p), PreParts(q)) == -1
  }

  lemma SameRelease(c: Core, pre: Pre)
    requires WellFormed(c) && WellFormedPre(pre)
    ensures Order(Parts(c), Parts(c.(tail := c.tail.(pre := pre)))) == Order(PreParts(c.tail.pre), PreParts(pre))
  {
    OrderAfter([Value(c.major), Value(c.minor), Value(c.tail.patch)], PreParts(c.tail.pre), PreParts(pre));
  }

  /** Major, then minor, then patch decide before anything else. */
  lemma NumbersDecideFirst(c: Core, d: Core)
    requires WellFormed(c) && WellFormed(d)
    requires
      || Value(c.major) < Value(d.major)
      || (Value(c.major) == Value(d.major) && Value(c.minor) < Value(d.minor))
      || (Value(c.major) == Value(d.major) && Value(c.minor) == Value(d.minor) && Value(c.tail.patch) < Value(d.tail.patch))
    ensures Order(Parts(c), Parts(d)) == -1
  {
    var x, y := Parts(c), Parts(d);
    if Value(c.major) == Value(d.major) {
      assert Order(x, y) == Order(x[1..], y[1..]);
      if Value(c.minor) == Value(d.minor) {
        assert x[1..][1..] == x[2..] && y[1..][1..] == y[2..];
        assert Order(x[1..], y[1..]) == Order(x[2..], y[2..]);
      }
    }
  }

  /** alpha before beta before rc before the release, whatever follows the rank. */
  lemma RanksAreOrdered(a: Number, b: Number, c: Number)
    requires WellFormedPre(Pre(Alpha, a)) && WellFormedPre(Pre(Beta, b)) && WellFormedPre(Pre(Rc, c))
    ensures Before(Pre(Alpha, a), Pre(Beta, b)) && Before(Pre(Beta, b), Pre(Rc, c)) && Before(Pre(Rc, c), Release)
  {
  }

  /** Dev builds and then hotfixes come right after the pre-release they follow, before the next one. */
  lemma BuildsFollowTheirRelease(rank: Rank, n: string, m: string, i: string, j: string, k: string, next: Suffix)
    requires IsNumeral(n) && IsNumeral(m) && IsNumeral(i) && IsNumeral(j) && IsNumeral(k)
    requires next.Suffix? ==> IsNumeral(next.digits)
    requires Value(n) < Value(m) && Value(i) < Value(j)
    ensures Before(Pre(rank, Number(n, NoSuffix)), Pre(rank, Number(n, Suffix(Dev, i))))
    ensures Before(Pre(rank, Number(n, Suffix(Dev, i))), Pre(rank, Number(n, Suffix(Dev, j))))
    ensures Before(Pre(rank, Number(n, Suffix(Dev, j))), Pre(rank, Number(n, Suffix(Hotfix, k))))
    ensures Before(Pre(rank, Number(n, Suffix(Hotfix, k))), Pre(rank, Number(m, next)))
  {
    var r := [RankPart(rank)];
    OrderAfter([RankPart(rank), Value(n)], [0, 0], [1, Value(i)]);
    OrderAfter([RankPart(rank), Value(n), 1], [Value(i)], [Value(j)]);
    OrderAfter([RankPart(rank), Value(n)], [1, Value(j)], [2, Value(k)]);
    OrderAfter(r, [Value(n), 2, Value(k)], [Value(m)] + SuffixParts(next));
    assert [RankPart(rank), Value(n)] + [1, Value(i)] == [RankPart(rank), Value(n), 1] + [Value(i)];
    assert [RankPart(rank), Value(n)] + [1, Value(j)] == [RankPart(rank), Value(n), 1] + [Value(j)];
    assert r + [Value(n), 2, Value(k)] == [RankPart(rank), Value(n)] + [2, Value(k)];
    assert r + ([Value(m)] + SuffixParts(next)) == [RankPart(rank), Value(m)] + SuffixParts(next);
  }

  /** A bare rank reads as number 0. */
  function NumberOf(n: Number): nat
    requires n.Number? ==> IsNumeral(n.digits)
  {
    if n.Bare? then 0 else Value(n.digits)
  }

  function SuffixOf(n: Number): Suffix { if n.Bare? then NoSuffix else n.suffix }

  predicate SameSuffix(s: Suffix, t: Suffix)
    requires (s.Suffix? ==> IsNumeral(s.digits)) && (t.Suffix? ==> IsNumeral(t.digits))
  {
    s.Suffix? == t.Suffix? && (s.Suffix? ==> s.kind == t.kind && Value(s.digits) == Value(t.digits))
  }

  /** Both releases, or one rank, one number and one build. */
  predicate SamePre(p: Pre, q: Pre)
    requires WellFormedPre(p) && WellFormedPre(q)
  {
    && p.Pre? == q.Pre?
    && (p.Pre? ==>
      p.rank == q.rank && NumberOf(p.number) == NumberOf(q.number) && SameSuffix(SuffixOf(p.number), SuffixOf(q.number)))
  }

  predicate SamePlace(c: Core, d: Core)
    requires WellFormed(c) && WellFormed(d)
  {
    && Value(c.major) == Value(d.major) && Value(c.minor) == Value(d.minor) && Value(c.tail.patch) == Value(d.tail.patch)
    && SamePre(c.tail.pre, d.tail.pre)
  }

  lemma SuffixPartsTell(s: Suffix, t: Suffix)
    requires (s.Suffix? ==> IsNumeral(s.digits)) && (t.Suffix? ==> IsNumeral(t.digits))
    ensures SuffixParts(s) == SuffixParts(t) <==> SameSuffix(s, t)
  {
    var x, y := SuffixParts(s), SuffixParts(t);
    assert x == y <==> x[0] == y[0] && x[1] == y[1];
  }

  lemma PrePartsShape(p: Pre)
    requires WellFormedPre(p)
    ensures p.Release? ==> PreParts(p) == [3, 0] + SuffixParts(NoSuffix)
    ensures p.Pre? ==> PreParts(p) == [RankPart(p.rank), NumberOf(p.number)] + SuffixParts(SuffixOf(p.number))
  {
  }

  lemma AppendTells(a: seq<nat>, b: seq<nat>, x: seq<nat>, y: seq<nat>)
    requires |a| == |b|
    ensures a + x == b + y <==> a == b && x == y
  {
    assert a == (a + x)[..|a|] && b == (b + y)[..|a|];
    assert x == (a + x)[|a|..] && y == (b + y)[|a|..];
  }

  lemma PrePartsTell(p: Pre, q: Pre)
    requires WellFormedPre(p) && WellFormedPre(q)
    ensures PreParts(p) == PreParts(q) <==> SamePre(p, q)
  {
    PrePartsShape(p);
    PrePartsShape(q);
    if p.Pre? && q.Pre? {
      var a, b := [RankPart(p.rank), NumberOf(p.number)], [RankPart(q.rank), NumberOf(q.number)];
      AppendTells(a, b, SuffixParts(SuffixOf(p.number)), SuffixParts(SuffixOf(q.number)));
      SuffixPartsTell(SuffixOf(p.number), SuffixOf(q.number));
      assert a == b <==> a[0] == b[0] && a[1] == b[1];
    } else {
      assert PreParts(p)[0] == 3 <==> p.Release?;
      assert PreParts(q)[0] == 3 <==> q.Release?;
    }
  }

  /**
    Two tags compare as equal exactly when all their numbers agree in value, with a bare rank
    reading as number 0; leading zeros and the v do not matter.
  */
  lemma EqualExactlyAtOnePlace(t: Tag, u: Tag)
    requires WellFormed(t.core) && WellFormed(u.core)
    ensures Parse(Text(t)).Some? && Parse(Text(u)).Some? ==>
      (Order(Parse(Text(t)).value, Parse(Text(u)).value) == 0 <==> SamePlace(t.core, u.core))
  {
    ParseText(t);
    ParseText(u);
    var c, d := t.core, u.core;
    OrderIsTotal(Parts(c), Parts(d));
    var a, b := [Value(c.major), Value(c.minor), Value(c.tail.patch)], [Value(d.major), Value(d.minor), Value(d.tail.patch)];
    AppendTells(a, b, PreParts(c.tail.pre), PreParts(d.tail.pre));
    PrePartsTell(c.tail.pre, d.tail.pre);
    assert a == b <==> a[0] == b[0] && a[1] == b[1] && a[2] == b[2];
  }

  /** The tag of a release with these numbers. */
  function ReleaseTag(major: nat, minor: nat, patch: nat): Tag {
    Tag(true, Core(Decimal(major), Decimal(minor), Tail(Decimal(patch), Release)))
  }

  /** Releases are ordered by their numbers: v1.9.0 comes before v1.10.0. */
  lemma ReleasesInOrder(a: nat, b: nat, c: nat, x: nat, y: nat, z: nat)
    requires a <= MAX_INT && b <= MAX_INT && c <= MAX_INT && x <= MAX_INT && y <= MAX_INT && z <= MAX_INT
    ensures var v, w := Parse(Text(ReleaseTag(a, b, c))), Parse(Text(ReleaseTag(x, y, z)));
      v.Some? && w.Some? && Order(v.value, w.value) == Order([a, b, c], [x, y, z])
  {
    ReleaseParts(a, b, c);
    ReleaseParts(x, y, z);
    OrderBefore([a, b, c], [x, y, z], [3, 0, 0, 0]);
  }

  lemma ReleaseParts(major: nat, minor: nat, patch: nat)
    requires major <= MAX_INT && minor <= MAX_INT && patch <= MAX_INT
    ensures Parse(Text(ReleaseTag(major, minor, patch))) == Some([major, minor, patch] + [3, 0, 0, 0])
  {
    ParseText(ReleaseTag(major, minor, patch));
    ValueOfDecimal(major);
    ValueOfDecimal(minor);
    ValueOfDecimal(patch);
  }

  lemma {:induction false} OrderBefore(a: seq<nat>, b: seq<nat>, suffix: seq<nat>)
    requires |a| == |b|
    ensures Order(a + suffix, b + suffix) == Order(a, b)
  {
    if a == [] {
      assert a + suffix == suffix && b + suffix == suffix;
      OrderIsTotal(suffix, suffix);
    } else {
      assert (a + suffix)[1..] == a[1..] + suffix && (b + suffix)[1..] == b[1..] + suffix;
      OrderBefore(a[1..], b[1..], suffix);
    }
  }

  /** Two different tags at the same place: a bare rank counts as number 0. */
  lemma BareIsZero(rank: Rank)
    ensures Pre(rank, Bare) != Pre(rank, Number("0", NoSuffix))
    ensures PreParts(Pre(rank, Bare)) == PreParts(Pre(rank, Number("0", NoSuffix)))
  {
    assert Value("0") == Value("") * 10;
    assert [RankPart(rank), 0] + [0, 0] == [RankPart(rank), 0, 0, 0];
  }
}
