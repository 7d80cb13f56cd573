/** JSON text: the layout of `json.dumps(data, indent=2)` and the grammar of `json.loads`.

    A float is represented by its literal, so `repr` and `float` are inverse by construction. */
module Json {
  import opened Wrappers
  import opened Text

  datatype Json =
    | Null
    | Bool(b: bool)
    | Int(n: int)
    | Float(literal: string)
    | Str(s: string)
    | Arr(items: seq<Json>)
    | Obj(members: seq<(string, Json)>)

  // ---- Numbers ----

  // The number grammar `(-?(?:0|[1-9]\d*))(\.\d+)?([eE][-+]?\d+)?`, part by part:
  // each function gives the end of its part, or `i` where the part is absent.

  function IntegerEnd(s: string): (j: nat)
    ensures j <= |s|
  {
    var sign := if s != "" && s[0] == '-' then 1 else 0;
    if DigitEnd(s, sign) == sign then 0 else if s[sign] == '0' then sign + 1 else DigitEnd(s, sign)
  }

  function FractionEnd(s: string, i: nat): (j: nat)
    requires i <= |s|
    ensures i <= j <= |s|
  {
    if i < |s| && s[i] == '.' && DigitEnd(s, i + 1) > i + 1 then DigitEnd(s, i + 1) else i
  }

  function ExponentEnd(s: string, i: nat): (j: nat)
    requires i <= |s|
    ensures i <= j <= |s|
  {
    if i < |s| && (s[i] == 'e' || s[i] == 'E') then
      var d := if i + 1 < |s| && (s[i + 1] == '+' || s[i + 1] == '-') then i + 2 else i + 1;
      if DigitEnd(s, d) > d then DigitEnd(s, d) else i
    else i
  }

  function NonFiniteEnd(s: string): (j: nat)
    ensures j <= |s|
  {
    if "NaN" <= s then 3 else if "Infinity" <= s then 8 else if "-Infinity" <= s then 9 else 0
  }

  /** Length of the number at the start of `s` (0 if there is none), and whether it is an integer. */
  function NumberToken(s: string): (r: (nat, bool))
    ensures r.0 <= |s|
  {
    var i := IntegerEnd(s);
    if i == 0 then (NonFiniteEnd(s), false)
    else
      var e := ExponentEnd(s, FractionEnd(s, i));
      (e, e == i)
  }

  function DigitsIn(s: string): (digits: string)
    ensures AllDigits(digits)
  {
    if s == "" then "" else (if IsDigit(s[0]) then [s[0]] else "") + DigitsIn(s[1..])
  }

  function Pow10(n: nat): nat {
    if n == 0 then 1 else 10 * Pow10(n - 1)
  }

  /** `m * 10**scale` rounds to 1 as a double: the midpoints to its neighbours, 1 - 2**-54 and 1 + 2**-53, go to 1
      too. */
  predicate RoundsToOne(m: nat, scale: int) {
    if scale >= 0 then m * Pow10(scale) == 1
    else
      var p := Pow10(-scale);
      p * 0x3F_FFFF_FFFF_FFFF <= m * 0x40_0000_0000_0000 && m * 0x20_0000_0000_0000 <= p * 0x20_0000_0000_0001
  }

  /** `float(literal) == 1` */
  predicate EqualsOne(literal: string) {
    var i := IntegerEnd(literal);
    var f := FractionEnd(literal, i);
    var e := ExponentEnd(literal, f);
    var places := if f > i then f - i - 1 else 0;
    var exponent: int := NatOf(DigitsIn(literal[f..e]));
    && i > 0 && literal[0] != '-'
    && RoundsToOne(NatOf(DigitsIn(literal[..f])), (if '-' in literal[f..e] then -exponent else exponent) - places)
  }

  function Zeros(n: nat): string {
    if n == 0 then "" else Zeros(n - 1) + "0"
  }

  lemma {:induction false} ZerosAreDigits(n: nat)
    ensures |Zeros(n)| == n && forall i :: 0 <= i < n ==> Zeros(n)[i] == '0'
  {
    if n > 0 {
      ZerosAreDigits(n - 1);
    }
  }

  lemma {:induction false} OneAndZeros(n: nat)
    ensures AllDigits("1" + Zeros(n)) && NatOf("1" + Zeros(n)) == Pow10(n)
  {
    ZerosAreDigits(n);
    var s := "1" + Zeros(n);
    if n == 0 {
      assert s == "1" && "1"[..0] == "";
    } else {
      OneAndZeros(n - 1);
      assert s[..|s| - 1] == "1" + Zeros(n - 1) && s[|s| - 1] == '0';
    }
  }

  lemma {:induction false} DigitsConcat(a: string, b: string)
    ensures DigitsIn(a + b) == DigitsIn(a) + DigitsIn(b)
  {
    hide IsDigit;
    if a == "" {
      assert a + b == b;
    } else {
      DigitsConcat(a[1..], b);
      assert (a + b)[1..] == a[1..] + b;
      var first := if IsDigit(a[0]) then [a[0]] else "";
      assert first + (DigitsIn(a[1..]) + DigitsIn(b)) == (first + DigitsIn(a[1..])) + DigitsIn(b);
    }
  }

  lemma {:induction false} DigitsOfDigits(s: string)
    requires AllDigits(s)
    ensures DigitsIn(s) == s
  {
    if s != "" {
      DigitsOfDigits(s[1..]);
      assert s == [s[0]] + s[1..];
    }
  }

  /** However many zeros follow the point, the literal equals 1. */
  lemma OneWithPlaces(n: nat)
    requires n > 0
    ensures EqualsOne("1." + Zeros(n))
  {
    hide Pow10, NatOf, IntegerEnd, FractionEnd, ExponentEnd, RoundsToOne, Zeros;
    var s, f := "1." + Zeros(n), n + 2;
    PlacesEnd(n);
    PlacesRead(n);
    OneAndZeros(n);
    assert s[..f] == s && s[f..f] == "" && DigitsIn("") == "";
    RoundsExactly(n);
  }

  lemma PlacesEnd(n: nat)
    requires n > 0
    ensures var s, f := "1." + Zeros(n), n + 2;
      |s| == f && IntegerEnd(s) == 1 && FractionEnd(s, 1) == f && ExponentEnd(s, f) == f
  {
    var s := "1." + Zeros(n);
    ZerosAreDigits(n);
    DigitEndIs(s, 0, 1);
    DigitEndIs(s, 2, n + 2);
  }

  lemma PlacesRead(n: nat)
    ensures DigitsIn("1." + Zeros(n)) == "1" + Zeros(n)
  {
    ZerosAreDigits(n);
    DigitsConcat("1.", Zeros(n));
    DigitsOfDigits(Zeros(n));
    assert "1."[1..] == "." && "."[1..] == "" && DigitsIn(".") == "" && DigitsIn("1.") == "1";
  }

  lemma RoundsExactly(n: nat)
    requires n > 0
    ensures RoundsToOne(Pow10(n), NatOf("") - n)
  {
    assert NatOf("") == 0;
  }

  /** The literals a float can print as. */
  predicate IsFloatLiteral(s: string) {
    s != "" && NumberToken(s) == (|s|, false)
  }

  function PrintInt(n: int): string {
    if n < 0 then "-" + Dec(-n) else Dec(n)
  }

  function ReadInt(token: string): int
    requires IntegerEnd(token) == |token|
  {
    if token != "" && token[0] == '-' then -(NatOf(token[1..]) as int) else NatOf(token)
  }

  /** What follows a value in printed JSON. */
  predicate Ends(rest: string) {
    rest == "" || rest[0] == ',' || rest[0] == '\n'
  }

  lemma DigitEndStable(s: string, i: nat, rest: string)
    requires i <= |s| && Ends(rest)
    ensures DigitEnd(s + rest, i) == DigitEnd(s, i)
  {
    DigitEndIs(s + rest, i, DigitEnd(s, i));
  }

  lemma IntegerEndStable(s: string, rest: string)
    requires Ends(rest)
    ensures IntegerEnd(s + rest) == IntegerEnd(s)
  {
    DigitEndStable(s, 0, rest);
    if s != "" {
      DigitEndStable(s, 1, rest);
    }
  }

  lemma FractionEndStable(s: string, i: nat, rest: string)
    requires i <= |s| && Ends(rest)
    ensures FractionEnd(s + rest, i) == FractionEnd(s, i)
  {
    if i < |s| {
      DigitEndStable(s, i + 1, rest);
    }
  }

  lemma ExponentEndStable(s: string, i: nat, rest: string)
    requires i <= |s| && Ends(rest)
    ensures ExponentEnd(s + rest, i) == ExponentEnd(s, i)
  {
    if i < |s| {
      DigitEndStable(s, i + 1, rest);
      if i + 1 < |s| {
        DigitEndStable(s, i + 2, rest);
      }
    }
  }

  lemma NonFiniteStable(token: string, rest: string)
    requires token == "NaN" || token == "Infinity" || token == "-Infinity"
    ensures NumberToken(token + rest) == (|token|, false)
  {
    var t := token + rest;
    assert t[..|token|] == token;
    assert IntegerEnd(t) == 0;
  }

  /** A number token is read back whole, whatever follows it in printed JSON. */
  lemma TokenStable(token: string, rest: string)
    requires token != "" && NumberToken(token).0 == |token| && Ends(rest)
    ensures NumberToken(token + rest) == NumberToken(token)
  {
    if IntegerEnd(token) > 0 {
      IntegerEndStable(token, rest);
      FractionEndStable(token, IntegerEnd(token), rest);
      ExponentEndStable(token, FractionEnd(token, IntegerEnd(token)), rest);
    } else {
      NonFiniteStable(token, rest);
    }
  }

  lemma IntegerToken(d: string, sign: string)
    requires AllDigits(d) && d != "" && (d[0] == '0' ==> d == "0")
    requires sign == "" || sign == "-"
    ensures NumberToken(sign + d) == (|sign + d|, true) && IntegerEnd(sign + d) == |sign + d|
  {
    DigitEndIs(sign + d, |sign|, |sign + d|);
  }

  lemma IntRoundTrip(n: int)
    ensures PrintInt(n) != "" && NumberToken(PrintInt(n)) == (|PrintInt(n)|, true)
    ensures IntegerEnd(PrintInt(n)) == |PrintInt(n)| && ReadInt(PrintInt(n)) == n
  {
    var sign := if n < 0 then "-" else "";
    var d := Dec(if n < 0 then -n else n);
    DecRoundTrip(if n < 0 then -n else n);
    IntegerToken(d, sign);
    assert PrintInt(n) == sign + d;
    assert (sign + d)[|sign|..] == d;
  }

  // ---- Strings ----

  function HexChar(d: nat): char
    requires d < 16
  {
    if d < 10 then (d + '0' as int) as char else (d - 10 + 'a' as int) as char
  }

  function HexValue(c: char): Option<nat> {
    if '0' <= c <= '9' then Some(c as int - '0' as int)
    else if 'a' <= c <= 'f' then Some(c as int - 'a' as int + 10)
    else if 'A' <= c <= 'F' then Some(c as int - 'A' as int + 10)
    else None
  }

  function Unicode(u: nat): string
    requires u < 0x10000
  {
    "\\u" + [HexChar(u / 0x1000), HexChar(u / 0x100 % 0x10), HexChar(u / 0x10 % 0x10), HexChar(u % 0x10)]
  }

  /** `json.dumps` with its default `ensure_ascii`: everything outside `' '..'~'` is escaped. */
  function EscapeChar(c: char): string {
    if c == '\"' then "\\\""
    else if c == '\\' then "\\\\"
    else if c == '\n' then "\\n"
    else if c == '\r' then "\\r"
    else if c == '\t' then "\\t"
    else if c as int == 0x8 then "\\b"
    else if c as int == 0xC then "\\f"
    else if ' ' <= c <= '~' then [c]
    else if c as int < 0x10000 then Unicode(c as int)
    else Unicode(0xD800 + (c as int - 0x10000) / 0x400) + Unicode(0xDC00 + (c as int - 0x10000) % 0x400)
  }

  function Escape(s: string): string {
    if s == "" then "" else EscapeChar(s[0]) + Escape(s[1..])
  }

  /** The number in the four hex digits after `\u`. */
  function ReadHex(s: string): (r: Option<nat>)
    ensures r.Some? ==> |s| >= 4 && r.value < 0x10000
  {
    if |s| < 4 then None
    else
      match (HexValue(s[0]), HexValue(s[1]), HexValue(s[2]), HexValue(s[3]))
      case (Some(a), Some(b), Some(c), Some(d)) => Some(((a * 0x10 + b) * 0x10 + c) * 0x10 + d)
      case _ => None
  }

  /** One `\uXXXX` escape, or a surrogate pair of two: the character and the length after `\u`.
      A lone surrogate is no character here. */
  function ReadUnicode(s: string): (r: Option<(char, nat)>)
    ensures r.Some? ==> r.value.1 <= |s|
  {
    match ReadHex(s)
    case None => None
    case Some(u) =>
      if u < 0xD800 || 0xE000 <= u then Some((u as char, 4))
      else if u < 0xDC00 && |s| >= 6 && s[4] == '\\' && s[5] == 'u' then
        match ReadHex(s[6..])
        case None => None
        case Some(v) =>
          if 0xDC00 <= v < 0xE000 then Some(((0x10000 + (u - 0xD800) * 0x400 + (v - 0xDC00)) as char, 10)) else None
      else None
  }

  function ShortEscape(c: char): Option<char> {
    match c
    case '\"' => Some('\"')
    case '\\' => Some('\\')
    case '/' => Some('/')
    case 'n' => Some('\n')
    case 'r' => Some('\r')
    case 't' => Some('\t')
    case 'b' => Some(0x8 as char)
    case 'f' => Some(0xC as char)
    case _ => None
  }

  /** The rest of a string literal, after its opening quote: its contents and what follows it. */
  function ScanString(s: string): (r: Option<(string, string)>)
    ensures r.Some? ==> |r.value.1| < |s|
  {
    if s == "" then None
    else if s[0] == '\"' then Some(("", s[1..]))
    else if s[0] == '\\' then
      if |s| < 2 then None
      else if s[1] == 'u' then
        match ReadUnicode(s[2..])
        case None => None
        case Some((c, n)) => Cons(c, ScanString(s[2 + n..]))
      else
        match ShortEscape(s[1])
        case None => None
        case Some(c) => Cons(c, ScanString(s[2..]))
    else if s[0] < ' ' then None
    else Cons(s[0], ScanString(s[1..]))
  }

  function Cons(c: char, r: Option<(string, string)>): Option<(string, string)> {
    match r
    case None => None
    case Some((s, rest)) => Some(([c] + s, rest))
  }

  lemma HexDigits(u: nat)
    requires u < 0x10000
    ensures u == ((u / 0x1000 * 0x10 + u / 0x100 % 0x10) * 0x10 + u / 0x10 % 0x10) * 0x10 + u % 0x10
  {
    var a := u / 0x10;
    var b := a / 0x10;
    assert u == a * 0x10 + u % 0x10 && a == b * 0x10 + a % 0x10 && b == b / 0x10 * 0x10 + b % 0x10;
    assert b == u / 0x100 && b / 0x10 == u / 0x1000;
  }

  lemma HexRoundTrip(u: nat, rest: string)
    requires u < 0x10000
    ensures |Unicode(u)| == 6 && Unicode(u)[..2] == "\\u" && ReadHex((Unicode(u) + rest)[2..]) == Some(u)
  {
    var a, b, c, d := u / 0x1000, u / 0x100 % 0x10, u / 0x10 % 0x10, u % 0x10;
    HexDigits(u);
    var t := (Unicode(u) + rest)[2..];
    assert t[0] == HexChar(a) && t[1] == HexChar(b) && t[2] == HexChar(c) && t[3] == HexChar(d);
  }

  lemma UnicodeRoundTrip(c: char, rest: string)
    requires !(' ' <= c <= '~')
    ensures var n := c as int;
      var e :=
        if n < 0x10000 then Unicode(n)
        else Unicode(0xD800 + (n - 0x10000) / 0x400) + Unicode(0xDC00 + (n - 0x10000) % 0x400);
      && |e| >= 6 && e[..2] == "\\u"
      && ReadUnicode((e + rest)[2..]) == Some((c, |e| - 2))
  {
    hide Unicode, ReadHex;
    if c as int < 0x10000 {
      HexRoundTrip(c as int, rest);
    } else {
      var hi, lo := 0xD800 + (c as int - 0x10000) / 0x400, 0xDC00 + (c as int - 0x10000) % 0x400;
      HexRoundTrip(hi, Unicode(lo) + rest);
      HexRoundTrip(lo, rest);
      var t := (Unicode(hi) + Unicode(lo) + rest)[2..];
      assert Unicode(hi) + Unicode(lo) + rest == Unicode(hi) + (Unicode(lo) + rest);
      assert t[4] == Unicode(lo)[..2][0] && t[5] == Unicode(lo)[..2][1];
      assert t[6..] == (Unicode(lo) + rest)[2..];
    }
  }

  lemma EscapeCharRoundTrip(c: char, rest: string)
    ensures ScanString(EscapeChar(c) + rest) == Cons(c, ScanString(rest))
  {
    var e := EscapeChar(c);
    var t := e + rest;
    assert t[|e|..] == rest;
    if |e| == 1 {
    } else if |e| == 2 {
      assert t[0] == '\\' && t[1] == e[1] && ShortEscape(e[1]) == Some(c);
    } else {
      UnicodeRoundTrip(c, rest);
      assert t[0] == e[..2][0] && t[1] == e[..2][1];
    }
  }

  lemma ScanEnd(rest: string)
    ensures ScanString(Escape("") + "\"" + rest) == Some(("", rest))
  {
    assert Escape("") + "\"" + rest == ['\"'] + rest;
  }

  lemma {:induction false} StringRoundTrip(s: string, rest: string)
    ensures ScanString(Escape(s) + "\"" + rest) == Some((s, rest))
  {
    hide ScanString, EscapeChar;
    if s == "" {
      ScanEnd(rest);
    } else {
      StringRoundTrip(s[1..], rest);
      EscapeCharRoundTrip(s[0], Escape(s[1..]) + "\"" + rest);
      assert Escape(s) + "\"" + rest == EscapeChar(s[0]) + (Escape(s[1..]) + "\"" + rest);
      assert s == [s[0]] + s[1..];
    }
  }

  // ---- Values ----

  function Quoted(s: string): string {
    "\"" + Escape(s) + "\""
  }

  function Spaces(n: nat): (s: string)
    ensures |s| == n && forall i :: 0 <= i < n ==> s[i] == ' '
  {
    if n == 0 then "" else " " + Spaces(n - 1)
  }

  /** A line break with the indentation of `level`. */
  function NewLine(level: nat): string {
    "\n" + Spaces(2 * level)
  }

  function Print(v: Json, level: nat): string
    decreases v, 0
  {
    match v
    case Null => "null"
    case Bool(b) => if b then "true" else "false"
    case Int(n) => PrintInt(n)
    case Float(literal) => literal
    case Str(s) => Quoted(s)
    case Arr(items) =>
      if items == [] then "[]" else "[" + NewLine(level + 1) + PrintItems(items, level + 1) + NewLine(level) + "]"
    case Obj(members) =>
      if members == [] then "{}" else "{" + NewLine(level + 1) + PrintMembers(members, level + 1) + NewLine(level) + "}"
  }

  function PrintItems(items: seq<Json>, level: nat): string
    requires items != []
    decreases items, 1
  {
    Print(items[0], level) + if |items| == 1 then "" else "," + NewLine(level) + PrintItems(items[1..], level)
  }

  function PrintMember(member: (string, Json), level: nat): string
    decreases member, 1
  {
    Quoted(member.0) + ": " + Print(member.1, level)
  }

  function PrintMembers(members: seq<(string, Json)>, level: nat): string
    requires members != []
    decreases members, 2
  {
    PrintMember(members[0], level) +
      if |members| == 1 then "" else "," + NewLine(level) + PrintMembers(members[1..], level)
  }

  function SkipSpace(s: string): (r: string)
    ensures |r| <= |s|
  {
    if s != "" && (s[0] == ' ' || s[0] == '\t' || s[0] == '\n' || s[0] == '\r') then SkipSpace(s[1..]) else s
  }

  /** The value at the start of `s` and what follows it. */
  function ParseValue(s: string): (r: Option<(Json, string)>)
    ensures r.Some? ==> |r.value.1| < |s|
    decreases |s|, 0
  {
    if s == "" then None
    else if s[0] == '\"' then
      match ScanString(s[1..])
      case None => None
      case Some((t, rest)) => Some((Str(t), rest))
    else if s[0] == '[' then
      var t := SkipSpace(s[1..]);
      if t != "" && t[0] == ']' then Some((Arr([]), t[1..]))
      else
        match ParseItems(t)
        case None => None
        case Some((items, rest)) => Some((Arr(items), rest))
    else if s[0] == '{' then
      var t := SkipSpace(s[1..]);
      if t != "" && t[0] == '}' then Some((Obj([]), t[1..]))
      else
        match ParseMembers(t)
        case None => None
        case Some((members, rest)) => Some((Obj(members), rest))
    else if "null" <= s then Some((Null, s[4..]))
    else if "true" <= s then Some((Bool(true), s[4..]))
    else if "false" <= s then Some((Bool(false), s[5..]))
    else ParseNumber(s)
  }

  function ParseNumber(s: string): (r: Option<(Json, string)>)
    ensures r.Some? ==> |r.value.1| < |s|
  {
    var (n, isInt) := NumberToken(s);
    if n == 0 then None
    else if isInt && IntegerEnd(s[..n]) == n then Some((Int(ReadInt(s[..n])), s[n..]))
    else Some((Float(s[..n]), s[n..]))
  }

  /** The items of an array from one of its items on. */
  function ParseItems(s: string): (r: Option<(seq<Json>, string)>)
    ensures r.Some? ==> |r.value.1| < |s|
    decreases |s|, 1
  {
    match ParseValue(s)
    case None => None
    case Some((v, rest)) =>
      var t := SkipSpace(rest);
      if t == "" then None
      else if t[0] == ']' then Some(([v], t[1..]))
      else if t[0] != ',' then None
      else
        match ParseItems(SkipSpace(t[1..]))
        case None => None
        case Some((vs, end)) => Some(([v] + vs, end))
  }

  /** A `"key": value` pair. */
  function ParseMember(s: string): (r: Option<((string, Json), string)>)
    ensures r.Some? ==> |r.value.1| < |s|
    decreases |s|, 1
  {
    if s == "" || s[0] != '\"' then None
    else
      match ScanString(s[1..])
      case None => None
      case Some((key, rest)) =>
        var t := SkipSpace(rest);
        if t == "" || t[0] != ':' then None
        else
          match ParseValue(SkipSpace(t[1..]))
          case None => None
          case Some((v, end)) => Some(((key, v), end))
  }

  function ParseMembers(s: string): (r: Option<(seq<(string, Json)>, string)>)
    ensures r.Some? ==> |r.value.1| < |s|
    decreases |s|, 2
  {
    match ParseMember(s)
    case None => None
    case Some((m, rest)) =>
      var t := SkipSpace(rest);
      if t == "" then None
      else if t[0] == '}' then Some(([m], t[1..]))
      else if t[0] != ',' then None
      else
        match ParseMembers(SkipSpace(t[1..]))
        case None => None
        case Some((ms, end)) => Some(([m] + ms, end))
  }

  /** `json.loads`: one value with nothing but white space around it. */
  function Loads(s: string): Option<Json> {
    match ParseValue(SkipSpace(s))
    case None => None
    case Some((v, rest)) => if SkipSpace(rest) == "" then Some(v) else None
  }

  function Dumps(v: Json): string {
    Print(v, 0)
  }

  /** Every float in `v` carries a float literal. */
  ghost predicate WellFormed(v: Json) {
    match v
    case Float(literal) => IsFloatLiteral(literal)
    case Arr(items) => forall i :: 0 <= i < |items| ==> WellFormed(items[i])
    case Obj(members) => forall i :: 0 <= i < |members| ==> WellFormed(members[i].1)
    case _ => true
  }

  // ---- Round trip ----

  lemma {:induction false} SkipIndent(n: nat, rest: string)
    requires rest != "" && rest[0] !in {' ', '\t', '\n', '\r'}
    ensures SkipSpace(Spaces(n) + rest) == rest
  {
    if n == 0 {
      assert "" + rest == rest;
    } else {
      SkipIndent(n - 1, rest);
      assert (Spaces(n) + rest)[1..] == Spaces(n - 1) + rest;
    }
  }

  lemma SkipNewLine(level: nat, rest: string)
    requires rest != "" && rest[0] !in {' ', '\t', '\n', '\r'}
    ensures SkipSpace(NewLine(level) + rest) == rest
  {
    SkipIndent(2 * level, rest);
    assert (NewLine(level) + rest)[1..] == Spaces(2 * level) + rest;
  }

  predicate StartsValue(s: string) {
    s != "" && s[0] !in {' ', '\t', '\n', '\r', ']', '}', ',', ':'}
  }

  lemma PrintStarts(v: Json, level: nat)
    requires WellFormed(v)
    ensures StartsValue(Print(v, level))
  {
    match v {
      case Int(n) => DecRoundTrip(if n < 0 then -n else n);
      case _ =>
    }
  }

  lemma NumberRoundTrip(token: string, rest: string)
    requires token != "" && NumberToken(token).0 == |token| && Ends(rest)
    requires NumberToken(token).1 ==> IntegerEnd(token) == |token|
    ensures ParseValue(token + rest) ==
      Some((if NumberToken(token).1 then Int(ReadInt(token)) else Float(token), rest))
  {
    TokenStable(token, rest);
    assert (token + rest)[..|token|] == token && (token + rest)[|token|..] == rest;
  }

  // One step of each parser, with the text it consumes already split.

  lemma ArrayStep(s: string, t: string, items: seq<Json>, rest: string)
    requires s != "" && s[0] == '[' && SkipSpace(s[1..]) == t && StartsValue(t) && ParseItems(t) == Some((items, rest))
    ensures ParseValue(s) == Some((Arr(items), rest))
  {
  }

  lemma ObjectStep(s: string, t: string, members: seq<(string, Json)>, rest: string)
    requires s != "" &&
      s[0] == '{' && SkipSpace(s[1..]) == t && StartsValue(t) && ParseMembers(t) == Some((members, rest))
    ensures ParseValue(s) == Some((Obj(members), rest))
  {
  }

  lemma LastItemStep(s: string, v: Json, t: string, rest: string)
    requires ParseValue(s) == Some((v, t)) && SkipSpace(t) == "]" + rest
    ensures ParseItems(s) == Some(([v], rest))
  {
  }

  lemma ItemStep(s: string, v: Json, t: string, u: string, vs: seq<Json>, rest: string)
    requires ParseValue(s) == Some((v, "," + t)) && SkipSpace(t) == u && ParseItems(u) == Some((vs, rest))
    ensures ParseItems(s) == Some(([v] + vs, rest))
  {
    assert ("," + t)[1..] == t;
  }

  lemma LastMemberStep(s: string, m: (string, Json), t: string, rest: string)
    requires ParseMember(s) == Some((m, t)) && SkipSpace(t) == "}" + rest
    ensures ParseMembers(s) == Some(([m], rest))
  {
  }

  lemma MoreMembersStep(s: string, m: (string, Json), t: string, u: string, ms: seq<(string, Json)>, rest: string)
    requires ParseMember(s) == Some((m, "," + t)) && SkipSpace(t) == u && ParseMembers(u) == Some((ms, rest))
    ensures ParseMembers(s) == Some(([m] + ms, rest))
  {
    assert ("," + t)[1..] == t;
  }

  lemma MemberStep(s: string, t: string, key: string, u: string, v: Json, rest: string)
    requires s == "\"" + t && ScanString(t) == Some((key, ": " + u))
    requires StartsValue(u) && ParseValue(u) == Some((v, rest))
    ensures ParseMember(s) == Some(((key, v), rest))
  {
    assert s[1..] == t;
    var w := (": " + u)[1..];
    assert w[0] == ' ' && w[1..] == u;
    assert SkipSpace(u) == u && SkipSpace(w) == u && SkipSpace(": " + u) == ": " + u;
  }

  lemma {:induction false} ValueRoundTrip(v: Json, level: nat, rest: string)
    requires WellFormed(v) && Ends(rest)
    ensures ParseValue(Print(v, level) + rest) == Some((v, rest))
    decreases v, 0
  {
    hide ParseValue, ParseItems, ParseMembers, PrintItems, PrintMembers;
    match v {
      case Arr(items) =>
        if items != [] {
          ItemsRoundTrip(items, level + 1, level, rest);
          ArrayRoundTrip(items, level, rest);
        } else {
          EmptyRoundTrip(rest);
        }
      case Obj(members) =>
        if members != [] {
          MembersRoundTrip(members, level + 1, level, rest);
          ObjectRoundTrip(members, level, rest);
        } else {
          EmptyRoundTrip(rest);
        }
      case _ => ScalarRoundTrip(v, level, rest);
    }
  }

  lemma EmptyRoundTrip(rest: string)
    ensures ParseValue("[]" + rest) == Some((Arr([]), rest))
    ensures ParseValue("{}" + rest) == Some((Obj([]), rest))
  {
    assert ("[]" + rest)[1..] == "]" + rest;
    assert ("{}" + rest)[1..] == "}" + rest;
  }

  lemma ScalarRoundTrip(v: Json, level: nat, rest: string)
    requires WellFormed(v) && Ends(rest) && !v.Arr? && !v.Obj?
    ensures ParseValue(Print(v, level) + rest) == Some((v, rest))
  {
    match v {
      case Null => assert ("null" + rest)[4..] == rest;
      case Bool(b) => assert (Print(v, level) + rest)[if b then 4 else 5..] == rest;
      case Int(n) =>
        IntRoundTrip(n);
        NumberRoundTrip(PrintInt(n), rest);
      case Float(literal) =>
        NumberRoundTrip(literal, rest);
      case Str(s) =>
        StringStep(s, rest);
    }
  }

  lemma StringStep(s: string, rest: string)
    ensures ParseValue(Quoted(s) + rest) == Some((Str(s), rest))
  {
    StringRoundTrip(s, rest);
    assert (Quoted(s) + rest)[1..] == Escape(s) + "\"" + rest;
  }

  /** Printed items up to the closing bracket. */
  function ItemsText(items: seq<Json>, level: nat, outer: nat, rest: string): string
    requires items != []
  {
    PrintItems(items, level) + (NewLine(outer) + ("]" + rest))
  }

  function MembersText(members: seq<(string, Json)>, level: nat, outer: nat, rest: string): string
    requires members != []
  {
    PrintMembers(members, level) + (NewLine(outer) + ("}" + rest))
  }

  lemma ArrayRoundTrip(items: seq<Json>, level: nat, rest: string)
    requires items != [] && WellFormed(items[0])
    requires ParseItems(ItemsText(items, level + 1, level, rest)) == Some((items, rest))
    ensures ParseValue(Print(Arr(items), level) + rest) == Some((Arr(items), rest))
  {
    hide ParseValue, ParseItems, ParseMembers, ParseMember, SkipSpace;
    var t := ItemsText(items, level + 1, level, rest);
    var s := Print(Arr(items), level) + rest;
    PrintStarts(items[0], level + 1);
    SkipNewLine(level + 1, t);
    assert s == "[" + (NewLine(level + 1) + t);
    assert s[1..] == NewLine(level + 1) + t;
    ArrayStep(s, t, items, rest);
  }

  lemma ObjectRoundTrip(members: seq<(string, Json)>, level: nat, rest: string)
    requires members != []
    requires ParseMembers(MembersText(members, level + 1, level, rest)) == Some((members, rest))
    ensures ParseValue(Print(Obj(members), level) + rest) == Some((Obj(members), rest))
  {
    hide ParseValue, ParseItems, ParseMembers, ParseMember, SkipSpace;
    var t := MembersText(members, level + 1, level, rest);
    var s := Print(Obj(members), level) + rest;
    MembersTextStarts(members, level + 1, level, rest);
    SkipNewLine(level + 1, t);
    assert s == "{" + (NewLine(level + 1) + t);
    assert s[1..] == NewLine(level + 1) + t;
    ObjectStep(s, t, members, rest);
  }

  lemma {:induction false} ItemsRoundTrip(items: seq<Json>, level: nat, outer: nat, rest: string)
    requires items != [] && (forall i :: 0 <= i < |items| ==> WellFormed(items[i])) && Ends(rest)
    ensures ParseItems(ItemsText(items, level, outer, rest)) == Some((items, rest))
    decreases items, 1
  {
    hide ParseValue, ParseItems, ParseMembers, ParseMember, SkipSpace, Print;
    var s := ItemsText(items, level, outer, rest);
    if |items| == 1 {
      var end := NewLine(outer) + ("]" + rest);
      ValueRoundTrip(items[0], level, end);
      SkipNewLine(outer, "]" + rest);
      assert s == Print(items[0], level) + end;
      LastItemStep(s, items[0], end, rest);
      assert items == [items[0]];
    } else {
      var u := ItemsText(items[1..], level, outer, rest);
      var t := NewLine(level) + u;
      ItemsTextSplit(items, level, outer, rest);
      ValueRoundTrip(items[0], level, "," + t);
      ItemsRoundTrip(items[1..], level, outer, rest);
      ItemsTextStarts(items[1..], level, outer, rest);
      SkipNewLine(level, u);
      ItemStep(s, items[0], t, u, items[1..], rest);
      assert items == [items[0]] + items[1..];
    }
  }

  lemma ItemsTextSplit(items: seq<Json>, level: nat, outer: nat, rest: string)
    requires |items| > 1
    ensures ItemsText(items, level, outer, rest)
         == Print(items[0], level) + ("," + (NewLine(level) + ItemsText(items[1..], level, outer, rest)))
  {
  }

  lemma ItemsTextStarts(items: seq<Json>, level: nat, outer: nat, rest: string)
    requires items != [] && WellFormed(items[0])
    ensures StartsValue(ItemsText(items, level, outer, rest))
  {
    PrintStarts(items[0], level);
  }

  lemma RegroupMember(quote: string, key: string, colon: string, value: string, rest: string)
    ensures quote + key + quote + colon + value + rest == quote + (key + quote + (colon + (value + rest)))
  {
  }

  lemma {:induction false} MemberRoundTrip(member: (string, Json), level: nat, rest: string)
    requires WellFormed(member.1) && Ends(rest)
    ensures ParseMember(PrintMember(member, level) + rest) == Some((member, rest))
    decreases member, 1
  {
    hide ParseValue, ParseItems, ParseMembers, ParseMember, SkipSpace, Print, Escape;
    var s := PrintMember(member, level) + rest;
    var u := Print(member.1, level) + rest;
    var t := Escape(member.0) + "\"" + (": " + u);
    StringRoundTrip(member.0, ": " + u);
    RegroupMember("\"", Escape(member.0), ": ", Print(member.1, level), rest);
    PrintStarts(member.1, level);
    ValueRoundTrip(member.1, level, rest);
    MemberStep(s, t, member.0, u, member.1, rest);
  }

  lemma {:induction false} MembersRoundTrip(members: seq<(string, Json)>, level: nat, outer: nat, rest: string)
    requires members != [] && (forall i :: 0 <= i < |members| ==> WellFormed(members[i].1)) && Ends(rest)
    ensures ParseMembers(MembersText(members, level, outer, rest)) == Some((members, rest))
    decreases members, 2
  {
    hide ParseValue, ParseItems, ParseMembers, ParseMember, SkipSpace, Print;
    var s := MembersText(members, level, outer, rest);
    if |members| == 1 {
      var end := NewLine(outer) + ("}" + rest);
      MemberRoundTrip(members[0], level, end);
      SkipNewLine(outer, "}" + rest);
      assert s == PrintMember(members[0], level) + end;
      LastMemberStep(s, members[0], end, rest);
      assert members == [members[0]];
    } else {
      var u := MembersText(members[1..], level, outer, rest);
      var t := NewLine(level) + u;
      MembersTextSplit(members, level, outer, rest);
      MemberRoundTrip(members[0], level, "," + t);
      MembersRoundTrip(members[1..], level, outer, rest);
      MembersTextStarts(members[1..], level, outer, rest);
      SkipNewLine(level, u);
      MoreMembersStep(s, members[0], t, u, members[1..], rest);
      assert members == [members[0]] + members[1..];
    }
  }

  lemma MembersTextStarts(members: seq<(string, Json)>, level: nat, outer: nat, rest: string)
    requires members != []
    ensures StartsValue(MembersText(members, level, outer, rest))
  {
    assert PrintMember(members[0], level)[0] == '\"';
  }

  lemma MembersTextSplit(members: seq<(string, Json)>, level: nat, outer: nat, rest: string)
    requires |members| > 1
    ensures MembersText(members, level, outer, rest)
         == PrintMember(members[0], level) + ("," + (NewLine(level) + MembersText(members[1..], level, outer, rest)))
  {
  }

  /** `loads(dumps(v, indent=2)) == v`, whatever the value. */
  lemma DumpsLoads(v: Json)
    requires WellFormed(v)
    ensures Loads(Dumps(v)) == Some(v)
  {
    ValueRoundTrip(v, 0, "");
    PrintStarts(v, 0);
    assert Print(v, 0) + "" == Print(v, 0);
  }

  // ---- Line breaks ----

  /** Every line of `s` but the first starts with an indent or a closing bracket. */
  ghost predicate LinesIndented(s: string) {
    forall i :: 0 <= i < |s| && s[i] == '\n' ==> i + 1 < |s| && s[i + 1] in {' ', ']', '}'}
  }

  lemma UnicodeIsPrintable(u: nat)
    requires u < 0x10000
    ensures forall c :: c in Unicode(u) ==> ' ' <= c <= '~'
  {
  }

  lemma CharIsPrintable(c: char)
    ensures forall d :: d in EscapeChar(c) ==> ' ' <= d <= '~'
  {
    hide Unicode;
    if 0x7F <= c as int < 0x10000 || (c < ' ' && c as int < 0x10000) {
      UnicodeIsPrintable(c as int);
    } else if c as int >= 0x10000 {
      UnicodeIsPrintable(0xD800 + (c as int - 0x10000) / 0x400);
      UnicodeIsPrintable(0xDC00 + (c as int - 0x10000) % 0x400);
    }
  }

  lemma {:induction false} EscapeIsPrintable(s: string)
    ensures forall c :: c in Escape(s) ==> ' ' <= c <= '~'
  {
    hide EscapeChar;
    if s != "" {
      EscapeIsPrintable(s[1..]);
      CharIsPrintable(s[0]);
    }
  }

  lemma FloatIsOneLine(f: string)
    requires IsFloatLiteral(f)
    ensures '\n' !in f
  {
    var i := IntegerEnd(f);
    if i == 0 {
      assert f == "NaN" || f == "Infinity" || f == "-Infinity";
    } else {
      var j := FractionEnd(f, i);
      assert forall k :: 0 <= k < i ==> f[k] != '\n';
      assert forall k :: i <= k < j ==> f[k] != '\n';
      assert forall k :: j <= k < |f| ==> f[k] != '\n';
    }
  }

  lemma ScalarIsOneLine(v: Json, level: nat)
    requires WellFormed(v) && !v.Arr? && !v.Obj?
    ensures '\n' !in Print(v, level)
  {
    hide IsFloatLiteral, IntegerEnd, Escape;
    match v {
      case Int(n) => DecRoundTrip(if n < 0 then -n else n);
      case Float(f) => FloatIsOneLine(f);
      case Str(s) => EscapeIsPrintable(s);
      case _ =>
    }
  }

  lemma Glue(a: string, b: string)
    requires LinesIndented(a) && LinesIndented(b)
    ensures LinesIndented(a + b)
  {
    forall i | 0 <= i < |a + b| && (a + b)[i] == '\n'
      ensures i + 1 < |a + b| && (a + b)[i + 1] in {' ', ']', '}'}
    {
      if i >= |a| {
        assert b[i - |a|] == '\n';
      }
    }
  }

  lemma {:induction false} PrintIndented(v: Json, level: nat)
    requires WellFormed(v)
    ensures LinesIndented(Print(v, level))
    decreases v, 0
  {
    match v {
      case Arr(items) =>
        if items != [] {
          ItemsIndented(items, level + 1);
          BracketsIndented("[", PrintItems(items, level + 1), "]", level);
        }
      case Obj(members) =>
        if members != [] {
          MembersIndented(members, level + 1);
          BracketsIndented("{", PrintMembers(members, level + 1), "}", level);
        }
      case _ => ScalarIsOneLine(v, level);
    }
  }

  lemma BracketsIndented(open: string, body: string, close: string, level: nat)
    requires LinesIndented(body) && '\n' !in open && (close == "]" || close == "}")
    ensures LinesIndented(open + NewLine(level + 1) + body + NewLine(level) + close)
  {
    assert LinesIndented(open + NewLine(level + 1));
    Glue(open + NewLine(level + 1), body);
    assert LinesIndented(NewLine(level) + close);
    Glue(open + NewLine(level + 1) + body, NewLine(level) + close);
    assert open + NewLine(level + 1) + body + NewLine(level) + close
        == open + NewLine(level + 1) + body + (NewLine(level) + close);
  }

  lemma {:induction false} ItemsIndented(items: seq<Json>, level: nat)
    requires items != [] && level > 0 && forall i :: 0 <= i < |items| ==> WellFormed(items[i])
    ensures LinesIndented(PrintItems(items, level))
    decreases items, 1
  {
    PrintIndented(items[0], level);
    if |items| > 1 {
      ItemsIndented(items[1..], level);
      Glue("," + NewLine(level), PrintItems(items[1..], level));
      Glue(Print(items[0], level), "," + NewLine(level) + PrintItems(items[1..], level));
    }
  }

  lemma {:induction false} MembersIndented(members: seq<(string, Json)>, level: nat)
    requires members != [] && level > 0 && forall i :: 0 <= i < |members| ==> WellFormed(members[i].1)
    ensures LinesIndented(PrintMembers(members, level))
    decreases members, 2
  {
    MemberIndented(members[0], level);
    if |members| > 1 {
      MembersIndented(members[1..], level);
      Glue("," + NewLine(level), PrintMembers(members[1..], level));
      Glue(PrintMember(members[0], level), "," + NewLine(level) + PrintMembers(members[1..], level));
    }
  }

  lemma {:induction false} MemberIndented(member: (string, Json), level: nat)
    requires WellFormed(member.1)
    ensures LinesIndented(PrintMember(member, level))
    decreases member, 1
  {
    hide Escape, Print;
    EscapeIsPrintable(member.0);
    PrintIndented(member.1, level);
    assert '\n' !in Quoted(member.0) + ": ";
    Glue(Quoted(member.0) + ": ", Print(member.1, level));
  }
}
