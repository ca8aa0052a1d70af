/** JSON texts (RFC 8259): a compact printer for value trees, a parser for sections 2 to 7 that knows
    nothing of the printer, and the proof that parsing undoes printing.  Numbers are integers: the
    parser refuses fractions and exponents. */
module Json {
  import opened Events

  datatype Value =
    | Null
    | Bool(b: bool)
    | Int(n: int)
    | Text(s: string)
    | Array(items: seq<Value>)
    | Object(members: seq<Member>)

  datatype Member = Member(key: string, value: Value)

  // Printing.

  /** The escape of one character: the named ones by name, other control characters as a space. */
  function EscapeChar(c: char): string {
    if c == '\"' then "\\\""
    else if c == '\\' then "\\\\"
    else if c == '\U{8}' then "\\b"
    else if c == '\U{C}' then "\\f"
    else if c == '\n' then "\\n"
    else if c == '\r' then "\\r"
    else if c == '\t' then "\\t"
    else if c < ' ' then " "
    else [c]
  }

  function Escape(s: string): string {
    if s == [] then [] else EscapeChar(s[0]) + Escape(s[1..])
  }

  function Quote(s: string): string {
    ['\"'] + (Escape(s) + ['\"'])
  }

  function Digit(d: int): char
    requires 0 <= d < 10
  {
    '0' + d as char
  }

  function Decimal(n: nat): string {
    if n < 10 then [Digit(n)] else Decimal(n / 10) + [Digit(n % 10)]
  }

  function PrintInt(n: int): string {
    if n < 0 then ['-'] + Decimal(-n) else Decimal(n)
  }

  function Print(v: Value): string {
    match v
    case Null => "null"
    case Bool(b) => if b then "true" else "false"
    case Int(n) => PrintInt(n)
    case Text(s) => Quote(s)
    case Array(items) => ['['] + (PrintItems(items) + [']'])
    case Object(members) => ['{'] + (PrintMembers(members) + ['}'])
  }

  function PrintItems(items: seq<Value>): string {
    if items == [] then []
    else if |items| == 1 then Print(items[0])
    else Print(items[0]) + ([','] + PrintItems(items[1..]))
  }

  function PrintMember(m: Member): string {
    Quote(m.key) + ([':'] + Print(m.value))
  }

  function PrintMembers(members: seq<Member>): string {
    if members == [] then []
    else if |members| == 1 then PrintMember(members[0])
    else PrintMember(members[0]) + ([','] + PrintMembers(members[1..]))
  }

  // Parsing.  A result is what was read and the rest of the text.

  datatype Parsed<+T> = Parsed(value: T, rest: string)

  predicate IsSpace(c: char) {
    c == ' ' || c == '\t' || c == '\n' || c == '\r'
  }

  function SkipSpace(s: string): (r: string)
    ensures |r| <= |s|
  {
    if s != [] && IsSpace(s[0]) then SkipSpace(s[1..]) else s
  }

  predicate IsDigit(c: char) {
    '0' <= c <= '9'
  }

  function HexValue(c: char): Option<int> {
    if '0' <= c <= '9' then Some(c as int - '0' as int)
    else if 'a' <= c <= 'f' then Some(c as int - 'a' as int + 10)
    else if 'A' <= c <= 'F' then Some(c as int - 'A' as int + 10)
    else None
  }

  /** A four-digit escape; halves of surrogate pairs are refused. */
  function HexChar(s: string): Option<char>
    requires |s| >= 4
  {
    match (HexValue(s[0]), HexValue(s[1]), HexValue(s[2]), HexValue(s[3]))
    case (Some(a), Some(b), Some(c), Some(d)) =>
      var code := a * 4096 + b * 256 + c * 16 + d;
      if 0 <= code < 0xD800 || 0xE000 <= code < 0x10000 then Some(code as char) else None
    case _ => None
  }

  function Unescape(c: char): Option<char> {
    match c
    case '\"' => Some('\"')
    case '\\' => Some('\\')
    case '/' => Some('/')
    case 'b' => Some('\U{8}')
    case 'f' => Some('\U{C}')
    case 'n' => Some('\n')
    case 'r' => Some('\r')
    case 't' => Some('\t')
    case _ => None
  }

  /** The characters of a string up to and including its closing quote. */
  function ParseChars(s: string): (r: Option<Parsed<string>>)
    ensures r.Some? ==> |r.value.rest| < |s|
  {
    if s == [] || s[0] < ' ' then None
    else if s[0] == '\"' then Some(Parsed([], s[1..]))
    else if s[0] != '\\' then Prefixed(s[0], ParseChars(s[1..]))
    else if |s| >= 6 && s[1] == 'u' then
      match HexChar(s[2..6])
      case None => None
      case Some(c) => Prefixed(c, ParseChars(s[6..]))
    else if |s| < 2 then None
    else
      match Unescape(s[1])
      case None => None
      case Some(c) => Prefixed(c, ParseChars(s[2..]))
  }

  function Prefixed(c: char, r: Option<Parsed<string>>): (q: Option<Parsed<string>>)
    ensures q.Some? <==> r.Some?
    ensures q.Some? ==> q.value.rest == r.value.rest
  {
    match r
    case None => None
    case Some(p) => Some(Parsed([c] + p.value, p.rest))
  }

  /** How many digits the text starts with. */
  function DigitRun(s: string): (n: nat)
    ensures n <= |s|
  {
    if s != [] && IsDigit(s[0]) then 1 + DigitRun(s[1..]) else 0
  }

  function Number(digits: string): int {
    if digits == [] then 0
    else 10 * Number(digits[..|digits| - 1]) + (digits[|digits| - 1] as int - '0' as int)
  }

  /** Digits without a superfluous leading zero, not followed by a fraction or an exponent. */
  function ParseNat(s: string): (r: Option<Parsed<int>>)
    ensures r.Some? ==> |r.value.rest| < |s|
  {
    var n := DigitRun(s);
    if n == 0 || (n > 1 && s[0] == '0') then None
    else if n < |s| && s[n] in {'.', 'e', 'E'} then None
    else Some(Parsed(Number(s[..n]), s[n..]))
  }

  function ParseInt(s: string): (r: Option<Parsed<int>>)
    ensures r.Some? ==> |r.value.rest| < |s|
  {
    if s != [] && s[0] == '-' then
      match ParseNat(s[1..])
      case None => None
      case Some(p) => Some(Parsed(-p.value, p.rest))
    else ParseNat(s)
  }

  /** One value, after optional space. */
  function ParseValue(s: string): (r: Option<Parsed<Value>>)
    ensures r.Some? ==> |r.value.rest| < |s|
    decreases |s|, 1
  {
    var t := SkipSpace(s);
    if t == [] then None
    else if t[0] == '\"' then
      match ParseChars(t[1..])
      case None => None
      case Some(p) => Some(Parsed(Text(p.value), p.rest))
    else if t[0] == '[' then
      var u := SkipSpace(t[1..]);
      if u != [] && u[0] == ']' then Some(Parsed(Array([]), u[1..]))
      else
        match ParseItems(t[1..])
        case None => None
        case Some(p) => Some(Parsed(Array(p.value), p.rest))
    else if t[0] == '{' then
      var u := SkipSpace(t[1..]);
      if u != [] && u[0] == '}' then Some(Parsed(Object([]), u[1..]))
      else
        match ParseMembers(t[1..])
        case None => None
        case Some(p) => Some(Parsed(Object(p.value), p.rest))
    else if "true" <= t then Some(Parsed(Bool(true), t[4..]))
    else if "false" <= t then Some(Parsed(Bool(false), t[5..]))
    else if "null" <= t then Some(Parsed(Null, t[4..]))
    else
      match ParseInt(t)
      case None => None
      case Some(p) => Some(Parsed(Int(p.value), p.rest))
  }

  /** One or more values separated by commas, and the closing bracket. */
  function ParseItems(s: string): (r: Option<Parsed<seq<Value>>>)
    ensures r.Some? ==> |r.value.rest| < |s|
    decreases |s|, 2
  {
    match ParseValue(s)
    case None => None
    case Some(first) =>
      var t := SkipSpace(first.rest);
      if t == [] then None
      else if t[0] == ']' then Some(Parsed([first.value], t[1..]))
      else if t[0] != ',' then None
      else
        match ParseItems(t[1..])
        case None => None
        case Some(more) => Some(Parsed([first.value] + more.value, more.rest))
  }

  /** A quoted key, a colon and a value. */
  function ParseMember(s: string): (r: Option<Parsed<Member>>)
    ensures r.Some? ==> |r.value.rest| < |s|
    decreases |s|, 2
  {
    var t := SkipSpace(s);
    if t == [] || t[0] != '\"' then None
    else
      match ParseChars(t[1..])
      case None => None
      case Some(key) =>
        var u := SkipSpace(key.rest);
        if u == [] || u[0] != ':' then None
        else
          match ParseValue(u[1..])
          case None => None
          case Some(v) => Some(Parsed(Member(key.value, v.value), v.rest))
  }

  /** One or more members separated by commas, and the closing brace. */
  function ParseMembers(s: string): (r: Option<Parsed<seq<Member>>>)
    ensures r.Some? ==> |r.value.rest| < |s|
    decreases |s|, 3
  {
    match ParseMember(s)
    case None => None
    case Some(first) =>
      var t := SkipSpace(first.rest);
      if t == [] then None
      else if t[0] == '}' then Some(Parsed([first.value], t[1..]))
      else if t[0] != ',' then None
      else
        match ParseMembers(t[1..])
        case None => None
        case Some(more) => Some(Parsed([first.value] + more.value, more.rest))
  }

  /** A whole text is one value with nothing but space after it. */
  function ParseText(s: string): Option<Value> {
    match ParseValue(s)
    case None => None
    case Some(p) => if SkipSpace(p.rest) == [] then Some(p.value) else None
  }

  // The notation itself, section by section of RFC 8259.

  /** Literal names, arrays, objects and strings (sections 3 to 5 and 7). */
  lemma Notation(a: Value, b: Value, key: string)
    ensures Print(Null) == "null" && Print(Bool(true)) == "true" && Print(Bool(false)) == "false"
    ensures Print(Array([])) == "[]" && Print(Object([])) == "{}" && Print(Text("")) == "\"\""
    ensures Print(Array([a, b])) == "[" + ((Print(a) + ("," + Print(b))) + "]")
    ensures Print(Object([Member(key, a), Member(key, b)]))
         == "{" + (((Print(Text(key)) + (":" + Print(a))) + ("," + (Print(Text(key)) + (":" + Print(b))))) + "}")
  {
    assert [a, b][1..] == [b] && PrintItems([b]) == Print(b);
    assert PrintItems([a, b]) == Print(a) + ("," + Print(b));
    var (m, n) := (Member(key, a), Member(key, b));
    assert [m, n][1..] == [n] && PrintMembers([n]) == PrintMember(n);
    assert PrintMembers([m, n]) == PrintMember(m) + ("," + PrintMember(n));
  }

  /** Numbers are decimal (section 6): one more digit is ten times the number and that digit. */
  lemma DecimalNotation(n: int, d: int)
    requires n >= 0 && 0 <= d < 10
    ensures PrintInt(d) == [['0', '1', '2', '3', '4', '5', '6', '7', '8', '9'][d]]
    ensures n > 0 ==> PrintInt(10 * n + d) == PrintInt(n) + PrintInt(d)
    ensures n > 0 ==> PrintInt(-n) == "-" + PrintInt(n)
  {
    if n > 0 {
      assert (10 * n + d) / 10 == n && (10 * n + d) % 10 == d;
    }
  }

  /** The escape is read as the character. */
  ghost predicate ReadsAs(e: string, c: char, rest: string) {
    ParseChars(e + rest) == Prefixed(c, ParseChars(rest))
  }

  /** What each escape stands for (section 7). */
  lemma EscapeNotation(rest: string)
    ensures ReadsAs("\\\"", '\"', rest) && ReadsAs("\\\\", '\\', rest)
    ensures ReadsAs("\\b", '\U{8}', rest) && ReadsAs("\\f", '\U{C}', rest)
    ensures ReadsAs("\\n", '\n', rest) && ReadsAs("\\r", '\r', rest) && ReadsAs("\\t", '\t', rest)
  {
    EscapeRead("\\\"", '\"', rest);
    EscapeRead("\\\\", '\\', rest);
    EscapeRead("\\b", '\U{8}', rest);
    EscapeRead("\\f", '\U{C}', rest);
    EscapeRead("\\n", '\n', rest);
    EscapeRead("\\r", '\r', rest);
    EscapeRead("\\t", '\t', rest);
  }

  lemma EscapeRead(e: string, c: char, rest: string)
    requires |e| == 2 && e[0] == '\\' && e[1] != 'u' && Unescape(e[1]) == Some(c)
    ensures ReadsAs(e, c, rest)
  {
    assert (e + rest)[2..] == rest && (e + rest)[1] == e[1];
  }

  // What printing loses.

  /** Control characters that have no escape of their own. */
  predicate Unnamed(c: char) {
    c < ' ' && c != '\U{8}' && c != '\U{C}' && c != '\n' && c != '\r' && c != '\t'
  }

  function Clean(s: string): string {
    if s == [] then [] else [if Unnamed(s[0]) then ' ' else s[0]] + Clean(s[1..])
  }

  function CleanValue(v: Value): Value {
    match v
    case Text(s) => Text(Clean(s))
    case Array(items) => Array(CleanItems(items))
    case Object(members) => Object(CleanMembers(members))
    case _ => v
  }

  function CleanItems(items: seq<Value>): seq<Value> {
    if items == [] then [] else [CleanValue(items[0])] + CleanItems(items[1..])
  }

  function CleanMembers(members: seq<Member>): seq<Member> {
    if members == [] then []
    else [Member(Clean(members[0].key), CleanValue(members[0].value))] + CleanMembers(members[1..])
  }

  /** A string survives cleaning exactly if it has no unnamed control character. */
  lemma {:induction false} CleanIsIdentityIff(s: string)
    ensures Clean(s) == s <==> forall i :: 0 <= i < |s| ==> !Unnamed(s[i])
    ensures |Clean(s)| == |s|
  {
    if s != [] {
      CleanIsIdentityIff(s[1..]);
      assert s == [s[0]] + s[1..];
      if Clean(s) == s {
        assert Clean(s)[0] == s[0] && Clean(s)[1..] == s[1..];
        assert forall i :: 0 < i < |s| ==> s[i] == s[1..][i - 1];
      }
    }
  }

  /** Cleaning replaces the control characters that have no escape of their own by spaces, one by one, and
      nothing else. */
  lemma {:induction false} CleanAt(s: string, i: nat)
    requires i < |s|
    ensures |Clean(s)| == |s|
    ensures Clean(s)[i] == if s[i] < ' ' && s[i] !in {'\U{8}', '\U{C}', '\n', '\r', '\t'} then ' ' else s[i]
  {
    CleanIsIdentityIff(s);
    if i > 0 {
      CleanAt(s[1..], i - 1);
    }
  }

  // Parsing undoes printing.

  lemma EscapeCharRead(c: char, rest: string)
    ensures ParseChars(EscapeChar(c) + rest) == Prefixed(if Unnamed(c) then ' ' else c, ParseChars(rest))
  {
    var e := EscapeChar(c);
    assert (e + rest)[|e|..] == rest;
    if |e| == 2 {
      assert (e + rest)[1] == e[1] && e[1] != 'u';
    }
  }

  lemma Assoc(a: string, b: string, c: string)
    ensures (a + b) + c == a + (b + c)
  {
  }

  lemma Headed(c: char, rest: string)
    ensures ([c] + rest)[0] == c && ([c] + rest)[1..] == rest
  {
  }

  lemma Wrapped(open: char, body: string, close: char, rest: string)
    ensures ([open] + (body + [close])) + rest == [open] + (body + ([close] + rest))
  {
  }

  /** Reading an escaped string up to its quote gives the cleaned string. */
  lemma {:induction false} StringRoundTrip(s: string, rest: string)
    ensures ParseChars(Escape(s) + (['\"'] + rest)) == Some(Parsed(Clean(s), rest))
    decreases |s|
  {
    var end := ['\"'] + rest;
    if s == [] {
      Headed('\"', rest);
      assert Escape(s) + end == end;
    } else {
      StringRoundTrip(s[1..], rest);
      Assoc(EscapeChar(s[0]), Escape(s[1..]), end);
      EscapeCharRead(s[0], Escape(s[1..]) + end);
    }
  }

  /** A text that does not continue a number. */
  predicate EndsNumber(rest: string) {
    rest == [] || !(IsDigit(rest[0]) || rest[0] in {'.', 'e', 'E'})
  }

  lemma {:induction false} DecimalDigits(n: nat)
    ensures |Decimal(n)| > 0 && forall i :: 0 <= i < |Decimal(n)| ==> IsDigit(Decimal(n)[i])
    ensures Decimal(n)[0] == '0' ==> n == 0
    ensures n == 0 ==> |Decimal(n)| == 1
    ensures Number(Decimal(n)) == n
  {
    if n >= 10 {
      DecimalDigits(n / 10);
      assert Decimal(n)[..|Decimal(n)| - 1] == Decimal(n / 10);
    } else {
      assert [Digit(n)][..0] == [];
    }
  }

  lemma {:induction false} RunOfDigits(d: string, rest: string)
    requires forall i :: 0 <= i < |d| ==> IsDigit(d[i])
    requires rest == [] || !IsDigit(rest[0])
    ensures DigitRun(d + rest) == |d|
    decreases |d|
  {
    if d == [] {
      assert d + rest == rest;
    } else {
      RunOfDigits(d[1..], rest);
      assert (d + rest)[1..] == d[1..] + rest;
    }
  }

  lemma NatRoundTrip(n: nat, rest: string)
    requires EndsNumber(rest)
    ensures ParseNat(Decimal(n) + rest) == Some(Parsed(n, rest))
  {
    var d := Decimal(n);
    DecimalDigits(n);
    RunOfDigits(d, rest);
    assert (d + rest)[..|d|] == d && (d + rest)[|d|..] == rest;
  }

  lemma NegativeRead(d: string, n: int, rest: string)
    requires ParseNat(d + rest) == Some(Parsed(n, rest))
    ensures ParseInt((['-'] + d) + rest) == Some(Parsed(-n, rest))
  {
    assert ((['-'] + d) + rest)[1..] == d + rest;
  }

  lemma PositiveRead(t: string, n: int, rest: string)
    requires t != [] && t[0] != '-' && ParseNat(t) == Some(Parsed(n, rest))
    ensures ParseInt(t) == Some(Parsed(n, rest))
  {
  }

  lemma IntRoundTrip(n: int, rest: string)
    requires EndsNumber(rest)
    ensures ParseInt(PrintInt(n) + rest) == Some(Parsed(n, rest))
    ensures PrintInt(n) != [] && (PrintInt(n)[0] == '-' || IsDigit(PrintInt(n)[0]))
  {
    var m: nat := if n < 0 then -n else n;
    var d := Decimal(m);
    DecimalDigits(m);
    NatRoundTrip(m, rest);
    if n < 0 {
      NegativeRead(d, m, rest);
    } else {
      assert IsDigit(d[0]) && (d + rest)[0] == d[0];
      PositiveRead(d + rest, m, rest);
    }
  }

  // How each form of value is read.

  lemma ReadsLiteral(v: Value, rest: string)
    requires v.Null? || v.Bool?
    ensures ParseValue(Print(v) + rest) == Some(Parsed(v, rest))
  {
    var t := Print(v) + rest;
    assert t[|Print(v)|..] == rest;
    assert Print(v) <= t;
  }

  lemma StartsNumber(t: string)
    requires t != [] && (t[0] == '-' || IsDigit(t[0]))
    ensures !("true" <= t) && !("false" <= t) && !("null" <= t) && SkipSpace(t) == t
    ensures t[0] != '\"' && t[0] != '[' && t[0] != '{'
  {
  }

  lemma ReadsNumber(t: string, n: int, rest: string)
    requires t != [] && (t[0] == '-' || IsDigit(t[0])) && ParseInt(t) == Some(Parsed(n, rest))
    ensures ParseValue(t) == Some(Parsed(Int(n), rest))
  {
    StartsNumber(t);
  }

  lemma ReadsString(u: string, s: string, rest: string)
    requires ParseChars(u) == Some(Parsed(s, rest))
    ensures ParseValue(['\"'] + u) == Some(Parsed(Text(s), rest))
  {
    Headed('\"', u);
    assert SkipSpace(['\"'] + u) == ['\"'] + u;
  }

  lemma ReadsEmpty(rest: string)
    ensures ParseValue(['['] + ([']'] + rest)) == Some(Parsed(Array([]), rest))
    ensures ParseValue(['{'] + (['}'] + rest)) == Some(Parsed(Object([]), rest))
  {
    Headed('[', [']'] + rest);
    Headed('{', ['}'] + rest);
    Headed(']', rest);
    Headed('}', rest);
    assert SkipSpace(['['] + ([']'] + rest)) == ['['] + ([']'] + rest);
    assert SkipSpace(['{'] + (['}'] + rest)) == ['{'] + (['}'] + rest);
  }

  lemma ReadsArray(u: string, items: seq<Value>, rest: string)
    requires ParseItems(u) == Some(Parsed(items, rest))
    requires u != [] && !IsSpace(u[0]) && u[0] != ']'
    ensures ParseValue(['['] + u) == Some(Parsed(Array(items), rest))
  {
    Headed('[', u);
    assert SkipSpace(['['] + u) == ['['] + u && SkipSpace(u) == u;
  }

  lemma ReadsObject(u: string, members: seq<Member>, rest: string)
    requires ParseMembers(u) == Some(Parsed(members, rest))
    requires u != [] && u[0] == '\"'
    ensures ParseValue(['{'] + u) == Some(Parsed(Object(members), rest))
  {
    Headed('{', u);
    assert SkipSpace(['{'] + u) == ['{'] + u && SkipSpace(u) == u;
  }

  lemma ReadsLastItem(t: string, v: Value, rest: string)
    requires ParseValue(t) == Some(Parsed(v, [']'] + rest))
    ensures ParseItems(t) == Some(Parsed([v], rest))
  {
    Headed(']', rest);
    assert SkipSpace([']'] + rest) == [']'] + rest;
  }

  lemma ReadsMoreItems(t: string, v: Value, u: string, more: seq<Value>, rest: string)
    requires ParseValue(t) == Some(Parsed(v, [','] + u)) && ParseItems(u) == Some(Parsed(more, rest))
    ensures ParseItems(t) == Some(Parsed([v] + more, rest))
  {
    Headed(',', u);
    assert SkipSpace([','] + u) == [','] + u;
  }

  lemma ReadsMember(u: string, key: string, w: string, v: Value, rest: string)
    requires ParseChars(u) == Some(Parsed(key, [':'] + w)) && ParseValue(w) == Some(Parsed(v, rest))
    ensures ParseMember(['\"'] + u) == Some(Parsed(Member(key, v), rest))
  {
    Headed('\"', u);
    Headed(':', w);
    assert SkipSpace(['\"'] + u) == ['\"'] + u && SkipSpace([':'] + w) == [':'] + w;
  }

  lemma ReadsLastMember(t: string, m: Member, rest: string)
    requires ParseMember(t) == Some(Parsed(m, ['}'] + rest))
    ensures ParseMembers(t) == Some(Parsed([m], rest))
  {
    Headed('}', rest);
    assert SkipSpace(['}'] + rest) == ['}'] + rest;
  }

  lemma ReadsMoreMembers(t: string, m: Member, u: string, more: seq<Member>, rest: string)
    requires ParseMember(t) == Some(Parsed(m, [','] + u)) && ParseMembers(u) == Some(Parsed(more, rest))
    ensures ParseMembers(t) == Some(Parsed([m] + more, rest))
  {
    Headed(',', u);
    assert SkipSpace([','] + u) == [','] + u;
  }

  lemma PrintStarts(v: Value)
    ensures Print(v) != [] && !IsSpace(Print(v)[0]) && Print(v)[0] != ']'
  {
    if v.Int? {
      IntRoundTrip(v.n, []);
    }
  }

  lemma ItemsStart(items: seq<Value>, rest: string)
    requires items != []
    ensures var t := PrintItems(items) + rest;
            t != [] && !IsSpace(t[0]) && t[0] != ']'
  {
    PrintStarts(items[0]);
  }

  /** Parsing what was printed gives the value back, with unnamed control characters as spaces, and
      leaves the rest of the text alone. */
  lemma {:induction false} ValueRoundTrip(v: Value, rest: string)
    requires EndsNumber(rest)
    ensures ParseValue(Print(v) + rest) == Some(Parsed(CleanValue(v), rest))
    decreases v, 0
  {
    match v
    case Null => ReadsLiteral(v, rest);
    case Bool(_) => ReadsLiteral(v, rest);
    case Int(n) =>
      IntRoundTrip(n, rest);
      ReadsNumber(PrintInt(n) + rest, n, rest);
    case Text(s) =>
      StringRoundTrip(s, rest);
      Wrapped('\"', Escape(s), '\"', rest);
      ReadsString(Escape(s) + (['\"'] + rest), Clean(s), rest);
    case Array(items) =>
      Wrapped('[', PrintItems(items), ']', rest);
      if items == [] {
        ReadsEmpty(rest);
        assert PrintItems(items) + ([']'] + rest) == [']'] + rest;
      } else {
        ItemsRoundTrip(items, rest);
        ItemsStart(items, [']'] + rest);
        ReadsArray(PrintItems(items) + ([']'] + rest), CleanItems(items), rest);
      }
    case Object(members) =>
      Wrapped('{', PrintMembers(members), '}', rest);
      if members == [] {
        ReadsEmpty(rest);
        assert PrintMembers(members) + (['}'] + rest) == ['}'] + rest;
      } else {
        MembersRoundTrip(members, rest);
        ReadsObject(PrintMembers(members) + (['}'] + rest), CleanMembers(members), rest);
      }
  }

  lemma {:induction false} ItemsRoundTrip(items: seq<Value>, rest: string)
    requires items != []
    ensures ParseItems(PrintItems(items) + ([']'] + rest)) == Some(Parsed(CleanItems(items), rest))
    decreases items, 1
  {
    if |items| == 1 {
      ValueRoundTrip(items[0], [']'] + rest);
      assert items[1..] == [] && CleanItems(items) == [CleanValue(items[0])];
      ReadsLastItem(Print(items[0]) + ([']'] + rest), CleanValue(items[0]), rest);
    } else {
      var more := PrintItems(items[1..]) + ([']'] + rest);
      ItemsRoundTrip(items[1..], rest);
      ValueRoundTrip(items[0], [','] + more);
      Nested(Print(items[0]), ',', PrintItems(items[1..]), [']'] + rest);
      ReadsMoreItems(Print(items[0]) + ([','] + more), CleanValue(items[0]), more, CleanItems(items[1..]), rest);
    }
  }

  lemma Nested(a: string, sep: char, b: string, c: string)
    ensures (a + ([sep] + b)) + c == a + ([sep] + (b + c))
  {
  }

  lemma {:induction false} MemberRoundTrip(m: Member, rest: string)
    requires EndsNumber(rest)
    ensures ParseMember(PrintMember(m) + rest) == Some(Parsed(Member(Clean(m.key), CleanValue(m.value)), rest))
    decreases m, 1
  {
    var w := Print(m.value) + rest;
    StringRoundTrip(m.key, [':'] + w);
    ValueRoundTrip(m.value, rest);
    Nested(Quote(m.key), ':', Print(m.value), rest);
    Wrapped('\"', Escape(m.key), '\"', [':'] + w);
    ReadsMember(Escape(m.key) + (['\"'] + ([':'] + w)), Clean(m.key), w, CleanValue(m.value), rest);
  }

  lemma {:induction false} MembersRoundTrip(members: seq<Member>, rest: string)
    requires members != []
    ensures ParseMembers(PrintMembers(members) + (['}'] + rest)) == Some(Parsed(CleanMembers(members), rest))
    ensures PrintMembers(members) != [] && PrintMembers(members)[0] == '\"'
    decreases members, 2
  {
    var m := Member(Clean(members[0].key), CleanValue(members[0].value));
    if |members| == 1 {
      MemberRoundTrip(members[0], ['}'] + rest);
      assert members[1..] == [] && CleanMembers(members) == [m];
      ReadsLastMember(PrintMember(members[0]) + (['}'] + rest), m, rest);
    } else {
      var more := PrintMembers(members[1..]) + (['}'] + rest);
      MembersRoundTrip(members[1..], rest);
      MemberRoundTrip(members[0], [','] + more);
      Nested(PrintMember(members[0]), ',', PrintMembers(members[1..]), ['}'] + rest);
      ReadsMoreMembers(PrintMember(members[0]) + ([','] + more), m, more, CleanMembers(members[1..]), rest);
    }
  }

  /** The round trip for whole texts. */
  lemma TextRoundTrip(v: Value)
    ensures ParseText(Print(v)) == Some(CleanValue(v))
  {
    ValueRoundTrip(v, []);
    assert Print(v) + [] == Print(v);
  }
}
