/** The JSON tree, Python's compact ASCII writer for it (`json.dumps` with
    `ensure_ascii`, `sort_keys` and `(",", ":")` separators), and a reader for what that
    writer emits. A Python `str` is a sequence of code points and may hold lone surrogates. */
module Json {
  import opened Prelude
  import opened Ordering

  type CodePoint = c: int | 0 <= c < 0x11_0000
  type Text = seq<CodePoint>

  datatype Json =
    | Null
    | Bool(b: bool)
    | Int(n: int)
    | Float(repr: FloatText)
    | Str(s: Text)
    | Arr(items: seq<Json>)
    | Obj(members: seq<Member>)

  datatype Member = Member(key: Text, value: Json)

  // ---- surrogates ----------------------------------------------------------

  predicate IsHigh(c: CodePoint) { 0xD800 <= c < 0xDC00 }

  predicate IsLow(c: CodePoint) { 0xDC00 <= c < 0xE000 }

  function Combine(h: CodePoint, l: CodePoint): CodePoint
    requires IsHigh(h) && IsLow(l)
  {
    0x1_0000 + (h - 0xD800) * 0x400 + (l - 0xDC00)
  }

  predicate StartsWithPair(s: Text) {
    |s| >= 2 && IsHigh(s[0]) && IsLow(s[1])
  }

  /** No high surrogate directly followed by a low one. */
  predicate PairFree(s: Text) {
    forall i :: 0 <= i < |s| - 1 ==> !(IsHigh(s[i]) && IsLow(s[i + 1]))
  }

  /** Every surrogate pair replaced by the code point it stands for. */
  function Merge(s: Text): Text {
    if s == [] then []
    else if StartsWithPair(s) then [Combine(s[0], s[1])] + Merge(s[2..])
    else [s[0]] + Merge(s[1..])
  }

  lemma {:induction false} MergeLength(s: Text)
    ensures |Merge(s)| <= |s|
  {
    if s != [] {
      if StartsWithPair(s) { MergeLength(s[2..]); } else { MergeLength(s[1..]); }
    }
  }

  lemma {:induction false} MergeIsIdentity(s: Text)
    ensures Merge(s) == s <==> PairFree(s)
  {
    if s != [] {
      if StartsWithPair(s) {
        MergeLength(s[2..]);
        assert !PairFree(s) by { assert IsHigh(s[0]) && IsLow(s[0 + 1]); }
      } else {
        MergeIsIdentity(s[1..]);
        assert s == [s[0]] + s[1..];
        if PairFree(s[1..]) {
          forall i | 0 <= i < |s| - 1 ensures !(IsHigh(s[i]) && IsLow(s[i + 1])) {
            if i > 0 {
              assert s[1..][i - 1] == s[i] && s[1..][i - 1 + 1] == s[i + 1];
            }
          }
        } else {
          var j :| 0 <= j < |s[1..]| - 1 && IsHigh(s[1..][j]) && IsLow(s[1..][j + 1]);
          assert IsHigh(s[j + 1]) && IsLow(s[j + 1 + 1]);
        }
      }
    }
  }

  // ---- string escapes ------------------------------------------------------

  function HexDigit(d: int): char
    requires 0 <= d < 16
  {
    if d < 10 then (d + 48) as char else (d + 87) as char
  }

  function HexValue(c: char): Option<int> {
    if '0' <= c <= '9' then Some(c as int - 48)
    else if 'a' <= c <= 'f' then Some(c as int - 87)
    else if 'A' <= c <= 'F' then Some(c as int - 55)
    else None
  }

  function Hex4(n: int): (r: string)
    requires 0 <= n < 0x1_0000
    ensures |r| == 4
  {
    [HexDigit(n / 0x1000), HexDigit(n / 0x100 % 16), HexDigit(n / 16 % 16), HexDigit(n % 16)]
  }

  function ReadHex4(t: string): (r: Option<int>)
    ensures r.Some? ==> |t| >= 4 && 0 <= r.value < 0x1_0000
  {
    if |t| < 4 then None
    else match (HexValue(t[0]), HexValue(t[1]), HexValue(t[2]), HexValue(t[3]))
      case (Some(a), Some(b), Some(c), Some(d)) =>
        assert 0 <= a < 16 && 0 <= b < 16 && 0 <= c < 16 && 0 <= d < 16;
        Some(((a * 16 + b) * 16 + c) * 16 + d)
      case _ => None
  }

  lemma HexRoundTrip(n: int, rest: string)
    requires 0 <= n < 0x1_0000
    ensures ReadHex4(Hex4(n) + rest) == Some(n)
  {
    var t := Hex4(n) + rest;
    assert t[0] == HexDigit(n / 0x1000) && t[1] == HexDigit(n / 0x100 % 16);
    assert t[2] == HexDigit(n / 16 % 16) && t[3] == HexDigit(n % 16);
    HexDigits(n);
  }

  lemma HexDigits(n: int)
    requires 0 <= n < 0x1_0000
    ensures ((n / 0x1000 * 16 + n / 0x100 % 16) * 16 + n / 16 % 16) * 16 + n % 16 == n
  {
  }

  function UnicodeEscape(n: int): (r: string)
    requires 0 <= n < 0x1_0000
    ensures |r| == 6
  {
    "\\u" + Hex4(n)
  }

  /** One code point as the ASCII writer emits it. */
  function EscapeChar(c: CodePoint): (r: string)
    ensures r != ""
  {
    if c == 0x22 then "\\\""
    else if c == 0x5C then "\\\\"
    else if c == 0x0A then "\\n"
    else if c == 0x0D then "\\r"
    else if c == 0x09 then "\\t"
    else if c == 0x08 then "\\b"
    else if c == 0x0C then "\\f"
    else if 0x20 <= c <= 0x7E then [c as char]
    else if c < 0x1_0000 then UnicodeEscape(c)
    else
      UnicodeEscape(0xD800 + (c - 0x1_0000) / 0x400) + UnicodeEscape(0xDC00 + (c - 0x1_0000) % 0x400)
  }

  function EscapeText(s: Text): string {
    if s == [] then "" else EscapeChar(s[0]) + EscapeText(s[1..])
  }

  function PrintText(s: Text): string { "\"" + EscapeText(s) + "\"" }

  function ShortEscape(c: char): Option<CodePoint> {
    match c
    case '\"' => Some(0x22)
    case '\\' => Some(0x5C)
    case '/' => Some(0x2F)
    case 'n' => Some(0x0A)
    case 'r' => Some(0x0D)
    case 't' => Some(0x09)
    case 'b' => Some(0x08)
    case 'f' => Some(0x0C)
    case _ => None
  }

  /** A low surrogate escape at the front of `t`, if there is one. */
  function LowEscape(t: string): (r: Option<CodePoint>)
    ensures r.Some? ==> |t| >= 6 && IsLow(r.value)
  {
    if |t| >= 6 && t[0] == '\\' && t[1] == 'u' then
      match ReadHex4(t[2..])
      case Some(n) => if IsLow(n) then Some(n) else None
      case None => None
    else None
  }

  /** The body of a string literal up to its closing quote: what it denotes, and what follows. */
  function ReadBody(t: string): (r: Option<(Text, string)>)
    ensures r.Some? ==> |r.value.1| < |t|
    decreases |t|
  {
    if t == "" then None
    else if t[0] == '\"' then Some(([], t[1..]))
    else if t[0] != '\\' then Prepend(t[0] as int, ReadBody(t[1..]))
    else if |t| < 2 then None
    else if t[1] != 'u' then
      match ShortEscape(t[1])
      case Some(c) => Prepend(c, ReadBody(t[2..]))
      case None => None
    else
      match ReadHex4(t[2..])
      case None => None
      case Some(n) =>
        var after := t[6..];
        var low := LowEscape(after);
        if IsHigh(n) && low.Some? then Prepend(Combine(n, low.value), ReadBody(after[6..]))
        else Prepend(n, ReadBody(after))
  }

  function Prepend(c: CodePoint, r: Option<(Text, string)>): Option<(Text, string)> {
    match r
    case Some((s, rest)) => Some(([c] + s, rest))
    case None => None
  }

  lemma ReadUnicode(n: int, after: string)
    requires 0 <= n < 0x1_0000
    ensures ReadBody(UnicodeEscape(n) + after) ==
            if IsHigh(n) && LowEscape(after).Some?
            then Prepend(Combine(n, LowEscape(after).value), ReadBody(after[6..]))
            else Prepend(n, ReadBody(after))
  {
    var t := UnicodeEscape(n) + after;
    assert t[0] == '\\' && t[1] == 'u';
    assert t[2..] == Hex4(n) + after;
    HexRoundTrip(n, after);
    assert t[6..] == after;
  }

  lemma LowEscapeRead(n: int, after: string)
    requires 0 <= n < 0x1_0000
    ensures LowEscape(UnicodeEscape(n) + after) == if IsLow(n) then Some(n) else None
  {
    var t := UnicodeEscape(n) + after;
    assert t[0] == '\\' && t[1] == 'u';
    assert t[2..] == Hex4(n) + after;
    HexRoundTrip(n, after);
  }

  /** A written string literal after its opening quote, with `rest` behind it. */
  function Body(s: Text, rest: string): string {
    if s == [] then "\"" + rest else EscapeChar(s[0]) + Body(s[1..], rest)
  }

  lemma {:induction false} BodyText(s: Text, rest: string)
    ensures Body(s, rest) == EscapeText(s) + "\"" + rest
  {
    if s != [] {
      BodyText(s[1..], rest);
      var a, b := EscapeChar(s[0]), EscapeText(s[1..]);
      assert a + (b + "\"" + rest) == (a + b) + "\"" + rest;
    }
  }

  lemma LowEscapeOfUnit(c: CodePoint, after: string)
    ensures LowEscape(EscapeChar(c) + after) == if IsLow(c) then Some(c) else None
  {
    var t := EscapeChar(c) + after;
    if IsShort(c) {
      assert t[1] == EscapeChar(c)[1];
    } else if 0x20 <= c <= 0x7E {
      assert t[0] == c as char;
    } else if c < 0x1_0000 {
      LowEscapeRead(c, after);
    } else {
      var hi, lo := 0xD800 + (c - 0x1_0000) / 0x400, 0xDC00 + (c - 0x1_0000) % 0x400;
      assert t == UnicodeEscape(hi) + (UnicodeEscape(lo) + after);
      LowEscapeRead(hi, UnicodeEscape(lo) + after);
    }
  }

  predicate IsShort(c: CodePoint) {
    c == 0x22 || c == 0x5C || c == 0x0A || c == 0x0D || c == 0x09 || c == 0x08 || c == 0x0C
  }

  lemma ReadOneUnit(c: CodePoint, after: string)
    requires c < 0x80 && (IsShort(c) || 0x20 <= c <= 0x7E)
    ensures ReadBody(EscapeChar(c) + after) == Prepend(c, ReadBody(after))
  {
    var t := EscapeChar(c) + after;
    if IsShort(c) {
      assert t[0] == '\\' && t[1] == EscapeChar(c)[1] && t[2..] == after;
    } else {
      assert t[0] == c as char && t[1..] == after;
    }
  }

  lemma ReadAstral(c: CodePoint, after: string)
    requires 0x1_0000 <= c
    ensures ReadBody(EscapeChar(c) + after) == Prepend(c, ReadBody(after))
  {
    var hi, lo := 0xD800 + (c - 0x1_0000) / 0x400, 0xDC00 + (c - 0x1_0000) % 0x400;
    var tail := UnicodeEscape(lo) + after;
    assert EscapeChar(c) + after == UnicodeEscape(hi) + tail;
    ReadUnicode(hi, tail);
    LowEscapeRead(lo, after);
    assert tail[6..] == after;
    assert Combine(hi, lo) == c;
  }

  lemma ReadBasic(c: CodePoint, s: Text, rest: string)
    requires c < 0x1_0000 && !IsShort(c) && !(0x20 <= c <= 0x7E)
    requires !(s != [] && IsHigh(c) && IsLow(s[0]))
    ensures ReadBody(EscapeChar(c) + Body(s, rest)) == Prepend(c, ReadBody(Body(s, rest)))
  {
    ReadUnicode(c, Body(s, rest));
    if s == [] {
      assert Body(s, rest)[0] == '\"';
    } else {
      LowEscapeOfUnit(s[0], Body(s[1..], rest));
    }
  }

  lemma EscapePair(h: CodePoint, l: CodePoint)
    requires IsHigh(h) && IsLow(l)
    ensures EscapeChar(Combine(h, l)) == EscapeChar(h) + EscapeChar(l)
  {
    var c := Combine(h, l);
    assert (c - 0x1_0000) / 0x400 == h - 0xD800 && (c - 0x1_0000) % 0x400 == l - 0xDC00;
  }

  lemma EscapeTwo(s: Text)
    requires StartsWithPair(s)
    ensures EscapeText(s) == EscapeChar(Combine(s[0], s[1])) + EscapeText(s[2..])
  {
    EscapePair(s[0], s[1]);
    hide EscapeChar, Combine;
    assert s[1..][1..] == s[2..];
    Regroup(EscapeChar(s[0]), EscapeChar(s[1]), EscapeText(s[2..]));
  }

  lemma BodyTwo(s: Text, rest: string)
    requires StartsWithPair(s)
    ensures Body(s, rest) == EscapeChar(Combine(s[0], s[1])) + Body(s[2..], rest)
  {
    EscapePair(s[0], s[1]);
    hide EscapeChar, Combine;
    assert s[1..][1..] == s[2..];
    Regroup(EscapeChar(s[0]), EscapeChar(s[1]), Body(s[2..], rest));
  }

  lemma {:induction false} ReadBodyOf(s: Text, rest: string)
    ensures ReadBody(Body(s, rest)) == Some((Merge(s), rest))
    decreases |s|
  {
    if s == [] {
      assert Body(s, rest)[1..] == rest;
    } else if StartsWithPair(s) {
      BodyTwo(s, rest);
      ReadAstral(Combine(s[0], s[1]), Body(s[2..], rest));
      ReadBodyOf(s[2..], rest);
    } else {
      var c := s[0];
      if IsShort(c) || 0x20 <= c <= 0x7E { ReadOneUnit(c, Body(s[1..], rest)); }
      else if c < 0x1_0000 { ReadBasic(c, s[1..], rest); }
      else { ReadAstral(c, Body(s[1..], rest)); }
      ReadBodyOf(s[1..], rest);
    }
  }

  /** Reading back a written string literal gives the text with its surrogate pairs merged. */
  lemma TextRoundTrip(s: Text, rest: string)
    ensures ReadBody(EscapeText(s) + "\"" + rest) == Some((Merge(s), rest))
  {
    BodyText(s, rest);
    ReadBodyOf(s, rest);
  }

  /** The writer cannot tell a surrogate pair from the code point it stands for. */
  lemma {:induction false} MergeKeepsPrint(s: Text)
    ensures EscapeText(Merge(s)) == EscapeText(s)
    decreases |s|
  {
    if s != [] {
      if StartsWithPair(s) {
        EscapeTwo(s);
        MergeKeepsPrint(s[2..]);
        assert Merge(s)[1..] == Merge(s[2..]);
      } else {
        MergeKeepsPrint(s[1..]);
        assert Merge(s)[1..] == Merge(s[1..]);
      }
    }
  }

  // ---- numbers -------------------------------------------------------------

  predicate IsDigit(c: char) { '0' <= c <= '9' }

  /** Characters of a number as Python writes one, `NaN` and the infinities included. */
  predicate IsNumberChar(c: char) {
    IsDigit(c) || c in "-+.eNaInfity"
  }

  predicate IsNumberStart(c: char) { IsDigit(c) || c in "-NI" }

  predicate AllDigits(t: string) { t != "" && forall i :: 0 <= i < |t| ==> IsDigit(t[i]) }

  predicate IsIntText(t: string) {
    AllDigits(t) || (t != "" && t[0] == '-' && AllDigits(t[1..]))
  }

  function NatText(n: nat): (r: string)
    ensures AllDigits(r)
  {
    if n < 10 then [(48 + n) as char] else NatText(n / 10) + [(48 + n % 10) as char]
  }

  /** `str(n)` */
  function IntText(n: int): (r: string)
    ensures IsIntText(r)
  {
    if n < 0 then "-" + NatText(-n) else NatText(n)
  }

  function NatValue(t: string): int
    requires forall i :: 0 <= i < |t| ==> IsDigit(t[i])
  {
    if t == "" then 0 else NatValue(t[..|t| - 1]) * 10 + (t[|t| - 1] as int - 48)
  }

  function IntValue(t: string): int
    requires IsIntText(t)
  {
    if t[0] == '-' then -NatValue(t[1..]) else NatValue(t)
  }

  lemma {:induction false} NatTextValue(n: nat)
    ensures NatValue(NatText(n)) == n
  {
    if n >= 10 {
      NatTextValue(n / 10);
      var t := NatText(n);
      assert t[..|t| - 1] == NatText(n / 10);
    }
  }

  lemma IntTextValue(n: int)
    ensures IntValue(IntText(n)) == n
  {
    NatTextValue(if n < 0 then -n else n);
    assert IntText(n)[0] == '-' ==> n < 0;
    if n < 0 { assert IntText(n)[1..] == NatText(-n); }
  }

  lemma IntTextInjective(m: int, n: int)
    requires IntText(m) == IntText(n)
    ensures m == n
  {
    IntTextValue(m);
    IntTextValue(n);
  }

  /** What `float.__repr__` may return: a number token that is not an integer's. */
  predicate IsFloatText(t: string) {
    && t != "" && IsNumberStart(t[0]) && !IsIntText(t)
    && forall i :: 0 <= i < |t| ==> IsNumberChar(t[i])
  }

  type FloatText = t: string | IsFloatText(t) witness "NaN"

  function NumberLength(t: string): (n: nat)
    ensures n <= |t| && forall i :: 0 <= i < n ==> IsNumberChar(t[i])
  {
    if t == "" || !IsNumberChar(t[0]) then 0 else 1 + NumberLength(t[1..])
  }

  predicate EndsNumber(rest: string) { rest == "" || !IsNumberChar(rest[0]) }

  lemma {:induction false} NumberTaken(tok: string, rest: string)
    requires forall i :: 0 <= i < |tok| ==> IsNumberChar(tok[i])
    requires EndsNumber(rest)
    ensures NumberLength(tok + rest) == |tok|
  {
    if tok == "" {
      assert tok + rest == rest;
    } else {
      assert (tok + rest)[1..] == tok[1..] + rest;
      NumberTaken(tok[1..], rest);
    }
  }

  // ---- values --------------------------------------------------------------

  function Print(v: Json): string {
    match v
    case Null => "null"
    case Bool(b) => if b then "true" else "false"
    case Int(n) => IntText(n)
    case Float(repr) => repr
    case Str(s) => PrintText(s)
    case Arr(items) => "[" + PrintItems(items) + "]"
    case Obj(members) => "{" + PrintMembers(members) + "}"
  }

  function PrintItems(items: seq<Json>): string {
    if items == [] then ""
    else if |items| == 1 then Print(items[0])
    else Print(items[0]) + "," + PrintItems(items[1..])
  }

  function PrintMember(m: Member): string {
    PrintText(m.key) + ":" + Print(m.value)
  }

  function PrintMembers(members: seq<Member>): string {
    if members == [] then ""
    else if |members| == 1 then PrintMember(members[0])
    else PrintMember(members[0]) + "," + PrintMembers(members[1..])
  }

  function MergeAll(v: Json): Json {
    match v
    case Str(s) => Str(Merge(s))
    case Arr(items) => Arr(MergeItems(items))
    case Obj(members) => Obj(MergeMembers(members))
    case _ => v
  }

  predicate AllPairFree(v: Json) {
    match v
    case Str(s) => PairFree(s)
    case Arr(items) => forall i | 0 <= i < |items| :: AllPairFree(items[i])
    case Obj(members) =>
      forall i | 0 <= i < |members| :: PairFree(members[i].key) && AllPairFree(members[i].value)
    case _ => true
  }

  function MergeItems(items: seq<Json>): (r: seq<Json>)
    ensures |r| == |items| && forall i :: 0 <= i < |items| ==> r[i] == MergeAll(items[i])
  {
    if items == [] then [] else [MergeAll(items[0])] + MergeItems(items[1..])
  }

  function MergeMembers(members: seq<Member>): (r: seq<Member>)
    ensures |r| == |members|
    ensures forall i :: 0 <= i < |members| ==>
      r[i] == Member(Merge(members[i].key), MergeAll(members[i].value))
  {
    if members == [] then []
    else [Member(Merge(members[0].key), MergeAll(members[0].value))] + MergeMembers(members[1..])
  }

  predicate Starts(t: string, word: string) {
    |word| <= |t| && forall i :: 0 <= i < |word| ==> t[i] == word[i]
  }

  // ---- the reader ----------------------------------------------------------

  function Read(t: string): (r: Option<(Json, string)>)
    ensures r.Some? ==> |r.value.1| < |t|
    decreases |t|, 1
  {
    if t == "" then None
    else if t[0] == '\"' then
      match ReadBody(t[1..])
      case Some((s, rest)) => Some((Str(s), rest))
      case None => None
    else if t[0] == '[' then
      if Starts(t, "[]") then Some((Arr([]), t[2..]))
      else match ReadItems(t[1..])
        case Some((items, rest)) => Some((Arr(items), rest))
        case None => None
    else if t[0] == '{' then
      if Starts(t, "{}") then Some((Obj([]), t[2..]))
      else match ReadMembers(t[1..])
        case Some((members, rest)) => Some((Obj(members), rest))
        case None => None
    else if Starts(t, "null") then Some((Null, t[4..]))
    else if Starts(t, "true") then Some((Bool(true), t[4..]))
    else if Starts(t, "false") then Some((Bool(false), t[5..]))
    else if !IsNumberStart(t[0]) then None
    else
      assert IsNumberChar(t[0]);
      var n := NumberLength(t);
      var tok := t[..n];
      Some((if IsIntText(tok) then Int(IntValue(tok)) else Float(tok), t[n..]))
  }

  function ReadItems(t: string): (r: Option<(seq<Json>, string)>)
    ensures r.Some? ==> |r.value.1| < |t|
    decreases |t|, 2
  {
    match Read(t)
    case None => None
    case Some((v, rest)) =>
      if rest == "" then None
      else if rest[0] == ']' then Some(([v], rest[1..]))
      else if rest[0] != ',' then None
      else match ReadItems(rest[1..])
        case Some((vs, after)) => Some(([v] + vs, after))
        case None => None
  }

  function ReadMember(t: string): (r: Option<(Member, string)>)
    ensures r.Some? ==> |r.value.1| < |t|
    decreases |t|, 0
  {
    if t == "" || t[0] != '\"' then None
    else match ReadBody(t[1..])
      case None => None
      case Some((key, rest)) =>
        if rest == "" || rest[0] != ':' then None
        else match Read(rest[1..])
          case Some((v, after)) => Some((Member(key, v), after))
          case None => None
  }

  function ReadMembers(t: string): (r: Option<(seq<Member>, string)>)
    ensures r.Some? ==> |r.value.1| < |t|
    decreases |t|, 2
  {
    match ReadMember(t)
    case None => None
    case Some((m, rest)) =>
      if rest == "" then None
      else if rest[0] == '}' then Some(([m], rest[1..]))
      else if rest[0] != ',' then None
      else match ReadMembers(rest[1..])
        case Some((ms, after)) => Some(([m] + ms, after))
        case None => None
  }

  lemma PrintStart(v: Json)
    ensures Print(v) != "" && Print(v)[0] != ']'
  {
    if v.Int? { assert IsIntText(IntText(v.n)); }
  }

  lemma ReadWord(v: Json, rest: string)
    requires v.Null? || v.Bool?
    ensures Read(Print(v) + rest) == Some((v, rest))
  {
    var t := Print(v) + rest;
    var word := Print(v);
    assert t[0] == word[0];
    assert t[..|word|] == word && t[|word|..] == rest;
    if v.Null? {
      assert Starts(t, "null");
    } else {
      assert t[0] != "null"[0];
      if v.b {
        assert Starts(t, "true");
      } else {
        assert t[0] != "true"[0];
        assert Starts(t, "false");
      }
    }
  }

  lemma NotAWord(t: string)
    requires t != "" && IsNumberStart(t[0])
    ensures !Starts(t, "null") && !Starts(t, "true") && !Starts(t, "false")
  {
    assert "null"[0] == 'n' && "true"[0] == 't' && "false"[0] == 'f';
  }

  lemma ReadNumber(tok: string, rest: string)
    requires tok != "" && IsNumberStart(tok[0])
    requires forall i :: 0 <= i < |tok| ==> IsNumberChar(tok[i])
    requires EndsNumber(rest)
    ensures Read(tok + rest) ==
            Some((if IsIntText(tok) then Int(IntValue(tok)) else Float(tok), rest))
  {
    var t := tok + rest;
    assert t[0] == tok[0];
    NotAWord(t);
    NumberTaken(tok, rest);
    assert t[..|tok|] == tok && t[|tok|..] == rest;
  }

  lemma IntTextIsNumber(n: int)
    ensures var t := IntText(n); IsNumberStart(t[0]) && forall i :: 0 <= i < |t| ==> IsNumberChar(t[i])
  {
    var t := IntText(n);
    if n < 0 {
      assert t[1..] == NatText(-n);
      forall i | 0 <= i < |t| ensures IsNumberChar(t[i]) {
        if i > 0 { assert IsDigit(t[1..][i - 1]); }
      }
    }
  }

  lemma ReadString(s: Text, rest: string)
    ensures Read(PrintText(s) + rest) == Some((Str(Merge(s)), rest))
  {
    var t := PrintText(s) + rest;
    assert t[0] == '\"' && t[1..] == EscapeText(s) + "\"" + rest;
    TextRoundTrip(s, rest);
  }

  /** Reading back what was written gives the tree with its surrogate pairs merged. */
  lemma {:induction false} RoundTrip(v: Json, rest: string)
    requires EndsNumber(rest)
    ensures Read(Print(v) + rest) == Some((MergeAll(v), rest))
    decreases v, 0
  {
    match v
    case Null => ReadWord(v, rest);
    case Bool(_) => ReadWord(v, rest);
    case Int(n) =>
      IntTextIsNumber(n);
      IntTextValue(n);
      ReadNumber(IntText(n), rest);
    case Float(repr) => ReadNumber(repr, rest);
    case Str(s) => ReadString(s, rest);
    case Arr(items) => ArrRoundTrip(items, rest);
    case Obj(members) => ObjRoundTrip(members, rest);
  }

  lemma {:induction false} ArrRoundTrip(items: seq<Json>, rest: string)
    ensures Read(Print(Arr(items)) + rest) == Some((Arr(MergeItems(items)), rest))
    decreases items, 2
  {
    var t := Print(Arr(items)) + rest;
    assert t[0] == '[';
    if items == [] {
      assert Print(Arr(items)) == "[]";
      assert t == "[]" + rest && t[2..] == rest;
    } else {
      PrintStart(items[0]);
      assert t[1..] == PrintItems(items) + "]" + rest;
      assert t[1] == Print(items[0])[0];
      assert t[1] != "[]"[1];
      ItemsRoundTrip(items, rest);
    }
  }

  lemma ReadItemsLast(t: string, v: Json, rest: string)
    requires Read(t) == Some((v, "]" + rest))
    ensures ReadItems(t) == Some(([v], rest))
  {
    assert ("]" + rest)[1..] == rest;
  }

  lemma ReadItemsMore(t: string, v: Json, tail: string, vs: seq<Json>, rest: string)
    requires Read(t) == Some((v, "," + tail)) && ReadItems(tail) == Some((vs, rest))
    ensures ReadItems(t) == Some(([v] + vs, rest))
  {
    assert ("," + tail)[1..] == tail;
  }

  lemma RegroupMembers(a: string, b: string, close: string, rest: string)
    ensures a + "," + b + close + rest == a + ("," + (b + close + rest))
  {
  }

  lemma PrintItemsSplit(items: seq<Json>, rest: string)
    requires |items| > 1
    ensures PrintItems(items) + "]" + rest ==
            Print(items[0]) + ("," + (PrintItems(items[1..]) + "]" + rest))
  {
    RegroupMembers(Print(items[0]), PrintItems(items[1..]), "]", rest);
  }

  lemma {:induction false} ItemsRoundTrip(items: seq<Json>, rest: string)
    requires items != []
    ensures ReadItems(PrintItems(items) + "]" + rest) == Some((MergeItems(items), rest))
    decreases items, 1
  {
    assert MergeItems(items) == [MergeAll(items[0])] + MergeItems(items[1..]);
    assert |items| == 1 ==> MergeItems(items) == [MergeAll(items[0])] && PrintItems(items) == Print(items[0]);
    hide *;
    if |items| == 1 {
      var t := Print(items[0]) + ("]" + rest);
      RoundTrip(items[0], "]" + rest);
      ReadItemsLast(t, MergeAll(items[0]), rest);
      Regroup(Print(items[0]), "]", rest);
    } else {
      var tail := PrintItems(items[1..]) + "]" + rest;
      RoundTrip(items[0], "," + tail);
      ItemsRoundTrip(items[1..], rest);
      PrintItemsSplit(items, rest);
      ReadItemsMore(Print(items[0]) + ("," + tail), MergeAll(items[0]), tail, MergeItems(items[1..]), rest);
    }
  }

  lemma MembersStart(members: seq<Member>)
    requires members != []
    ensures PrintMembers(members) != "" && PrintMembers(members)[0] == '\"'
  {
    assert PrintMember(members[0])[0] == '\"';
  }

  lemma {:induction false} ObjRoundTrip(members: seq<Member>, rest: string)
    ensures Read(Print(Obj(members)) + rest) == Some((Obj(MergeMembers(members)), rest))
    decreases members, 2
  {
    var t := Print(Obj(members)) + rest;
    assert t[0] == '{';
    if members == [] {
      assert Print(Obj(members)) == "{}";
      assert t == "{}" + rest && t[2..] == rest;
    } else {
      MembersStart(members);
      assert t[1..] == PrintMembers(members) + "}" + rest;
      assert t[1] == PrintMembers(members)[0];
      assert t[1] != "{}"[1];
      MembersRoundTrip(members, rest);
    }
  }

  lemma ReadMemberParts(t: string, key: Text, body: string, v: Json, after: string)
    requires t != "" && t[0] == '\"' && ReadBody(t[1..]) == Some((key, ":" + body))
    requires Read(body) == Some((v, after))
    ensures ReadMember(t) == Some((Member(key, v), after))
  {
    assert (":" + body)[1..] == body;
  }

  lemma {:induction false} MemberRoundTrip(m: Member, after: string)
    requires EndsNumber(after)
    ensures ReadMember(PrintMember(m) + after) == Some((Member(Merge(m.key), MergeAll(m.value)), after))
    decreases m, 1
  {
    var t := PrintMember(m) + after;
    var body := Print(m.value) + after;
    RoundTrip(m.value, after);
    TextRoundTrip(m.key, ":" + body);
    MemberText(m, after);
    ReadMemberParts(t, Merge(m.key), body, MergeAll(m.value), after);
  }

  lemma MemberText(m: Member, after: string)
    ensures var t := PrintMember(m) + after;
            t != "" && t[0] == '\"' &&
            t[1..] == EscapeText(m.key) + "\"" + (":" + (Print(m.value) + after))
  {
    assert PrintMember(m) == PrintText(m.key) + ":" + Print(m.value);
    var key, value := EscapeText(m.key), Print(m.value);
    assert PrintText(m.key) == "\"" + key + "\"";
    hide *;
    QuotedMember(key, value, after);
  }

  lemma QuotedMember(key: string, value: string, after: string)
    ensures var t := "\"" + key + "\"" + ":" + value + after;
            t != "" && t[0] == '\"' && t[1..] == key + "\"" + (":" + (value + after))
  {
  }

  lemma ReadMembersLast(t: string, m: Member, rest: string)
    requires ReadMember(t) == Some((m, "}" + rest))
    ensures ReadMembers(t) == Some(([m], rest))
  {
    assert ("}" + rest)[1..] == rest;
  }

  lemma ReadMembersMore(t: string, m: Member, tail: string, ms: seq<Member>, rest: string)
    requires ReadMember(t) == Some((m, "," + tail)) && ReadMembers(tail) == Some((ms, rest))
    ensures ReadMembers(t) == Some(([m] + ms, rest))
  {
    assert ("," + tail)[1..] == tail;
  }

  lemma PrintMembersSplit(members: seq<Member>, rest: string)
    requires |members| > 1
    ensures PrintMembers(members) + "}" + rest ==
            PrintMember(members[0]) + ("," + (PrintMembers(members[1..]) + "}" + rest))
  {
    RegroupMembers(PrintMember(members[0]), PrintMembers(members[1..]), "}", rest);
  }

  lemma {:induction false} MembersRoundTrip(members: seq<Member>, rest: string)
    requires members != []
    ensures ReadMembers(PrintMembers(members) + "}" + rest) == Some((MergeMembers(members), rest))
    decreases members, 1
  {
    var m := Member(Merge(members[0].key), MergeAll(members[0].value));
    if |members| == 1 {
      var t := PrintMember(members[0]) + ("}" + rest);
      MemberRoundTrip(members[0], "}" + rest);
      ReadMembersLast(t, m, rest);
      assert t == PrintMembers(members) + "}" + rest;
      assert MergeMembers(members) == [m];
    } else {
      var tail := PrintMembers(members[1..]) + "}" + rest;
      MemberRoundTrip(members[0], "," + tail);
      MembersRoundTrip(members[1..], rest);
      PrintMembersSplit(members, rest);
      ReadMembersMore(PrintMember(members[0]) + ("," + tail), m, tail, MergeMembers(members[1..]), rest);
    }
  }

  lemma {:induction false} MergeAllKeepsPrint(v: Json)
    ensures Print(MergeAll(v)) == Print(v)
    decreases v, 0
  {
    match v
    case Str(s) => MergeKeepsPrint(s);
    case Arr(items) => MergeItemsKeepsPrint(items);
    case Obj(members) => MergeMembersKeepsPrint(members);
    case _ =>
  }

  lemma {:induction false} MergeItemsKeepsPrint(items: seq<Json>)
    ensures PrintItems(MergeItems(items)) == PrintItems(items)
    decreases items, 1
  {
    if items != [] {
      MergeAllKeepsPrint(items[0]);
      MergeItemsKeepsPrint(items[1..]);
      assert MergeItems(items)[1..] == MergeItems(items[1..]);
    }
  }

  lemma {:induction false} MergeMembersKeepsPrint(members: seq<Member>)
    ensures PrintMembers(MergeMembers(members)) == PrintMembers(members)
    decreases members, 1
  {
    if members != [] {
      MergeKeepsPrint(members[0].key);
      MergeAllKeepsPrint(members[0].value);
      MergeMembersKeepsPrint(members[1..]);
      assert MergeMembers(members)[1..] == MergeMembers(members[1..]);
    }
  }

  lemma {:induction false} MergeAllIsIdentity(v: Json)
    ensures MergeAll(v) == v <==> AllPairFree(v)
    decreases v
  {
    match v
    case Str(s) => MergeIsIdentity(s);
    case Arr(items) =>
      forall i | 0 <= i < |items|
        ensures MergeItems(items)[i] == items[i] <==> AllPairFree(items[i])
      {
        MergeAllIsIdentity(items[i]);
      }
    case Obj(members) =>
      forall i | 0 <= i < |members|
        ensures MergeMembers(members)[i] == members[i] <==>
                PairFree(members[i].key) && AllPairFree(members[i].value)
      {
        MergeIsIdentity(members[i].key);
        MergeAllIsIdentity(members[i].value);
      }
    case _ =>
  }

  /** Exactly which trees share a text: those equal once surrogate pairs are merged. */
  lemma PrintCollision(v: Json, w: Json)
    ensures Print(v) == Print(w) <==> MergeAll(v) == MergeAll(w)
  {
    RoundTrip(v, "");
    RoundTrip(w, "");
    assert Print(v) + "" == Print(v) && Print(w) + "" == Print(w);
    MergeAllKeepsPrint(v);
    MergeAllKeepsPrint(w);
  }

  /** A tree is the value its own text denotes iff no string in it holds a surrogate pair. */
  lemma TextDenotesTree(v: Json)
    ensures Read(Print(v)) == Some((v, "")) <==> AllPairFree(v)
  {
    RoundTrip(v, "");
    assert Print(v) + "" == Print(v);
    MergeAllIsIdentity(v);
  }

  lemma PrintInjective(v: Json, w: Json)
    requires AllPairFree(v) && AllPairFree(w)
    requires Print(v) == Print(w)
    ensures v == w
  {
    PrintCollision(v, w);
    MergeAllIsIdentity(v);
    MergeAllIsIdentity(w);
  }

  /** The two lone surrogates of U+1F600 are written like the one code point. */
  lemma SurrogatePairCollides()
    ensures Str([0xD83D, 0xDE00]) != Str([0x1_F600])
    ensures Print(Str([0xD83D, 0xDE00])) == Print(Str([0x1_F600]))
  {
    var v, w := Str([0xD83D, 0xDE00]), Str([0x1_F600]);
    assert Merge([0xD83D, 0xDE00]) == [0x1_F600] && Merge([0x1_F600]) == [0x1_F600];
    PrintCollision(v, w);
  }
}
