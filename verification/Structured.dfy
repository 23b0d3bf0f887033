/** Finding a JSON payload inside prose: `_first_balanced`, which counts one bracket kind only. */
module Structured {
  import opened Prelude
  import opened Json

  predicate IsOpener(c: char) { c == '{' || c == '[' }

  function Closer(open: char): char { if open == '{' then '}' else ']' }

  /** The scanner's three variables. */
  datatype Scan = Scan(depth: int, inString: bool, escaped: bool)

  function Step(s: Scan, c: char, open: char): Scan {
    if s.inString then
      if s.escaped then s.(escaped := false)
      else if c == '\\' then s.(escaped := true)
      else if c == '\"' then s.(inString := false)
      else s
    else if c == '\"' then s.(inString := true)
    else if c == open then s.(depth := s.depth + 1)
    else if c == Closer(open) then s.(depth := s.depth - 1)
    else s
  }

  /** How much of `t` is read until a closer brings the depth to zero. */
  function End(s: Scan, t: string, open: char): (n: Option<nat>)
    ensures n.Some? ==> 0 < n.value <= |t|
    decreases |t|
  {
    if t == "" then None
    else
      var after := Step(s, t[0], open);
      if !s.inString && t[0] == Closer(open) && after.depth == 0 then Some(1)
      else match End(after, t[1..], open)
        case Some(n) => Some(n + 1)
        case None => None
  }

  function FirstOpener(t: string): (n: Option<nat>)
    ensures n.Some? ==> n.value < |t| && IsOpener(t[n.value])
    ensures n.Some? ==> forall i :: 0 <= i < n.value ==> !IsOpener(t[i])
    ensures n.None? ==> forall i :: 0 <= i < |t| ==> !IsOpener(t[i])
  {
    if t == "" then None
    else if IsOpener(t[0]) then Some(0)
    else match FirstOpener(t[1..])
      case Some(n) => Some(n + 1)
      case None => None
  }

  const Fresh := Scan(0, false, false)

  /** The span of the first balanced substring: from the first opener to where its own kind closes. */
  function Span(t: string): (r: Option<(nat, nat)>)
    ensures r.Some? ==> r.value.0 < r.value.1 <= |t|
  {
    match FirstOpener(t)
    case None => None
    case Some(start) =>
      match End(Fresh, t[start..], t[start])
      case Some(n) => Some((start, start + n))
      case None => None
  }

  lemma EndUnfolds(s: Scan, text: string, pos: nat, open: char)
    requires pos < |text|
    ensures End(s, text[pos..], open) ==
            if !s.inString && text[pos] == Closer(open) && Step(s, text[pos], open).depth == 0 then Some(1)
            else match End(Step(s, text[pos], open), text[pos + 1..], open)
                 case Some(n) => Some(n + 1)
                 case None => None
  {
    assert text[pos..][0] == text[pos] && text[pos..][1..] == text[pos + 1..];
  }

  lemma EndOfNothing(s: Scan, open: char)
    ensures End(s, "", open) == None
  {
  }

  lemma OpenerUnfolds(text: string, i: nat)
    requires i <= |text|
    ensures i == |text| ==> FirstOpener(text[i..]) == None
    ensures i < |text| && IsOpener(text[i]) ==> FirstOpener(text[i..]) == Some(0)
    ensures i < |text| && !IsOpener(text[i]) ==>
      FirstOpener(text[i..]) == match FirstOpener(text[i + 1..]) case Some(n) => Some(n + 1) case None => None
  {
    if i < |text| { assert text[i..][0] == text[i] && text[i..][1..] == text[i + 1..]; }
  }

  method FirstBalanced(text: string) returns (r: Option<string>)
    ensures r == match Span(text) case Some((a, b)) => Some(text[a..b]) case None => None
  {
    hide End, FirstOpener;
    var start := 0;
    assert text[start..] == text;
    while start < |text|
      invariant 0 <= start <= |text|
      invariant FirstOpener(text) == match FirstOpener(text[start..])
                                     case Some(n) => Some(start + n)
                                     case None => None
    {
      var ch := text[start];
      OpenerUnfolds(text, start);
      if !IsOpener(ch) {
        start := start + 1;
        continue;
      }
      assert FirstOpener(text) == Some(start);
      var close := Closer(ch);
      var depth, inString, escaped := 0, false, false;
      var pos := start;
      while pos < |text|
        invariant start <= pos <= |text|
        invariant End(Fresh, text[start..], ch) ==
                  match End(Scan(depth, inString, escaped), text[pos..], ch)
                  case Some(n) => Some(pos - start + n)
                  case None => None
      {
        var c := text[pos];
        ghost var before := Scan(depth, inString, escaped);
        EndUnfolds(before, text, pos, ch);
        if inString {
          if escaped {
            escaped := false;
          } else if c == '\\' {
            escaped := true;
          } else if c == '\"' {
            inString := false;
          }
        } else if c == '\"' {
          inString := true;
        } else if c == ch {
          depth := depth + 1;
        } else if c == close {
          depth := depth - 1;
          if depth == 0 {
            return Some(text[start..pos + 1]);
          }
        }
        assert Scan(depth, inString, escaped) == Step(before, c, ch);
        pos := pos + 1;
      }
      EndOfNothing(Scan(depth, inString, escaped), ch);
      return None;
    }
    OpenerUnfolds(text, start);
    return None;
  }

  // ---- every JSON text is a fragment ------------------------------------------

  /** Text with matched brackets: any JSON text of an object or an array, whatever its white
      space and escapes, is a `Curly` or a `Square`. */
  datatype Fragment =
    | Chunk(text: string)
    | Quoted(body: string)
    | Curly(parts: seq<Fragment>)
    | Square(parts: seq<Fragment>)

  predicate IsPlain(t: string) {
    forall i :: 0 <= i < |t| ==> t[i] !in "\"{}[]"
  }

  /** A string body whose every quote is escaped and whose last escape is complete. */
  predicate IsBody(t: string) {
    if t == "" then true
    else if t[0] == '\"' then false
    else if t[0] == '\\' then |t| >= 2 && IsBody(t[2..])
    else IsBody(t[1..])
  }

  predicate Proper(f: Fragment) {
    match f
    case Chunk(text) => IsPlain(text)
    case Quoted(body) => IsBody(body)
    case Curly(parts) => forall i | 0 <= i < |parts| :: Proper(parts[i])
    case Square(parts) => forall i | 0 <= i < |parts| :: Proper(parts[i])
  }

  function TextOf(f: Fragment): string {
    match f
    case Chunk(text) => text
    case Quoted(body) => "\"" + body + "\""
    case Curly(parts) => "{" + TextsOf(parts) + "}"
    case Square(parts) => "[" + TextsOf(parts) + "]"
  }

  function TextsOf(parts: seq<Fragment>): string {
    if parts == [] then "" else TextOf(parts[0]) + TextsOf(parts[1..])
  }

  /** Reading `t` from `s` never closes the outer bracket and ends in state `e`. */
  ghost predicate Passes(s: Scan, t: string, open: char, e: Scan)
    decreases |t|
  {
    if t == "" then s == e
    else
      && !(!s.inString && t[0] == Closer(open) && Step(s, t[0], open).depth == 0)
      && Passes(Step(s, t[0], open), t[1..], open, e)
  }

  lemma {:induction false} PassesThrough(s: Scan, a: string, m: Scan, b: string, e: Scan, open: char)
    requires Passes(s, a, open, m) && Passes(m, b, open, e)
    ensures Passes(s, a + b, open, e)
    decreases |a|
  {
    if a == "" {
      assert a + b == b;
    } else {
      assert (a + b)[1..] == a[1..] + b;
      PassesThrough(Step(s, a[0], open), a[1..], m, b, e, open);
    }
  }

  lemma {:induction false} EndAfter(s: Scan, a: string, m: Scan, b: string, open: char)
    requires Passes(s, a, open, m)
    ensures End(s, a + b, open) == match End(m, b, open)
                                   case Some(n) => Some(|a| + n)
                                   case None => None
    decreases |a|
  {
    if a == "" {
      assert a + b == b;
    } else {
      assert (a + b)[1..] == a[1..] + b;
      EndAfter(Step(s, a[0], open), a[1..], m, b, open);
    }
  }

  lemma {:induction false} PlainPasses(s: Scan, t: string, open: char)
    requires IsPlain(t) && !s.inString && IsOpener(open)
    ensures Passes(s, t, open, s)
  {
    if t != "" { PlainPasses(s, t[1..], open); }
  }

  lemma {:induction false} BodyPasses(d: int, t: string, open: char)
    requires IsBody(t)
    ensures Passes(Scan(d, true, false), t, open, Scan(d, true, false))
    decreases |t|
  {
    if t != "" {
      if t[0] == '\\' {
        BodyPasses(d, t[2..], open);
        assert t[1..][1..] == t[2..];
      } else {
        BodyPasses(d, t[1..], open);
      }
    }
  }

  lemma OneCharPasses(s: Scan, c: char, open: char)
    requires !(!s.inString && c == Closer(open) && Step(s, c, open).depth == 0)
    ensures Passes(s, [c], open, Step(s, c, open))
  {
  }

  lemma Wrapped(s: Scan, a: char, m: Scan, body: string, b: char, open: char)
    requires Step(s, a, open) == m && Passes(m, body, open, m) && Step(m, b, open) == s
    requires s.depth >= 1 && m.depth >= 1
    ensures Passes(s, [a] + body + [b], open, s)
  {
    OneCharPasses(s, a, open);
    OneCharPasses(m, b, open);
    PassesThrough(s, [a], m, body, m, open);
    PassesThrough(s, [a] + body, m, [b], s, open);
  }

  /** Inside the outer bracket a fragment leaves the scanner as it found it. */
  lemma {:induction false} FragmentPasses(f: Fragment, d: int, open: char)
    requires Proper(f) && d >= 1 && IsOpener(open)
    ensures Passes(Scan(d, false, false), TextOf(f), open, Scan(d, false, false))
    decreases f, 0
  {
    var s := Scan(d, false, false);
    match f
    case Chunk(text) => PlainPasses(s, text, open);
    case Quoted(body) =>
      BodyPasses(d, body, open);
      Wrapped(s, '\"', Scan(d, true, false), body, '\"', open);
    case Curly(parts) =>
      var inner := if open == '{' then Scan(d + 1, false, false) else s;
      FragmentsPass(parts, inner.depth, open);
      Wrapped(s, '{', inner, TextsOf(parts), '}', open);
    case Square(parts) =>
      var inner := if open == '[' then Scan(d + 1, false, false) else s;
      FragmentsPass(parts, inner.depth, open);
      Wrapped(s, '[', inner, TextsOf(parts), ']', open);
  }

  lemma {:induction false} FragmentsPass(parts: seq<Fragment>, d: int, open: char)
    requires (forall i | 0 <= i < |parts| :: Proper(parts[i])) && d >= 1 && IsOpener(open)
    ensures Passes(Scan(d, false, false), TextsOf(parts), open, Scan(d, false, false))
    decreases parts, 1
  {
    if parts != [] {
      var s := Scan(d, false, false);
      FragmentPasses(parts[0], d, open);
      FragmentsPass(parts[1..], d, open);
      PassesThrough(s, TextOf(parts[0]), s, TextsOf(parts[1..]), s, open);
    }
  }

  lemma BracketEnds(f: Fragment, suffix: string)
    requires Proper(f) && (f.Curly? || f.Square?)
    ensures End(Fresh, TextOf(f) + suffix, TextOf(f)[0]) == Some(|TextOf(f)|)
  {
    var open := if f.Curly? then '{' else '[';
    var one := Scan(1, false, false);
    var inner, tail := TextsOf(f.parts), [Closer(open)] + suffix;
    FragmentsPass(f.parts, 1, open);
    OneCharPasses(Fresh, open, open);
    PassesThrough(Fresh, [open], one, inner, one, open);
    EndAfter(Fresh, [open] + inner, one, tail, open);
    assert TextOf(f) + suffix == [open] + inner + tail;
    assert tail[0] == Closer(open);
  }

  lemma {:induction false} OpenerAfter(prose: string, t: string)
    requires forall i :: 0 <= i < |prose| ==> !IsOpener(prose[i])
    requires t != "" && IsOpener(t[0])
    ensures FirstOpener(prose + t) == Some(|prose|)
  {
    if prose == "" {
      assert prose + t == t;
    } else {
      assert (prose + t)[1..] == prose[1..] + t;
      OpenerAfter(prose[1..], t);
    }
  }

  /** The scanner cuts out exactly the payload, at its place, iff the prose before it has no
      opening bracket: whatever the payload's inner brackets, strings and escapes, and
      whatever follows it. */
  lemma PayloadFound(prose: string, f: Fragment, suffix: string)
    requires Proper(f) && (f.Curly? || f.Square?)
    ensures Span(prose + TextOf(f) + suffix) == Some((|prose|, |prose| + |TextOf(f)|)) <==>
            forall i :: 0 <= i < |prose| ==> !IsOpener(prose[i])
    ensures (prose + TextOf(f) + suffix)[|prose|..|prose| + |TextOf(f)|] == TextOf(f)
  {
    var payload := TextOf(f);
    assert payload != "" && IsOpener(payload[0]);
    BracketEnds(f, suffix);
    hide TextOf, End;
    PayloadAt(prose, payload, suffix);
  }

  lemma PayloadAt(prose: string, payload: string, suffix: string)
    requires payload != "" && IsOpener(payload[0])
    requires End(Fresh, payload + suffix, payload[0]) == Some(|payload|)
    ensures Span(prose + payload + suffix) == Some((|prose|, |prose| + |payload|)) <==>
            forall i :: 0 <= i < |prose| ==> !IsOpener(prose[i])
    ensures (prose + payload + suffix)[|prose|..|prose| + |payload|] == payload
  {
    hide End;
    var t, rest := prose + payload + suffix, payload + suffix;
    assert t == prose + rest;
    if forall i :: 0 <= i < |prose| ==> !IsOpener(prose[i]) {
      OpenerAfter(prose, rest);
      assert t[|prose|..] == rest;
    } else {
      var i :| 0 <= i < |prose| && IsOpener(prose[i]);
      assert t[i] == prose[i];
    }
  }

  // ---- canonical JSON text as a fragment ------------------------------------------

  function FragmentOf(v: Json): Fragment {
    match v
    case Str(s) => Quoted(EscapeText(s))
    case Arr(items) => Square(ItemFragments(items))
    case Obj(members) => Curly(MemberFragments(members))
    case _ => Chunk(Print(v))
  }

  function ItemFragments(items: seq<Json>): seq<Fragment> {
    if items == [] then []
    else if |items| == 1 then [FragmentOf(items[0])]
    else [FragmentOf(items[0]), Chunk(",")] + ItemFragments(items[1..])
  }

  function MemberFragments(members: seq<Member>): seq<Fragment> {
    if members == [] then []
    else
      var head := [Quoted(EscapeText(members[0].key)), Chunk(":"), FragmentOf(members[0].value)];
      if |members| == 1 then head else head + [Chunk(",")] + MemberFragments(members[1..])
  }

  predicate AllProper(parts: seq<Fragment>) {
    forall i | 0 <= i < |parts| :: Proper(parts[i])
  }

  lemma {:induction false} TextsConcat(a: seq<Fragment>, b: seq<Fragment>)
    ensures TextsOf(a + b) == TextsOf(a) + TextsOf(b)
  {
    if a == [] {
      assert a + b == b;
    } else {
      assert (a + b)[1..] == a[1..] + b;
      TextsConcat(a[1..], b);
      Regroup(TextOf(a[0]), TextsOf(a[1..]), TextsOf(b));
    }
  }

  lemma {:induction false} BodyConcat(a: string, b: string)
    requires IsBody(a) && IsBody(b)
    ensures IsBody(a + b)
    decreases |a|
  {
    if a == "" {
      assert a + b == b;
    } else if a[0] == '\\' {
      assert (a + b)[2..] == a[2..] + b;
      BodyConcat(a[2..], b);
    } else {
      assert (a + b)[1..] == a[1..] + b;
      BodyConcat(a[1..], b);
    }
  }

  lemma {:induction false} CleanBody(t: string)
    requires forall i :: 0 <= i < |t| ==> t[i] != '\"' && t[i] != '\\'
    ensures IsBody(t)
  {
    if t != "" { CleanBody(t[1..]); }
  }

  lemma UnicodeBody(n: int)
    requires 0 <= n < 0x1_0000
    ensures IsBody(UnicodeEscape(n))
  {
    var t := UnicodeEscape(n);
    forall i | 0 <= i < 4 ensures Hex4(n)[i] != '\"' && Hex4(n)[i] != '\\' {
    }
    CleanBody(Hex4(n));
    assert t[2..] == Hex4(n);
  }

  lemma EscapedCharBody(c: CodePoint)
    ensures IsBody(EscapeChar(c))
  {
    if IsShort(c) {
      assert EscapeChar(c)[2..] == "";
    } else if 0x20 <= c <= 0x7E {
      CleanBody(EscapeChar(c));
    } else if c < 0x1_0000 {
      UnicodeBody(c);
    } else {
      var hi, lo := 0xD800 + (c - 0x1_0000) / 0x400, 0xDC00 + (c - 0x1_0000) % 0x400;
      UnicodeBody(hi);
      UnicodeBody(lo);
      BodyConcat(UnicodeEscape(hi), UnicodeEscape(lo));
    }
  }

  lemma {:induction false} EscapedTextBody(s: Text)
    ensures IsBody(EscapeText(s))
  {
    if s != [] {
      EscapedCharBody(s[0]);
      EscapedTextBody(s[1..]);
      BodyConcat(EscapeChar(s[0]), EscapeText(s[1..]));
    }
  }

  lemma NumberIsPlain(t: string)
    requires forall i :: 0 <= i < |t| ==> IsNumberChar(t[i])
    ensures IsPlain(t)
  {
  }

  lemma {:induction false} PrintedFragment(v: Json)
    ensures Proper(FragmentOf(v)) && TextOf(FragmentOf(v)) == Print(v)
    decreases v, 0
  {
    match v
    case Str(s) => EscapedTextBody(s);
    case Int(n) =>
      IntTextIsNumber(n);
      NumberIsPlain(IntText(n));
    case Float(repr) => NumberIsPlain(repr);
    case Arr(items) => PrintedItems(items);
    case Obj(members) => PrintedMembers(members);
    case _ =>
  }

  lemma {:induction false} PrintedItems(items: seq<Json>)
    ensures AllProper(ItemFragments(items)) && TextsOf(ItemFragments(items)) == PrintItems(items)
    decreases items, 1
  {
    if items != [] {
      PrintedFragment(items[0]);
      var head := [FragmentOf(items[0])];
      assert TextsOf(head) == Print(items[0]) by { assert head[1..] == []; }
      if |items| > 1 {
        PrintedItems(items[1..]);
        var rest := [Chunk(",")] + ItemFragments(items[1..]);
        assert rest[1..] == ItemFragments(items[1..]);
        TextsConcat(head, rest);
        assert ItemFragments(items) == head + rest;
        Regroup(Print(items[0]), ",", PrintItems(items[1..]));
      }
    }
  }

  lemma {:induction false} PrintedMember(m: Member)
    ensures var head := [Quoted(EscapeText(m.key)), Chunk(":"), FragmentOf(m.value)];
            AllProper(head) && TextsOf(head) == PrintMember(m)
    decreases m, 1
  {
    var head := [Quoted(EscapeText(m.key)), Chunk(":"), FragmentOf(m.value)];
    EscapedTextBody(m.key);
    PrintedFragment(m.value);
    assert head[1..] == [Chunk(":"), FragmentOf(m.value)] && head[1..][1..] == [FragmentOf(m.value)];
    assert head[1..][1..][1..] == [];
    assert TextsOf(head[1..][1..]) == Print(m.value);
    assert TextsOf(head[1..]) == ":" + Print(m.value);
    Regroup(PrintText(m.key), ":", Print(m.value));
  }

  lemma {:induction false} PrintedMembers(members: seq<Member>)
    ensures AllProper(MemberFragments(members)) && TextsOf(MemberFragments(members)) == PrintMembers(members)
    decreases members, 1
  {
    if members != [] {
      PrintedMember(members[0]);
      var head := [Quoted(EscapeText(members[0].key)), Chunk(":"), FragmentOf(members[0].value)];
      if |members| > 1 {
        PrintedMembers(members[1..]);
        var rest := [Chunk(",")] + MemberFragments(members[1..]);
        assert rest[1..] == MemberFragments(members[1..]);
        TextsConcat(head, rest);
        assert MemberFragments(members) == head + rest;
        Regroup(PrintMember(members[0]), ",", PrintMembers(members[1..]));
      }
    }
  }

  /** A written object or array is found whole in bracket-free prose and reads back as itself,
      surrogate pairs merged. */
  lemma PrintedPayloadFound(prose: string, v: Json, suffix: string)
    requires v.Obj? || v.Arr?
    requires forall i :: 0 <= i < |prose| ==> !IsOpener(prose[i])
    ensures var t := prose + Print(v) + suffix;
            && Span(t) == Some((|prose|, |prose| + |Print(v)|))
            && t[|prose|..|prose| + |Print(v)|] == Print(v)
            && Read(Print(v)) == Some((MergeAll(v), ""))
  {
    PrintedFragment(v);
    PayloadFound(prose, FragmentOf(v), suffix);
    RoundTrip(v, "");
    assert Print(v) + "" == Print(v);
  }
}
