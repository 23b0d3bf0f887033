/** Secret-free normalisation of Python values and the canonical bytes that fingerprints hash. */
module Hashing {
  import opened Prelude
  import opened Ordering
  import opened Json

  datatype Value =
    | VNone
    | VBool(b: bool)
    | VInt(n: int)
    | VFloat(repr: FloatText)
    | VStr(s: Text)
    | VSecret(secret: Text)
    | VDate(iso: Text)
    | VPath(path: Text)
    | VBytes(bytes: seq<int>)
    | VEnum(value: Value)
    | VMapping(entries: seq<Entry>)
    | VSet(elements: seq<Value>)
    | VSequence(items: seq<Value>)

  /** A mapping entry; `text` is `str(key)`, which distinct keys may share. */
  datatype Entry = Entry(text: Text, value: Value)

  // ---- secret keys ---------------------------------------------------------

  function SecretKeys(): set<string> {
    {"api_key", "apikey", "authorization", "bearer_token", "credential", "credentials",
     "password", "passwd", "secret", "token"}
  }

  function SecretSuffixes(): set<string> {
    {"_api_key", "_authorization", "_credential", "_credentials", "_password", "_secret", "_token"}
  }

  /** `key.lower().replace("-", "_")` on ASCII. */
  function Fold(c: CodePoint): CodePoint {
    if 'A' as int <= c <= 'Z' as int then c + 32 else if c == '-' as int then '_' as int else c
  }

  function FoldText(s: Text): (r: Text)
    ensures |r| == |s|
  {
    seq(|s|, i requires 0 <= i < |s| => Fold(s[i]))
  }

  predicate EndsWith(s: Text, word: string) {
    |word| <= |s| && s[|s| - |word|..] == Codes(word)
  }

  predicate IsSecretKey(key: Text) {
    var folded := FoldText(key);
    || (exists word :: word in SecretKeys() && Codes(word) == folded)
    || (exists word :: word in SecretSuffixes() && EndsWith(folded, word))
  }

  /** The character is this lower-case letter in either case, or a dash or underscore for an underscore. */
  ghost predicate Spells(c: CodePoint, letter: char) {
    || c == letter as int
    || ('a' <= letter <= 'z' && c == letter as int - 32)
    || (letter == '_' && c == '-' as int)
  }

  ghost predicate SpelledAs(s: Text, word: string) {
    |s| == |word| && forall i :: 0 <= i < |word| ==> Spells(s[i], word[i])
  }

  predicate LowerWord(word: string) {
    forall i :: 0 <= i < |word| ==> 'a' <= word[i] <= 'z' || word[i] == '_'
  }

  lemma ListedWords()
    ensures forall word :: word in SecretKeys() + SecretSuffixes() ==> LowerWord(word)
  {
    assert forall word :: word in SecretKeys() ==> LowerWord(word);
    assert forall word :: word in SecretSuffixes() ==> LowerWord(word);
  }

  lemma FoldedWord(s: Text, word: string)
    requires LowerWord(word)
    ensures FoldText(s) == Codes(word) <==> SpelledAs(s, word)
  {
    if |s| == |word| {
      forall i | 0 <= i < |word| ensures FoldText(s)[i] == Codes(word)[i] <==> Spells(s[i], word[i]) {
      }
    }
  }

  lemma FoldedEnd(s: Text, word: string)
    requires LowerWord(word) && |word| <= |s|
    ensures EndsWith(FoldText(s), word) <==> SpelledAs(s[|s| - |word|..], word)
  {
    FoldedWord(s[|s| - |word|..], word);
    assert FoldText(s[|s| - |word|..]) == FoldText(s)[|s| - |word|..];
  }

  /** A key is secret exactly if it spells one of the listed words, in any mixture of cases and with dashes
      for underscores, or ends in such a spelling of a listed ending. */
  lemma SecretKeyMeans(key: Text)
    ensures IsSecretKey(key) <==>
            || (exists word :: word in SecretKeys() && SpelledAs(key, word))
            || (exists word :: word in SecretSuffixes() && |word| <= |key| && SpelledAs(key[|key| - |word|..], word))
  {
    ListedWords();
    hide SecretKeys, SecretSuffixes, LowerWord, SpelledAs;
    forall word | word in SecretKeys() ensures FoldText(key) == Codes(word) <==> SpelledAs(key, word) { FoldedWord(key, word); }
    forall word | word in SecretSuffixes()
      ensures EndsWith(FoldText(key), word) <==> |word| <= |key| && SpelledAs(key[|key| - |word|..], word)
    {
      if |word| <= |key| { FoldedEnd(key, word); }
    }
  }

  /** Whatever stands under a secret key, all that is left of it is whether it is neither None nor empty. */
  lemma SecretIsFlag(sha: seq<int> -> Text, e: Entry)
    requires IsSecretKey(e.text)
    ensures NormalizeEntry(sha, e) ==
            Some(Member(e.text, Obj([Member(Codes("configured"), Bool(!(e.value.VNone? || e.value == VStr([]))))])))
  {
    hide IsSecretKey;
  }

  /** Elsewhere a wrapped secret leaves whether it is empty; bytes leave their hash and size, and so, where
      hashes do not collide, themselves; dates, paths and texts leave themselves. */
  lemma LeavesApart(sha: seq<int> -> Text, a: Text, b: Text, x: seq<int>, y: seq<int>)
    ensures Normalize(sha, VSecret(a), false) == Some(Obj([Member(Codes("configured"), Bool(a != []))]))
    ensures (Normalize(sha, VDate(a), false) == Normalize(sha, VStr(b), false) <==> a == b)
            && (Normalize(sha, VPath(a), false) == Normalize(sha, VStr(b), false) <==> a == b)
            && (Normalize(sha, VStr(a), false) == Some(Str(b)) <==> a == b)
    ensures Normalize(sha, VBytes(x), false) == Normalize(sha, VBytes(y), false) <==> sha(x) == sha(y) && |x| == |y|
    ensures Normalize(sha, VBytes(x), false) ==
            Some(Obj([Member(Codes("sha256"), Str(sha(x))), Member(Codes("size_bytes"), Int(|x|))]))
  {
    if Normalize(sha, VBytes(x), false) == Normalize(sha, VBytes(y), false) {
      var p, q := [Member(Sha256, Str(sha(x))), Member(SizeBytes, Int(|x|))], [Member(Sha256, Str(sha(y))), Member(SizeBytes, Int(|y|))];
      assert p == q;
      assert p[0] == q[0] && p[1] == q[1];
    }
  }

  const Configured: Text := Codes("configured")
  const Sha256: Text := Codes("sha256")
  const SizeBytes: Text := Codes("size_bytes")

  lemma EndingsDiffer(s: Text, word: string)
    requires |s| >= 2 && |word| >= 2
    requires s[|s| - 1] != word[|word| - 1] as int || s[|s| - 2] != word[|word| - 2] as int
    ensures s != Codes(word) && !EndsWith(s, word)
  {
    var w := Codes(word);
    assert w[|w| - 1] == word[|word| - 1] as int && w[|w| - 2] == word[|word| - 2] as int;
    if |word| <= |s| {
      var tail := s[|s| - |word|..];
      assert tail[|word| - 1] == s[|s| - 1] && tail[|word| - 2] == s[|s| - 2];
    }
  }

  lemma NotSecret(key: Text)
    requires forall word :: word in SecretKeys() + SecretSuffixes() ==>
      FoldText(key) != Codes(word) && !EndsWith(FoldText(key), word)
    ensures !IsSecretKey(key)
  {
  }

  /** The keys that normalisation itself writes are not secret keys. */
  lemma OwnKeysAreNotSecret()
    ensures !IsSecretKey(Configured) && !IsSecretKey(Sha256) && !IsSecretKey(SizeBytes)
  {
    OwnKey("configured");
    OwnKey("sha256");
    OwnKey("size_bytes");
  }

  lemma OwnKey(key: string)
    requires key in {"configured", "sha256", "size_bytes"}
    ensures !IsSecretKey(Codes(key))
  {
    var folded := FoldText(Codes(key));
    assert folded[|key| - 1] == key[|key| - 1] as int && folded[|key| - 2] == key[|key| - 2] as int;
    forall word | word in SecretKeys() + SecretSuffixes()
      ensures folded != Codes(word) && !EndsWith(folded, word)
    {
      assert key[|key| - 2] != word[|word| - 2] || key[|key| - 1] != word[|word| - 1];
      EndingsDiffer(folded, word);
    }
    NotSecret(Codes(key));
  }

  /** `value is not None and value != ""` */
  predicate Present(v: Value) { v != VNone && v != VStr([]) }

  function Flag(present: bool): Json { Obj([Member(Configured, Bool(present))]) }

  // ---- normalisation -------------------------------------------------------

  predicate MemberLeq(a: Member, b: Member) { LexLeq(a.key, b.key) }

  predicate PrintLeq(a: Json, b: Json) { StrLeq(Dumps(a), Dumps(b)) }

  /** `sort_keys=True`, at every depth. */
  function SortKeys(v: Json): Json {
    match v
    case Arr(items) => Arr(SortItems(items))
    case Obj(members) => Obj(SortBy(SortValues(members), MemberLeq))
    case _ => v
  }

  function SortItems(items: seq<Json>): (r: seq<Json>)
    ensures |r| == |items| && forall i :: 0 <= i < |r| ==> r[i] == SortKeys(items[i])
  {
    if items == [] then [] else [SortKeys(items[0])] + SortItems(items[1..])
  }

  function SortValues(members: seq<Member>): (r: seq<Member>)
    ensures |r| == |members|
    ensures forall i :: 0 <= i < |r| ==> r[i] == Member(members[i].key, SortKeys(members[i].value))
  {
    if members == [] then []
    else [Member(members[0].key, SortKeys(members[0].value))] + SortValues(members[1..])
  }

  /** `json.dumps(v, ensure_ascii=True, separators=(",", ":"), sort_keys=True)` */
  function Dumps(v: Json): string { Print(SortKeys(v)) }

  predicate DistinctKeys(members: seq<Member>) {
    forall i, j :: 0 <= i < j < |members| ==> members[i].key != members[j].key
  }

  /** None stands for the ValueError on colliding keys. */
  function Normalize(sha: seq<int> -> Text, v: Value, secret: bool): Option<Json> {
    if secret then Some(Flag(Present(v)))
    else match v
      case VNone => Some(Null)
      case VBool(b) => Some(Bool(b))
      case VInt(n) => Some(Int(n))
      case VFloat(repr) => Some(Float(repr))
      case VStr(s) => Some(Str(s))
      case VSecret(s) => Some(Flag(s != []))
      case VDate(iso) => Some(Str(iso))
      case VPath(path) => Some(Str(path))
      case VBytes(bytes) => Some(Obj([Member(Sha256, Str(sha(bytes))), Member(SizeBytes, Int(|bytes|))]))
      case VEnum(value) => Normalize(sha, value, false)
      case VMapping(entries) =>
        (match NormalizeEntries(sha, entries)
         case None => None
         case Some(members) =>
           if DistinctKeys(members) then Some(Obj(SortBy(members, MemberLeq))) else None)
      case VSet(elements) =>
        (match NormalizeItems(sha, elements)
         case None => None
         case Some(items) => Some(Arr(SortBy(items, PrintLeq))))
      case VSequence(items) =>
        (match NormalizeItems(sha, items)
         case None => None
         case Some(js) => Some(Arr(js)))
  }

  function NormalizeItems(sha: seq<int> -> Text, items: seq<Value>): (r: Option<seq<Json>>)
    ensures r.Some? <==> forall i :: 0 <= i < |items| ==> Normalize(sha, items[i], false).Some?
    ensures r.Some? ==> |r.value| == |items|
    ensures r.Some? ==> forall i :: 0 <= i < |items| ==> Normalize(sha, items[i], false) == Some(r.value[i])
  {
    if items == [] then Some([])
    else
      match (Normalize(sha, items[0], false), NormalizeItems(sha, items[1..]))
      case (Some(j), Some(js)) => Some([j] + js)
      case _ => None
  }

  function NormalizeEntry(sha: seq<int> -> Text, e: Entry): Option<Member> {
    match Normalize(sha, e.value, IsSecretKey(e.text))
    case Some(j) => Some(Member(e.text, j))
    case None => None
  }

  function NormalizeEntries(sha: seq<int> -> Text, entries: seq<Entry>): (r: Option<seq<Member>>)
    ensures r.Some? <==> forall i :: 0 <= i < |entries| ==> NormalizeEntry(sha, entries[i]).Some?
    ensures r.Some? ==> |r.value| == |entries|
    ensures r.Some? ==> forall i :: 0 <= i < |entries| ==> NormalizeEntry(sha, entries[i]) == Some(r.value[i])
  {
    if entries == [] then Some([])
    else
      match (NormalizeEntry(sha, entries[0]), NormalizeEntries(sha, entries[1..]))
      case (Some(m), Some(ms)) => Some([m] + ms)
      case _ => None
  }

  /** `canonical_json_bytes(v)` */
  function CanonicalText(sha: seq<int> -> Text, v: Value): Option<string> {
    match Normalize(sha, v, false)
    case Some(j) => Some(Dumps(j))
    case None => None
  }

  // ---- what the canonical text depends on -----------------------------------

  function PairOf(m: Member): (Text, string) { (m.key, Dumps(m.value)) }

  predicate PairLeq(a: (Text, string), b: (Text, string)) { LexLeq(a.0, b.0) }

  function JoinPairs(pairs: seq<(Text, string)>): string {
    if pairs == [] then ""
    else
      var head := PrintText(pairs[0].0) + ":" + pairs[0].1;
      if |pairs| == 1 then head else head + "," + JoinPairs(pairs[1..])
  }

  function JoinTexts(texts: seq<string>): string {
    if texts == [] then ""
    else if |texts| == 1 then texts[0]
    else texts[0] + "," + JoinTexts(texts[1..])
  }

  lemma {:induction false} PrintIsJoin(members: seq<Member>)
    ensures PrintMembers(SortValues(members)) == JoinPairs(MapSeq(PairOf, members))
  {
    if members != [] {
      PrintIsJoin(members[1..]);
      assert MapSeq(PairOf, members)[1..] == MapSeq(PairOf, members[1..]);
    }
  }

  lemma {:induction false} PrintItemsIsJoin(items: seq<Json>)
    ensures PrintItems(SortItems(items)) == JoinTexts(MapSeq(Dumps, items))
  {
    if items != [] {
      PrintItemsIsJoin(items[1..]);
      assert MapSeq(Dumps, items)[1..] == MapSeq(Dumps, items[1..]);
    }
  }

  lemma MemberLeqIsTotalPreorder()
    ensures TotalPreorder(MemberLeq) && TotalPreorder(PairLeq)
  {
    LexIsTotalPreorder();
  }

  /** Sorting the keys of an already sorted object only sorts inside its values. */
  lemma SortAgain(sorted: seq<Member>)
    requires Ordered(sorted, MemberLeq)
    ensures SortBy(SortValues(sorted), MemberLeq) == SortValues(sorted)
  {
    SortOfOrdered(SortValues(sorted), MemberLeq);
  }

  lemma SortedObjectText(sorted: seq<Member>)
    requires Ordered(sorted, MemberLeq)
    ensures Dumps(Obj(sorted)) == "{" + JoinPairs(MapSeq(PairOf, sorted)) + "}"
  {
    SortAgain(sorted);
    PrintIsJoin(sorted);
  }

  /** The text of a sorted object is determined by its (key, value text) pairs. */
  lemma ObjectText(members: seq<Member>)
    ensures Dumps(Obj(SortBy(members, MemberLeq))) ==
            "{" + JoinPairs(SortBy(MapSeq(PairOf, members), PairLeq)) + "}"
  {
    MemberLeqIsTotalPreorder();
    SortOrders(members, MemberLeq);
    SortedObjectText(SortBy(members, MemberLeq));
    hide Dumps, JoinPairs;
    SortMapped(members, PairOf, MemberLeq, PairLeq);
  }

  lemma ArrayText(items: seq<Json>)
    ensures Dumps(Arr(items)) == "[" + JoinTexts(MapSeq(Dumps, items)) + "]"
  {
    PrintItemsIsJoin(items);
  }

  lemma SetText(items: seq<Json>)
    ensures Dumps(Arr(SortBy(items, PrintLeq))) ==
            "[" + JoinTexts(SortBy(MapSeq(Dumps, items), StrLeq)) + "]"
  {
    ArrayText(SortBy(items, PrintLeq));
    SortMapped(items, Dumps, PrintLeq, StrLeq);
  }

  // ---- order and secrets do not reach the canonical text ---------------------

  /** `v` and `w` differ at most in the order of mapping entries, the order of set
      elements, and the values of secrets that are present in both. */
  ghost predicate Same(v: Value, w: Value, secret: bool)
    decreases v
  {
    if secret then Present(v) == Present(w)
    else match (v, w)
      case (VSecret(a), VSecret(b)) => (a == []) == (b == [])
      case (VEnum(a), VEnum(b)) => Same(a, b, false)
      case (VMapping(es), VMapping(fs)) =>
        exists gs: seq<Entry> :: multiset(gs) == multiset(fs) && SameEntries(es, gs)
      case (VSet(xs), VSet(ys)) =>
        exists zs: seq<Value> :: multiset(zs) == multiset(ys) && SameItems(xs, zs)
      case (VSequence(xs), VSequence(ys)) => SameItems(xs, ys)
      case _ => v == w
  }

  ghost predicate SameEntries(es: seq<Entry>, fs: seq<Entry>)
    decreases es
  {
    && |es| == |fs|
    && forall i :: 0 <= i < |es| ==>
      es[i].text == fs[i].text && Same(es[i].value, fs[i].value, IsSecretKey(es[i].text))
  }

  ghost predicate SameItems(xs: seq<Value>, ys: seq<Value>)
    decreases xs
  {
    |xs| == |ys| && forall i :: 0 <= i < |xs| ==> Same(xs[i], ys[i], false)
  }

  /** Both rejected, or both accepted with the same text. */
  predicate Agree(a: Option<Json>, b: Option<Json>) {
    a.Some? == b.Some? && (a.Some? ==> Dumps(a.value) == Dumps(b.value))
  }

  function OrNull(sha: seq<int> -> Text, v: Value): Json {
    match Normalize(sha, v, false)
    case Some(j) => j
    case None => Null
  }

  function OrNullEntry(sha: seq<int> -> Text, e: Entry): Member {
    match NormalizeEntry(sha, e)
    case Some(m) => m
    case None => Member([], Null)
  }

  lemma ItemsPermuted(sha: seq<int> -> Text, xs: seq<Value>, ys: seq<Value>)
    requires multiset(xs) == multiset(ys) && NormalizeItems(sha, xs).Some?
    ensures NormalizeItems(sha, ys).Some?
    ensures multiset(NormalizeItems(sha, xs).value) == multiset(NormalizeItems(sha, ys).value)
  {
    forall i | 0 <= i < |ys| ensures Normalize(sha, ys[i], false).Some? {
      assert ys[i] in multiset(xs);
    }
    var f := (v: Value) => OrNull(sha, v);
    MapPermutation(f, xs, ys);
    assert MapSeq(f, xs) == NormalizeItems(sha, xs).value;
    assert MapSeq(f, ys) == NormalizeItems(sha, ys).value;
  }

  lemma EntriesMapped(sha: seq<int> -> Text, es: seq<Entry>, f: Entry -> Member)
    requires forall e :: f(e) == OrNullEntry(sha, e)
    requires NormalizeEntries(sha, es).Some?
    ensures MapSeq(f, es) == NormalizeEntries(sha, es).value
  {
  }

  lemma EntriesPermuted(sha: seq<int> -> Text, es: seq<Entry>, fs: seq<Entry>)
    requires multiset(es) == multiset(fs) && NormalizeEntries(sha, es).Some?
    ensures NormalizeEntries(sha, fs).Some?
    ensures multiset(NormalizeEntries(sha, es).value) == multiset(NormalizeEntries(sha, fs).value)
  {
    forall i | 0 <= i < |fs| ensures NormalizeEntry(sha, fs[i]).Some? {
      assert fs[i] in multiset(es);
    }
    var f := (e: Entry) => OrNullEntry(sha, e);
    MapPermutation(f, es, fs);
    EntriesMapped(sha, es, f);
    EntriesMapped(sha, fs, f);
  }

  function KeyOf(m: Member): Text { m.key }

  lemma DistinctKeysPermuted(ms: seq<Member>, ns: seq<Member>)
    requires multiset(ms) == multiset(ns)
    ensures DistinctKeys(ms) <==> DistinctKeys(ns)
  {
    DistinctProjection(ms, ns, KeyOf);
    assert Distinct(MapSeq(KeyOf, ms)) <==> DistinctKeys(ms);
    assert Distinct(MapSeq(KeyOf, ns)) <==> DistinctKeys(ns);
  }

  lemma SameKeySameIndex(ms: seq<Member>, i: nat, j: nat)
    requires DistinctKeys(ms) && i < |ms| && j < |ms| && ms[i].key == ms[j].key
    ensures i == j
  {
  }

  lemma SortedPairsAgree(ms: seq<Member>, ns: seq<Member>)
    requires DistinctKeys(ms) && multiset(MapSeq(PairOf, ms)) == multiset(MapSeq(PairOf, ns))
    ensures Dumps(Obj(SortBy(ms, MemberLeq))) == Dumps(Obj(SortBy(ns, MemberLeq)))
  {
    var ps, qs := MapSeq(PairOf, ms), MapSeq(PairOf, ns);
    forall x, y | x in ps && y in ps && PairLeq(x, y) && PairLeq(y, x) ensures x == y {
      LexTotal(x.0, y.0);
      var i :| 0 <= i < |ps| && ps[i] == x;
      var j :| 0 <= j < |ps| && ps[j] == y;
      SameKeySameIndex(ms, i, j);
    }
    MemberLeqIsTotalPreorder();
    SortOfPermutation(ps, qs, PairLeq);
    ObjectText(ms);
    ObjectText(ns);
  }

  /** Neither the order of mappings and sets nor the value of a present secret, at any
      depth, changes the canonical text or whether normalisation succeeds. */
  lemma {:induction false} SameAgrees(sha: seq<int> -> Text, v: Value, w: Value, secret: bool)
    requires Same(v, w, secret)
    ensures Agree(Normalize(sha, v, secret), Normalize(sha, w, secret))
    decreases v, 0
  {
    if !secret {
      match (v, w)
      case (VEnum(a), VEnum(b)) => SameAgrees(sha, a, b, false);
      case (VMapping(es), VMapping(fs)) =>
        var gs :| multiset(gs) == multiset(fs) && SameEntries(es, gs);
        MappingAgrees(sha, es, gs, fs);
      case (VSet(xs), VSet(ys)) =>
        var zs :| multiset(zs) == multiset(ys) && SameItems(xs, zs);
        SetAgrees(sha, xs, zs, ys);
      case (VSequence(xs), VSequence(ys)) =>
        ItemsAgree(sha, xs, ys);
        if NormalizeItems(sha, xs).Some? {
          ArrayText(NormalizeItems(sha, xs).value);
          ArrayText(NormalizeItems(sha, ys).value);
        }
      case _ =>
    }
  }

  lemma {:induction false} ItemsAgree(sha: seq<int> -> Text, xs: seq<Value>, ys: seq<Value>)
    requires SameItems(xs, ys)
    ensures NormalizeItems(sha, xs).Some? == NormalizeItems(sha, ys).Some?
    ensures NormalizeItems(sha, xs).Some? ==>
      MapSeq(Dumps, NormalizeItems(sha, xs).value) == MapSeq(Dumps, NormalizeItems(sha, ys).value)
    decreases xs, 1
  {
    forall i | 0 <= i < |xs| ensures Agree(Normalize(sha, xs[i], false), Normalize(sha, ys[i], false)) {
      SameAgrees(sha, xs[i], ys[i], false);
    }
    hide Dumps;
  }

  lemma {:induction false} EntriesAgree(sha: seq<int> -> Text, es: seq<Entry>, fs: seq<Entry>)
    requires SameEntries(es, fs)
    ensures NormalizeEntries(sha, es).Some? == NormalizeEntries(sha, fs).Some?
    ensures NormalizeEntries(sha, es).Some? ==>
      MapSeq(PairOf, NormalizeEntries(sha, es).value) == MapSeq(PairOf, NormalizeEntries(sha, fs).value)
    decreases es, 1
  {
    forall i | 0 <= i < |es|
      ensures Agree(Normalize(sha, es[i].value, IsSecretKey(es[i].text)),
                    Normalize(sha, fs[i].value, IsSecretKey(fs[i].text)))
    {
      SameAgrees(sha, es[i].value, fs[i].value, IsSecretKey(es[i].text));
    }
    hide Dumps, IsSecretKey;
  }

  lemma {:induction false} MappingAgrees(sha: seq<int> -> Text, es: seq<Entry>, gs: seq<Entry>, fs: seq<Entry>)
    requires multiset(gs) == multiset(fs) && SameEntries(es, gs)
    ensures Agree(Normalize(sha, VMapping(es), false), Normalize(sha, VMapping(fs), false))
    decreases es, 2
  {
    hide *;
    MappingIs(sha, es);
    MappingIs(sha, fs);
    Refused();
    EntriesAgree(sha, es, gs);
    if NormalizeEntries(sha, fs).Some? {
      EntriesPermuted(sha, fs, gs);
    }
    if NormalizeEntries(sha, gs).Some? {
      EntriesPermuted(sha, gs, fs);
      var ms, ks, ns := NormalizeEntries(sha, es).value, NormalizeEntries(sha, gs).value, NormalizeEntries(sha, fs).value;
      SameKeys(ms, ks);
      DistinctKeysPermuted(ks, ns);
      MapPermutation(PairOf, ks, ns);
      if DistinctKeys(ms) {
        SortedPairsAgree(ms, ns);
        AgreeOn(Obj(SortBy(ms, MemberLeq)), Obj(SortBy(ns, MemberLeq)));
      }
    }
  }

  lemma MappingIs(sha: seq<int> -> Text, es: seq<Entry>)
    ensures Normalize(sha, VMapping(es), false) ==
            match NormalizeEntries(sha, es)
            case None => None
            case Some(members) => if DistinctKeys(members) then Some(Obj(SortBy(members, MemberLeq))) else None
  {
    hide NormalizeEntries, DistinctKeys, SortBy;
  }

  lemma AgreeOn(a: Json, b: Json)
    requires Dumps(a) == Dumps(b)
    ensures Agree(Some(a), Some(b))
  {
    hide Dumps;
  }

  lemma Refused()
    ensures Agree(None, None)
  {
  }

  lemma SameKeys(ms: seq<Member>, ks: seq<Member>)
    requires MapSeq(PairOf, ms) == MapSeq(PairOf, ks)
    ensures DistinctKeys(ms) <==> DistinctKeys(ks)
  {
    assert |ms| == |ks|;
    forall i | 0 <= i < |ms| ensures ms[i].key == ks[i].key {
      assert MapSeq(PairOf, ms)[i] == PairOf(ms[i]) && MapSeq(PairOf, ks)[i] == PairOf(ks[i]);
    }
  }

  lemma {:induction false} SetAgrees(sha: seq<int> -> Text, xs: seq<Value>, zs: seq<Value>, ys: seq<Value>)
    requires multiset(zs) == multiset(ys) && SameItems(xs, zs)
    ensures Agree(Normalize(sha, VSet(xs), false), Normalize(sha, VSet(ys), false))
    decreases xs, 2
  {
    ItemsAgree(sha, xs, zs);
    if NormalizeItems(sha, ys).Some? {
      ItemsPermuted(sha, ys, zs);
    }
    if NormalizeItems(sha, zs).Some? {
      ItemsPermuted(sha, zs, ys);
      MapPermutation(Dumps, NormalizeItems(sha, zs).value, NormalizeItems(sha, ys).value);
    }
    hide *;
    SetsAgree(sha, xs, ys);
  }

  /** Sets whose normalised items print to the same texts, in any order, agree. */
  lemma SetsAgree(sha: seq<int> -> Text, xs: seq<Value>, ys: seq<Value>)
    requires NormalizeItems(sha, xs).Some? == NormalizeItems(sha, ys).Some?
    requires NormalizeItems(sha, xs).Some? ==>
      multiset(MapSeq(Dumps, NormalizeItems(sha, xs).value)) == multiset(MapSeq(Dumps, NormalizeItems(sha, ys).value))
    ensures Agree(Normalize(sha, VSet(xs), false), Normalize(sha, VSet(ys), false))
  {
    hide Dumps, NormalizeItems;
    if NormalizeItems(sha, xs).Some? {
      SortedTextsAgree(NormalizeItems(sha, xs).value, NormalizeItems(sha, ys).value);
    }
  }

  lemma SortedTextsAgree(a: seq<Json>, c: seq<Json>)
    requires multiset(MapSeq(Dumps, a)) == multiset(MapSeq(Dumps, c))
    ensures Dumps(Arr(SortBy(a, PrintLeq))) == Dumps(Arr(SortBy(c, PrintLeq)))
  {
    SetText(a);
    SetText(c);
    hide Dumps;
    StrIsTotalPreorder();
    StrAntisymmetricOn(MapSeq(Dumps, a));
    SortOfPermutation(MapSeq(Dumps, a), MapSeq(Dumps, c), StrLeq);
  }

  /** Equal up to order and present secrets means equal canonical text, hence equal fingerprint. */
  lemma FingerprintInvariant(sha: seq<int> -> Text, v: Value, w: Value)
    requires Same(v, w, false)
    ensures CanonicalText(sha, v) == CanonicalText(sha, w)
  {
    SameAgrees(sha, v, w, false);
  }

  // ---- a second pass -----------------------------------------------------------

  /** A normalised tree read as a Python value again. */
  function Embed(j: Json): Value {
    match j
    case Null => VNone
    case Bool(b) => VBool(b)
    case Int(n) => VInt(n)
    case Float(repr) => VFloat(repr)
    case Str(s) => VStr(s)
    case Arr(items) => VSequence(EmbedItems(items))
    case Obj(members) => VMapping(EmbedMembers(members))
  }

  function EmbedItems(items: seq<Json>): (r: seq<Value>)
    ensures |r| == |items| && forall i :: 0 <= i < |r| ==> r[i] == Embed(items[i])
  {
    if items == [] then [] else [Embed(items[0])] + EmbedItems(items[1..])
  }

  function EmbedMembers(members: seq<Member>): (r: seq<Entry>)
    ensures |r| == |members|
    ensures forall i :: 0 <= i < |r| ==> r[i] == Entry(members[i].key, Embed(members[i].value))
  {
    if members == [] then []
    else [Entry(members[0].key, Embed(members[0].value))] + EmbedMembers(members[1..])
  }

  /** No secret key outside another secret maps to None or the empty string. */
  predicate NoAbsentSecret(v: Value, secret: bool) {
    if secret then Present(v)
    else match v
      case VEnum(value) => NoAbsentSecret(value, false)
      case VMapping(entries) =>
        forall i | 0 <= i < |entries| :: NoAbsentSecret(entries[i].value, IsSecretKey(entries[i].text))
      case VSet(elements) => forall i | 0 <= i < |elements| :: NoAbsentSecret(elements[i], false)
      case VSequence(items) => forall i | 0 <= i < |items| :: NoAbsentSecret(items[i], false)
      case _ => true
  }

  ghost predicate Stable(sha: seq<int> -> Text, j: Json, secret: bool) {
    Normalize(sha, Embed(j), secret) == Some(j)
  }

  ghost predicate MemberStable(sha: seq<int> -> Text, m: Member) {
    Stable(sha, m.value, IsSecretKey(m.key))
  }

  lemma InCons<T>(x: T, xs: seq<T>)
    requires xs != []
    ensures x in xs <==> x == xs[0] || x in xs[1..]
  {
  }

  lemma SomeCons<T>(x: T, y: T, xs: seq<T>, ys: seq<T>)
    ensures Some([x] + xs) == Some([y] + ys) <==> x == y && xs == ys
  {
    assert ([x] + xs)[0] == x && ([y] + ys)[0] == y;
    assert ([x] + xs)[1..] == xs && ([y] + ys)[1..] == ys;
  }

  lemma {:induction false} ItemsStable(sha: seq<int> -> Text, items: seq<Json>)
    ensures NormalizeItems(sha, EmbedItems(items)) == Some(items) <==>
            forall j :: j in items ==> Stable(sha, j, false)
  {
    if items != [] {
      var head, tail := items[0], items[1..];
      var values := EmbedItems(items);
      assert Stable(sha, head, false) <==> Normalize(sha, values[0], false) == Some(head);
      hide Normalize, Embed, Stable;
      assert values[1..] == EmbedItems(tail);
      assert items == [head] + tail;
      match (Normalize(sha, values[0], false), NormalizeItems(sha, values[1..])) {
        case (Some(j), Some(js)) => SomeCons(j, head, js, tail);
        case _ =>
      }
      assert NormalizeItems(sha, values) == Some(items) <==>
        Normalize(sha, values[0], false) == Some(head) && NormalizeItems(sha, EmbedItems(tail)) == Some(tail);
      hide NormalizeItems, EmbedItems;
      ItemsStable(sha, tail);
      forall j ensures j in items <==> j == head || j in tail { InCons(j, items); }
    }
  }

  lemma ArrStable(sha: seq<int> -> Text, items: seq<Json>)
    ensures Stable(sha, Arr(items), false) <==> forall j :: j in items ==> Stable(sha, j, false)
  {
    ArrStableUnfolds(sha, items);
    hide Stable, NormalizeItems, EmbedItems;
    ItemsStable(sha, items);
  }

  lemma ArrStableUnfolds(sha: seq<int> -> Text, items: seq<Json>)
    ensures Stable(sha, Arr(items), false) <==> NormalizeItems(sha, EmbedItems(items)) == Some(items)
  {
    hide NormalizeItems, EmbedItems;
  }

  lemma {:induction false} MembersStable(sha: seq<int> -> Text, members: seq<Member>)
    ensures NormalizeEntries(sha, EmbedMembers(members)) == Some(members) <==>
            forall m :: m in members ==> MemberStable(sha, m)
  {
    if members != [] {
      var head, tail := members[0], members[1..];
      var entries := EmbedMembers(members);
      assert MemberStable(sha, head) <==> NormalizeEntry(sha, entries[0]) == Some(head);
      hide NormalizeEntry, Embed, MemberStable;
      assert entries[1..] == EmbedMembers(tail);
      assert members == [head] + tail;
      match (NormalizeEntry(sha, entries[0]), NormalizeEntries(sha, entries[1..])) {
        case (Some(m), Some(ms)) => SomeCons(m, head, ms, tail);
        case _ =>
      }
      assert NormalizeEntries(sha, entries) == Some(members) <==>
        NormalizeEntry(sha, entries[0]) == Some(head) && NormalizeEntries(sha, EmbedMembers(tail)) == Some(tail);
      hide NormalizeEntries, EmbedMembers;
      MembersStable(sha, tail);
      forall m ensures m in members <==> m == head || m in tail { InCons(m, members); }
    }
  }

  lemma KeysKept(sha: seq<int> -> Text, members: seq<Member>)
    requires NormalizeEntries(sha, EmbedMembers(members)).Some?
    ensures var ns := NormalizeEntries(sha, EmbedMembers(members)).value;
            |ns| == |members| && forall i :: 0 <= i < |ns| ==> ns[i].key == members[i].key
  {
    var entries := EmbedMembers(members);
    var ns := NormalizeEntries(sha, entries).value;
    forall i | 0 <= i < |ns| ensures ns[i].key == members[i].key {
      assert NormalizeEntry(sha, entries[i]) == Some(ns[i]);
    }
  }

  lemma StableObject(sha: seq<int> -> Text, members: seq<Member>)
    ensures var again := NormalizeEntries(sha, EmbedMembers(members));
            Stable(sha, Obj(members), false) <==>
            again.Some? && DistinctKeys(again.value) && SortBy(again.value, MemberLeq) == members
  {
    hide NormalizeEntries, EmbedMembers, SortBy, DistinctKeys;
  }

  lemma ObjStable(sha: seq<int> -> Text, members: seq<Member>)
    requires Ordered(members, MemberLeq) && DistinctKeys(members)
    ensures Stable(sha, Obj(members), false) <==> forall m :: m in members ==> MemberStable(sha, m)
  {
    hide *;
    var again := NormalizeEntries(sha, EmbedMembers(members));
    StableObject(sha, members);
    MembersStable(sha, members);
    if again.Some? {
      KeysKept(sha, members);
      SameOrder(members, again.value);
      SortOfOrdered(again.value, MemberLeq);
    }
  }

  lemma SameOrder(ms: seq<Member>, ns: seq<Member>)
    requires |ms| == |ns| && forall i :: 0 <= i < |ns| ==> ns[i].key == ms[i].key
    requires Ordered(ms, MemberLeq) && DistinctKeys(ms)
    ensures Ordered(ns, MemberLeq) && DistinctKeys(ns)
  {
  }

  lemma FlagStable(sha: seq<int> -> Text, present: bool)
    ensures Stable(sha, Flag(present), false)
  {
    OwnKeysAreNotSecret();
    hide IsSecretKey;
    var members := [Member(Configured, Bool(present))];
    assert MemberStable(sha, members[0]);
    ObjStable(sha, members);
  }

  lemma DigestStable(sha: seq<int> -> Text, digest: Text, size: int)
    ensures Stable(sha, Obj([Member(Sha256, Str(digest)), Member(SizeBytes, Int(size))]), false)
  {
    OwnKeysAreNotSecret();
    hide IsSecretKey;
    var members := [Member(Sha256, Str(digest)), Member(SizeBytes, Int(size))];
    assert Sha256[0] == SizeBytes[0] && Sha256[1] == 'h' as int && SizeBytes[1] == 'i' as int;
    assert LexLeq(Sha256[1..], SizeBytes[1..]);
    assert MemberStable(sha, members[0]) && MemberStable(sha, members[1]);
    ObjStable(sha, members);
  }

  /** Normalising twice is normalising once exactly when no secret is absent. */
  lemma {:induction false} SecondPass(sha: seq<int> -> Text, v: Value, secret: bool, j: Json)
    requires Normalize(sha, v, secret) == Some(j)
    ensures Stable(sha, j, secret) <==> NoAbsentSecret(v, secret)
    decreases v
  {
    if !secret {
      match v
      case VSecret(s) => FlagStable(sha, s != []);
      case VBytes(bytes) => DigestStable(sha, sha(bytes), |bytes|);
      case VEnum(value) => SecondPass(sha, value, false, j);
      case VSequence(items) =>
        SecondPassItems(sha, items, NormalizeItems(sha, items).value);
        ArrStable(sha, NormalizeItems(sha, items).value);
      case VSet(elements) =>
        var js := NormalizeItems(sha, elements).value;
        hide Stable, SortBy;
        SecondPassItems(sha, elements, js);
        SetStable(sha, js);
      case VMapping(entries) =>
        var ms := NormalizeEntries(sha, entries).value;
        hide Stable, SortBy, MemberStable;
        SecondPassEntries(sha, entries, ms);
        MappingStable(sha, ms);
      case _ =>
    }
  }

  lemma SetStable(sha: seq<int> -> Text, js: seq<Json>)
    ensures Stable(sha, Arr(SortBy(js, PrintLeq)), false) <==> forall j :: j in js ==> Stable(sha, j, false)
  {
    hide *;
    ArrStable(sha, SortBy(js, PrintLeq));
    SameElements(js, SortBy(js, PrintLeq));
  }

  lemma MappingStable(sha: seq<int> -> Text, ms: seq<Member>)
    requires DistinctKeys(ms)
    ensures Stable(sha, Obj(SortBy(ms, MemberLeq)), false) <==> forall m :: m in ms ==> MemberStable(sha, m)
  {
    hide *;
    SortedMembers(ms);
    ObjStable(sha, SortBy(ms, MemberLeq));
    SameElements(ms, SortBy(ms, MemberLeq));
  }

  lemma SortedMembers(ms: seq<Member>)
    requires DistinctKeys(ms)
    ensures Ordered(SortBy(ms, MemberLeq), MemberLeq) && DistinctKeys(SortBy(ms, MemberLeq))
  {
    MemberLeqIsTotalPreorder();
    SortOrders(ms, MemberLeq);
    DistinctKeysPermuted(ms, SortBy(ms, MemberLeq));
  }

  lemma {:induction false} SecondPassItems(sha: seq<int> -> Text, items: seq<Value>, js: seq<Json>)
    requires NormalizeItems(sha, items) == Some(js)
    ensures (forall j :: j in js ==> Stable(sha, j, false)) <==>
            forall i | 0 <= i < |items| :: NoAbsentSecret(items[i], false)
    decreases items
  {
    forall i | 0 <= i < |items| ensures Stable(sha, js[i], false) <==> NoAbsentSecret(items[i], false) {
      SecondPass(sha, items[i], false, js[i]);
    }
  }

  lemma {:induction false} SecondPassEntries(sha: seq<int> -> Text, entries: seq<Entry>, ms: seq<Member>)
    requires NormalizeEntries(sha, entries) == Some(ms)
    ensures (forall m :: m in ms ==> MemberStable(sha, m)) <==>
            forall i | 0 <= i < |entries| :: NoAbsentSecret(entries[i].value, IsSecretKey(entries[i].text))
    decreases entries
  {
    forall i | 0 <= i < |entries|
      ensures MemberStable(sha, ms[i]) <==> NoAbsentSecret(entries[i].value, IsSecretKey(entries[i].text))
    {
      assert NormalizeEntry(sha, entries[i]) == Some(ms[i]);
      SecondPass(sha, entries[i].value, IsSecretKey(entries[i].text), ms[i].value);
    }
  }

  // ---- which values share a fingerprint input ------------------------------------

  lemma ArrKeySorted(items: seq<Json>)
    requires forall j :: j in items ==> SortKeys(j) == j
    ensures SortKeys(Arr(items)) == Arr(items)
  {
    forall i | 0 <= i < |items| ensures SortItems(items)[i] == items[i] {
      assert items[i] in items;
    }
  }

  lemma ObjKeySorted(members: seq<Member>)
    requires Ordered(members, MemberLeq)
    requires forall m :: m in members ==> SortKeys(m.value) == m.value
    ensures SortKeys(Obj(members)) == Obj(members)
  {
    forall i | 0 <= i < |members| ensures SortValues(members)[i] == members[i] {
      assert members[i] in members;
    }
    assert SortValues(members) == members;
    SortOfOrdered(members, MemberLeq);
  }

  lemma {:induction false} NormalizedIsKeySorted(sha: seq<int> -> Text, v: Value, secret: bool, j: Json)
    requires Normalize(sha, v, secret) == Some(j)
    ensures SortKeys(j) == j
    decreases v
  {
    if secret || v.VSecret? {
      ObjKeySorted(j.members);
    } else {
      match v
      case VBytes(bytes) =>
        assert Sha256[0] == SizeBytes[0] && Sha256[1] == 'h' as int && SizeBytes[1] == 'i' as int;
        assert LexLeq(Sha256[1..], SizeBytes[1..]);
        ObjKeySorted(j.members);
      case VEnum(value) => NormalizedIsKeySorted(sha, value, false, j);
      case VSequence(items) =>
        var js := NormalizeItems(sha, items).value;
        ItemsKeySorted(sha, items, js);
        ArrKeySorted(js);
      case VSet(elements) =>
        var js := NormalizeItems(sha, elements).value;
        ItemsKeySorted(sha, elements, js);
        SameElements(js, SortBy(js, PrintLeq));
        ArrKeySorted(SortBy(js, PrintLeq));
      case VMapping(entries) =>
        var ms := NormalizeEntries(sha, entries).value;
        EntriesKeySorted(sha, entries, ms);
        SortedMembers(ms);
        SameElements(ms, SortBy(ms, MemberLeq));
        ObjKeySorted(SortBy(ms, MemberLeq));
      case _ =>
    }
  }

  lemma {:induction false} ItemsKeySorted(sha: seq<int> -> Text, items: seq<Value>, js: seq<Json>)
    requires NormalizeItems(sha, items) == Some(js)
    ensures forall j :: j in js ==> SortKeys(j) == j
    decreases items
  {
    forall i | 0 <= i < |items| ensures SortKeys(js[i]) == js[i] {
      NormalizedIsKeySorted(sha, items[i], false, js[i]);
    }
  }

  lemma {:induction false} EntriesKeySorted(sha: seq<int> -> Text, entries: seq<Entry>, ms: seq<Member>)
    requires NormalizeEntries(sha, entries) == Some(ms)
    ensures forall m :: m in ms ==> SortKeys(m.value) == m.value
    decreases entries
  {
    forall i | 0 <= i < |entries| ensures SortKeys(ms[i].value) == ms[i].value {
      assert NormalizeEntry(sha, entries[i]) == Some(ms[i]);
      NormalizedIsKeySorted(sha, entries[i].value, IsSecretKey(entries[i].text), ms[i].value);
    }
  }

  /** Two values get the same canonical bytes exactly when their normalised trees are equal
      up to merged surrogate pairs; without such pairs, exactly when the trees are equal. */
  lemma CanonicalCollision(sha: seq<int> -> Text, v: Value, w: Value)
    requires Normalize(sha, v, false).Some? && Normalize(sha, w, false).Some?
    ensures var a, b := Normalize(sha, v, false).value, Normalize(sha, w, false).value;
            && (CanonicalText(sha, v) == CanonicalText(sha, w) <==> MergeAll(a) == MergeAll(b))
            && (AllPairFree(a) && AllPairFree(b) ==>
                 (CanonicalText(sha, v) == CanonicalText(sha, w) <==> a == b))
  {
    var a, b := Normalize(sha, v, false).value, Normalize(sha, w, false).value;
    NormalizedIsKeySorted(sha, v, false, a);
    NormalizedIsKeySorted(sha, w, false, b);
    PrintCollision(a, b);
    MergeAllIsIdentity(a);
    MergeAllIsIdentity(b);
  }

  /** An absent secret reads as configured on the second pass. */
  lemma AbsentSecretIsNotStable(sha: seq<int> -> Text)
    ensures var v := VMapping([Entry(Codes("token"), VNone)]);
            Normalize(sha, v, false) == Some(Obj([Member(Codes("token"), Flag(false))])) &&
            !Stable(sha, Obj([Member(Codes("token"), Flag(false))]), false)
  {
    var key := Codes("token");
    assert FoldText(key) == key && "token" in SecretKeys();
    assert IsSecretKey(key);
    hide IsSecretKey;
    var v := VMapping([Entry(key, VNone)]);
    var members := [Member(key, Flag(false))];
    assert NormalizeEntry(sha, v.entries[0]) == Some(members[0]);
    assert NormalizeEntries(sha, v.entries).value == members;
    SecondPass(sha, v, false, Obj(members));
    assert !NoAbsentSecret(v.entries[0].value, IsSecretKey(v.entries[0].text));
  }
}
