/** The persisted contracts shared by the store and the resume planner. */
module Contracts {
  import opened Prelude

  datatype Layer = Bronze | Silver | Gold | Platinum

  datatype RunState = Planned | Running | Partial | Succeeded | Failed | Cancelled

  datatype Namespace = Namespace(layer: Layer, runId: string)

  /** `info` stands for the name, media type, row counts and schema fingerprint. */
  datatype Descriptor = Descriptor(path: string, layer: Layer, size: nat, sha: string, required: bool, info: string)

  datatype ManifestRef = ManifestRef(layer: Layer, runId: string, sha: string)

  /** `info` stands for the request, environment, stages, fingerprint of the case and times. */
  datatype Manifest = Manifest(
    layer: Layer,
    kind: Layer,
    runId: string,
    state: RunState,
    artifacts: seq<Descriptor>,
    layerFingerprint: string,
    reuseFingerprint: Option<string>,
    upstream: seq<ManifestRef>,
    info: string)

  predicate IsAlnum(c: char) {
    'a' <= c <= 'z' || 'A' <= c <= 'Z' || '0' <= c <= '9'
  }

  /** `^[A-Za-z0-9](?:[A-Za-z0-9_.-]*[A-Za-z0-9_-])?$` */
  predicate IsSafeId(id: string) {
    && id != ""
    && IsAlnum(id[0])
    && (forall i :: 0 <= i < |id| ==> IsAlnum(id[i]) || id[i] in "_.-")
    && id[|id| - 1] != '.'
  }

  /** `word in s` */
  predicate Contains(s: string, word: string) {
    word <= s || (s != "" && Contains(s[1..], word))
  }

  predicate EndsIn(s: string, word: string) {
    |word| <= |s| && s[|s| - |word|..] == word
  }

  /** The ASCII codes of letters and digits. */
  predicate LetterOrDigit(code: int) { 65 <= code <= 90 || 97 <= code <= 122 || 48 <= code <= 57 }

  /** What an accepted identifier is: it is not empty, starts with a letter or a digit, goes on with letters,
      digits, underscores, dots and dashes, and does not end in a dot. */
  lemma SafeIdMeans(id: string)
    ensures IsSafeId(id) <==>
            && id != "" && LetterOrDigit(id[0] as int) && id[|id| - 1] != '.'
            && forall i :: 0 <= i < |id| ==> LetterOrDigit(id[i] as int) || id[i] == '_' || id[i] == '.' || id[i] == '-'
  {
  }

  lemma {:induction false} ContainsInside(a: string, word: string, b: string)
    ensures Contains(a + word + b, word)
  {
    if a == "" {
      assert word <= a + word + b;
    } else {
      assert (a + word + b)[1..] == a[1..] + word + b;
      ContainsInside(a[1..], word, b);
    }
  }

  lemma {:induction false} ContainsSplits(s: string, word: string)
    requires Contains(s, word)
    ensures exists a: string, b: string :: s == a + word + b
  {
    if word <= s {
      assert s == "" + word + s[|word|..];
    } else {
      ContainsSplits(s[1..], word);
      var a: string, b: string :| s[1..] == a + word + b;
      assert s == ([s[0]] + a) + word + b;
    }
  }

  /** `word` is in `s` exactly if `s` is something, then `word`, then something. */
  lemma ContainsMeans(s: string, word: string)
    ensures Contains(s, word) <==> exists a: string, b: string :: s == a + word + b
  {
    if Contains(s, word) { ContainsSplits(s, word); }
    if a: string, b: string :| s == a + word + b { ContainsInside(a, word, b); }
  }

  lemma EndsInMeans(s: string, word: string)
    ensures EndsIn(s, word) <==> exists a: string :: s == a + word
  {
    if EndsIn(s, word) { assert s == s[..|s| - |word|] + word; }
  }
}
