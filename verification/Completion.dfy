/** Structured completion: the degradation flag, the repair round and the response cache. */
module Completion {
  import opened Prelude

  /** What a provider call gives: content, an error that mentions status 400, or another error. */
  datatype Reply = Content(text: string) | BadRequest | OtherError

  /** A provider call: whether it carries a response format, and whether it is a repair. */
  datatype Sent = Sent(structured: bool, repair: bool)

  /** The cache key covers the whole prompt, schema included, and the response format. */
  datatype Key = Key(prompt: string, structured: bool)

  datatype State = State(degraded: bool, cache: map<Key, string>)

  datatype Ended<T> = Value(value: T) | LlmError

  /** What never changes about a client: whether its provider takes a response format, whether its
      cache is enabled, and how the content of a prompt parses and validates. */
  datatype Provider<!T> = Provider(supports: bool, caching: bool, validate: (string, string) -> Option<T>)

  datatype Attempted<T> = Attempted(state: State, ended: Ended<T>, sent: seq<Sent>)

  /** One more provider answer is consumed by each call. */
  type Replies = nat -> Reply

  function Structured<T>(p: Provider<T>, s: State): bool { p.supports && !s.degraded }

  /** From a response on: validate it, repair it once, and cache what validates. */
  function Settle<T>(p: Provider<T>, s: State, prompt: string, structured: bool, content: string, replies: Replies,
                     sent: seq<Sent>): Attempted<T> {
    var stored := (text: string) => if p.caching then State(s.degraded, s.cache[Key(prompt, structured) := text]) else s;
    match p.validate(prompt, content)
    case Some(value) => Attempted(stored(content), Value(value), sent)
    case None =>
      var asked := sent + [Sent(structured, true)];
      match replies(|sent|)
      case Content(repaired) =>
        (match p.validate(prompt, repaired)
         case Some(value) => Attempted(stored(repaired), Value(value), asked)
         case None => Attempted(s, LlmError, asked))
      case _ => Attempted(s, LlmError, asked)
  }

  /** One call of `_do_complete_structured`. */
  function Attempt<T>(p: Provider<T>, s: State, prompt: string, replies: Replies): Attempted<T> {
    var structured := Structured(p, s);
    if p.caching && Key(prompt, structured) in s.cache then
      Settle(p, s, prompt, structured, s.cache[Key(prompt, structured)], replies, [])
    else
      var first := [Sent(structured, false)];
      match replies(0)
      case Content(text) => Settle(p, s, prompt, structured, text, replies, first)
      case BadRequest =>
        if !structured then Attempted(s, LlmError, first)
        else
          var degraded := State(true, s.cache);
          var second := first + [Sent(false, false)];
          (match replies(1)
           case Content(text) => Settle(p, degraded, prompt, false, text, replies, second)
           case _ => Attempted(degraded, LlmError, second))
      case OtherError => Attempted(s, LlmError, first)
  }

  class Client<!T> {
    const provider: Provider<T>
    var degraded: bool
    var cache: map<Key, string>

    constructor (provider: Provider<T>)
      ensures this.provider == provider && !degraded && cache == map[]
    {
      this.provider := provider;
      degraded, cache := false, map[];
    }

    function Current(): State
      reads this
    {
      State(degraded, cache)
    }

    /** `_do_complete_structured` */
    method CompleteStructured(prompt: string, replies: Replies) returns (ended: Ended<T>, sent: seq<Sent>)
      modifies this
      ensures Attempted(Current(), ended, sent) == Attempt(provider, old(Current()), prompt, replies)
    {
      sent := [];
      var structured := provider.supports && !degraded;
      var key := Key(prompt, structured);
      var content: string;
      if provider.caching && key in cache {
        content := cache[key];
      } else {
        var reply := replies(0);
        sent := [Sent(structured, false)];
        if reply.BadRequest? && structured {
          degraded := true;
          structured := false;
          key := Key(prompt, structured);
          reply := replies(1);
          sent := sent + [Sent(structured, false)];
        }
        if !reply.Content? {
          return LlmError, sent;
        }
        content := reply.text;
      }
      var result := provider.validate(prompt, content);
      if result.None? {
        var repair := replies(|sent|);
        sent := sent + [Sent(structured, true)];
        if !repair.Content? {
          return LlmError, sent;
        }
        content := repair.text;
        result := provider.validate(prompt, content);
        if result.None? {
          return LlmError, sent;
        }
      }
      if provider.caching {
        cache := cache[key := content];
      }
      return Value(result.value), sent;
    }
  }

  // ---- one attempt ---------------------------------------------------------------------------

  /** At most three provider calls, at most one of them a repair and that the last; the flag is never
      cleared and is set only by a rejected structured call; after it, nothing carries a format. */
  lemma AttemptBounds<T>(p: Provider<T>, s: State, prompt: string, replies: Replies)
    ensures var a := Attempt(p, s, prompt, replies);
            && |a.sent| <= 3
            && (forall i :: 0 <= i < |a.sent| - 1 ==> !a.sent[i].repair)
            && (s.degraded ==> a.state.degraded)
            && (forall i :: 0 <= i < |a.sent| && a.sent[i].structured ==> Structured(p, s))
            && (forall i :: 0 <= i < |a.sent| && !a.sent[i].structured && p.supports ==> a.state.degraded)
            && (forall i, j :: 0 <= i < j < |a.sent| && a.sent[j].structured ==> a.sent[i].structured)
            && (Structured(p, s) && a.state.degraded ==> a.sent != [] && replies(0) == BadRequest)
  {
  }

  /** An attempt that fails leaves the cache alone; one that succeeds stores, when the cache is
      enabled, one content that validates to the value it returns, under the key of its final mode. */
  lemma AttemptStores<T>(p: Provider<T>, s: State, prompt: string, replies: Replies)
    ensures var a := Attempt(p, s, prompt, replies);
            && (a.ended.LlmError? || !p.caching ==> a.state.cache == s.cache)
            && (a.ended.Value? && p.caching ==>
                  var key := Key(prompt, Structured(p, a.state));
                  && key in a.state.cache && a.state.cache == s.cache[key := a.state.cache[key]]
                  && p.validate(prompt, a.state.cache[key]) == Some(a.ended.value))
  {
  }

  /** What the attempt starts from and how many calls that took: cached content, the first answer, or the
      answer to the call without a response format that follows a rejected one. */
  ghost predicate StartsFrom<T>(p: Provider<T>, s: State, prompt: string, replies: Replies, content: string, calls: nat) {
    var key := Key(prompt, p.supports && !s.degraded);
    if p.caching && key in s.cache then calls == 0 && content == s.cache[key]
    else if replies(0).Content? then calls == 1 && content == replies(0).text
    else p.supports && !s.degraded && replies(0) == BadRequest && calls == 2 && replies(1) == Content(content)
  }

  /** A call ends with a value exactly if what it starts from validates to it, or does not validate and
      the one repair that follows does; it ends in an error otherwise. */
  lemma AttemptAnswers<T>(p: Provider<T>, s: State, prompt: string, replies: Replies, value: T)
    ensures Attempt(p, s, prompt, replies).ended == Value(value) <==>
            exists content, calls: nat :: StartsFrom(p, s, prompt, replies, content, calls)
              && (|| p.validate(prompt, content) == Some(value)
                  || (&& p.validate(prompt, content) == None && replies(calls).Content?
                      && p.validate(prompt, replies(calls).text) == Some(value)))
  {
    var key := Key(prompt, p.supports && !s.degraded);
    if p.caching && key in s.cache {
      assert StartsFrom(p, s, prompt, replies, s.cache[key], 0);
    } else if replies(0).Content? {
      assert StartsFrom(p, s, prompt, replies, replies(0).text, 1);
    } else if replies(1).Content? && replies(0) == BadRequest && p.supports && !s.degraded {
      assert StartsFrom(p, s, prompt, replies, replies(1).text, 2);
    }
  }

  /** How many calls are made, and when the client degrades. */
  lemma AttemptCalls<T>(p: Provider<T>, s: State, prompt: string, replies: Replies, content: string, calls: nat)
    requires StartsFrom(p, s, prompt, replies, content, calls)
    ensures var a := Attempt(p, s, prompt, replies);
            && |a.sent| == calls + (if p.validate(prompt, content) == None then 1 else 0)
            && (a.state.degraded <==> s.degraded || calls == 2)
  {
  }

  // ---- sessions of attempts -----------------------------------------------------------------------

  datatype Turn = Turn(prompt: string, replies: Replies)

  datatype Session<T> = Session(state: State, ended: seq<Ended<T>>, sent: seq<Sent>)

  function Play<T>(p: Provider<T>, s: State, turns: seq<Turn>): Session<T>
    decreases |turns|
  {
    if turns == [] then Session(s, [], [])
    else
      var a := Attempt(p, s, turns[0].prompt, turns[0].replies);
      var rest := Play(p, a.state, turns[1..]);
      Session(rest.state, [a.ended] + rest.ended, a.sent + rest.sent)
  }

  /** A log of calls between two values of the flag: a call carries a format only if the flag is not
      set before, lacks one only if it is set after, and none carries one after one that does not. */
  ghost predicate Fits(log: seq<Sent>, before: bool, after: bool) {
    && (forall i :: 0 <= i < |log| ==> if log[i].structured then !before else after)
    && (forall i, j :: 0 <= i < j < |log| && log[j].structured ==> log[i].structured)
  }

  lemma JoinedLogs(a: seq<Sent>, b: seq<Sent>, before: bool, middle: bool, after: bool)
    requires Fits(a, before, middle) && Fits(b, middle, after) && (before ==> middle) && (middle ==> after)
    ensures Fits(a + b, before, after)
  {
    var all := a + b;
    forall i | 0 <= i < |all| ensures if all[i].structured then !before else after {
      if i >= |a| { assert all[i] == b[i - |a|]; }
    }
    forall i, j | 0 <= i < j < |all| && all[j].structured ensures all[i].structured {
      if i < |a| {
        if j >= |a| { assert all[j] == b[j - |a|]; }
      } else {
        assert all[i] == b[i - |a|] && all[j] == b[j - |a|];
      }
    }
  }

  /** Over a whole session the flag is never cleared, and the calls that carry a response format all
      come before those that do not. */
  lemma {:induction false} FormatIsDroppedForGood<T>(p: Provider<T>, s: State, turns: seq<Turn>)
    requires p.supports
    ensures s.degraded ==> Play(p, s, turns).state.degraded
    ensures Fits(Play(p, s, turns).sent, s.degraded, Play(p, s, turns).state.degraded)
    decreases |turns|
  {
    if turns != [] {
      var a := Attempt(p, s, turns[0].prompt, turns[0].replies);
      AttemptBounds(p, s, turns[0].prompt, turns[0].replies);
      assert Fits(a.sent, s.degraded, a.state.degraded);
      hide Attempt, Settle, Fits;
      FormatIsDroppedForGood(p, a.state, turns[1..]);
      var rest := Play(p, a.state, turns[1..]);
      JoinedLogs(a.sent, rest.sent, s.degraded, a.state.degraded, rest.state.degraded);
    }
  }

  /** Everything a session adds to the cache validates. */
  lemma {:induction false} SessionCachesValid<T>(p: Provider<T>, s: State, turns: seq<Turn>, key: Key)
    requires key in Play(p, s, turns).state.cache
    ensures var cache := Play(p, s, turns).state.cache;
            (key in s.cache && s.cache[key] == cache[key]) || p.validate(key.prompt, cache[key]).Some?
    decreases |turns|
  {
    if turns != [] {
      var a := Attempt(p, s, turns[0].prompt, turns[0].replies);
      AttemptStores(p, s, turns[0].prompt, turns[0].replies);
      hide Attempt, Settle;
      SessionCachesValid(p, a.state, turns[1..], key);
    }
  }

  /** The key of a prompt holds content that validates to some value. */
  ghost predicate Holds<T>(p: Provider<T>, s: State, key: Key, value: T) {
    key in s.cache && p.validate(key.prompt, s.cache[key]) == Some(value)
  }

  lemma AttemptKeeps<T>(p: Provider<T>, s: State, prompt: string, replies: Replies, key: Key, value: T)
    requires p.caching && Holds(p, s, key, value)
    ensures Holds(p, Attempt(p, s, prompt, replies).state, key, value) || (p.supports && key.structured != Structured(p, s))
  {
  }

  /** While the mode is that of a stored value, no session replaces the value. */
  lemma {:induction false} SessionKeeps<T>(p: Provider<T>, s: State, turns: seq<Turn>, key: Key, value: T)
    requires p.caching && Holds(p, s, key, value) && key.structured == Structured(p, s)
    requires Play(p, s, turns).state.degraded == s.degraded
    ensures Holds(p, Play(p, s, turns).state, key, value)
    decreases |turns|
  {
    if turns != [] {
      var a := Attempt(p, s, turns[0].prompt, turns[0].replies);
      AttemptBounds(p, s, turns[0].prompt, turns[0].replies);
      AttemptKeeps(p, s, turns[0].prompt, turns[0].replies, key, value);
      StaysDegraded(p, a.state, turns[1..]);
      hide Attempt, Settle;
      SessionKeeps(p, a.state, turns[1..], key, value);
    }
  }

  lemma {:induction false} StaysDegraded<T>(p: Provider<T>, s: State, turns: seq<Turn>)
    ensures s.degraded ==> Play(p, s, turns).state.degraded
    decreases |turns|
  {
    if turns != [] {
      AttemptBounds(p, s, turns[0].prompt, turns[0].replies);
      hide Attempt, Settle;
      StaysDegraded(p, Attempt(p, s, turns[0].prompt, turns[0].replies).state, turns[1..]);
    }
  }

  /** In every state, a call is answered with a value and without a provider call exactly if the
      key of the current mode holds content that validates to it. */
  lemma FreeAnswer<T>(p: Provider<T>, s: State, prompt: string, replies: Replies, value: T)
    ensures var a := Attempt(p, s, prompt, replies);
            (a.sent == [] && a.ended == Value(value)) <==>
            (p.caching && Holds(p, s, Key(prompt, Structured(p, s)), value))
  {
  }

  /** Repeating a call that succeeded, after any session in between and whatever the provider would
      answer, returns the same value without a provider call exactly if that session has not switched
      the client to the degraded mode, or the prompt's key in that mode holds the value too. */
  lemma RepeatIsCached<T>(p: Provider<T>, s: State, prompt: string, replies: Replies, between: seq<Turn>, later: Replies)
    requires p.caching && Attempt(p, s, prompt, replies).ended.Value?
    ensures var a := Attempt(p, s, prompt, replies);
            var end := Play(p, a.state, between).state;
            var again := Attempt(p, end, prompt, later);
            (again.sent == [] && again.ended == a.ended) <==>
            (end.degraded == a.state.degraded || Holds(p, end, Key(prompt, false), a.ended.value))
  {
    var a := Attempt(p, s, prompt, replies);
    var end := Play(p, a.state, between).state;
    AttemptStores(p, s, prompt, replies);
    var key := Key(prompt, Structured(p, a.state));
    FreeAnswer(p, end, prompt, later, a.ended.value);
    StaysDegraded(p, a.state, between);
    hide Attempt, Play;
    if end.degraded == a.state.degraded {
      SessionKeeps(p, a.state, between, key, a.ended.value);
    }
  }

  /** A call answered before the switch is asked again after it: another prompt's rejected request
      is enough to lose the stored answer. */
  lemma SwitchLosesAnswer() returns (p: Provider<string>, replies: Replies, between: seq<Turn>)
    ensures p.caching && Attempt(p, State(false, map[]), "a", replies).ended.Value?
    ensures var after := Attempt(p, State(false, map[]), "a", replies).state;
            Attempt(p, Play(p, after, between).state, "a", replies).sent != []
  {
    p := Provider(true, true, (prompt: string, content: string) => Some(content));
    replies := (n: nat) => Content("x");
    var rejecting := (n: nat) => BadRequest;
    between := [Turn("b", rejecting)];
    var after := Attempt(p, State(false, map[]), "a", replies).state;
    assert after == State(false, map[Key("a", true) := "x"]);
    var b := Attempt(p, after, "b", rejecting);
    assert b.state.degraded && b.state.cache == after.cache;
    assert between[1..] == [];
    assert Play(p, b.state, between[1..]).state == b.state;
    assert Play(p, after, between).state == b.state;
    assert Key("a", false) !in b.state.cache;
  }
}
