/**
 The panel that shows follow-up prompts for the last assistant message: it waits until the message
 has settled, asks the bridge once per message, caches the answers, and replies may arrive in any order.

 `Step` is the meaning of one event on state values, the class `Panel` performs the events in place,
 and the lemmas at the end speak about every run from the initial state.
 */
module StepwisePanel {
  import opened Wrappers

  const STREAM_IDLE_MS := 1300

  type Key = string

  datatype Prompt = Prompt(caption: string, prompt: string)

  type Prompts = seq<Prompt>

  /** The hash of a list of prompts; nothing is assumed about it unless a lemma says so. */
  type PromptsHash = Prompts -> string

  /** What a look at the page yields: the hash of the assistant text, the request key, the prompts in the text. */
  datatype Message = Message(hash: string, key: Key, inlinePrompts: Prompts)

  /** The source keeps this as one string: empty, `h:pending`, `h:manual-refresh` or `h:<hash of prompts>`. */
  datatype Display = Nothing | Pending(hash: string) | Manual(hash: string) | Shown(hash: string, promptsHash: string)

  datatype Answer = Answer(disabled: bool, failed: bool, prompts: Prompts) | Lost

  datatype State = State(
    lastHash: string,
    lastAt: int,
    current: Display,
    prompts: Prompts,
    cache: map<Key, Prompts>,
    pending: Key,
    statusPending: bool)

  datatype Event =
    | Idle
    | Scan(message: Message, now: int)
    | RefreshBusy
    | RefreshEmpty
    | Refresh(message: Message, enabled: bool)
    | Reply(key: Key, answer: Answer)

  const INITIAL := State("", 0, Nothing, [], map[], "", false)

  /** The prompts a bridge answer contributes: none when it is disabled, failed or lost. */
  function PromptsOf(a: Answer): Prompts {
    if a.Lost? || a.disabled || a.failed then [] else a.prompts
  }

  /** The prompts to show for a message: the bridge's if there are any, else those in the text. */
  function Choose(s: State, m: Message): Prompts {
    if m.key in s.cache && s.cache[m.key] != [] then s.cache[m.key] else m.inlinePrompts
  }

  function Ask(s: State, key: Key, enabled: bool): (State, Option<Key>) {
    if !enabled || key == "" || s.pending == key || key in s.cache then (s, None)
    else (s.(pending := key, statusPending := true), Some(key))
  }

  function ScanStep(h: PromptsHash, s: State, m: Message, now: int): (State, Option<Key>) {
    if m.hash != s.lastHash then
      var t := s.(lastHash := m.hash, lastAt := now);
      (if s.prompts != [] || s.current != Nothing then t.(current := Pending(m.hash), prompts := []) else t, None)
    else if now - s.lastAt < STREAM_IDLE_MS then (s, None)
    else
      var prompts := Choose(s, m);
      var (t, request) := if m.key in s.cache then (s, None) else Ask(s, m.key, true);
      var shown := Shown(m.hash, h(prompts));
      (if s.current != shown then t.(current := shown, prompts := prompts) else t, request)
  }

  function RefreshStep(s: State, m: Message, enabled: bool): (State, Option<Key>) {
    if s.statusPending then (s, None)
    else
      var t := State(m.hash, 0, Manual(m.hash), [],
                     if m.key != "" then s.cache - {m.key} else s.cache, s.pending, s.statusPending);
      Ask(t, m.key, enabled)
  }

  function ReplyStep(s: State, key: Key, a: Answer): State {
    s.(cache := s.cache[key := PromptsOf(a)],
       statusPending := false,
       pending := if s.pending == key then "" else s.pending)
  }

  function Step(h: PromptsHash, s: State, e: Event): (State, Option<Key>) {
    match e
    case Idle => (s, None)
    case Scan(m, now) => ScanStep(h, s, m, now)
    case RefreshBusy => (s, None)
    case RefreshEmpty => (if s.statusPending then s else s.(prompts := []), None)
    case Refresh(m, enabled) => RefreshStep(s, m, enabled)
    case Reply(key, a) => (ReplyStep(s, key, a), None)
  }

  class Panel {
    const promptsHash: PromptsHash
    var lastAssistantHash: string
    var lastAssistantAt: int
    var currentHash: Display
    var prompts: Prompts
    var bridgeCache: map<Key, Prompts>
    var bridgePendingHash: Key
    var statusPending: bool

    function Value(): State reads this {
      State(lastAssistantHash, lastAssistantAt, currentHash, prompts, bridgeCache, bridgePendingHash, statusPending)
    }

    constructor (h: PromptsHash)
      ensures Value() == INITIAL && promptsHash == h
    {
      promptsHash := h;
      lastAssistantHash, lastAssistantAt := "", 0;
      currentHash, prompts := Nothing, [];
      bridgeCache, bridgePendingHash, statusPending := map[], "", false;
    }

    method RequestBridgeStepwise(key: Key, enabled: bool) returns (request: Option<Key>)
      modifies this`bridgePendingHash, this`statusPending
      ensures (Value(), request) == Ask(old(Value()), key, enabled)
    {
      if !enabled {
        return None;
      }
      if key == "" || bridgePendingHash == key || key in bridgeCache {
        return None;
      }
      bridgePendingHash := key;
      statusPending := true;
      request := Some(key);
    }

    method ClearPromptsForNewAssistant(hash: string)
      modifies this`currentHash, this`prompts
      ensures Value() == old(Value()).(current := Pending(hash), prompts := [])
    {
      currentHash := Pending(hash);
      prompts := [];
    }

    method ScanMessage(message: Message, now: int) returns (request: Option<Key>)
      modifies this
      ensures (Value(), request) == ScanStep(promptsHash, old(Value()), message, now)
    {
      request := None;
      if message.hash != lastAssistantHash {
        lastAssistantHash := message.hash;
        lastAssistantAt := now;
        if prompts != [] || currentHash != Nothing {
          ClearPromptsForNewAssistant(message.hash);
        }
        return;
      }
      if now - lastAssistantAt < STREAM_IDLE_MS {
        return;
      }
      var cached := message.key in bridgeCache;
      var chosen := if cached && bridgeCache[message.key] != [] then bridgeCache[message.key]
          else message.inlinePrompts;
      if !cached {
        request := RequestBridgeStepwise(message.key, true);
      }
      var next := Shown(message.hash, promptsHash(chosen));
      if currentHash != next {
        currentHash := next;
        prompts := chosen;
      }
    }

    method ForceRefreshStepwise(busy: bool, found: Option<Message>, enabled: bool) returns (request: Option<Key>)
      modifies this
      ensures (Value(), request) == Step(promptsHash, old(Value()),
                if busy then RefreshBusy else if found.None? then RefreshEmpty else Refresh(found.value, enabled))
    {
      request := None;
      if statusPending || busy {
        return;
      }
      if found.None? {
        prompts := [];
        return;
      }
      var message := found.value;
      if message.key != "" {
        bridgeCache := bridgeCache - {message.key};
      }
      lastAssistantHash := message.hash;
      lastAssistantAt := 0;
      currentHash := Manual(message.hash);
      prompts := [];
      request := RequestBridgeStepwise(message.key, enabled);
    }

    method ReceiveReply(key: Key, answer: Answer)
      modifies this
      ensures Value() == ReplyStep(old(Value()), key, answer)
    {
      bridgeCache := bridgeCache[key := PromptsOf(answer)];
      statusPending := false;
      if bridgePendingHash == key {
        bridgePendingHash := "";
      }
    }
  }

  // ---------------------------------------------------------------------------------------------
  // Runs

  function After(h: PromptsHash, events: seq<Event>): State {
    if events == [] then INITIAL
    else Step(h, After(h, events[..|events| - 1]), events[|events| - 1]).0
  }

  /** The key requested from the bridge by event `i`, if any. */
  function Requested(h: PromptsHash, events: seq<Event>, i: nat): Option<Key>
    requires i < |events|
  {
    Step(h, After(h, events[..i]), events[i]).1
  }

  lemma AfterOneMore(h: PromptsHash, events: seq<Event>, i: nat)
    requires i < |events|
    ensures After(h, events[..i + 1]) == Step(h, After(h, events[..i]), events[i]).0
  {
    assert events[..i + 1][..i] == events[..i];
  }

  lemma AfterNothing(h: PromptsHash, events: seq<Event>)
    ensures After(h, events[..0]) == INITIAL
  {}

  /** Scans carry the clock, which never runs backwards. */
  ghost predicate ClockRuns(events: seq<Event>) {
    forall i, j :: 0 <= i < j < |events| && events[i].Scan? && events[j].Scan? ==> events[i].now <= events[j].now
  }

  // ---------------------------------------------------------------------------------------------
  // What is shown belongs to the message last recorded

  /** Some event before `n` saw message `m`. */
  ghost predicate Saw(events: seq<Event>, n: nat, m: Message)
    requires n <= |events|
  {
    exists i :: 0 <= i < n && (events[i].Scan? || events[i].Refresh?) && events[i].message == m
  }

  ghost predicate Answered(events: seq<Event>, n: nat, key: Key, p: Prompts)
    requires n <= |events|
  {
    exists i :: 0 <= i < n && events[i].Reply? && events[i].key == key && PromptsOf(events[i].answer) == p
  }

  /** The prompts stood in a message with this hash, or the bridge gave them for such a message. */
  ghost predicate Belong(events: seq<Event>, n: nat, hash: string, p: Prompts)
    requires n <= |events|
  {
    exists m :: Saw(events, n, m) && m.hash == hash && (p == m.inlinePrompts || Answered(events, n, m.key, p))
  }

  lemma CachedByStep(h: PromptsHash, s: State, e: Event, key: Key)
    requires key in Step(h, s, e).0.cache
    ensures var t := Step(h, s, e).0;
            || (key in s.cache && t.cache[key] == s.cache[key])
            || (e.Reply? && e.key == key && t.cache[key] == PromptsOf(e.answer))
  {}

  lemma {:induction false} CacheIsAnswers(h: PromptsHash, events: seq<Event>, n: nat, key: Key)
    requires n <= |events| && key in After(h, events[..n]).cache
    ensures Answered(events, n, key, After(h, events[..n]).cache[key])
  {
    hide Step, After;
    AfterNothing(h, events);
    if n > 0 {
      AfterOneMore(h, events, n - 1);
      var before := After(h, events[..n - 1]);
      CachedByStep(h, before, events[n - 1], key);
      if key in before.cache {
        CacheIsAnswers(h, events, n - 1, key);
      }
    }
  }

  lemma ShownByStep(h: PromptsHash, s: State, e: Event)
    ensures var t := Step(h, s, e).0;
            t.prompts != [] ==>
              || (t.prompts == s.prompts && t.lastHash == s.lastHash && t.current == s.current)
              || (e.Scan? && t.prompts == Choose(s, e.message) && t.lastHash == e.message.hash == t.current.hash
                  && t.current.Shown?)
    ensures var t := Step(h, s, e).0;
            (t.current == s.current && t.lastHash == s.lastHash) || t.current == Nothing || t.current.hash == t.lastHash
  {}

  /** In every run, whatever order replies arrive in, shown prompts belong to the recorded assistant message. */
  lemma {:induction false} PromptsBelongToLastMessage(h: PromptsHash, events: seq<Event>, n: nat)
    requires n <= |events|
    ensures var s := After(h, events[..n]);
            s.prompts != [] ==>
              s.current.Shown? && s.current.hash == s.lastHash && Belong(events, n, s.lastHash, s.prompts)
    ensures var s := After(h, events[..n]);
            s.current == Nothing || s.current.hash == s.lastHash
  {
    hide Step, After;
    AfterNothing(h, events);
    if n > 0 {
      AfterOneMore(h, events, n - 1);
      PromptsBelongToLastMessage(h, events, n - 1);
      var before, e := After(h, events[..n - 1]), events[n - 1];
      var after := After(h, events[..n]);
      ShownByStep(h, before, e);
      if after.prompts != [] {
        if after.prompts == before.prompts && after.lastHash == before.lastHash && after.current == before.current {
          BelongLater(events, n - 1, before.lastHash, before.prompts);
        } else {
          assert Saw(events, n, e.message);
          if e.message.key in before.cache {
            CacheIsAnswers(h, events, n - 1, e.message.key);
          }
        }
      }
    }
  }

  lemma BelongLater(events: seq<Event>, n: nat, hash: string, p: Prompts)
    requires n < |events| && Belong(events, n, hash, p)
    ensures Belong(events, n + 1, hash, p)
  {
    var m :| Saw(events, n, m) && m.hash == hash && (p == m.inlinePrompts || Answered(events, n, m.key, p));
    assert Saw(events, n + 1, m);
  }

  // ---------------------------------------------------------------------------------------------
  // Requests wait until the message has settled

  /** Every scan up to `n` in the last `STREAM_IDLE_MS` before `now` saw this hash. */
  ghost predicate Settled(events: seq<Event>, n: nat, hash: string, since: int)
    requires n <= |events|
  {
    forall j :: 0 <= j < n && events[j].Scan? && events[j].now > since ==> events[j].message.hash == hash
  }

  /** A refresh by hand that is not ignored: no answer was being waited for. */
  ghost predicate Effective(h: PromptsHash, events: seq<Event>, r: nat)
    requires r < |events|
  {
    (events[r].Refresh? || events[r].RefreshEmpty?) && !After(h, events[..r]).statusPending
  }

  /** The user refreshed this message by hand at `r`, and every scan since saw it. */
  ghost predicate RefreshedAt(h: PromptsHash, events: seq<Event>, n: nat, hash: string, r: nat)
    requires n <= |events|
  {
    && r < n && Effective(h, events, r) && events[r].Refresh? && events[r].message.hash == hash
    && forall j :: r < j < n && events[j].Scan? ==> events[j].message.hash == hash
  }

  ghost predicate Refreshed(h: PromptsHash, events: seq<Event>, n: nat, hash: string)
    requires n <= |events|
  {
    exists r: nat :: RefreshedAt(h, events, n, hash, r)
  }

  lemma RecordedByStep(h: PromptsHash, s: State, e: Event)
    ensures var t := Step(h, s, e).0;
            || (t.lastHash == s.lastHash && t.lastAt == s.lastAt && (e.Scan? ==> e.message.hash == t.lastHash))
            || (e.Scan? && t.lastHash == e.message.hash && t.lastAt == e.now)
            || (e.Refresh? && !s.statusPending && t.lastHash == e.message.hash)
  {}

  lemma {:induction false} CalmSinceLastChange(h: PromptsHash, events: seq<Event>, n: nat)
    requires n <= |events| && ClockRuns(events)
    ensures var s := After(h, events[..n]);
            Settled(events, n, s.lastHash, s.lastAt) || Refreshed(h, events, n, s.lastHash)
  {
    hide Step, After;
    if n > 0 {
      AfterOneMore(h, events, n - 1);
      CalmSinceLastChange(h, events, n - 1);
      var before, after, e := After(h, events[..n - 1]), After(h, events[..n]), events[n - 1];
      RecordedByStep(h, before, e);
      if e.Refresh? && !before.statusPending && after.lastHash == e.message.hash {
        assert RefreshedAt(h, events, n, after.lastHash, n - 1);
      } else if after.lastHash == before.lastHash && Refreshed(h, events, n - 1, before.lastHash) {
        if e.Scan? ==> e.message.hash == before.lastHash {
          RefreshedLater(h, events, n - 1, before.lastHash);
        }
      }
    }
  }

  lemma RefreshedLater(h: PromptsHash, events: seq<Event>, n: nat, hash: string)
    requires n < |events| && Refreshed(h, events, n, hash) && (events[n].Scan? ==> events[n].message.hash == hash)
    ensures Refreshed(h, events, n + 1, hash)
  {
    hide After;
    var r: nat :| RefreshedAt(h, events, n, hash, r);
    assert RefreshedAt(h, events, n + 1, hash, r);
  }

  /**
   No scan asks the bridge about a message unless every scan of the idle time before saw it, or the user
   refreshed that very message by hand and every scan since saw it.
   */
  lemma RequestsAreSettled(h: PromptsHash, events: seq<Event>, i: nat)
    requires i < |events| && ClockRuns(events) && events[i].Scan? && Requested(h, events, i).Some?
    ensures var m := events[i].message;
            Settled(events, i, m.hash, events[i].now - STREAM_IDLE_MS) || Refreshed(h, events, i, m.hash)
  {
    CalmSinceLastChange(h, events, i);
  }

  // ---------------------------------------------------------------------------------------------
  // How often a key is asked for

  /** The key was answered, and not refreshed by hand since. */
  ghost predicate AnsweredAt(h: PromptsHash, events: seq<Event>, n: nat, key: Key, i: nat)
    requires n <= |events|
  {
    && i < n && events[i].Reply? && events[i].key == key
    && forall r :: i < r < n && events[r].Refresh? && events[r].message.key == key ==> !Effective(h, events, r)
  }

  ghost predicate HasAnswer(h: PromptsHash, events: seq<Event>, n: nat, key: Key)
    requires n <= |events|
  {
    exists i: nat :: AnsweredAt(h, events, n, key, i)
  }

  /** The key was the last one requested, and not answered since. */
  ghost predicate AwaitedSince(h: PromptsHash, events: seq<Event>, n: nat, key: Key, i: nat)
    requires n <= |events|
  {
    && i < n && Requested(h, events, i) == Some(key)
    && (forall k :: i < k < n ==> Requested(h, events, k).None?)
    && forall k :: i < k < n && events[k].Reply? ==> events[k].key != key
  }

  ghost predicate Awaited(h: PromptsHash, events: seq<Event>, n: nat, key: Key)
    requires n <= |events|
  {
    exists i: nat :: AwaitedSince(h, events, n, key, i)
  }

  lemma CacheByStep(h: PromptsHash, s: State, e: Event, key: Key)
    requires key != ""
    ensures key in Step(h, s, e).0.cache <==>
              if e.Reply? && e.key == key then true
              else if e.Refresh? && !s.statusPending && e.message.key == key then false
              else key in s.cache
  {}

  lemma {:induction false} CachedIffAnswered(h: PromptsHash, events: seq<Event>, n: nat, key: Key)
    requires n <= |events| && key != ""
    ensures key in After(h, events[..n]).cache <==> HasAnswer(h, events, n, key)
  {
    hide Step, After;
    AfterNothing(h, events);
    if n > 0 {
      AfterOneMore(h, events, n - 1);
      CachedIffAnswered(h, events, n - 1, key);
      CacheByStep(h, After(h, events[..n - 1]), events[n - 1], key);
      AnswerOneMore(h, events, n - 1, key);
    }
  }

  lemma AnswerOneMore(h: PromptsHash, events: seq<Event>, n: nat, key: Key)
    requires n < |events|
    ensures HasAnswer(h, events, n + 1, key) <==>
              if events[n].Reply? && events[n].key == key then true
              else if events[n].Refresh? && events[n].message.key == key && Effective(h, events, n) then false
              else HasAnswer(h, events, n, key)
  {
    hide Effective;
    if events[n].Reply? && events[n].key == key {
      assert AnsweredAt(h, events, n + 1, key, n);
    } else {
      if i: nat :| AnsweredAt(h, events, n, key, i) {
        assert AnsweredAt(h, events, n + 1, key, i) || Effective(h, events, n);
      }
      var next := n + 1;
      if i: nat :| AnsweredAt(h, events, next, key, i) {
        assert AnsweredAt(h, events, n, key, i);
      }
    }
  }

  lemma PendingByStep(h: PromptsHash, s: State, e: Event)
    ensures var (t, request) := Step(h, s, e);
            t.pending == if request.Some? then request.value else if e.Reply? && e.key == s.pending then ""
                else s.pending
    ensures Step(h, s, e).1.Some? ==> !e.Reply? && Step(h, s, e).1.value != ""
  {}

  lemma {:induction false} PendingIffAwaited(h: PromptsHash, events: seq<Event>, n: nat, key: Key)
    requires n <= |events| && key != ""
    ensures After(h, events[..n]).pending == key <==> Awaited(h, events, n, key)
  {
    hide Step, After;
    AfterNothing(h, events);
    if n > 0 {
      AfterOneMore(h, events, n - 1);
      PendingIffAwaited(h, events, n - 1, key);
      PendingByStep(h, After(h, events[..n - 1]), events[n - 1]);
      AwaitedOneMore(h, events, n - 1, key);
    }
  }

  lemma AwaitedOneMore(h: PromptsHash, events: seq<Event>, n: nat, key: Key)
    requires n < |events|
    ensures Awaited(h, events, n + 1, key) <==>
              if Requested(h, events, n).Some? then Requested(h, events, n) == Some(key)
              else Awaited(h, events, n, key) && !(events[n].Reply? && events[n].key == key)
  {
    hide Requested;
    if Requested(h, events, n) == Some(key) {
      assert AwaitedSince(h, events, n + 1, key, n);
    } else {
      if i: nat :| AwaitedSince(h, events, n, key, i) {
        assert AwaitedSince(h, events, n + 1, key, i) || Requested(h, events, n).Some? || events[n].Reply?;
      }
      var next := n + 1;
      if i: nat :| AwaitedSince(h, events, next, key, i) {
        assert AwaitedSince(h, events, n, key, i);
      }
    }
  }

  /** The event gets as far as calling for the bridge: a scan of the settled message, or an effective refresh. */
  ghost predicate Calls(h: PromptsHash, events: seq<Event>, j: nat, key: Key)
    requires j < |events|
  {
    var s := After(h, events[..j]);
    match events[j]
    case Scan(m, now) => m.key == key && m.hash == s.lastHash && now - s.lastAt >= STREAM_IDLE_MS
    case Refresh(m, enabled) => m.key == key && enabled && !s.statusPending
    case _ => false
  }

  /** A call leads to a request exactly if the key has no answer that still counts and is not the one waited for. */
  lemma RequestedIff(h: PromptsHash, events: seq<Event>, j: nat, key: Key)
    requires j < |events|
    ensures Requested(h, events, j) == Some(key) <==>
              && key != "" && Calls(h, events, j, key)
              && (events[j].Refresh? || !HasAnswer(h, events, j, key)) && !Awaited(h, events, j, key)
  {
    hide HasAnswer, Awaited, After;
    if key != "" {
      CachedIffAnswered(h, events, j, key);
      PendingIffAwaited(h, events, j, key);
    }
  }

  /** Once answered, a key is asked for again only after an effective refresh by hand of that very message. */
  lemma AnsweredKeyIsNotAskedAgain(h: PromptsHash, events: seq<Event>, i: nat, j: nat)
    requires i < j < |events| && events[i].Reply?
    requires Requested(h, events, j) == Some(events[i].key)
    ensures exists r: nat ::
              i < r <= j && events[r].Refresh? && events[r].message.key == events[i].key && Effective(h, events, r)
  {
    var key := events[i].key;
    RequestedIff(h, events, j, key);
    if !events[j].Refresh? {
      assert !AnsweredAt(h, events, j, key, i);
    } else {
      assert Effective(h, events, j);
    }
  }

  /** The last key requested before `n`. */
  function LatestRequest(h: PromptsHash, events: seq<Event>, n: nat): Option<Key>
    requires n <= |events|
  {
    if n == 0 then None
    else if Requested(h, events, n - 1).Some? then Requested(h, events, n - 1)
    else LatestRequest(h, events, n - 1)
  }

  lemma {:induction false} AwaitedIffLatest(h: PromptsHash, events: seq<Event>, i: nat, n: nat, key: Key)
    requires i < n <= |events| && Requested(h, events, i) == Some(key)
    requires forall k :: i < k < n && events[k].Reply? ==> events[k].key != key
    ensures Awaited(h, events, n, key) <==> LatestRequest(h, events, n) == Some(key)
  {
    hide Requested, Awaited;
    AwaitedOneMore(h, events, n - 1, key);
    if i < n - 1 {
      AwaitedIffLatest(h, events, i, n - 1, key);
    }
  }

  /**
   A key that was requested and not answered is requested once more, by a call for it, exactly if the last
   request was for another key.
   */
  lemma UnansweredKeyIsAskedAgainIff(h: PromptsHash, events: seq<Event>, i: nat, j: nat, key: Key)
    requires i < j < |events| && Requested(h, events, i) == Some(key) && Calls(h, events, j, key)
    requires forall k :: i < k < j && events[k].Reply? ==> events[k].key != key
    ensures Requested(h, events, j) == Some(key) <==> LatestRequest(h, events, j) != Some(key)
  {
    hide Calls, After;
    NotCachedSince(h, events, i, j, key);
    RequestedIff(h, events, j, key);
    CachedIffAnswered(h, events, j, key);
    AwaitedIffLatest(h, events, i, j, key);
  }

  lemma {:induction false} NotCachedSince(h: PromptsHash, events: seq<Event>, i: nat, n: nat, key: Key)
    requires i < n <= |events| && Requested(h, events, i) == Some(key)
    requires forall k :: i < k < n && events[k].Reply? ==> events[k].key != key
    ensures key !in After(h, events[..n]).cache && key != ""
  {
    hide After;
    AfterOneMore(h, events, n - 1);
    if i < n - 1 {
      hide Step;
      NotCachedSince(h, events, i, n - 1, key);
      CacheByStep(h, After(h, events[..n - 1]), events[n - 1], key);
    }
  }

  /** Going to another message and back does ask for the first one twice, both unanswered. */
  lemma DoubleRequestHappens(h: PromptsHash) returns (events: seq<Event>)
    ensures |events| == 6 && Requested(h, events, 1) == Some("ka") == Requested(h, events, 5)
    ensures forall e <- events :: e.Scan?
  {
    hide After, Step;
    var a, b := Message("a", "ka", []), Message("b", "kb", []);
    DoubleRequestSteps(h, a, b);
    events := [Scan(a, 0), Scan(a, 1300), Scan(b, 1400), Scan(b, 2700), Scan(a, 2800), Scan(a, 4100)];
    AfterNothing(h, events);
    AfterOneMore(h, events, 0);
    AfterOneMore(h, events, 1);
    AfterOneMore(h, events, 2);
    AfterOneMore(h, events, 3);
    AfterOneMore(h, events, 4);
  }

  lemma DoubleRequestSteps(h: PromptsHash, a: Message, b: Message)
    requires a == Message("a", "ka", []) && b == Message("b", "kb", [])
    ensures var s1 := State("a", 0, Nothing, [], map[], "", false);
            var s2 := State("a", 0, Shown("a", h([])), [], map[], "ka", true);
            var s3 := State("b", 1400, Pending("b"), [], map[], "ka", true);
            var s4 := State("b", 1400, Shown("b", h([])), [], map[], "kb", true);
            var s5 := State("a", 2800, Pending("a"), [], map[], "kb", true);
            && Step(h, INITIAL, Scan(a, 0)).0 == s1 && Step(h, s1, Scan(a, 1300)) == (s2, Some("ka"))
            && Step(h, s2, Scan(b, 1400)).0 == s3 && Step(h, s3, Scan(b, 2700)).0 == s4
            && Step(h, s4, Scan(a, 2800)).0 == s5 && Step(h, s5, Scan(a, 4100)).1 == Some("ka")
  {}

  // ---------------------------------------------------------------------------------------------
  // Whether a scan that gets as far as choosing prompts shows what it chose

  /** At `r` a refresh that found no message blanked the panel, and the display is recorded unchanged since. */
  ghost predicate BlankedAt(h: PromptsHash, events: seq<Event>, n: nat, r: nat)
    requires n <= |events|
  {
    && r < n && Effective(h, events, r) && events[r].RefreshEmpty?
    && forall k :: r < k <= n ==> After(h, events[..k]).current == After(h, events[..r]).current
  }

  ghost predicate Blanked(h: PromptsHash, events: seq<Event>, n: nat)
    requires n <= |events|
  {
    exists r: nat :: BlankedAt(h, events, n, r)
  }

  lemma SyncByStep(h: PromptsHash, s: State, e: Event)
    ensures var t := Step(h, s, e).0;
            || (t.current == s.current && t.prompts == s.prompts)
            || (t.current == s.current && e.RefreshEmpty? && !s.statusPending && t.prompts == [])
            || (t.current != s.current && (t.current.Shown? ==> t.current.promptsHash == h(t.prompts)))
            || (!t.current.Shown? && t.prompts == [])
    ensures e.RefreshEmpty? && !s.statusPending ==> Step(h, s, e).0 == s.(prompts := [])
  {}

  lemma BlankedOneMore(h: PromptsHash, events: seq<Event>, n: nat)
    requires n < |events|
    ensures Blanked(h, events, n + 1) <==>
              && After(h, events[..n + 1]).current == After(h, events[..n]).current
              && (Blanked(h, events, n) || (events[n].RefreshEmpty? && Effective(h, events, n)))
  {
    hide After;
    if After(h, events[..n + 1]).current == After(h, events[..n]).current {
      if r: nat :| BlankedAt(h, events, n, r) {
        assert BlankedAt(h, events, n + 1, r);
      }
      if events[n].RefreshEmpty? && Effective(h, events, n) {
        assert BlankedAt(h, events, n + 1, n);
      }
    }
    var next := n + 1;
    if r: nat :| BlankedAt(h, events, next, r) {
      assert r == n || BlankedAt(h, events, n, r);
    }
  }

  /** In every run: a blanked panel shows nothing, and otherwise the record tells the prompts that are shown. */
  lemma {:induction false} StaysInSync(h: PromptsHash, events: seq<Event>, n: nat)
    requires n <= |events|
    ensures var s := After(h, events[..n]);
            if Blanked(h, events, n) then s.prompts == []
            else s.current.Shown? ==> s.current.promptsHash == h(s.prompts)
  {
    hide Step, After, Blanked;
    AfterNothing(h, events);
    if n > 0 {
      AfterOneMore(h, events, n - 1);
      StaysInSync(h, events, n - 1);
      BlankedOneMore(h, events, n - 1);
      SyncByStep(h, After(h, events[..n - 1]), events[n - 1]);
      hide Effective;
      assert Effective(h, events, n - 1) <==>
               (events[n - 1].Refresh? || events[n - 1].RefreshEmpty?) && !After(h, events[..n - 1]).statusPending;
    } else {
      NothingBlanked(h, events);
    }
  }

  lemma NothingBlanked(h: PromptsHash, events: seq<Event>)
    ensures !Blanked(h, events, 0)
  {}

  /** The reply at `r` is the last one for its key, and the message was not effectively refreshed since. */
  ghost predicate StandsAt(h: PromptsHash, events: seq<Event>, n: nat, key: Key, r: nat)
    requires n <= |events|
  {
    && r < n && events[r].Reply? && events[r].key == key
    && (forall k :: r < k < n && events[k].Reply? ==> events[k].key != key)
    && forall k :: r < k < n && events[k].Refresh? && events[k].message.key == key && key != "" ==>
         !Effective(h, events, k)
  }

  /** The bridge answered with prompts. */
  predicate Brings(a: Answer) { a.Answer? && !a.disabled && !a.failed && a.prompts != [] }

  ghost predicate BroughtAt(h: PromptsHash, events: seq<Event>, n: nat, key: Key, r: nat)
    requires n <= |events|
  {
    StandsAt(h, events, n, key, r) && Brings(events[r].answer)
  }

  /** The prompts due for a message: those the bridge answered with, if that answer stands, else those in its text. */
  ghost predicate Due(h: PromptsHash, events: seq<Event>, n: nat, m: Message, p: Prompts)
    requires n <= |events|
  {
    if exists r: nat :: BroughtAt(h, events, n, m.key, r)
      then exists r: nat :: BroughtAt(h, events, n, m.key, r) && p == events[r].answer.prompts
    else p == m.inlinePrompts
  }

  lemma OneStands(h: PromptsHash, events: seq<Event>, n: nat, key: Key, r: nat, q: nat)
    requires n <= |events| && StandsAt(h, events, n, key, r) && StandsAt(h, events, n, key, q)
    ensures r == q
  {}

  lemma DueIsUnique(h: PromptsHash, events: seq<Event>, n: nat, m: Message, p: Prompts, q: Prompts)
    requires n <= |events| && Due(h, events, n, m, p) && Due(h, events, n, m, q)
    ensures p == q
  {
    if r: nat :| BroughtAt(h, events, n, m.key, r) && p == events[r].answer.prompts {
      if o: nat :| BroughtAt(h, events, n, m.key, o) && q == events[o].answer.prompts {
        OneStands(h, events, n, m.key, r, o);
      }
    }
  }

  lemma CachedValueByStep(h: PromptsHash, s: State, e: Event, key: Key)
    ensures var t := Step(h, s, e).0;
            if e.Reply? && e.key == key then
              key in t.cache && t.cache[key] == if Brings(e.answer) then e.answer.prompts else []
            else if e.Refresh? && !s.statusPending && e.message.key == key && key != "" then key !in t.cache
            else (key in t.cache <==> key in s.cache) && (key in s.cache ==> t.cache[key] == s.cache[key])
  {}

  lemma StandsOneMore(h: PromptsHash, events: seq<Event>, n: nat, key: Key, r: nat)
    requires n < |events|
    ensures StandsAt(h, events, n + 1, key, r) <==>
              if r == n then events[n].Reply? && events[n].key == key
              else
                && StandsAt(h, events, n, key, r) && !(events[n].Reply? && events[n].key == key)
                && !(events[n].Refresh? && events[n].message.key == key && key != "" && Effective(h, events, n))
  {
    hide Effective;
  }

  /** In every run the cache holds, for each key, what the reply that stands brought. */
  lemma {:induction false} CacheIsLastAnswer(h: PromptsHash, events: seq<Event>, n: nat, key: Key)
    requires n <= |events|
    ensures var cache := After(h, events[..n]).cache;
            && (key in cache ==> exists r: nat :: StandsAt(h, events, n, key, r))
            && forall r: nat :: StandsAt(h, events, n, key, r) ==>
                 key in cache && cache[key] == if Brings(events[r].answer) then events[r].answer.prompts else []
  {
    hide Step, After, StandsAt, Brings;
    AfterNothing(h, events);
    if n == 0 {
      NoneStands(h, events, key);
    } else {
      AfterOneMore(h, events, n - 1);
      CacheIsLastAnswer(h, events, n - 1, key);
      CachedValueByStep(h, After(h, events[..n - 1]), events[n - 1], key);
      forall r: nat
        ensures StandsAt(h, events, n, key, r) <==>
                  if r == n - 1 then events[n - 1].Reply? && events[n - 1].key == key
                  else
                    && StandsAt(h, events, n - 1, key, r) && !(events[n - 1].Reply? && events[n - 1].key == key)
                    && !(events[n - 1].Refresh? && events[n - 1].message.key == key && key != ""
                         && Effective(h, events, n - 1))
      {
        StandsOneMore(h, events, n - 1, key, r);
      }
      var before := n - 1;
      if r: nat :| StandsAt(h, events, before, key, r) {
        StandsBefore(h, events, before, key, r);
        assert key in After(h, events[..n]).cache ==>
                 StandsAt(h, events, n, key, r) || StandsAt(h, events, n, key, before);
      }
      assert events[before].Reply? && events[before].key == key ==> StandsAt(h, events, n, key, before);
    }
  }

  lemma StandsBefore(h: PromptsHash, events: seq<Event>, n: nat, key: Key, r: nat)
    requires n <= |events| && StandsAt(h, events, n, key, r)
    ensures r < n
  {}

  lemma NoneStands(h: PromptsHash, events: seq<Event>, key: Key)
    ensures forall r: nat :: !StandsAt(h, events, 0, key, r)
  {}

  lemma ChoiceIsDue(h: PromptsHash, events: seq<Event>, n: nat, m: Message)
    requires n <= |events|
    ensures Due(h, events, n, m, Choose(After(h, events[..n]), m))
  {
    hide After, StandsAt;
    CacheIsLastAnswer(h, events, n, m.key);
    var cache := After(h, events[..n]).cache;
    if m.key in cache {
      var r: nat :| StandsAt(h, events, n, m.key, r);
      assert BroughtAt(h, events, n, m.key, r) <==> cache[m.key] != [];
    }
  }

  /**
   A scan of a settled message shows the prompts due, the bridge's before those in the text, exactly unless they are
   some, the panel was blanked by an empty refresh, and the record already says that they are shown. Only a
   collision of their hash with that of the prompts now shown is excluded.
   */
  lemma SettledScanShowsItsChoiceIff(h: PromptsHash, events: seq<Event>, i: nat, due: Prompts)
    requires i < |events| && events[i].Scan? && Calls(h, events, i, events[i].message.key)
    requires Due(h, events, i, events[i].message, due)
    requires var s := After(h, events[..i]); h(s.prompts) == h(due) ==> s.prompts == due
    ensures var s, m := After(h, events[..i]), events[i].message;
            After(h, events[..i + 1]).prompts == due <==>
              !(due != [] && Blanked(h, events, i) && s.current == Shown(m.hash, h(due)))
  {
    hide After, Blanked, Due;
    ChoiceIsDue(h, events, i, events[i].message);
    DueIsUnique(h, events, i, events[i].message, due, Choose(After(h, events[..i]), events[i].message));
    StaysInSync(h, events, i);
    AfterOneMore(h, events, i);
  }

  // ---------------------------------------------------------------------------------------------
  // What the panel remembers of the run: whether an answer is waited for, and since when the message stands

  ghost predicate BusySince(h: PromptsHash, events: seq<Event>, n: nat, i: nat)
    requires n <= |events|
  {
    i < n && Requested(h, events, i).Some? && forall k :: i < k < n ==> !events[k].Reply?
  }

  lemma BusyByStep(h: PromptsHash, s: State, e: Event)
    ensures var (t, request) := Step(h, s, e);
            t.statusPending <==> request.Some? || (s.statusPending && !e.Reply?)
  {}

  /** The panel waits for an answer exactly if a request was made and no reply, for whatever key, came since. */
  lemma {:induction false} BusyIff(h: PromptsHash, events: seq<Event>, n: nat)
    requires n <= |events|
    ensures After(h, events[..n]).statusPending <==> exists i: nat :: BusySince(h, events, n, i)
  {
    hide Step, After;
    AfterNothing(h, events);
    if n > 0 {
      AfterOneMore(h, events, n - 1);
      BusyIff(h, events, n - 1);
      BusyByStep(h, After(h, events[..n - 1]), events[n - 1]);
      var before := n - 1;
      if i: nat :| BusySince(h, events, before, i) {
        assert events[n - 1].Reply? || BusySince(h, events, n, i);
      }
      if Requested(h, events, n - 1).Some? {
        assert BusySince(h, events, n, n - 1);
      }
      if i: nat :| BusySince(h, events, n, i) {
        assert i == n - 1 || BusySince(h, events, n - 1, i);
      }
    }
  }

  /** The event looks at a message: a scan, or an effective refresh that found one. */
  ghost predicate Looks(h: PromptsHash, events: seq<Event>, k: nat)
    requires k < |events|
  {
    events[k].Scan? || (events[k].Refresh? && Effective(h, events, k))
  }

  ghost predicate LastLook(h: PromptsHash, events: seq<Event>, n: nat, k: nat)
    requires n <= |events|
  {
    k < n && Looks(h, events, k) && forall j :: k < j < n ==> !Looks(h, events, j)
  }

  /** The look before `k` saw another text; before the first look the text counts as empty. */
  ghost predicate Changes(h: PromptsHash, events: seq<Event>, k: nat)
    requires k < |events| && Looks(h, events, k)
  {
    || (exists j: nat :: LastLook(h, events, k, j) && events[j].message.hash != events[k].message.hash)
    || ((forall j :: 0 <= j < k ==> !Looks(h, events, j)) && events[k].message.hash != "")
  }

  lemma HashByStep(h: PromptsHash, s: State, e: Event)
    ensures var t := Step(h, s, e).0;
            if e.Scan? then
              t.lastHash == e.message.hash && t.lastAt == if e.message.hash != s.lastHash then e.now else s.lastAt
            else if e.Refresh? && !s.statusPending then t.lastHash == e.message.hash && t.lastAt == 0
            else t.lastHash == s.lastHash && t.lastAt == s.lastAt
  {}

  lemma {:induction false} HashIsLastSeen(h: PromptsHash, events: seq<Event>, n: nat)
    requires n <= |events|
    ensures forall k: nat :: LastLook(h, events, n, k) ==> After(h, events[..n]).lastHash == events[k].message.hash
    ensures (forall k :: 0 <= k < n ==> !Looks(h, events, k)) ==> After(h, events[..n]).lastHash == ""
  {
    hide Step, After;
    AfterNothing(h, events);
    if n > 0 {
      AfterOneMore(h, events, n - 1);
      HashIsLastSeen(h, events, n - 1);
      HashByStep(h, After(h, events[..n - 1]), events[n - 1]);
      var looks := Looks(h, events, n - 1);
      assert looks ==> forall k: nat :: LastLook(h, events, n, k) ==> k == n - 1;
      forall k: nat | LastLook(h, events, n, k)
        ensures After(h, events[..n]).lastHash == events[k].message.hash
      {
        assert k == n - 1 || LastLook(h, events, n - 1, k);
      }
    }
  }

  /** The text has been the same since event `k`, which refreshed it by hand or saw it for the first time. */
  ghost predicate SameSince(h: PromptsHash, events: seq<Event>, n: nat, k: nat)
    requires n <= |events|
  {
    && k < n && Looks(h, events, k) && (events[k].Refresh? || Changes(h, events, k))
    && forall j :: k < j < n && Looks(h, events, j) ==>
         events[j].Scan? && events[j].message.hash == events[k].message.hash
  }

  lemma {:induction false} RecordIs(h: PromptsHash, events: seq<Event>, n: nat, k: nat)
    requires n <= |events| && SameSince(h, events, n, k)
    ensures var s := After(h, events[..n]);
            s.lastHash == events[k].message.hash && s.lastAt == if events[k].Refresh? then 0 else events[k].now
  {
    hide Step, After, LastLook;
    AfterOneMore(h, events, n - 1);
    HashByStep(h, After(h, events[..n - 1]), events[n - 1]);
    if k < n - 1 {
      RecordIs(h, events, n - 1, k);
    } else {
      HashIsLastSeen(h, events, k);
    }
  }

  /**
   A scan gets as far as showing prompts and calling for the bridge exactly if it sees the text that has stood since
   event `k`, and that was a refresh by hand or at least the idle time ago.
   */
  lemma ScanCallsIff(h: PromptsHash, events: seq<Event>, i: nat, k: nat)
    requires i < |events| && events[i].Scan? && SameSince(h, events, i, k)
    ensures Calls(h, events, i, events[i].message.key) <==>
              && events[i].message.hash == events[k].message.hash
              && events[i].now - (if events[k].Refresh? then 0 else events[k].now) >= 1300
  {
    hide After, SameSince;
    RecordIs(h, events, i, k);
    assert k < |events| && Looks(h, events, k) by { SinceMeans(h, events, i, k); }
  }

  lemma SinceMeans(h: PromptsHash, events: seq<Event>, n: nat, k: nat)
    requires n <= |events| && SameSince(h, events, n, k)
    ensures k < n && Looks(h, events, k)
  {}

  /** Every reply in the run answers an earlier request for its key. */
  ghost predicate RepliesAnswer(h: PromptsHash, events: seq<Event>) {
    forall i :: 0 <= i < |events| && events[i].Reply? ==>
      exists k: nat :: k < i && Requested(h, events, k) == Some(events[i].key)
  }

  /**
   And the panel can stay blank: after a message was shown, a refresh finds no message, and the message that is
   back is not shown again. The one reply in the run answers the request before it.
   */
  lemma EmptyRefreshBlanksThePanel(h: PromptsHash, p: Prompts) returns (events: seq<Event>)
    requires p != []
    ensures |events| == 5 && events[1].Scan? && events[3] == RefreshEmpty && events[4].Scan?
    ensures events[1].message == events[4].message && RepliesAnswer(h, events)
    ensures After(h, events[..3]).prompts == p && Due(h, events, 4, events[4].message, p)
    ensures Calls(h, events, 4, events[4].message.key)
    ensures After(h, events[..5]).prompts == []
  {
    hide After, Step;
    var m := Message("a", "k", p);
    events := [Scan(m, 0), Scan(m, 1300), Reply("k", Lost), RefreshEmpty, Scan(m, 3000)];
    BlankingSteps(h, p, m);
    AfterFive(h, events);
    ChoiceIsDue(h, events, 4, m);
  }

  lemma AfterFive(h: PromptsHash, events: seq<Event>)
    requires |events| == 5
    ensures var s1 := Step(h, INITIAL, events[0]).0;
            var s2 := Step(h, s1, events[1]).0;
            var s3 := Step(h, s2, events[2]).0;
            var s4 := Step(h, s3, events[3]).0;
            && Requested(h, events, 1) == Step(h, s1, events[1]).1
            && After(h, events[..3]) == s3 && After(h, events[..4]) == s4
            && After(h, events[..5]) == Step(h, s4, events[4]).0
  {
    hide After, Step;
    AfterNothing(h, events);
    AfterOneMore(h, events, 0);
    AfterOneMore(h, events, 1);
    AfterOneMore(h, events, 2);
    AfterOneMore(h, events, 3);
    AfterOneMore(h, events, 4);
  }

  lemma BlankingSteps(h: PromptsHash, p: Prompts, m: Message)
    requires p != [] && m == Message("a", "k", p)
    ensures var s1 := State("a", 0, Nothing, [], map[], "", false);
            var s2 := State("a", 0, Shown("a", h(p)), p, map[], "k", true);
            var s3 := State("a", 0, Shown("a", h(p)), p, map["k" := []], "", false);
            var s4 := s3.(prompts := []);
            && Step(h, INITIAL, Scan(m, 0)).0 == s1 && Step(h, s1, Scan(m, 1300)) == (s2, Some("k"))
            && Step(h, s2, Reply("k", Lost)).0 == s3 && Step(h, s3, RefreshEmpty).0 == s4
            && Step(h, s4, Scan(m, 3000)).0 == s4 && Choose(s4, m) == p
  {}
}
