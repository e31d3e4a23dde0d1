/**
 Optimistic local settings kept in step with a backend that answers in any order.

 Every call remembers the sequence number it started with; a local set raises the number, and a reply
 is merged only if the number is still the one its call remembers. The lemmas restate this without
 numbers: a reply is merged exactly if no set has started since its call.
 */
module SettingsSync {

  type Settings = map<string, string>

  datatype Reply = Failed | Answer(settings: Settings)

  /** A settings answer to a load has at least one of these; anything else is rejected. */
  const KNOWN_KEYS := {"launchMode", "enhancementsEnabled", "providerSyncEnabled"}

  predicate LooksValid(r: Reply) { r.Answer? && r.settings.Keys * KNOWN_KEYS != {} }

  datatype State = State(settings: Settings, sequence: nat)

  // ---------------------------------------------------------------------------------------------
  // Runs: a call is named by the position of the event that started it

  datatype Event = StartLoad | StartSet(key: string, value: string) | Finish(call: nat, reply: Reply)

  /** What a pending call holds on to: its kind and the sequence number it saw. */
  datatype Call = Load(seen: nat) | Change(seen: nat) | NoCall

  datatype Run = Run(state: State, calls: seq<Call>)

  /** Whether the reply to this call may be merged now. */
  predicate Accepts(s: State, call: Call, reply: Reply) {
    match call
    case Load(seen) => LooksValid(reply) && seen == s.sequence
    case Change(seen) => reply.Answer? && seen == s.sequence
    case NoCall => false
  }

  function Step(r: Run, e: Event): Run {
    var s := r.state;
    match e
    case StartLoad => Run(s, r.calls + [Load(s.sequence)])
    case StartSet(key, value) =>
      var t := State(s.settings[key := value], s.sequence + 1);
      Run(t, r.calls + [Change(t.sequence)])
    case Finish(call, reply) =>
      Run(if call < |r.calls| && Accepts(s, r.calls[call], reply)
          then s.(settings := s.settings + reply.settings) else s,
          r.calls + [NoCall])
  }

  function After(defaults: Settings, events: seq<Event>): Run {
    if events == [] then Run(State(defaults, 0), [])
    else Step(After(defaults, events[..|events| - 1]), events[|events| - 1])
  }

  // ---------------------------------------------------------------------------------------------
  // The handlers, each split where it waits for the backend

  class BackendSettings {
    var settings: Settings
    var sequence: nat
    var loaded: bool
    ghost var calls: seq<Call>

    ghost function View(): Run reads this { Run(State(settings, sequence), calls) }

    constructor (defaults: Settings)
      ensures View() == Run(State(defaults, 0), []) && !loaded
    {
      settings, sequence, loaded, calls := defaults, 0, false, [];
    }

    /** `applyBackendSettingsState` up to the await; the caller keeps `seen` for its reply. */
    method BeginApply() returns (seen: nat)
      modifies this`calls
      ensures View() == Step(old(View()), StartLoad) && calls[|old(calls)|] == Load(seen)
    {
      seen := sequence;
      calls := calls + [Load(seen)];
    }

    method FinishApply(ghost call: nat, seen: nat, reply: Reply) returns (applied: bool)
      requires call < |calls| && calls[call] == Load(seen)
      modifies this
      ensures View() == Step(old(View()), Finish(call, reply))
      ensures applied == Accepts(old(View()).state, Load(seen), reply) && loaded == (old(loaded) || applied)
    {
      calls := calls + [NoCall];
      if !LooksValid(reply) {
        return false;
      }
      if seen != sequence {
        return false;
      }
      settings := settings + reply.settings;
      loaded := true;
      applied := true;
    }

    /** `setBackendSetting` up to the await: the new value shows at once. */
    method BeginSet(key: string, value: string) returns (seen: nat)
      modifies this
      ensures View() == Step(old(View()), StartSet(key, value)) && calls[|old(calls)|] == Change(seen) && loaded
    {
      sequence := sequence + 1;
      seen := sequence;
      settings := settings[key := value];
      loaded := true;
      calls := calls + [Change(seen)];
    }

    method FinishSet(ghost call: nat, seen: nat, reply: Reply)
      requires call < |calls| && calls[call] == Change(seen)
      modifies this`settings, this`calls
      ensures View() == Step(old(View()), Finish(call, reply))
    {
      calls := calls + [NoCall];
      if reply.Answer? && seen == sequence {
        settings := settings + reply.settings;
      }
    }
  }

  // ---------------------------------------------------------------------------------------------
  // The same without sequence numbers

  ghost predicate NoSetBetween(events: seq<Event>, from: nat, to: nat)
    requires to <= |events|
  {
    forall j :: from < j < to ==> !events[j].StartSet?
  }

  /** The event at `i` answers a call that no later set has overtaken. */
  ghost predicate Timely(events: seq<Event>, i: nat)
    requires i < |events|
  {
    events[i].Finish? &&
    var call, reply := events[i].call, events[i].reply;
    && call < i
    && reply.Answer?
    && (events[call].StartSet?
        || (events[call].StartLoad?
            && ("launchMode" in reply.settings || "enhancementsEnabled" in reply.settings
                || "providerSyncEnabled" in reply.settings)))
    && NoSetBetween(events, call, i)
  }

  /** Settings as a plain log would give them: every set, and every timely reply, in the order they come. */
  ghost function Expected(defaults: Settings, events: seq<Event>): Settings {
    if events == [] then defaults
    else
      var i := |events| - 1;
      var before := Expected(defaults, events[..i]);
      match events[i]
      case StartLoad => before
      case StartSet(key, value) => before[key := value]
      case Finish(_, reply) => if Timely(events, i) then before + reply.settings else before
  }

  /** What a call remembers: a number that is current exactly if no set has started since the call. */
  ghost predicate CallRemembers(events: seq<Event>, n: nat, c: nat, call: Call, s: State)
    requires c < n <= |events|
  {
    match call
    case Load(seen) => events[c].StartLoad? && seen <= s.sequence
        && (seen == s.sequence <==> NoSetBetween(events, c, n))
    case Change(seen) => events[c].StartSet? && seen <= s.sequence
        && (seen == s.sequence <==> NoSetBetween(events, c, n))
    case NoCall => events[c].Finish?
  }

  ghost predicate Remembers(events: seq<Event>, n: nat, r: Run)
    requires n <= |events|
  {
    |r.calls| == n && forall c :: 0 <= c < n ==> CallRemembers(events, n, c, r.calls[c], r.state)
  }

  lemma NoSetUpTo(events: seq<Event>, c: nat, n: nat)
    requires c < n < |events|
    ensures NoSetBetween(events, c, n + 1) <==> NoSetBetween(events, c, n) && !events[n].StartSet?
  {
    if NoSetBetween(events, c, n + 1) {
      assert forall j :: c < j < n ==> !events[j].StartSet?;
    }
  }

  /** A remembered number is still current exactly if no set has started since. */
  lemma {:induction false} NumbersCountSets(defaults: Settings, events: seq<Event>, n: nat)
    requires n <= |events|
    ensures Remembers(events, n, After(defaults, events[..n]))
  {
    if n > 0 {
      var i := n - 1;
      NumbersCountSets(defaults, events, i);
      assert events[..n][..i] == events[..i];
      forall c | 0 <= c < i
        ensures NoSetBetween(events, c, n) <==> NoSetBetween(events, c, i) && !events[i].StartSet?
      {
        NoSetUpTo(events, c, i);
      }
    }
  }

  lemma ValidIff(r: Reply)
    ensures LooksValid(r) <==>
              r.Answer? && ("launchMode" in r.settings || "enhancementsEnabled" in r.settings
                            || "providerSyncEnabled" in r.settings)
  {
    if LooksValid(r) {
      var key :| key in r.settings.Keys * KNOWN_KEYS;
    } else if r.Answer? {
      assert forall key <- KNOWN_KEYS :: key in r.settings ==> key in r.settings.Keys * KNOWN_KEYS;
    }
  }

  lemma AcceptedIffTimely(defaults: Settings, events: seq<Event>, i: nat)
    requires i < |events| && events[i].Finish?
    ensures var r := After(defaults, events[..i]);
            (events[i].call < |r.calls| && Accepts(r.state, r.calls[events[i].call], events[i].reply))
                <==> Timely(events, i)
  {
    hide LooksValid;
    NumbersCountSets(defaults, events, i);
    ValidIff(events[i].reply);
  }

  /** In every run the numbered protocol holds exactly the settings of the plain log. */
  lemma {:induction false} NumbersAreFaithful(defaults: Settings, events: seq<Event>)
    ensures After(defaults, events).state.settings == Expected(defaults, events)
  {
    if events != [] {
      var i := |events| - 1;
      NumbersAreFaithful(defaults, events[..i]);
      if events[i].Finish? {
        AcceptedIffTimely(defaults, events, i);
      }
    }
  }

  // ---------------------------------------------------------------------------------------------
  // Main result

  /** Event `j` writes key `k`: it sets it, or merges an answer that contains it. */
  ghost predicate Writes(events: seq<Event>, j: nat, k: string)
    requires j < |events|
  {
    match events[j]
    case StartLoad => false
    case StartSet(key, _) => key == k
    case Finish(_, reply) => Timely(events, j) && k in reply.settings
  }

  /**
   After a local set of `k`, in every interleaving of loads, sets and replies in any order, `k` keeps its
   value until it is set again or a reply to that set, or to a call started after it, is merged.
   */
  lemma {:induction false} LocalValueSticks(defaults: Settings, events: seq<Event>, i: nat, n: nat)
    requires i < n <= |events| && events[i].StartSet?
    requires forall j :: i < j < n && events[j].StartSet? ==> events[j].key != events[i].key
    requires forall j :: i < j < n && events[j].Finish? && events[j].call >= i ==> !Writes(events, j, events[i].key)
    ensures var s := After(defaults, events[..n]).state.settings;
            events[i].key in s && s[events[i].key] == events[i].value
    decreases n - i
  {
    var j := n - 1;
    assert events[..n][..j] == events[..j];
    if i < j {
      LocalValueSticks(defaults, events, i, j);
      if events[j].Finish? {
        AcceptedIffTimely(defaults, events, j);
      }
    }
  }

  /** A failed reply changes no setting, in any run and to whatever call. */
  lemma FailedReplyChangesNothing(defaults: Settings, events: seq<Event>, j: nat)
    requires j < |events| && events[j].Finish? && events[j].reply == Failed
    ensures After(defaults, events[..j + 1]).state == After(defaults, events[..j]).state
  {
    assert events[..j + 1][..j] == events[..j];
  }

  /**
   A set whose call failed is not taken back: unless the key is set again or a reply to a later call brings it,
   the local value stays, in every interleaving, though the backend never stored it.
   */
  lemma FailedSetIsNotRolledBack(defaults: Settings, events: seq<Event>, i: nat, n: nat)
    requires i < n <= |events| && events[i].StartSet?
    requires forall j :: i < j < n && events[j].Finish? && events[j].call == i ==> events[j].reply == Failed
    requires forall j :: i < j < n && events[j].StartSet? ==> events[j].key != events[i].key
    requires forall j :: i < j < n && events[j].Finish? && events[j].call > i ==> !Writes(events, j, events[i].key)
    ensures var s := After(defaults, events[..n]).state.settings;
            events[i].key in s && s[events[i].key] == events[i].value
  {
    forall j | i < j < n && events[j].Finish? && events[j].call >= i
      ensures !Writes(events, j, events[i].key)
    {
      assert events[j].call == i ==> events[j].reply == Failed;
    }
    LocalValueSticks(defaults, events, i, n);
  }
}
