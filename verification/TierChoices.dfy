/**
 What becomes of the user's service-tier choices in any run: which control mode stands, how long a draft waits
 for its thread, and which mode the requests of a thread are then sent with.
 */
module TierChoices {
  import opened Text
  import opened Wrappers
  import opened SessionKeys
  import opened TierModes
  import opened TierStore
  import opened RequestValues
  import Requests = RequestRewrite

  // ---------------------------------------------------------------------------------------------
  // What reading makes of any stored record

  /** The text names a mode of its own, whatever its case and the blanks around it. */
  predicate Names(text: string, mode: ThreadMode) {
    (mode == Standard && Lower(Trim(text)) == "standard") || (mode == Fast && Lower(Trim(text)) == "fast")
  }

  predicate UsableFor(e: RawEntry, key: string) {
    key != "" && ValidKey(e.key) == key && (Names(e.mode, Standard) || Names(e.mode, Fast))
  }

  /** The entry that is read for its key stems from the stored one at `i`, the last that can be used for the key. */
  ghost predicate StemsFrom(entries: seq<RawEntry>, now: int, x: Entry, i: nat) {
    && i < |entries| && UsableFor(entries[i], x.key)
    && (forall k :: i < k < |entries| ==> !UsableFor(entries[k], x.key))
    && Names(entries[i].mode, x.mode) && x.at == if entries[i].at > 0 then entries[i].at else now
  }

  lemma {:induction false} UsableMore(front: seq<RawEntry>, e: RawEntry, now: int)
    ensures Usable(front + [e], now) == Usable(front, now) + UsableOne(e, now)
  {
    hide UsableOne;
    if front == [] {
      assert front + [e] == [e] && [e][1..] == [];
      assert UsableOne(e, now) + [] == UsableOne(e, now);
    } else {
      assert (front + [e])[0] == front[0] && (front + [e])[1..] == front[1..] + [e];
      UsableMore(front[1..], e, now);
    }
  }

  lemma OneIsUsable(e: RawEntry, now: int)
    ensures var one := UsableOne(e, now);
            if one == [] then forall key :: !UsableFor(e, key)
            else
              && |one| == 1 && UsableFor(e, one[0].key) && (forall key :: UsableFor(e, key) ==> key == one[0].key)
              && Names(e.mode, one[0].mode) && one[0].at == if e.at > 0 then e.at else now
    ensures forall a, b :: Names(e.mode, a) && Names(e.mode, b) ==> a == b
  {
    hide Trim, Lower, ValidKey;
  }

  lemma StemsMore(front: seq<RawEntry>, e: RawEntry, now: int, x: Entry, i: nat)
    ensures StemsFrom(front + [e], now, x, i) <==>
              if i == |front| then UsableFor(e, x.key) && Names(e.mode, x.mode)
                  && x.at == if e.at > 0 then e.at else now
              else StemsFrom(front, now, x, i) && !UsableFor(e, x.key)
  {
    hide UsableFor, Names;
    var more := front + [e];
    if i < |front| {
      assert forall k :: 0 <= k < |front| ==> more[k] == front[k];
      assert more[|front|] == e;
    }
  }

  lemma {:induction false} EntriesStem(entries: seq<RawEntry>, now: int)
    requires now > 0
    ensures forall x :: x in PutAll(Usable(entries, now)) <==> exists i: nat :: StemsFrom(entries, now, x, i)
  {
    if entries != [] {
      hide UsableFor, Names, UsableOne, StemsFrom, PutAll, Usable;
      var front, e := entries[..|entries| - 1], entries[|entries| - 1];
      assert entries == front + [e];
      EntriesStem(front, now);
      forall x
        ensures x in PutAll(Usable(entries, now)) <==> exists i: nat :: StemsFrom(entries, now, x, i)
      {
        EntryStems(front, e, now, x);
      }
    }
  }

  lemma EntryStems(front: seq<RawEntry>, e: RawEntry, now: int, x: Entry)
    requires now > 0
    requires x in PutAll(Usable(front, now)) <==> exists i: nat :: StemsFrom(front, now, x, i)
    ensures x in PutAll(Usable(front + [e], now)) <==> exists i: nat :: StemsFrom(front + [e], now, x, i)
  {
    hide UsableFor, Names, UsableOne, StemsFrom, PutAll, Usable;
    OneIsUsable(e, now);
    PutAllMore(front, e, now);
    StemFound(front, e, now, x);
  }

  lemma PutAllMore(front: seq<RawEntry>, e: RawEntry, now: int)
    requires now > 0
    ensures var kept, one := PutAll(Usable(front, now)), UsableOne(e, now);
            forall x :: x in PutAll(Usable(front + [e], now)) <==>
              if one == [] then x in kept else x == one[0] || (x in kept && x.key != one[0].key)
  {
    hide Usable, Good, Names;
    UsableMore(front, e, now);
    OneIsUsable(e, now);
    UsableIsGood(front, now);
    var kept, one := Usable(front, now), UsableOne(e, now);
    hide UsableOne;
    PutAllIsGood(kept);
    if one == [] {
      assert kept + one == kept;
    } else {
      assert (kept + one)[..|kept|] == kept && (kept + one)[|kept|] == one[0];
      PutMembers(PutAll(kept), one[0]);
    }
  }

  /** With one more stored entry: it takes over its key, and leaves all others. */
  lemma StemFound(front: seq<RawEntry>, e: RawEntry, now: int, x: Entry)
    ensures (exists i: nat :: StemsFrom(front + [e], now, x, i)) <==>
              if UsableFor(e, x.key) then Names(e.mode, x.mode) && x.at == (if e.at > 0 then e.at else now)
              else exists i: nat :: StemsFrom(front, now, x, i)
  {
    hide StemsFrom, UsableFor, Names;
    var entries := front + [e];
    StemsMore(front, e, now, x, |front|);
    if i: nat :| StemsFrom(entries, now, x, i) {
      StemsMore(front, e, now, x, i);
    }
    if i: nat :| StemsFrom(front, now, x, i) {
      StemsMore(front, e, now, x, i);
      StemIsInside(front, now, x, i);
    }
  }

  lemma StemIsInside(entries: seq<RawEntry>, now: int, x: Entry, i: nat)
    requires StemsFrom(entries, now, x, i)
    ensures i < |entries|
  {}

  /**
   Whatever is stored: of the entries of the right version the last usable one for each key is read, a time that is
   missing is now, the draft is read if it names a mode, and a record without control mode is in custom control
   exactly if it holds an entry or a draft.
   */
  lemma ReadTells(raw: Raw, now: int)
    requires now > 0
    ensures var s := Read(raw, now);
            && (!raw.versionMatches ==> s.entries == [])
            && (raw.versionMatches ==>
                  forall x :: x in s.entries <==> exists i: nat :: StemsFrom(raw.entries, now, x, i))
            && DistinctKeys(s.entries)
            && (s.draft.Some? <==> raw.draft.Some? && (Names(raw.draft.value.mode, Standard)
                                                       || Names(raw.draft.value.mode, Fast)))
            && (s.draft.Some? ==>
                  && Names(raw.draft.value.mode, s.draft.value.mode)
                  && s.draft.value.at == if raw.draft.value.at > 0 then raw.draft.value.at else now)
            && (raw.mode == "" ==> s.mode == if s.entries == [] && s.draft.None? then Inherited else Custom)
            && (raw.mode != "" ==> IsMode(Lower(Trim(raw.mode)), s.mode))
            && (raw.defaultMode == "" ==>
                  s.defaultMode == if s.mode == GlobalFast then Fast
                                   else if s.mode == GlobalStandard then Standard else Inherit)
            && (raw.defaultMode != "" ==> (s.defaultMode == Inherit <==> !Names(raw.defaultMode, Standard)
                                                                         && !Names(raw.defaultMode, Fast))
                                          && (s.defaultMode != Inherit ==> Names(raw.defaultMode, s.defaultMode)))
  {
    hide StemsFrom, PutAll, Usable, Good, Trim, Lower;
    EntriesStem(raw.entries, now);
    UsableIsGood(raw.entries, now);
    PutAllIsGood(Usable(raw.entries, now));
    NothingStored(now);
  }

  /** The word for a control mode; any other text stands for none. */
  predicate IsMode(word: string, mode: ControlMode) {
    && (word == "global-standard" <==> mode == GlobalStandard)
    && (word == "global-fast" <==> mode == GlobalFast)
    && (word == "custom" <==> mode == Custom)
  }

  lemma NothingStored(now: int)
    ensures PutAll(Usable([], now)) == []
  {}

  // ---------------------------------------------------------------------------------------------
  // The control mode

  /** The event settles the control mode: any override, or a control that was let through. */
  predicate SetsMode(e: Event) { e.Override? || (e.Control? && e.allowed) }

  function ModeSet(e: Event): ControlMode
    requires SetsMode(e)
  {
    if e.Override? then Custom else e.controlMode
  }

  predicate SetsDefault(e: Event) { e.Control? && e.allowed && e.controlMode != Custom }

  /** Event `i` is the last of its kind. */
  ghost predicate LastOf(events: seq<Event>, kind: Event -> bool, i: nat) {
    i < |events| && kind(events[i]) && forall k :: i < k < |events| ==> !kind(events[k])
  }

  ghost predicate NoneOf(events: seq<Event>, kind: Event -> bool) { forall k :: 0 <= k < |events| ==> !kind(events[k]) }

  /**
   The control mode is the one set last, by a control or, to custom, by any override; the default mode is the one
   that belongs to the last control other than custom, and stays when overrides switch to custom control.
   */
  ghost predicate ModesTold(events: seq<Event>, s: State, i: nat) {
    && (NoneOf(events, SetsMode) ==> s.mode == Inherited)
    && (LastOf(events, SetsMode, i) ==> s.mode == ModeSet(events[i]))
    && (NoneOf(events, SetsDefault) ==> s.defaultMode == Inherit)
    && (LastOf(events, SetsDefault, i) ==> s.defaultMode == DefaultSet(events[i]))
  }

  function DefaultSet(e: Event): ThreadMode
    requires SetsDefault(e)
  {
    match e.controlMode case GlobalFast => Fast case GlobalStandard => Standard case _ => Inherit
  }

  lemma ModeByStep(s: State, e: Event)
    ensures StepView(s, e).mode == if SetsMode(e) then ModeSet(e) else s.mode
    ensures StepView(s, e).defaultMode == if SetsDefault(e) then DefaultSet(e) else s.defaultMode
  {
    hide Latest, Bindable, Put, Remove, HasKey, ValidKey;
  }

  lemma ModesMore(front: seq<Event>, e: Event, s: State, t: State, i: nat)
    requires ModesTold(front, s, i)
    requires t.mode == if SetsMode(e) then ModeSet(e) else s.mode
    requires t.defaultMode == if SetsDefault(e) then DefaultSet(e) else s.defaultMode
    ensures ModesTold(front + [e], t, i)
  {
    hide SetsMode, SetsDefault;
    LastOfMore(front, e, SetsMode, i);
    LastOfMore(front, e, SetsDefault, i);
  }

  lemma LastOfMore(front: seq<Event>, e: Event, kind: Event -> bool, i: nat)
    ensures NoneOf(front + [e], kind) <==> NoneOf(front, kind) && !kind(e)
    ensures LastOf(front + [e], kind, i) <==> if i == |front| then kind(e) else LastOf(front, kind, i) && !kind(e)
  {
    var more := front + [e];
    assert more[|front|] == e && forall k :: 0 <= k < |front| ==> more[k] == front[k];
  }

  lemma {:induction false} ModeIsLastSet(events: seq<Event>, now: int, i: nat)
    requires ClockRuns(events, now) && now > 0
    ensures ModesTold(events, View(After(events)), i)
  {
    hide Step, StepView, View, Steady, Written, SetsMode, SetsDefault, ModesTold;
    if events == [] {
      NothingSet(i);
    } else {
      var front, e := events[..|events| - 1], events[|events| - 1];
      assert events == front + [e];
      StoreStaysSteady(front, e.now);
      StepIsSeen(After(front), e);
      ModeByStep(View(After(front)), e);
      ModeIsLastSet(front, e.now, i);
      ModesMore(front, e, View(After(front)), View(After(events)), i);
    }
  }

  lemma NothingSet(i: nat)
    ensures ModesTold([], View(EMPTY), i)
  {}

  // ---------------------------------------------------------------------------------------------
  // The draft

  /** The choice of a mode for a thread that has no acceptable key yet. */
  predicate IsDraft(e: Event) { e.Override? && ValidKey(e.threadId) == "" && e.mode != Inherit }

  /**
   What ends a draft made at `at`: another choice without thread, a thread with an acceptable key that turns up
   within a minute, or a control mode other than custom.
   */
  predicate EndsDraft(e: Event, at: int) {
    match e
    case Override(threadId, _, _) => ValidKey(threadId) == ""
    case Bind(threadId, now) => ValidKey(threadId) != "" && now - at <= 60000
    case Control(mode, allowed, _) => allowed && mode != Custom
  }

  /** The draft made by event `i` is still waiting. */
  ghost predicate DraftStands(events: seq<Event>, i: nat) {
    && i < |events| && IsDraft(events[i])
    && forall k :: i < k < |events| ==> !EndsDraft(events[k], events[i].now)
  }

  ghost predicate MadeBy(events: seq<Event>, i: nat, d: Draft) {
    DraftStands(events, i) && d == Draft(events[i].mode, events[i].now)
  }

  lemma DraftByStep(s: State, e: Event)
    ensures StepView(s, e).draft ==
              if IsDraft(e) then Some(Draft(e.mode, e.now))
              else if e.Override? && ValidKey(e.threadId) == "" then None
              else if s.draft.Some? && EndsDraft(e, s.draft.value.at) then None
              else if e.Control? && EndsDraft(e, 0) then None
              else s.draft
  {
    hide Latest, Put, Remove, HasKey, ValidKey;
  }

  lemma DraftStandsMore(events: seq<Event>, e: Event, i: nat)
    ensures DraftStands(events + [e], i) <==>
              if i == |events| then IsDraft(e) else DraftStands(events, i) && !EndsDraft(e, events[i].now)
  {
    hide IsDraft, EndsDraft;
    var more := events + [e];
    if i < |events| {
      if DraftStands(events, i) && !EndsDraft(e, events[i].now) {
        assert forall k :: i < k < |more| ==> k == |events| || more[k] == events[k];
      }
      if DraftStands(more, i) {
        assert forall k :: i < k < |events| ==> more[k] == events[k];
        assert more[|events|] == e;
      }
    }
  }

  lemma DraftEndsDrafts(e: Event, at: int)
    requires e.Override? && ValidKey(e.threadId) == ""
    ensures EndsDraft(e, at)
  {}

  /** In any run the store holds a draft exactly if one stands, with the mode and the time it was made with. */
  lemma {:induction false} DraftIff(events: seq<Event>, now: int)
    requires ClockRuns(events, now) && now > 0
    ensures var d := View(After(events)).draft;
            && (d.Some? ==> exists i: nat :: MadeBy(events, i, d.value))
            && (forall i: nat :: DraftStands(events, i) ==> d.Some? && MadeBy(events, i, d.value))
  {
    hide Step, StepView, Steady, Written, IsDraft, EndsDraft;
    if events == [] {
      NothingDrafted();
    } else {
      var front, e := events[..|events| - 1], events[|events| - 1];
      assert events == front + [e];
      StoreStaysSteady(front, e.now);
      StepIsSeen(After(front), e);
      DraftByStep(View(After(front)), e);
      DraftIff(front, e.now);
      hide View, After;
      DraftMore(front, e, View(After(front)).draft, View(After(events)).draft);
    }
  }

  lemma NothingDrafted()
    ensures View(EMPTY).draft == None
  {}

  lemma DraftMore(front: seq<Event>, e: Event, before: Option<Draft>, after: Option<Draft>)
    requires before.Some? ==> exists i: nat :: MadeBy(front, i, before.value)
    requires forall i: nat :: DraftStands(front, i) ==> before.Some? && MadeBy(front, i, before.value)
    requires after == if IsDraft(e) then Some(Draft(e.mode, e.now))
                      else if e.Override? && ValidKey(e.threadId) == "" then None
                      else if before.Some? && EndsDraft(e, before.value.at) then None
                      else if e.Control? && EndsDraft(e, 0) then None
                      else before
    ensures var events := front + [e];
            && (after.Some? ==> exists i: nat :: MadeBy(events, i, after.value))
            && (forall i: nat :: DraftStands(events, i) ==> after.Some? && MadeBy(events, i, after.value))
  {
    hide DraftStands, ValidKey, EndsDraft;
    var events := front + [e];
    if after.Some? {
      if IsDraft(e) {
        DraftStandsMore(front, e, |front|);
        assert MadeBy(events, |front|, after.value);
      } else {
        var i: nat :| MadeBy(front, i, before.value);
        StandsMeans(front, i);
        DraftStandsMore(front, e, i);
        assert MadeBy(events, i, after.value);
      }
    }
    forall i: nat | DraftStands(events, i)
      ensures after.Some? && MadeBy(events, i, after.value)
    {
      DraftStandsMore(front, e, i);
      StandsMeans(events, i);
      if i < |front| {
        EndsAlike(e, front[i].now);
        StandsMeans(front, i);
      }
    }
  }

  lemma StandsMeans(events: seq<Event>, i: nat)
    requires DraftStands(events, i)
    ensures i < |events| && events[i].Override?
  {}

  lemma EndsAlike(e: Event, at: int)
    requires !EndsDraft(e, at)
    ensures !(e.Override? && ValidKey(e.threadId) == "") && !(e.Control? && EndsDraft(e, 0)) && !IsDraft(e)
  {}

  /**
   A thread that turns up within a minute gets the drafted mode, if it has none of its own: the choice is made, and
   stored unless 120 others no older crowd it out. The draft is used up.
   */
  lemma DraftBecomesChoice(events: seq<Event>, i: nat, threadId: string, now: int)
    requires ClockRuns(events + [Bind(threadId, now)], now) && now > 0
    requires DraftStands(events, i) && ValidKey(threadId) != "" && now - events[i].now <= 60000
    ensures var key, bound := ValidKey(threadId), events + [Bind(threadId, now)];
            var before, after := View(After(events)), View(After(bound));
            && after.draft == None && after.mode == Custom
            && if HasKey(before.entries, key) then after.entries == before.entries
               else
                 var e := Entry(key, events[i].mode, now);
                 && key in Choices(bound) && Choices(bound)[key] == e
                 && (e in after.entries || CrowdedOut(after.entries, e))
  {
    hide Step, StepView, Written, DraftStands, ValidKey, CrowdedOut, HasKey, View;
    var bound := events + [Bind(threadId, now)];
    assert bound[..|bound| - 1] == events && bound[|bound| - 1] == Bind(threadId, now);
    ClockBefore(events, threadId, now);
    StandsMeans(events, i);
    DraftIff(events, now);
    StoreStaysSteady(events, now);
    StepIsSeen(After(events), Bind(threadId, now));
    BindKeepsEntries(View(After(events)), threadId, now);
  }

  lemma ClockBefore(events: seq<Event>, threadId: string, now: int)
    requires ClockRuns(events + [Bind(threadId, now)], now)
    ensures ClockRuns(events, now)
  {
    var bound := events + [Bind(threadId, now)];
    assert forall k :: 0 <= k < |events| ==> bound[k] == events[k];
  }

  // ---------------------------------------------------------------------------------------------
  // What requests see of the store

  function ModesOf(entries: seq<Entry>): map<string, ThreadMode> {
    if entries == [] then map[] else ModesOf(entries[1..])[entries[0].key := entries[0].mode]
  }

  /** The rewriter's view of the store: a draft older than a minute does not count. */
  function Reading(env: Requests.Env, s: State, now: int): Requests.Env {
    env.(controlMode := s.mode, defaultMode := s.defaultMode, overrides := ModesOf(s.entries),
         draft := if s.draft.Some? && now - s.draft.value.at <= BIND_WINDOW_MS then s.draft.value.mode else Inherit)
  }

  lemma {:induction false} ModesOfEntries(entries: seq<Entry>, key: string)
    requires DistinctKeys(entries)
    ensures key in ModesOf(entries) <==> exists e <- entries :: e.key == key
    ensures forall e <- entries :: e.key == key ==> key in ModesOf(entries) && ModesOf(entries)[key] == e.mode
  {
    if entries != [] {
      var e, rest := entries[0], entries[1..];
      assert forall i :: 0 <= i < |rest| ==> rest[i] == entries[i + 1];
      assert forall x <- rest :: x.key != e.key;
      assert forall x :: x in entries <==> x == e || x in rest;
      ModesOfEntries(rest, key);
    }
  }

  /** The tier fields of a request that is sent in this mode. */
  ghost predicate SentInMode(env: Requests.Env, params: Value, sent: Value, mode: ThreadMode) {
    var fast := Str(if env.fastTierValue != "" then env.fastTierValue else "priority");
    match mode
    case Fast =>
      Get(sent, "serviceTier") == if Requests.IsFast(fast) && Requests.Offers(env, params) then fast else Null
    case Standard => Get(sent, "serviceTier") == Null
    case Inherit => !(Requests.IsFast(Requests.EffectiveTier(sent)) && !Requests.Offers(env, params))
  }

  /**
   From the user's choice to the request. After any run of choices that leaves custom control, a turn of a thread is
   sent in the mode of the thread's entry in the store, which is the last one chosen for it; a thread without entry
   in the default mode; and a new thread without key in the mode drafted in the last minute, if one is.
   */
  lemma ChoiceIsSent(events: seq<Event>, now: int, env: Requests.Env, params: Value, key: string)
    requires ClockRuns(events, now) && now > 0 && View(After(events)).mode == Custom
    requires env.tierControls && params.Object? && IsValidKey(key) && Get(params, "threadId") == Str(key)
    ensures var s := View(After(events));
            var seen := Reading(env, s, now);
            var sent := Requests.Apply(seen, "turn/start", params, Str("")).GetOr(params);
            && (forall e <- s.entries :: e.key == key ==>
                  SentInMode(seen, params, sent, e.mode) && key in Choices(events) && Choices(events)[key] == e)
            && ((forall e <- s.entries :: e.key != key) ==> SentInMode(seen, params, sent, s.defaultMode))
  {
    hide View, Step, Written, IsValidKey, Get, Requests.Apply, Requests.ModeFor, ModesOf, Normal, LatestFirst,
      SentInMode;
    StoreStaysSteady(events, now);
    var s := View(After(events));
    var seen := Reading(env, s, now);
    SteadyEntries(s, now);
    ModesOfEntries(s.entries, key);
    Requests.ThreadModeIs(seen, "turn/start", params, Str(""), key);
    CustomIsSent(seen, "turn/start", params);
  }

  lemma CustomIsSent(env: Requests.Env, rpc: string, params: Value)
    requires params.Object? && env.tierControls && rpc in Requests.TIER_METHODS && env.controlMode == Custom
    ensures SentInMode(env, params, Requests.Apply(env, rpc, params, Str("")).GetOr(params),
                       Requests.ModeFor(env, rpc, params, Str("")))
  {
    hide Requests.Offers, Requests.IsFast, Get, Requests.Apply, Requests.ModeFor;
    Requests.SentTierIs(env, rpc, params, Str(""));
    InheritedIsSafe(env, rpc, params, Str(""));
  }

  lemma SteadyEntries(s: State, now: int)
    requires Steady(s, now)
    ensures DistinctKeys(s.entries) && forall e <- s.entries :: e.mode != Inherit
  {}

  lemma InheritedIsSafe(env: Requests.Env, rpc: string, params: Value, hint: Value)
    requires params.Object? && env.tierControls && rpc in Requests.TIER_METHODS
    ensures var sent := Requests.Apply(env, rpc, params, hint).GetOr(params);
            Requests.IsFast(Requests.EffectiveTier(sent)) ==> Requests.Offers(env, params)
  {
    Requests.FastIsSentIff(env, rpc, params, hint);
  }

  lemma DraftIsSent(events: seq<Event>, i: nat, now: int, env: Requests.Env, params: Value)
    requires ClockRuns(events, now) && now > 0 && DraftStands(events, i)
    requires env.tierControls && params.Object? && !Truthy(Get(params, "threadId"))
    ensures var s := View(After(events));
            var seen := Reading(env, s, now);
            var sent := Requests.Apply(seen, "thread/start", params, Str("")).GetOr(params);
            SentInMode(seen, params, sent, if now - events[i].now <= 60000 then events[i].mode else s.defaultMode)
  {
    hide View, Step, Written, Get, Requests.Apply, Requests.ModeFor, ModesOf, Normal, LatestFirst, Truthy, SentInMode;
    StoreStaysSteady(events, now);
    DraftIff(events, now);
    DraftHasMode(events, i);
    var seen := Reading(env, View(After(events)), now);
    NewThreadMode(seen, params);
    CustomIsSent(seen, "thread/start", params);
  }

  lemma NewThreadMode(env: Requests.Env, params: Value)
    requires !Truthy(Get(params, "threadId"))
    ensures Requests.ModeFor(env, "thread/start", params, Str("")) ==
              if env.draft != Inherit then env.draft else env.defaultMode
  {
    hide Requests.ModeFor, Get;
    assert IsValidKey("01234567");
    Requests.ThreadModeIs(env, "thread/start", params, Str(""), "01234567");
  }

  lemma DraftHasMode(events: seq<Event>, i: nat)
    requires DraftStands(events, i)
    ensures i < |events| && events[i].Override? && events[i].mode != Inherit
  {}
}
