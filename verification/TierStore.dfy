/**
 The stored service-tier choices: a control mode, one entry per thread, and a draft for a thread that
 does not exist yet. Every operation reads the stored record, changes it and writes it back; writing
 keeps the most recent entries only.
 */
module TierStore {
  import opened Text
  import opened Wrappers
  import opened SessionKeys
  import opened TierModes

  const MAX_ENTRIES := 120
  const BIND_WINDOW_MS := 60000

  // ---------------------------------------------------------------------------------------------
  // The record as stored, with texts and times that may be anything

  datatype RawEntry = RawEntry(key: string, mode: string, at: int)

  datatype RawDraft = RawDraft(mode: string, at: int)

  datatype Raw = Raw(versionMatches: bool, mode: string, defaultMode: string, entries: seq<RawEntry>,
      draft: Option<RawDraft>)

  const EMPTY := Raw(false, "", "", [], None)

  datatype Entry = Entry(key: string, mode: ThreadMode, at: int)

  datatype Draft = Draft(mode: ThreadMode, at: int)

  datatype State = State(mode: ControlMode, defaultMode: ThreadMode, entries: seq<Entry>, draft: Option<Draft>)

  function ThreadModeOf(text: string): ThreadMode {
    var t := Lower(Trim(text));
    if t == "standard" then Standard else if t == "fast" then Fast else Inherit
  }

  function ThreadModeText(m: ThreadMode): string {
    match m case Inherit => "inherit" case Standard => "standard" case Fast => "fast"
  }

  function ControlModeOf(text: string): ControlMode {
    var t := Lower(Trim(text));
    if t == "global-standard" then GlobalStandard
    else if t == "global-fast" then GlobalFast
    else if t == "custom" then Custom
    else Inherited
  }

  function ControlModeText(m: ControlMode): string {
    match m
    case Inherited => "inherit"
    case GlobalStandard => "global-standard"
    case GlobalFast => "global-fast"
    case Custom => "custom"
  }

  function DefaultFor(m: ControlMode): ThreadMode {
    match m case GlobalFast => Fast case GlobalStandard => Standard case _ => Inherit
  }

  /** A usable time, or now. */
  function TimeOr(at: int, now: int): int { if at > 0 then at else now }

  // ---------------------------------------------------------------------------------------------
  // Entries: an object's properties in insertion order

  predicate HasKey(entries: seq<Entry>, key: string) { exists e <- entries :: e.key == key }

  /** Property assignment: in place if the key is there, else at the end. */
  function Put(entries: seq<Entry>, e: Entry): seq<Entry> {
    if entries == [] then [e]
    else if entries[0].key == e.key then [e] + entries[1..]
    else [entries[0]] + Put(entries[1..], e)
  }

  function Remove(entries: seq<Entry>, key: string): seq<Entry> {
    if entries == [] then []
    else if entries[0].key == key then Remove(entries[1..], key)
    else [entries[0]] + Remove(entries[1..], key)
  }

  function PutAll(entries: seq<Entry>): seq<Entry> {
    if entries == [] then [] else Put(PutAll(entries[..|entries| - 1]), entries[|entries| - 1])
  }

  /** The acceptable ones of some stored entries, under their normalised keys. */
  function Usable(entries: seq<RawEntry>, now: int): seq<Entry> {
    if entries == [] then [] else UsableOne(entries[0], now) + Usable(entries[1..], now)
  }

  function UsableOne(e: RawEntry, now: int): seq<Entry> {
    var key, mode := ValidKey(e.key), ThreadModeOf(e.mode);
    if key != "" && mode != Inherit then [Entry(key, mode, TimeOr(e.at, now))] else []
  }

  function RawOf(e: Entry): RawEntry { RawEntry(e.key, ThreadModeText(e.mode), e.at) }

  function ToRaw(entries: seq<Entry>): seq<RawEntry> {
    seq(|entries|, i requires 0 <= i < |entries| => RawOf(entries[i]))
  }

  /** The stable sort by time, latest first. */
  function Place(sorted: seq<Entry>, e: Entry): (k: nat)
    ensures k <= |sorted|
    ensures forall i :: 0 <= i < k ==> sorted[i].at >= e.at
    ensures k < |sorted| ==> sorted[k].at < e.at
  {
    if sorted == [] || sorted[0].at < e.at then 0 else 1 + Place(sorted[1..], e)
  }

  function SortByTime(entries: seq<Entry>): seq<Entry> {
    if entries == [] then []
    else
      var sorted := SortByTime(entries[..|entries| - 1]);
      var e := entries[|entries| - 1];
      var k := Place(sorted, e);
      sorted[..k] + [e] + sorted[k..]
  }

  function Latest(entries: seq<Entry>): seq<Entry> {
    var sorted := SortByTime(entries);
    if |sorted| > MAX_ENTRIES then sorted[..MAX_ENTRIES] else sorted
  }

  function ReadDraft(d: Option<RawDraft>, now: int): Option<Draft> {
    if d.None? || ThreadModeOf(d.value.mode) == Inherit then None
    else Some(Draft(ThreadModeOf(d.value.mode), TimeOr(d.value.at, now)))
  }

  function Read(raw: Raw, now: int): State {
    var entries := PutAll(Usable(if raw.versionMatches then raw.entries else [], now));
    var draft := ReadDraft(raw.draft, now);
    var mode := if raw.mode != "" then ControlModeOf(raw.mode)
                else if draft.Some? || entries != [] then Custom else Inherited;
    State(mode, if raw.defaultMode != "" then ThreadModeOf(raw.defaultMode) else DefaultFor(mode), entries, draft)
  }

  function Write(s: State, now: int): Raw {
    var entries := PutAll(Latest(Usable(ToRaw(s.entries), now)));
    var draft := if s.draft.None? then None
        else ReadDraft(Some(RawDraft(ThreadModeText(s.draft.value.mode), s.draft.value.at)), now);
    Raw(true, ControlModeText(s.mode), ThreadModeText(s.defaultMode), ToRaw(entries),
        if draft.None? then None else Some(RawDraft(ThreadModeText(draft.value.mode), draft.value.at)))
  }

  // ---------------------------------------------------------------------------------------------
  // Operations

  function Overridden(s: State, threadId: string, mode: ThreadMode, now: int): State {
    var key := ValidKey(threadId);
    var t := s.(mode := Custom);
    if key != ""
        then t.(entries := if mode == Inherit then Remove(s.entries, key) else Put(s.entries, Entry(key, mode, now)))
    else t.(draft := if mode == Inherit then None else Some(Draft(mode, now)))
  }

  predicate Bindable(s: State, threadId: string, now: int) {
    ValidKey(threadId) != "" && s.draft.Some? && now - s.draft.value.at <= BIND_WINDOW_MS
  }

  function Bound(s: State, threadId: string, now: int): State {
    var key := ValidKey(threadId);
    if s.mode != Custom || s.draft.None? then s.(draft := None)
    else s.(entries := if HasKey(s.entries, key) then s.entries
        else Put(s.entries, Entry(key, s.draft.value.mode, now)),
            draft := None)
  }

  function Controlled(s: State, mode: ControlMode): State {
    if mode != Custom then State(mode, DefaultFor(mode), [], None) else s.(mode := Custom)
  }

  datatype Event =
    | Override(threadId: string, mode: ThreadMode, now: int)
    | Bind(threadId: string, now: int)
    | Control(controlMode: ControlMode, allowed: bool, now: int)

  function Step(raw: Raw, e: Event): Raw {
    var s := Read(raw, e.now);
    match e
    case Override(threadId, mode, now) => Write(Overridden(s, threadId, mode, now), now)
    case Bind(threadId, now) => if Bindable(s, threadId, now) then Write(Bound(s, threadId, now), now) else raw
    case Control(mode, allowed, now) => if allowed then Write(Controlled(s, mode), now) else raw
  }

  class Store {
    var raw: Raw

    constructor ()
      ensures raw == EMPTY
    {
      raw := EMPTY;
    }

    method SetThreadOverride(threadId: string, mode: ThreadMode, now: int)
      modifies this
      ensures raw == Step(old(raw), Override(threadId, mode, now))
    {
      var state := Read(raw, now);
      state := state.(mode := Custom);
      var key := ValidKey(threadId);
      if key != "" {
        if mode == Inherit {
          state := state.(entries := Remove(state.entries, key));
        } else {
          state := state.(entries := Put(state.entries, Entry(key, mode, now)));
        }
      } else if mode == Inherit {
        state := state.(draft := None);
      } else {
        state := state.(draft := Some(Draft(mode, now)));
      }
      raw := Write(state, now);
    }

    method BindDraft(threadId: string, now: int) returns (bound: bool)
      modifies this
      ensures raw == Step(old(raw), Bind(threadId, now))
      ensures bound <==> Bindable(Read(old(raw), now), threadId, now) && Read(old(raw), now).mode == Custom
    {
      var key := ValidKey(threadId);
      var state := Read(raw, now);
      var draft := if state.draft.Some? && now - state.draft.value.at > BIND_WINDOW_MS then None else state.draft;
      if key == "" || draft.None? {
        return false;
      }
      if state.mode != Custom {
        state := state.(draft := None);
        raw := Write(state, now);
        return false;
      }
      if !HasKey(state.entries, key) {
        state := state.(entries := Put(state.entries, Entry(key, draft.value.mode, now)));
      }
      state := state.(draft := None);
      raw := Write(state, now);
      bound := true;
    }

    /** `allowed` is false when the backend is away or the fast mode is not offered for the current model. */
    method SetControlMode(mode: ControlMode, allowed: bool, now: int)
      modifies this
      ensures raw == Step(old(raw), Control(mode, allowed, now))
    {
      if !allowed {
        return;
      }
      var state := Read(raw, now).(mode := mode);
      if mode != Custom {
        state := state.(defaultMode := DefaultFor(mode), entries := [], draft := None);
      }
      raw := Write(state, now);
    }
  }

  // ---------------------------------------------------------------------------------------------
  // Reading back what was written

  ghost predicate DistinctKeys(entries: seq<Entry>) {
    forall i, j :: 0 <= i < j < |entries| ==> entries[i].key != entries[j].key
  }

  ghost predicate Good(e: Entry) { IsValidKey(e.key) && e.mode != Inherit && e.at > 0 }

  ghost predicate AllGood(entries: seq<Entry>) { forall e <- entries :: Good(e) }

  ghost predicate LatestFirst(entries: seq<Entry>) {
    forall i, j :: 0 <= i < j < |entries| ==> entries[i].at >= entries[j].at
  }

  lemma NoSpaces()
    ensures forall c <- "itsdfgcm" :: !IsJsSpace(c)
  {}

  lemma ThreadModeTexts(m: ThreadMode)
    ensures ThreadModeOf(ThreadModeText(m)) == m && ThreadModeText(m) != ""
  {
    hide IsJsSpace, Trim, Lower;
    NoSpaces();
    assert forall c <- ['i', 't', 's', 'd', 'f'] :: c in "itsdfgcm";
    NormalWord(ThreadModeText(m));
  }

  lemma ControlModeTexts(m: ControlMode)
    ensures ControlModeOf(ControlModeText(m)) == m && ControlModeText(m) != ""
  {
    hide IsJsSpace, Trim, Lower, ControlModeText;
    ControlModeWords(m);
    NormalWord(ControlModeText(m));
    ControlModeReads(m);
  }

  /** A word without blanks at its ends and without capitals. */
  predicate IsWord(t: string) {
    && t != "" && !IsJsSpace(t[0]) && !IsJsSpace(t[|t| - 1])
    && forall i :: 0 <= i < |t| ==> !('A' <= t[i] <= 'Z')
  }

  lemma GlobalStandardIsWord()
    ensures IsWord("global-standard")
  {
    hide IsJsSpace;
    NoSpaces();
    assert 'g' in "itsdfgcm" && 'd' in "itsdfgcm";
  }

  lemma GlobalFastIsWord()
    ensures IsWord("global-fast")
  {
    hide IsJsSpace;
    NoSpaces();
    assert 'g' in "itsdfgcm" && 't' in "itsdfgcm";
  }

  lemma InheritIsWord()
    ensures IsWord("inherit") && IsWord("custom")
  {
    hide IsJsSpace;
    NoSpaces();
    assert 'i' in "itsdfgcm" && 't' in "itsdfgcm" && 'c' in "itsdfgcm" && 'm' in "itsdfgcm";
  }

  lemma ControlModeWords(m: ControlMode)
    ensures IsWord(ControlModeText(m))
  {
    hide IsWord;
    InheritIsWord();
    GlobalStandardIsWord();
    GlobalFastIsWord();
  }

  lemma ControlModeReads(m: ControlMode)
    requires Lower(Trim(ControlModeText(m))) == ControlModeText(m)
    ensures ControlModeOf(ControlModeText(m)) == m
  {
    hide Trim, Lower;
  }

  lemma ModeTexts(m: ThreadMode, c: ControlMode)
    ensures ThreadModeOf(ThreadModeText(m)) == m && ControlModeOf(ControlModeText(c)) == c
    ensures ThreadModeText(m) != "" && ControlModeText(c) != ""
  {
    hide ThreadModeOf, ControlModeOf, ThreadModeText, ControlModeText;
    ThreadModeTexts(m);
    ControlModeTexts(c);
  }

  lemma {:induction false} UsableOfGood(entries: seq<Entry>, now: int)
    requires AllGood(entries)
    ensures Usable(ToRaw(entries), now) == entries
  {
    hide UsableOne, RawOf, Good;
    if entries != [] {
      assert Good(entries[0]);
      OneOfGood(entries[0], now);
      UsableOfGood(entries[1..], now);
      assert ToRaw(entries)[1..] == ToRaw(entries[1..]);
    }
  }

  lemma OneOfGood(e: Entry, now: int)
    requires Good(e)
    ensures UsableOne(RawOf(e), now) == [e]
  {
    hide ValidKey, ThreadModeOf, ThreadModeText;
    ValidKeyIsStable(e.key);
    ModeTexts(e.mode, Custom);
  }

  lemma {:induction false} PutNew(entries: seq<Entry>, e: Entry)
    requires !HasKey(entries, e.key)
    ensures Put(entries, e) == entries + [e]
  {
    if entries != [] {
      assert entries[0] in entries;
      assert forall x <- entries[1..] :: x in entries;
      PutNew(entries[1..], e);
    }
  }

  lemma {:induction false} PutAllDistinct(entries: seq<Entry>)
    requires DistinctKeys(entries)
    ensures PutAll(entries) == entries
  {
    if entries != [] {
      var front := entries[..|entries| - 1];
      PutAllDistinct(front);
      assert forall e <- front :: e.key != entries[|entries| - 1].key;
      PutNew(front, entries[|entries| - 1]);
      assert entries == front + [entries[|entries| - 1]];
    }
  }

  lemma PlaceSorts(sorted: seq<Entry>, e: Entry)
    requires LatestFirst(sorted)
    ensures var k := Place(sorted, e);
            var r := sorted[..k] + [e] + sorted[k..];
            LatestFirst(r) && multiset(r) == multiset(sorted) + multiset{e}
  {
    hide Place;
    var k := Place(sorted, e);
    InsertMultiset(sorted, k, e);
    InsertIndices(sorted, k, e);
    InsertOrdered(sorted, k, e, sorted[..k] + [e] + sorted[k..]);
  }

  lemma InsertOrdered(sorted: seq<Entry>, k: nat, e: Entry, r: seq<Entry>)
    requires LatestFirst(sorted) && k <= |sorted| && |r| == |sorted| + 1 && r[k] == e
    requires forall i :: 0 <= i < k ==> r[i] == sorted[i] && sorted[i].at >= e.at
    requires forall i :: k < i < |r| ==> r[i] == sorted[i - 1]
    requires k < |sorted| ==> sorted[k].at < e.at
    ensures LatestFirst(r)
  {
    forall i, j | 0 <= i < j < |r|
      ensures r[i].at >= r[j].at
    {
      if i == k {
        assert r[j] == sorted[j - 1] && sorted[k].at >= sorted[j - 1].at;
      } else if j != k {
        assert r[i] == sorted[if i < k then i else i - 1] && r[j] == sorted[if j < k then j else j - 1];
      }
    }
  }

  /** Where everything stands after an insertion at `k`. */
  lemma InsertIndices(entries: seq<Entry>, k: nat, e: Entry)
    requires k <= |entries|
    ensures var r := entries[..k] + [e] + entries[k..];
            && |r| == |entries| + 1 && r[k] == e
            && (forall i :: 0 <= i < k ==> r[i] == entries[i])
            && forall i :: k < i < |r| ==> r[i] == entries[i - 1]
  {}

  lemma InsertMultiset(entries: seq<Entry>, k: nat, e: Entry)
    requires k <= |entries|
    ensures multiset(entries[..k] + [e] + entries[k..]) == multiset(entries) + multiset{e}
  {
    assert entries == entries[..k] + entries[k..];
  }

  lemma {:induction false} SortedByTime(entries: seq<Entry>)
    ensures LatestFirst(SortByTime(entries))
    ensures multiset(SortByTime(entries)) == multiset(entries) && |SortByTime(entries)| == |entries|
  {
    hide Place, LatestFirst;
    if entries == [] {
      EmptySorted();
    } else {
      var front, e := entries[..|entries| - 1], entries[|entries| - 1];
      SortedByTime(front);
      assert entries == front + [e];
      PlaceSorts(SortByTime(front), e);
    }
  }

  lemma EmptySorted()
    ensures LatestFirst([])
  {}

  lemma InsertDistinct(entries: seq<Entry>, k: nat, e: Entry)
    requires k <= |entries| && DistinctKeys(entries) && forall x <- entries :: x.key != e.key
    ensures var r := entries[..k] + [e] + entries[k..];
            DistinctKeys(r) && forall x :: x in r <==> x in entries || x == e
  {
    var r := entries[..k] + [e] + entries[k..];
    InsertIndices(entries, k, e);
    InsertMembers(entries, k, e);
    DistinctByIndices(entries, k, e, r);
  }

  lemma InsertMembers(entries: seq<Entry>, k: nat, e: Entry)
    requires k <= |entries|
    ensures forall x :: x in entries[..k] + [e] + entries[k..] <==> x in entries || x == e
  {
    assert entries == entries[..k] + entries[k..];
  }

  lemma DistinctByIndices(entries: seq<Entry>, k: nat, e: Entry, r: seq<Entry>)
    requires k <= |entries| && DistinctKeys(entries) && forall x <- entries :: x.key != e.key
    requires |r| == |entries| + 1 && r[k] == e
    requires forall i :: 0 <= i < k ==> r[i] == entries[i]
    requires forall i :: k < i < |r| ==> r[i] == entries[i - 1]
    ensures DistinctKeys(r)
  {
    assert forall i :: 0 <= i < |entries| ==> entries[i] in entries;
    forall i, j | 0 <= i < j < |r|
      ensures r[i].key != r[j].key
    {
      assert i != k ==> r[i] == entries[if i < k then i else i - 1];
      assert j != k ==> r[j] == entries[if j < k then j else j - 1];
    }
  }

  lemma {:induction false} SortKeepsKeys(entries: seq<Entry>)
    requires DistinctKeys(entries)
    ensures DistinctKeys(SortByTime(entries))
    ensures forall e :: e in SortByTime(entries) <==> e in entries
  {
    hide Place;
    if entries != [] {
      var front, e := entries[..|entries| - 1], entries[|entries| - 1];
      SortKeepsKeys(front);
      assert entries == front + [e];
      assert forall x <- front :: x.key != e.key;
      var sorted := SortByTime(front);
      InsertDistinct(sorted, Place(sorted, e), e);
    }
  }

  lemma {:induction false} SortOfSorted(entries: seq<Entry>)
    requires LatestFirst(entries)
    ensures SortByTime(entries) == entries
  {
    hide Place;
    if entries != [] {
      var front, e := entries[..|entries| - 1], entries[|entries| - 1];
      assert forall i :: 0 <= i < |front| ==> front[i] == entries[i];
      SortOfSorted(front);
      PlaceAtEnd(entries);
      assert front[..|front|] + [e] + front[|front|..] == entries;
    }
  }

  lemma PlaceAtEnd(entries: seq<Entry>)
    requires entries != [] && LatestFirst(entries)
    ensures Place(entries[..|entries| - 1], entries[|entries| - 1]) == |entries| - 1
  {
    hide Place;
    var front, e := entries[..|entries| - 1], entries[|entries| - 1];
    assert forall i :: 0 <= i < |front| ==> front[i] == entries[i] && front[i].at >= e.at;
    var k := Place(front, e);
  }

  /** A state as reading yields it: acceptable entries under different keys, a dated draft or none. */
  ghost predicate Normal(s: State) {
    && AllGood(s.entries) && DistinctKeys(s.entries)
    && (s.draft.Some? ==> s.draft.value.mode != Inherit && s.draft.value.at > 0)
  }

  /** What reading back yields: the same state with its latest entries. */
  function Capped(s: State): State { s.(entries := Latest(s.entries)) }

  lemma LatestIsGood(entries: seq<Entry>)
    requires AllGood(entries) && DistinctKeys(entries)
    ensures AllGood(Latest(entries)) && DistinctKeys(Latest(entries)) && LatestFirst(Latest(entries))
    ensures |Latest(entries)| <= MAX_ENTRIES
    ensures Latest(Latest(entries)) == Latest(entries)
    ensures forall e <- Latest(entries) :: e in entries
  {
    hide SortByTime;
    SortedByTime(entries);
    SortKeepsKeys(entries);
    assert forall e <- Latest(entries) :: e in SortByTime(entries);
    SortOfSorted(Latest(entries));
  }

  lemma ReadAfterWrite(s: State, now: int, later: int)
    requires Normal(s)
    ensures Read(Write(s, now), later) == Capped(s) && Normal(Capped(s))
  {
    hide ThreadModeOf, ControlModeOf, ThreadModeText, ControlModeText, Usable, PutAll, Latest, AllGood, DistinctKeys,
        ToRaw;
    ModeTexts(s.defaultMode, s.mode);
    UsableOfGood(s.entries, now);
    LatestIsGood(s.entries);
    PutAllDistinct(Latest(s.entries));
    UsableOfGood(Latest(s.entries), later);
    if s.draft.Some? {
      ModeTexts(s.draft.value.mode, s.mode);
    }
  }

  lemma {:induction false} UsableIsGood(entries: seq<RawEntry>, now: int)
    requires now > 0
    ensures AllGood(Usable(entries, now))
  {
    if entries != [] {
      UsableIsGood(entries[1..], now);
    }
  }

  lemma {:induction false} PutMembers(entries: seq<Entry>, e: Entry)
    requires DistinctKeys(entries)
    ensures forall x :: x in Put(entries, e) <==> x == e || (x in entries && x.key != e.key)
  {
    if entries != [] {
      assert forall x <- entries[1..] :: x.key != entries[0].key;
      assert forall x :: x in entries <==> x == entries[0] || x in entries[1..];
      if entries[0].key != e.key {
        PutMembers(entries[1..], e);
      }
    }
  }

  lemma {:induction false} PutDistinct(entries: seq<Entry>, e: Entry)
    requires DistinctKeys(entries)
    ensures DistinctKeys(Put(entries, e))
  {
    if entries != [] && entries[0].key != e.key {
      PutDistinct(entries[1..], e);
      PutMembers(entries[1..], e);
      assert forall x <- entries[1..] :: x.key != entries[0].key;
      assert forall x <- Put(entries[1..], e) :: x.key != entries[0].key;
    }
  }

  lemma PutIsGood(entries: seq<Entry>, e: Entry)
    requires AllGood(entries) && DistinctKeys(entries) && Good(e)
    ensures AllGood(Put(entries, e)) && DistinctKeys(Put(entries, e))
    ensures forall x :: x in Put(entries, e) <==> x == e || (x in entries && x.key != e.key)
  {
    hide Good, Put, DistinctKeys;
    PutMembers(entries, e);
    PutDistinct(entries, e);
  }

  lemma {:induction false} PutAllIsGood(entries: seq<Entry>)
    requires AllGood(entries)
    ensures AllGood(PutAll(entries)) && DistinctKeys(PutAll(entries))
  {
    if entries != [] {
      PutAllIsGood(entries[..|entries| - 1]);
      assert entries[|entries| - 1] in entries;
      PutIsGood(PutAll(entries[..|entries| - 1]), entries[|entries| - 1]);
    }
  }

  lemma ReadIsNormal(raw: Raw, now: int)
    requires now > 0
    ensures Normal(Read(raw, now))
  {
    var entries := if raw.versionMatches then raw.entries else [];
    UsableIsGood(entries, now);
    PutAllIsGood(Usable(entries, now));
  }

  /** Reading back what was written changes nothing: whatever was stored, a second write stores the same record. */
  lemma WriteReadWrite(raw: Raw, now: int, later: int)
    requires now > 0
    ensures var w := Write(Read(raw, now), now);
            Write(Read(w, later), later) == w && Read(w, later) == Read(w, now)
  {
    hide Read, Write, Latest;
    var s := Read(raw, now);
    ReadIsNormal(raw, now);
    ReadAfterWrite(s, now, later);
    ReadAfterWrite(s, now, now);
    WriteOfCapped(s, now, later);
  }

  lemma WriteOfCapped(s: State, now: int, later: int)
    requires Normal(s)
    ensures Write(Capped(s), later) == Write(s, now)
  {
    hide ThreadModeOf, ControlModeOf, ThreadModeText, ControlModeText, Usable, PutAll, Latest, AllGood, DistinctKeys,
        ToRaw;
    UsableOfGood(s.entries, now);
    LatestIsGood(s.entries);
    UsableOfGood(Latest(s.entries), later);
    if s.draft.Some? {
      ModeTexts(s.draft.value.mode, s.mode);
    }
  }

  // ---------------------------------------------------------------------------------------------
  // Runs, seen through reading

  ghost predicate Written(raw: Raw) {
    raw == EMPTY || exists s, now :: Normal(s) && raw == Write(s, now)
  }

  /** What any reader sees; for written records the time of reading does not matter. */
  function View(raw: Raw): State { Read(raw, 1) }

  lemma ReadsAlike(raw: Raw, now: int)
    requires Written(raw)
    ensures Read(raw, now) == View(raw) && Normal(View(raw))
  {
    if raw != EMPTY {
      hide Read, Write;
      var s, written :| Normal(s) && raw == Write(s, written);
      ReadAfterWrite(s, written, now);
      ReadAfterWrite(s, written, 1);
    }
  }

  function StepView(s: State, e: Event): State {
    match e
    case Override(threadId, mode, now) => Capped(Overridden(s, threadId, mode, now))
    case Bind(threadId, now) => if Bindable(s, threadId, now) then Capped(Bound(s, threadId, now)) else s
    case Control(mode, allowed, now) => if allowed then Capped(Controlled(s, mode)) else s
  }

  lemma {:induction false} RemoveIsGood(entries: seq<Entry>, key: string)
    requires AllGood(entries) && DistinctKeys(entries)
    ensures AllGood(Remove(entries, key)) && DistinctKeys(Remove(entries, key))
    ensures forall x :: x in Remove(entries, key) <==> x in entries && x.key != key
  {
    hide Good, Remove;
    RemoveMembers(entries, key);
    RemoveDistinct(entries, key);
  }

  lemma {:induction false} RemoveMembers(entries: seq<Entry>, key: string)
    ensures forall x :: x in Remove(entries, key) <==> x in entries && x.key != key
  {
    if entries != [] {
      assert entries == [entries[0]] + entries[1..];
      RemoveMembers(entries[1..], key);
    }
  }

  lemma {:induction false} RemoveDistinct(entries: seq<Entry>, key: string)
    requires DistinctKeys(entries)
    ensures DistinctKeys(Remove(entries, key))
  {
    if entries != [] {
      var rest := entries[1..];
      assert forall i :: 0 <= i < |rest| ==> rest[i] == entries[i + 1];
      RemoveDistinct(rest, key);
      RemoveMembers(rest, key);
      var r := Remove(rest, key);
      forall i | 0 <= i < |r|
        ensures r[i].key != entries[0].key
      {
        assert r[i] in rest;
      }
      hide Remove;
      DistinctMore(entries[0], r);
    }
  }

  lemma DistinctMore(e: Entry, entries: seq<Entry>)
    requires DistinctKeys(entries) && forall i :: 0 <= i < |entries| ==> entries[i].key != e.key
    ensures DistinctKeys([e] + entries)
  {}

  lemma OperationsKeepNormal(s: State, e: Event)
    requires Normal(s) && e.now > 0
    ensures e.Override? ==> Normal(Overridden(s, e.threadId, e.mode, e.now))
    ensures e.Bind? && Bindable(s, e.threadId, e.now) ==> Normal(Bound(s, e.threadId, e.now))
    ensures e.Control? ==> Normal(Controlled(s, e.controlMode))
  {
    hide Overridden, Bound, Normal, Bindable;
    match e {
      case Override(threadId, mode, now) => OverriddenIsNormal(s, threadId, mode, now);
      case Bind(threadId, now) =>
        if Bindable(s, threadId, now) {
          BoundIsNormal(s, threadId, now);
        }
      case Control(mode, _, _) => ControlledIsNormal(s, mode);
    }
  }

  lemma OverriddenIsNormal(s: State, threadId: string, mode: ThreadMode, now: int)
    requires Normal(s) && now > 0
    ensures Normal(Overridden(s, threadId, mode, now))
  {
    hide IsValidKey, AllGood, DistinctKeys, Put, Remove;
    var key := ValidKey(threadId);
    RemoveIsGood(s.entries, key);
    if key != "" && mode != Inherit {
      PutIsGood(s.entries, Entry(key, mode, now));
    }
  }

  lemma BoundIsNormal(s: State, threadId: string, now: int)
    requires Normal(s) && now > 0 && Bindable(s, threadId, now)
    ensures Normal(Bound(s, threadId, now))
  {
    hide IsValidKey, ValidKey, AllGood, DistinctKeys, Put, HasKey;
    PutIsGood(s.entries, Entry(ValidKey(threadId), s.draft.value.mode, now));
  }

  lemma ControlledIsNormal(s: State, mode: ControlMode)
    requires Normal(s)
    ensures Normal(Controlled(s, mode))
  {
    hide Good;
  }

  lemma StepIsSeen(raw: Raw, e: Event)
    requires Written(raw) && e.now > 0
    ensures Written(Step(raw, e)) && View(Step(raw, e)) == StepView(View(raw), e)
  {
    hide Read, Write, Overridden, Bound, Controlled, Latest, Normal, Bindable;
    ReadsAlike(raw, e.now);
    var s := View(raw);
    OperationsKeepNormal(s, e);
    match e {
      case Override(threadId, mode, now) => ReadAfterWrite(Overridden(s, threadId, mode, now), now, 1);
      case Bind(threadId, now) =>
        if Bindable(s, threadId, now) {
          ReadAfterWrite(Bound(s, threadId, now), now, 1);
        }
      case Control(mode, allowed, now) =>
        if allowed {
          ReadAfterWrite(Controlled(s, mode), now, 1);
        }
    }
  }

  function After(events: seq<Event>): Raw {
    if events == [] then EMPTY else Step(After(events[..|events| - 1]), events[|events| - 1])
  }

  /** The clock of the run: positive and never running backwards, now at `now`. */
  ghost predicate ClockRuns(events: seq<Event>, now: int) {
    && (forall i :: 0 <= i < |events| ==> 0 < events[i].now <= now)
    && forall i, j :: 0 <= i < j < |events| ==> events[i].now <= events[j].now
  }

  /** The last choice made for every thread since the entries were last cleared, without any limit. */
  function Choices(events: seq<Event>): map<string, Entry> {
    if events == [] then map[]
    else
      var front := events[..|events| - 1];
      ChoicesStep(Choices(front), View(After(front)), events[|events| - 1])
  }

  function ChoicesStep(c: map<string, Entry>, s: State, e: Event): map<string, Entry> {
    match e
    case Override(threadId, mode, now) =>
      var key := ValidKey(threadId);
      if key == "" then c else if mode == Inherit then c - {key} else c[key := Entry(key, mode, now)]
    case Bind(threadId, now) =>
      var key := ValidKey(threadId);
      if Bindable(s, threadId, now) && s.mode == Custom && !HasKey(s.entries, key)
      then c[key := Entry(key, s.draft.value.mode, now)] else c
    case Control(mode, allowed, _) => if allowed && mode != Custom then map[] else c
  }

  /** The entries are choices, and no choice that is missing is later than one that is kept. */
  ghost predicate MostRecent(entries: seq<Entry>, c: map<string, Entry>, now: int) {
    && (forall e <- entries :: e.key in c && c[e.key] == e)
    && (forall key <- c :: c[key].key == key && c[key].at <= now)
    && (forall key <- c :: c[key] in entries || forall e <- entries :: c[key].at <= e.at)
  }

  ghost predicate Steady(s: State, now: int) {
    && Normal(s) && |s.entries| <= MAX_ENTRIES && LatestFirst(s.entries)
    && (s.mode != Custom ==> s.entries == [] && s.draft == None)
  }

  lemma LatestStayMostRecent(entries: seq<Entry>, c: map<string, Entry>, now: int)
    requires AllGood(entries) && DistinctKeys(entries) && MostRecent(entries, c, now)
    ensures MostRecent(Latest(entries), c, now)
  {
    hide SortByTime, Good;
    var sorted := SortByTime(entries);
    SortedByTime(entries);
    SortKeepsKeys(entries);
    LatestIsGood(entries);
    forall key <- c
      ensures c[key] in Latest(entries) || forall e <- Latest(entries) :: c[key].at <= e.at
    {
      if c[key] in entries {
        var i :| 0 <= i < |sorted| && sorted[i] == c[key];
      }
    }
  }

  lemma PutStaysMostRecent(entries: seq<Entry>, c: map<string, Entry>, e: Entry)
    requires AllGood(entries) && DistinctKeys(entries) && Good(e) && MostRecent(entries, c, e.at)
    ensures MostRecent(Put(entries, e), c[e.key := e], e.at)
  {
    PutIsGood(entries, e);
  }

  lemma RemoveStaysMostRecent(entries: seq<Entry>, c: map<string, Entry>, key: string, now: int)
    requires AllGood(entries) && DistinctKeys(entries) && MostRecent(entries, c, now)
    ensures MostRecent(Remove(entries, key), c - {key}, now)
  {
    RemoveIsGood(entries, key);
  }

  lemma MostRecentLater(entries: seq<Entry>, c: map<string, Entry>, now: int, later: int)
    requires MostRecent(entries, c, now) && now <= later
    ensures MostRecent(entries, c, later)
  {}

  lemma OverrideStaysSteady(s: State, c: map<string, Entry>, threadId: string, mode: ThreadMode, now: int)
    requires Steady(s, now) && now > 0 && MostRecent(s.entries, c, now)
    ensures var e := Override(threadId, mode, now);
            Steady(StepView(s, e), now) && MostRecent(StepView(s, e).entries, ChoicesStep(c, s, e), now)
  {
    hide MostRecent, Latest, LatestFirst, Put, Remove, AllGood, DistinctKeys, IsValidKey, ValidKey, HasKey;
    var key := ValidKey(threadId);
    if key == "" {
      StaysGood(s, c, now);
    } else if mode == Inherit {
      RemoveGood(s, c, key, now);
    } else {
      PutGood(s, c, Entry(key, mode, now));
    }
  }

  lemma StaysGood(s: State, c: map<string, Entry>, now: int)
    requires Steady(s, now) && MostRecent(s.entries, c, now)
    ensures var entries := Latest(s.entries);
            AllGood(entries) && DistinctKeys(entries) && |entries| <= MAX_ENTRIES && LatestFirst(entries)
            && MostRecent(entries, c, now)
  {
    hide Latest, MostRecent, Good;
    LatestIsGood(s.entries);
    LatestStayMostRecent(s.entries, c, now);
  }

  lemma RemoveGood(s: State, c: map<string, Entry>, key: string, now: int)
    requires Steady(s, now) && MostRecent(s.entries, c, now)
    ensures var entries := Latest(Remove(s.entries, key));
            AllGood(entries) && DistinctKeys(entries) && |entries| <= MAX_ENTRIES && LatestFirst(entries)
            && MostRecent(entries, c - {key}, now)
  {
    hide Latest, Remove, MostRecent, Good;
    RemoveIsGood(s.entries, key);
    RemoveStaysMostRecent(s.entries, c, key, now);
    LatestIsGood(Remove(s.entries, key));
    LatestStayMostRecent(Remove(s.entries, key), c - {key}, now);
  }

  lemma BindStaysSteady(s: State, c: map<string, Entry>, threadId: string, now: int)
    requires Steady(s, now) && now > 0 && MostRecent(s.entries, c, now)
    ensures var e := Bind(threadId, now);
            Steady(StepView(s, e), now) && MostRecent(StepView(s, e).entries, ChoicesStep(c, s, e), now)
  {
    hide MostRecent, Latest, LatestFirst, Put, AllGood, DistinctKeys, IsValidKey, Bindable, HasKey;
    if Bindable(s, threadId, now) {
      BindableMeans(s, threadId, now);
      LatestIsGood(s.entries);
      LatestStayMostRecent(s.entries, c, now);
      PutGood(s, c, Entry(ValidKey(threadId), s.draft.value.mode, now));
    }
  }

  lemma ControlStaysSteady(s: State, c: map<string, Entry>, mode: ControlMode, allowed: bool, now: int)
    requires Steady(s, now) && now > 0 && MostRecent(s.entries, c, now)
    ensures var e := Control(mode, allowed, now);
            Steady(StepView(s, e), now) && MostRecent(StepView(s, e).entries, ChoicesStep(c, s, e), now)
  {
    hide MostRecent, Latest;
    NothingIsMostRecent(now);
    LatestIsGood(s.entries);
    LatestStayMostRecent(s.entries, c, now);
  }

  /** One step keeps the entries the most recent choices, at most 120 of them, and none outside custom control. */
  lemma StepStaysSteady(s: State, c: map<string, Entry>, e: Event)
    requires Steady(s, e.now) && e.now > 0 && MostRecent(s.entries, c, e.now)
    ensures Steady(StepView(s, e), e.now) && MostRecent(StepView(s, e).entries, ChoicesStep(c, s, e), e.now)
  {
    hide MostRecent, StepView, ChoicesStep, Steady;
    match e {
      case Override(threadId, mode, now) => OverrideStaysSteady(s, c, threadId, mode, now);
      case Bind(threadId, now) => BindStaysSteady(s, c, threadId, now);
      case Control(mode, allowed, now) => ControlStaysSteady(s, c, mode, allowed, now);
    }
  }

  lemma BindableMeans(s: State, threadId: string, now: int)
    requires Bindable(s, threadId, now)
    ensures ValidKey(threadId) != "" && s.draft.Some?
  {}

  lemma NothingIsMostRecent(now: int)
    ensures MostRecent([], map[], now) && Latest([]) == []
  {}

  lemma PutGood(s: State, c: map<string, Entry>, e: Entry)
    requires Steady(s, e.at) && Good(e) && MostRecent(s.entries, c, e.at)
    ensures var entries := Latest(Put(s.entries, e));
            AllGood(entries) && DistinctKeys(entries) && |entries| <= MAX_ENTRIES && LatestFirst(entries)
            && MostRecent(entries, c[e.key := e], e.at)
  {
    hide Latest, Put, MostRecent, Good;
    PutIsGood(s.entries, e);
    PutStaysMostRecent(s.entries, c, e);
    LatestIsGood(Put(s.entries, e));
    LatestStayMostRecent(Put(s.entries, e), c[e.key := e], e.at);
  }

  /**
   From the empty store, after any run: at most 120 entries, none of them inheriting, all under different
   valid keys, and no choice that was dropped is later than one that is kept; outside custom control there
   are no entries and no draft.
   */
  lemma {:induction false} StoreStaysSteady(events: seq<Event>, now: int)
    requires ClockRuns(events, now) && now > 0
    ensures Written(After(events))
    ensures Steady(View(After(events)), now)
    ensures MostRecent(View(After(events)).entries, Choices(events), now)
  {
    hide Step, StepView, ChoicesStep, MostRecent, Normal, View;
    if events == [] {
      EmptyIsSteady(now);
    } else {
      var front, e := events[..|events| - 1], events[|events| - 1];
      StoreStaysSteady(front, e.now);
      StepIsSeen(After(front), e);
      StepStaysSteady(View(After(front)), Choices(front), e);
      MostRecentLater(View(After(events)).entries, Choices(events), e.now, now);
    }
  }

  lemma EmptyIsSteady(now: int)
    ensures Written(EMPTY) && Steady(View(EMPTY), now) && MostRecent(View(EMPTY).entries, map[], now)
  {}

  // ---------------------------------------------------------------------------------------------
  // A choice is kept unless 120 later ones crowd it out

  /** The store is full without `e`, and nothing in it is older than `e`. */
  ghost predicate CrowdedOut(entries: seq<Entry>, e: Entry) {
    |entries| == MAX_ENTRIES && e !in entries && forall x <- entries :: e.at <= x.at
  }

  lemma LatestKeeps(entries: seq<Entry>, e: Entry)
    requires e in entries
    ensures e in Latest(entries) || CrowdedOut(Latest(entries), e)
  {
    hide SortByTime;
    SortedByTime(entries);
    var sorted := SortByTime(entries);
    SortMembers(entries, e);
    var i :| 0 <= i < |sorted| && sorted[i] == e;
    if i < |Latest(entries)| {
      assert Latest(entries)[i] == e;
    } else {
      assert forall k :: 0 <= k < |Latest(entries)| ==> Latest(entries)[k] == sorted[k];
    }
  }

  lemma SortMembers(entries: seq<Entry>, e: Entry)
    requires e in entries
    ensures e in SortByTime(entries)
  {
    hide SortByTime;
    SortedByTime(entries);
    assert e in multiset(entries);
    assert e in multiset(SortByTime(entries));
  }

  /** What a step makes of a choice: it is there, is crowded out, or stands as before and was not there before. */
  ghost predicate Retains(s: State, c: map<string, Entry>, t: State, key: string, e: Entry) {
    e in t.entries || CrowdedOut(t.entries, e) || (key in c && c[key] == e && e !in s.entries)
  }

  lemma OverrideRetains(s: State, c: map<string, Entry>, threadId: string, mode: ThreadMode, now: int, key: string)
    requires Steady(s, now) && now > 0 && MostRecent(s.entries, c, now)
    requires key in ChoicesStep(c, s, Override(threadId, mode, now))
    ensures var e := Override(threadId, mode, now);
            Retains(s, c, StepView(s, e), key, ChoicesStep(c, s, e)[key])
  {
    hide Latest, Put, Remove, IsValidKey, ValidKey, Good, CrowdedOut, HasKey, DistinctKeys, LatestFirst;
    var changed := ValidKey(threadId);
    var entries := Overridden(s, threadId, mode, now).entries;
    var e := ChoicesStep(c, s, Override(threadId, mode, now))[key];
    RemoveMembers(s.entries, changed);
    PutMembers(s.entries, Entry(changed, mode, now));
    if e in entries {
      LatestKeeps(entries, e);
    }
  }

  lemma BindRetains(s: State, c: map<string, Entry>, threadId: string, now: int, key: string)
    requires Steady(s, now) && now > 0 && MostRecent(s.entries, c, now)
    requires key in ChoicesStep(c, s, Bind(threadId, now))
    ensures var e := Bind(threadId, now);
            Retains(s, c, StepView(s, e), key, ChoicesStep(c, s, e)[key])
  {
    hide Latest, Put, IsValidKey, ValidKey, Good, CrowdedOut, HasKey, DistinctKeys, LatestFirst, Bindable;
    var e := ChoicesStep(c, s, Bind(threadId, now))[key];
    if Bindable(s, threadId, now) {
      BindableMeans(s, threadId, now);
      var entries := Bound(s, threadId, now).entries;
      PutMembers(s.entries, Entry(ValidKey(threadId), s.draft.value.mode, now));
      if e in entries {
        LatestKeeps(entries, e);
      }
    }
  }

  lemma ControlRetains(s: State, c: map<string, Entry>, mode: ControlMode, allowed: bool, now: int, key: string)
    requires key in ChoicesStep(c, s, Control(mode, allowed, now))
    ensures var e := Control(mode, allowed, now);
            Retains(s, c, StepView(s, e), key, ChoicesStep(c, s, e)[key])
  {
    hide Latest, CrowdedOut;
    if c[key] in s.entries {
      LatestKeeps(s.entries, c[key]);
    }
  }

  /** No step loses a choice while there is room for it. */
  lemma StepRetains(s: State, c: map<string, Entry>, e: Event, key: string)
    requires Steady(s, e.now) && e.now > 0 && MostRecent(s.entries, c, e.now)
    requires key in ChoicesStep(c, s, e)
    ensures Retains(s, c, StepView(s, e), key, ChoicesStep(c, s, e)[key])
  {
    hide MostRecent, StepView, ChoicesStep, Steady, Retains;
    match e {
      case Override(threadId, mode, now) => OverrideRetains(s, c, threadId, mode, now, key);
      case Bind(threadId, now) => BindRetains(s, c, threadId, now, key);
      case Control(mode, allowed, now) => ControlRetains(s, c, mode, allowed, now, key);
    }
  }

  /** After `n` events this choice stood, but 120 others no older than it filled the store. */
  ghost predicate DroppedAt(events: seq<Event>, key: string, e: Entry, n: nat) {
    && n <= |events| && key in Choices(events[..n]) && Choices(events[..n])[key] == e
    && CrowdedOut(View(After(events[..n])).entries, e)
  }

  lemma DroppedBefore(events: seq<Event>, key: string, e: Entry, n: nat)
    requires events != [] && DroppedAt(events[..|events| - 1], key, e, n)
    ensures DroppedAt(events, key, e, n)
  {
    hide Choices, View, After, CrowdedOut;
    assert events[..|events| - 1][..n] == events[..n];
  }

  lemma DroppedNow(events: seq<Event>, key: string, e: Entry)
    requires key in Choices(events) && Choices(events)[key] == e && CrowdedOut(View(After(events)).entries, e)
    ensures DroppedAt(events, key, e, |events|)
  {
    hide Choices, View, After, CrowdedOut;
    assert events[..|events|] == events;
  }

  /** A choice that stands is in the store, or was crowded out by 120 others no older than it while it stood. */
  lemma {:induction false} ChoiceIsRetained(events: seq<Event>, now: int, key: string)
    requires ClockRuns(events, now) && now > 0 && key in Choices(events)
    ensures || Choices(events)[key] in View(After(events)).entries
            || exists n :: DroppedAt(events, key, Choices(events)[key], n)
  {
    hide Step, StepView, ChoicesStep, MostRecent, Normal, View, Steady, CrowdedOut, DroppedAt;
    if events != [] {
      var front, last := events[..|events| - 1], events[|events| - 1];
      StoreStaysSteady(front, last.now);
      StepIsSeen(After(front), last);
      var s, c, e := View(After(front)), Choices(front), Choices(events)[key];
      StepRetains(s, c, last, key);
      if CrowdedOut(View(After(events)).entries, e) {
        DroppedNow(events, key, e);
      } else if e !in View(After(events)).entries {
        ChoiceIsRetained(front, last.now, key);
        var n :| DroppedAt(front, key, e, n);
        DroppedBefore(events, key, e, n);
      }
    }
  }

  /** In every run, for every thread: no choice is lost while there is room for it. */
  lemma ChoicesAreRetained(events: seq<Event>, now: int)
    requires ClockRuns(events, now) && now > 0
    ensures forall key <- Choices(events) ::
              || Choices(events)[key] in View(After(events)).entries
              || exists n :: DroppedAt(events, key, Choices(events)[key], n)
  {
    hide Choices, View, After, DroppedAt;
    forall key <- Choices(events)
      ensures || Choices(events)[key] in View(After(events)).entries
              || exists n :: DroppedAt(events, key, Choices(events)[key], n)
    {
      ChoiceIsRetained(events, now, key);
    }
  }

  /**
   Binding the draft uses it up and replaces no entry: the thread's own entry stays what it is, every entry and the
   new one are there unless 120 others no older crowd them out, and nothing else is.
   */
  lemma BindKeepsEntries(s: State, threadId: string, now: int)
    requires Steady(s, now) && now > 0 && Bindable(s, threadId, now)
    ensures var t, key := StepView(s, Bind(threadId, now)), ValidKey(threadId);
            var e := Entry(key, s.draft.value.mode, now);
            && t.draft == None && t.mode == s.mode
            && (HasKey(s.entries, key) ==> t.entries == s.entries)
            && (!HasKey(s.entries, key) ==> e in t.entries || CrowdedOut(t.entries, e))
            && (forall x <- s.entries :: x in t.entries || CrowdedOut(t.entries, x))
            && forall x <- t.entries :: x in s.entries || x == e
  {
    hide Latest, Put, AllGood, DistinctKeys, LatestFirst, HasKey, Bindable, IsValidKey, ValidKey, CrowdedOut;
    BindableMeans(s, threadId, now);
    var key := ValidKey(threadId);
    var e := Entry(key, s.draft.value.mode, now);
    LatestOfFew(s.entries);
    if s.mode == Custom && !HasKey(s.entries, key) {
      var entries := Put(s.entries, e);
      PutGoodEntries(s, e);
      forall x <- entries
        ensures x in Latest(entries) || CrowdedOut(Latest(entries), x)
      {
        LatestKeeps(entries, x);
      }
    }
  }

  lemma PutGoodEntries(s: State, e: Entry)
    requires Normal(s) && Good(e) && !HasKey(s.entries, e.key)
    ensures var entries := Put(s.entries, e);
            && e in entries && (forall x :: x in entries <==> x == e || x in s.entries)
            && forall x <- Latest(entries) :: x in entries
  {
    hide Latest, Put, Good;
    PutIsGood(s.entries, e);
    LatestIsGood(Put(s.entries, e));
  }

  lemma LatestOfFew(entries: seq<Entry>)
    requires LatestFirst(entries) && |entries| <= MAX_ENTRIES
    ensures Latest(entries) == entries
  {
    SortOfSorted(entries);
  }
}
