/**
 When the access may be applied: the guard that feeds the button, and the checks that the button's handler
 repeats once it is pressed.
 */
module ApplyGuard {
  import opened Text
  import opened Wrappers

  datatype Check = Check(name: string, detail: string, ready: bool)

  datatype Preflight = Preflight(ready: bool, checks: seq<Check>)

  datatype AccessMode = MixedApi | PureApi

  datatype KeyGroup = KeyGroup(name: string, apiKey: string, verified: bool, selected: seq<string>)

  datatype Input = Input(
    busy: bool, stateUnreadable: bool, baselineExists: bool, preflight: Option<Preflight>,
    mode: AccessMode, mixedAuthReady: Option<bool>, mixedAuthMessage: string,
    groups: seq<KeyGroup>, defaultModel: string,
    imagegenEnabled: bool, imagegenConfigured: bool, imageApiKey: string, imageKeyValidated: bool)

  datatype Reason =
    | StateUnreadable(canRecover: bool)
    | Busy
    | PreflightPending
    | CheckFailed(name: string, detail: string)
    | PreflightFailed
    | AuthPending
    | AuthMissing(message: string)
    | NoKey
    | NotVerified(name: string)
    | NoModel(name: string)
    | ModelTwice
    | NoDefault
    | ImageKeyMissing
    | ImageKeyUnchecked

  const DEFAULT_AUTH_MESSAGE := "sign in to ChatGPT in Codex first, or choose the pure API"

  /** The first element that fails, as `find` with the negated test does. */
  function FirstFailing<T(!new)>(items: seq<T>, good: T -> bool): (r: Option<T>)
    ensures r.None? <==> forall x <- items :: good(x)
    ensures r.Some? ==> exists i :: 0 <= i < |items| && items[i] == r.value && !good(items[i])
                              && forall j :: 0 <= j < i ==> good(items[j])
  {
    if items == [] then None
    else if !good(items[0]) then Some(items[0])
    else
      var r := FirstFailing(items[1..], good);
      assert forall x :: x in items <==> x == items[0] || x in items[1..];
      r
  }

  predicate IsConfigured(g: KeyGroup) { Trim(g.apiKey) != "" || g.verified }

  predicate IsComplete(g: KeyGroup) { Trim(g.apiKey) != "" && g.verified }

  predicate HasModels(g: KeyGroup) { g.selected != [] }

  function Configured(groups: seq<KeyGroup>): seq<KeyGroup> {
    if groups == [] then []
    else (if IsConfigured(groups[0]) then [groups[0]] else []) + Configured(groups[1..])
  }

  function AllSelected(groups: seq<KeyGroup>): seq<string> {
    if groups == [] then [] else groups[0].selected + AllSelected(groups[1..])
  }

  /** `new Set(ids).size !== ids.length`. */
  predicate RepeatsAny(ids: seq<string>) { |ToSet(ids)| != |ids| }

  function ToSet(ids: seq<string>): set<string> { set id | id in ids }

  function GetApplyBlockReason(input: Input): Option<Reason> {
    if input.stateUnreadable then Some(StateUnreadable(input.baselineExists))
    else if input.busy then Some(Busy)
    else if input.preflight.None? then Some(PreflightPending)
    else if !input.preflight.value.ready then
      var failed := FirstFailing(input.preflight.value.checks, (c: Check) => c.ready);
      Some(if failed.Some? then CheckFailed(failed.value.name, failed.value.detail) else PreflightFailed)
    else if input.mode == MixedApi && input.mixedAuthReady != Some(true) then
      Some(if input.mixedAuthReady.None? then AuthPending
           else AuthMissing(if input.mixedAuthMessage != "" then input.mixedAuthMessage else DEFAULT_AUTH_MESSAGE))
    else
      GroupsBlockReason(input)
  }

  function GroupsBlockReason(input: Input): Option<Reason> {
    var configured := Configured(input.groups);
    var incomplete := FirstFailing(configured, IsComplete);
    var empty := FirstFailing(configured, HasModels);
    var ids := AllSelected(configured);
    if configured == [] then Some(NoKey)
    else if incomplete.Some? then Some(NotVerified(incomplete.value.name))
    else if empty.Some? then Some(NoModel(empty.value.name))
    else if RepeatsAny(ids) then Some(ModelTwice)
    else if input.defaultModel == "" || input.defaultModel !in ids then Some(NoDefault)
    else if input.imagegenEnabled && Trim(input.imageApiKey) == "" && !input.imagegenConfigured
        then Some(ImageKeyMissing)
    else if input.imagegenEnabled && Trim(input.imageApiKey) != "" && !input.imageKeyValidated
        then Some(ImageKeyUnchecked)
    else None
  }

  // ---------------------------------------------------------------------------------------------
  // The handler's own checks

  datatype EnableError =
    | NoGroup
    | GroupNotVerified
    | GroupWithoutModel
    | SameModelTwice
    | DefaultNotSelected
    | ImageKeyAbsent
    | ImageKeyNotConfirmed

  function WithTrimmedKey(g: KeyGroup): KeyGroup { g.(apiKey := Trim(g.apiKey)) }

  function WithTrimmedKeys(groups: seq<KeyGroup>): seq<KeyGroup> {
    if groups == [] then [] else [WithTrimmedKey(groups[0])] + WithTrimmedKeys(groups[1..])
  }

  /** What `filter` leaves of the groups whose keys are trimmed already. */
  function Present(groups: seq<KeyGroup>): seq<KeyGroup> {
    if groups == [] then []
    else (if groups[0].apiKey != "" || groups[0].verified then [groups[0]] else []) + Present(groups[1..])
  }

  /** The groups that an application sends. */
  function SentGroups(input: Input): seq<KeyGroup> { Present(WithTrimmedKeys(input.groups)) }

  function EnableCheck(input: Input): Option<EnableError> {
    var groups := SentGroups(input);
    var ids := AllSelected(groups);
    if groups == [] then Some(NoGroup)
    else if exists g <- groups :: g.apiKey == "" || !g.verified then Some(GroupNotVerified)
    else if exists g <- groups :: g.selected == [] then Some(GroupWithoutModel)
    else if RepeatsAny(ids) then Some(SameModelTwice)
    else if input.defaultModel !in ids then Some(DefaultNotSelected)
    else if input.imagegenEnabled && Trim(input.imageApiKey) == "" && !input.imagegenConfigured
        then Some(ImageKeyAbsent)
    else if input.imagegenEnabled && Trim(input.imageApiKey) != "" && !input.imageKeyValidated
        then Some(ImageKeyNotConfirmed)
    else None
  }

  predicate EnvironmentReady(input: Input) {
    && !input.stateUnreadable && !input.busy
    && input.preflight.Some? && input.preflight.value.ready
    && (input.mode == MixedApi ==> input.mixedAuthReady == Some(true))
  }

  lemma {:induction false} SentAreConfigured(groups: seq<KeyGroup>)
    ensures Present(WithTrimmedKeys(groups)) == WithTrimmedKeys(Configured(groups))
    ensures AllSelected(WithTrimmedKeys(groups)) == AllSelected(groups)
  {
    hide Trim;
    if groups != [] {
      SentAreConfigured(groups[1..]);
      assert WithTrimmedKeys(groups)[1..] == WithTrimmedKeys(groups[1..]);
      assert Configured(groups)[if IsConfigured(groups[0]) then 1 else 0..] == Configured(groups[1..]);
    }
  }

  lemma {:induction false} TrimmedAt(groups: seq<KeyGroup>)
    ensures |WithTrimmedKeys(groups)| == |groups|
    ensures forall i :: 0 <= i < |groups| ==> WithTrimmedKeys(groups)[i] == WithTrimmedKey(groups[i])
  {
    hide Trim, WithTrimmedKey;
    if groups != [] {
      TrimmedAt(groups[1..]);
    }
  }

  lemma TrimmedGroups(groups: seq<KeyGroup>)
    ensures (exists g <- WithTrimmedKeys(groups) :: g.apiKey == "" || !g.verified)
       <==> exists g <- groups :: !IsComplete(g)
    ensures (exists g <- WithTrimmedKeys(groups) :: g.selected == []) <==> exists g <- groups :: !HasModels(g)
    ensures WithTrimmedKeys(groups) == [] <==> groups == []
  {
    hide Trim, WithTrimmedKeys;
    TrimmedAt(groups);
    forall g | g in groups
      ensures WithTrimmedKey(g) in WithTrimmedKeys(groups)
    {
      var i :| 0 <= i < |groups| && groups[i] == g;
      assert WithTrimmedKeys(groups)[i] == WithTrimmedKey(g);
    }
    forall t | t in WithTrimmedKeys(groups)
      ensures exists g <- groups :: WithTrimmedKey(g) == t
    {
      var i :| 0 <= i < |groups| && WithTrimmedKeys(groups)[i] == t;
      assert groups[i] in groups;
    }
  }

  /**
   The button and its handler agree: the guard is silent exactly when the machine is ready, the handler's own
   checks all pass, and the default model is not the empty name. So behind a silent guard no later error can occur.
   */
  lemma GuardAgreesWithHandler(input: Input)
    ensures GetApplyBlockReason(input).None? <==>
              EnvironmentReady(input) && EnableCheck(input).None? && input.defaultModel != ""
  {
    hide Trim, RepeatsAny, Configured, WithTrimmedKeys, Present, AllSelected, IsComplete, HasModels;
    var configured := Configured(input.groups);
    SentAreConfigured(input.groups);
    SentAreConfigured(configured);
    TrimmedGroups(configured);
    ChecksAgree(configured);
  }

  lemma ChecksAgree(groups: seq<KeyGroup>)
    ensures FirstFailing(groups, IsComplete).Some? <==> exists g <- groups :: !IsComplete(g)
    ensures FirstFailing(groups, HasModels).Some? <==> exists g <- groups :: !HasModels(g)
  {
    hide Trim;
  }

  // ---------------------------------------------------------------------------------------------
  // What a silent guard means

  lemma {:induction false} RepeatsIff(ids: seq<string>)
    ensures RepeatsAny(ids) <==> Repeats(ids)
    ensures |ToSet(ids)| <= |ids|
  {
    if ids != [] {
      RepeatsIff(ids[1..]);
      SetOfMore(ids);
      if ids[0] in ids[1..] {
        var j :| 0 <= j < |ids[1..]| && ids[1..][j] == ids[0];
        assert ids[0] == ids[j + 1];
      } else {
        hide ToSet;
        RestRepeats(ids);
      }
    }
  }

  lemma SetOfMore(ids: seq<string>)
    requires ids != []
    ensures |ToSet(ids)| == |ToSet(ids[1..])| + if ids[0] in ids[1..] then 0 else 1
  {
    var rest, all := ToSet(ids[1..]), ToSet(ids);
    assert forall id :: id in ids <==> id == ids[0] || id in ids[1..];
    if ids[0] in ids[1..] {
      assert all == rest;
    } else {
      assert all == rest + {ids[0]};
    }
  }

  lemma RestRepeats(ids: seq<string>)
    requires ids != [] && ids[0] !in ids[1..]
    ensures (exists i, j :: 0 <= i < j < |ids| && ids[i] == ids[j])
       <==> exists i, j :: 0 <= i < j < |ids[1..]| && ids[1..][i] == ids[1..][j]
  {
    if i, j :| 0 <= i < j < |ids[1..]| && ids[1..][i] == ids[1..][j] {
      assert ids[i + 1] == ids[j + 1];
    }
    if i, j :| 0 <= i < j < |ids| && ids[i] == ids[j] {
      assert ids[j] == ids[1..][j - 1];
      assert ids[1..][i - 1] == ids[1..][j - 1];
    }
  }

  lemma {:induction false} ConfiguredMembers(groups: seq<KeyGroup>)
    ensures forall g :: g in Configured(groups) <==> g in groups && IsConfigured(g)
  {
    hide IsConfigured;
    if groups != [] {
      ConfiguredMembers(groups[1..]);
      assert forall g :: g in groups <==> g == groups[0] || g in groups[1..];
    }
  }

  /** The group is in use: it has a key, or one that was verified. */
  predicate IsUsed(g: KeyGroup) { Trim(g.apiKey) != "" || g.verified }

  /** Some group in use has this model selected. */
  ghost predicate IsOffered(groups: seq<KeyGroup>, model: string) {
    exists g <- groups :: IsUsed(g) && model in g.selected
  }

  ghost predicate Repeats(ids: seq<string>) { exists i, j :: 0 <= i < j < |ids| && ids[i] == ids[j] }

  /** A model is selected twice in one group in use. */
  ghost predicate TwiceInside(groups: seq<KeyGroup>) { exists g <- groups :: IsUsed(g) && Repeats(g.selected) }

  /** A model is selected in two groups in use. */
  ghost predicate TwiceAcross(groups: seq<KeyGroup>) {
    exists i, j :: 0 <= i < j < |groups| && IsUsed(groups[i]) && IsUsed(groups[j]) && Overlap(groups[i], groups[j])
  }

  ghost predicate Overlap(g: KeyGroup, h: KeyGroup) { exists model <- g.selected :: model in h.selected }

  lemma RepeatsOfBoth(a: seq<string>, b: seq<string>)
    ensures Repeats(a + b) <==> Repeats(a) || Repeats(b) || exists model <- a :: model in b
  {
    var all := a + b;
    if i, j :| 0 <= i < j < |a| && a[i] == a[j] {
      assert all[i] == all[j];
    }
    if i, j :| 0 <= i < j < |b| && b[i] == b[j] {
      assert all[|a| + i] == all[|a| + j];
    }
    if model :| model in a && model in b {
      var i :| 0 <= i < |a| && a[i] == model;
      var j :| 0 <= j < |b| && b[j] == model;
      assert all[i] == all[|a| + j];
    }
    if i, j :| 0 <= i < j < |all| && all[i] == all[j] {
      BothPlaces(a, b, i, j);
    }
  }

  lemma BothPlaces(a: seq<string>, b: seq<string>, i: nat, j: nat)
    requires i < j < |a + b| && (a + b)[i] == (a + b)[j]
    ensures Repeats(a) || Repeats(b) || exists model <- a :: model in b
  {
    if j < |a| {
      assert a[i] == a[j];
    } else if i < |a| {
      assert a[i] in a && b[j - |a|] in b;
    } else {
      assert b[i - |a|] == b[j - |a|];
    }
  }

  /** The selections looked at are those of the groups in use. */
  lemma {:induction false} SelectedAre(groups: seq<KeyGroup>)
    ensures var ids := AllSelected(Configured(groups));
            && (forall model :: model in ids <==> IsOffered(groups, model))
            && (Repeats(ids) <==> TwiceInside(groups) || TwiceAcross(groups))
  {
    if groups != [] {
      hide Trim, Repeats, IsUsed, Overlap, Configured, AllSelected, IsOffered, TwiceInside, TwiceAcross;
      var g, rest := groups[0], groups[1..];
      SelectedAre(rest);
      OfferedMore(g, rest);
      TwiceInsideMore(g, rest);
      TwiceAcrossMore(g, rest);
      assert groups == [g] + rest;
      UsedIsConfigured(g);
      SelectedMore(g, rest);
      RepeatsOfBoth(g.selected, AllSelected(Configured(rest)));
    }
  }

  /** What is sent is in use already: looking for the groups in use among them finds all of them. */
  lemma SentAreInUse(input: Input)
    ensures Configured(SentGroups(input)) == SentGroups(input)
  {
    hide Trim;
    SentAreConfigured(input.groups);
    ConfiguredStay(input.groups);
  }

  lemma {:induction false} ConfiguredStay(groups: seq<KeyGroup>)
    ensures Configured(WithTrimmedKeys(Configured(groups))) == WithTrimmedKeys(Configured(groups))
  {
    if groups != [] {
      hide Trim;
      ConfiguredStay(groups[1..]);
      TrimIdempotent(groups[0].apiKey);
      var first := WithTrimmedKey(groups[0]);
      var rest := WithTrimmedKeys(Configured(groups[1..]));
      assert Configured([first] + rest) == (if IsConfigured(first) then [first] else []) + Configured(rest) by {
        assert ([first] + rest)[1..] == rest;
      }
      assert ([groups[0]] + Configured(groups[1..]))[1..] == Configured(groups[1..]);
      assert [] + Configured(groups[1..]) == Configured(groups[1..]);
    }
  }

  lemma UsedIsConfigured(g: KeyGroup)
    ensures IsConfigured(g) <==> IsUsed(g)
  {}

  lemma SelectedMore(g: KeyGroup, rest: seq<KeyGroup>)
    ensures AllSelected(Configured([g] + rest)) ==
              if IsConfigured(g) then g.selected + AllSelected(Configured(rest)) else AllSelected(Configured(rest))
  {
    hide IsConfigured;
    assert ([g] + rest)[1..] == rest;
    assert ([g] + Configured(rest))[1..] == Configured(rest);
    assert [] + Configured(rest) == Configured(rest);
  }

  lemma OfferedMore(g: KeyGroup, rest: seq<KeyGroup>)
    ensures forall model :: IsOffered([g] + rest, model) <==>
              (IsUsed(g) && model in g.selected) || IsOffered(rest, model)
  {
    hide IsUsed;
    assert forall x :: x in [g] + rest <==> x == g || x in rest;
  }

  lemma TwiceInsideMore(g: KeyGroup, rest: seq<KeyGroup>)
    ensures TwiceInside([g] + rest) <==> (IsUsed(g) && Repeats(g.selected)) || TwiceInside(rest)
  {
    hide IsUsed, Repeats;
    assert forall x :: x in [g] + rest <==> x == g || x in rest;
  }

  lemma TwiceAcrossMore(g: KeyGroup, rest: seq<KeyGroup>)
    ensures TwiceAcross([g] + rest) <==>
              (IsUsed(g) && exists model <- g.selected :: IsOffered(rest, model)) || TwiceAcross(rest)
  {
    hide IsUsed;
    var all := [g] + rest;
    if i, j :| 0 <= i < j < |rest| && IsUsed(rest[i]) && IsUsed(rest[j]) && Overlap(rest[i], rest[j]) {
      assert all[i + 1] == rest[i] && all[j + 1] == rest[j];
    }
    if i, j :| 0 <= i < j < |all| && IsUsed(all[i]) && IsUsed(all[j]) && Overlap(all[i], all[j]) {
      assert all[j] == rest[j - 1] && rest[j - 1] in rest;
      if i > 0 {
        assert all[i] == rest[i - 1];
      }
    }
    if model :| model in g.selected && IsOffered(rest, model) && IsUsed(g) {
      var h :| h in rest && IsUsed(h) && model in h.selected;
      var j :| 0 <= j < |rest| && rest[j] == h;
      assert all[0] == g && all[j + 1] == h && Overlap(g, h);
    }
  }

  /**
   The guard is silent exactly when: the machine is ready; some group has a verified key, and a group has a key
   if and only if its key is verified; each such group offers a model, no model twice, inside a group or across
   groups; the default is one of these models; and images, if wanted, have a confirmed key or an earlier configuration.
   */
  lemma GuardIsSilentIff(input: Input)
    ensures GetApplyBlockReason(input).None? <==>
              && EnvironmentReady(input)
              && (exists g <- input.groups :: g.verified)
              && (forall g <- input.groups :: Trim(g.apiKey) != "" <==> g.verified)
              && (forall g <- input.groups :: g.verified ==> g.selected != [])
              && !TwiceInside(input.groups) && !TwiceAcross(input.groups)
              && input.defaultModel != "" && IsOffered(input.groups, input.defaultModel)
              && (input.imagegenEnabled ==> if Trim(input.imageApiKey) == "" then input.imagegenConfigured
                  else input.imageKeyValidated)
  {
    hide Trim, RepeatsAny, Configured, AllSelected, IsOffered, TwiceInside, TwiceAcross;
    var configured := Configured(input.groups);
    ConfiguredMembers(input.groups);
    RepeatsIff(AllSelected(configured));
    SelectedAre(input.groups);
    assert configured != [] ==> configured[0] in configured;
  }

  predicate IsChecked(g: KeyGroup) { Trim(g.apiKey) != "" && g.verified }

  predicate HasSelection(g: KeyGroup) { g.selected != [] }

  lemma {:induction false} FirstFailingAlike(groups: seq<KeyGroup>, f: KeyGroup -> bool, g: KeyGroup -> bool)
    requires forall x :: f(x) <==> g(x)
    ensures FirstFailing(groups, f) == FirstFailing(groups, g)
  {
    if groups != [] {
      FirstFailingAlike(groups[1..], f, g);
    }
  }

  /** Group `i` is the first one in use that is not good, and it is called `name`. */
  ghost predicate IsFirstBad(groups: seq<KeyGroup>, good: KeyGroup -> bool, i: nat, name: string) {
    && i < |groups| && groups[i].name == name && IsUsed(groups[i]) && !good(groups[i])
    && forall j :: 0 <= j < i && IsUsed(groups[j]) ==> good(groups[j])
  }

  lemma FirstOfMore(g: KeyGroup, rest: seq<KeyGroup>, good: KeyGroup -> bool)
    ensures FirstFailing([g] + rest, good) == if good(g) then FirstFailing(rest, good) else Some(g)
  {
    assert ([g] + rest)[1..] == rest;
  }

  lemma {:induction false} FirstAmongConfigured(groups: seq<KeyGroup>, good: KeyGroup -> bool)
    ensures var r := FirstFailing(Configured(groups), good);
            r.Some? ==> exists i: nat :: IsFirstBad(groups, good, i, r.value.name)
  {
    hide IsConfigured, FirstFailing, IsUsed;
    if groups == [] {
      assert FirstFailing<KeyGroup>([], good).None?;
    } else {
      UsedIsConfigured(groups[0]);
      FirstOfMore(groups[0], Configured(groups[1..]), good);
      if IsConfigured(groups[0]) && !good(groups[0]) {
        assert IsFirstBad(groups, good, 0, groups[0].name);
      } else {
        assert [] + Configured(groups[1..]) == Configured(groups[1..]);
        FirstAmongConfigured(groups[1..], good);
        if FirstFailing(Configured(groups[1..]), good).Some? {
          LaterBad(groups, good, FirstFailing(Configured(groups[1..]), good).value.name);
        }
      }
    }
  }

  lemma LaterBad(groups: seq<KeyGroup>, good: KeyGroup -> bool, name: string)
    requires groups != [] && (IsUsed(groups[0]) ==> good(groups[0]))
    requires exists i: nat :: IsFirstBad(groups[1..], good, i, name)
    ensures exists i: nat :: IsFirstBad(groups, good, i, name)
  {
    hide IsUsed;
    var i: nat :| IsFirstBad(groups[1..], good, i, name);
    assert forall j :: 0 < j < |groups| ==> groups[1..][j - 1] == groups[j];
    assert IsFirstBad(groups, good, i + 1, name);
  }

  /** The grounds for a refusal, in the order in which they are given. */
  ghost predicate Blocks(input: Input, k: nat) {
    match k
    case 0 => input.stateUnreadable
    case 1 => input.busy
    case 2 => input.preflight.None?
    case 3 => input.preflight.Some? && !input.preflight.value.ready
    case 4 => input.mode == MixedApi && input.mixedAuthReady != Some(true)
    case 5 => forall g <- input.groups :: !IsUsed(g)
    case 6 => exists g <- input.groups :: IsUsed(g) && !(Trim(g.apiKey) != "" && g.verified)
    case 7 => exists g <- input.groups :: IsUsed(g) && g.selected == []
    case 8 => TwiceInside(input.groups) || TwiceAcross(input.groups)
    case 9 => input.defaultModel == "" || !IsOffered(input.groups, input.defaultModel)
    case 10 => input.imagegenEnabled && Trim(input.imageApiKey) == "" && !input.imagegenConfigured
    case 11 => input.imagegenEnabled && Trim(input.imageApiKey) != "" && !input.imageKeyValidated
    case _ => false
  }

  function GroundOf(r: Reason): nat {
    match r
    case StateUnreadable(_) => 0
    case Busy => 1
    case PreflightPending => 2
    case CheckFailed(_, _) => 3
    case PreflightFailed => 3
    case AuthPending => 4
    case AuthMissing(_) => 4
    case NoKey => 5
    case NotVerified(_) => 6
    case NoModel(_) => 7
    case ModelTwice => 8
    case NoDefault => 9
    case ImageKeyMissing => 10
    case ImageKeyUnchecked => 11
  }

  /** The same for the grounds that lie in the keys. */
  lemma GroupsReason(input: Input)
    ensures match GroupsBlockReason(input)
            case Some(r) =>
              && 5 <= GroundOf(r) && Blocks(input, GroundOf(r))
              && (forall k: nat :: 5 <= k < GroundOf(r) ==> !Blocks(input, k))
            case None => forall k: nat :: 5 <= k ==> !Blocks(input, k)
  {
    hide Trim, RepeatsAny, Configured, AllSelected, IsOffered, TwiceInside, TwiceAcross, FirstFailing, IsUsed;
    RepeatsIff(AllSelected(Configured(input.groups)));
    SelectedAre(input.groups);
    UsedGrounds(input);
  }

  lemma GroupsBlamed(input: Input)
    requires GroupsBlockReason(input).Some?
    ensures var r := GroupsBlockReason(input).value;
            && (r.NotVerified? ==> exists i: nat :: IsFirstBad(input.groups, IsChecked, i, r.name))
            && (r.NoModel? ==> exists i: nat :: IsFirstBad(input.groups, HasSelection, i, r.name))
  {
    hide Trim, RepeatsAny, Configured, AllSelected, FirstFailing, IsFirstBad;
    var configured := Configured(input.groups);
    FirstFailingAlike(configured, IsComplete, IsChecked);
    FirstFailingAlike(configured, HasModels, HasSelection);
    FirstAmongConfigured(input.groups, IsChecked);
    FirstAmongConfigured(input.groups, HasSelection);
  }

  lemma UsedGrounds(input: Input)
    ensures var configured := Configured(input.groups);
            && (configured == [] <==> Blocks(input, 5))
            && (FirstFailing(configured, IsComplete).Some? <==> Blocks(input, 6))
            && (FirstFailing(configured, HasModels).Some? <==> Blocks(input, 7))
  {
    hide Trim, Configured, FirstFailing;
    var configured := Configured(input.groups);
    ConfiguredMembers(input.groups);
    assert configured != [] ==> configured[0] in configured;
  }

  /** The reason given is the first ground that applies, and there is none if the guard is silent. */
  lemma ReasonIsFirstGround(input: Input)
    ensures match GetApplyBlockReason(input)
            case Some(r) => Blocks(input, GroundOf(r)) && forall k: nat :: k < GroundOf(r) ==> !Blocks(input, k)
            case None => forall k: nat :: !Blocks(input, k)
  {
    hide Trim, GroupsBlockReason, FirstFailing, IsOffered, TwiceInside, TwiceAcross, IsUsed, IsFirstBad;
    GroupsReason(input);
  }

  /** Every refusal is true of the input, and a group or check that it names is the first one to blame. */
  lemma RefusalIsJustified(input: Input)
    requires GetApplyBlockReason(input).Some?
    ensures match GetApplyBlockReason(input).value
            case StateUnreadable(canRecover) => input.stateUnreadable && canRecover == input.baselineExists
            case Busy => input.busy
            case PreflightPending => input.preflight.None?
            case CheckFailed(name, detail) =>
              var checks := input.preflight.value.checks;
              exists i :: 0 <= i < |checks| && checks[i] == Check(name, detail, false)
                       && forall j :: 0 <= j < i ==> checks[j].ready
            case PreflightFailed => !input.preflight.value.ready && forall c <- input.preflight.value.checks :: c.ready
            case AuthPending => input.mode == MixedApi && input.mixedAuthReady.None?
            case AuthMissing(message) =>
              && input.mode == MixedApi && input.mixedAuthReady.Some? && !input.mixedAuthReady.value
              && message == (if input.mixedAuthMessage != "" then input.mixedAuthMessage else DEFAULT_AUTH_MESSAGE)
            case NoKey => forall g <- input.groups :: Trim(g.apiKey) == "" && !g.verified
            case NotVerified(name) => exists i: nat :: IsFirstBad(input.groups, IsChecked, i, name)
            case NoModel(name) => exists i: nat :: IsFirstBad(input.groups, HasSelection, i, name)
            case ModelTwice => TwiceInside(input.groups) || TwiceAcross(input.groups)
            case NoDefault => input.defaultModel == "" || !IsOffered(input.groups, input.defaultModel)
            case ImageKeyMissing => input.imagegenEnabled && Trim(input.imageApiKey) == "" && !input.imagegenConfigured
            case ImageKeyUnchecked => input.imagegenEnabled && Trim(input.imageApiKey) != "" && !input.imageKeyValidated
  {
    hide Trim, GroupsBlockReason, FirstFailing, IsOffered, TwiceInside, TwiceAcross, IsFirstBad;
    GroupsReason(input);
    if GroupsBlockReason(input).Some? {
      GroupsBlamed(input);
    }
  }
}
