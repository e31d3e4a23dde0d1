/**
 What the key panel's operations come to, over runs: a check whose key stays as it was fills its group, a successful
 application forgets every key until the user types one again, and what each selection does to the default.
 */
module KeyOutcomes {
  import opened Text
  import opened Wrappers
  import opened ApplyGuard
  import opened KeyValidation

  // ---------------------------------------------------------------------------------------------
  // Applications forget the keys

  predicate IsApplication(op: Operation) { op.Applying? || op.Restoring? || op.Recovering? }

  /** The answer means that the application went through; a restore counts unless the call itself failed. */
  predicate Succeeds(op: Operation, r: Response) { !r.thrown && (r.ok || op.Restoring?) }

  ghost predicate GroupIsEmpty(g: Group) { g.key == "" && g.discovery.None? && g.selected == [] }

  /** No key, no discovery, no selection, no default, and no image key left. */
  ghost predicate Forgotten(s: State) {
    && GroupIsEmpty(s.pro) && GroupIsEmpty(s.ent) && s.defaultModel == ""
    && s.image.key == "" && !s.image.validated
  }

  ghost predicate SameKeys(s: State, q: State) {
    q.pro == s.pro && q.ent == s.ent && q.image == s.image && q.defaultModel == s.defaultModel
  }

  /** A successful application, restore or recovery forgets all keys; a failed one leaves all as they are. */
  lemma ApplicationForgetsIff(s: State, t: nat, r: Response)
    requires t in s.pending && IsApplication(s.pending[t])
    ensures var q := Step(s, Reply(t, r));
            && t !in q.pending && q.token != Some(t)
            && if Succeeds(s.pending[t], r) then Forgotten(q) else SameKeys(s, q)
  {}

  /** Nothing typed and no check under way. */
  ghost predicate StaysEmpty(s: State) {
    Forgotten(s) && forall t <- s.pending :: !s.pending[t].Validating? && !s.pending[t].ValidatingImage?
  }

  predicate Types(e: Event) { (e.EditKey? || e.EditImageKey?) && e.value != "" }

  lemma TrimNothing()
    ensures Trim("") == ""
  {}

  lemma StepStaysEmpty(s: State, e: Event)
    requires StaysEmpty(s) && Shown(s, e) && !Types(e)
    ensures StaysEmpty(Step(s, e))
  {
    hide Trim, GetApplyBlockReason, EnableCheck, InputOf;
    TrimNothing();
    if e.Reply? || IsSelection(e) {
      hide ValidateStep, ValidateImageStep;
    } else {
      hide Resumed, ToggleStep;
    }
  }

  lemma {:induction false} OfferedPrefix(events: seq<Event>, gate: Gate, n: nat)
    requires Offered(events, gate) && n <= |events|
    ensures Offered(events[..n], gate)
    ensures n < |events| ==>
              var s := Run(START, events[..n]);
              && Shown(s, events[n]) && (Waits(gate, events[n]) ==> s.token.None?)
              && Run(START, events[..n + 1]) == Step(s, events[n])
  {
    hide Step, Shown;
    assert events[..|events|] == events;
    if n < |events| {
      var front := events[..|events| - 1];
      assert front[..n] == events[..n];
      assert events[..n + 1][..n] == events[..n];
      if n < |front| {
        OfferedPrefix(front, gate, n);
        assert front[..n + 1] == events[..n + 1];
      } else {
        assert front == events[..n];
      }
    }
  }

  /** Once an application went through, no key comes back in any run before the user types one. */
  lemma {:induction false} ForgottenUntilTyped(events: seq<Event>, k: nat, n: nat)
    requires Offered(events, Open) && k < n <= |events| && events[k].Reply?
    requires var s := Run(START, events[..k]);
             events[k].t in s.pending && IsApplication(s.pending[events[k].t])
             && Succeeds(s.pending[events[k].t], events[k].r)
    requires forall j :: k < j < n ==> !Types(events[j])
    ensures Forgotten(Run(START, events[..n]))
    ensures StaysEmpty(Run(START, events[..n]))
  {
    hide Step, Run, Offered, Types, Shown, Succeeds, StaysEmpty;
    OfferedPrefix(events, Open, n - 1);
    var s := Run(START, events[..n - 1]);
    if n - 1 == k {
      RunsStayHonest(events[..k]);
      AppliedStaysEmpty(s, events[k].t, events[k].r);
    } else {
      ForgottenUntilTyped(events, k, n - 1);
      StepStaysEmpty(s, events[n - 1]);
    }
    EmptyIsForgotten(Run(START, events[..n]));
  }

  lemma EmptyIsForgotten(s: State)
    requires StaysEmpty(s)
    ensures Forgotten(s)
  {}

  lemma AppliedStaysEmpty(s: State, t: nat, r: Response)
    requires Honest(s) && t in s.pending && IsApplication(s.pending[t]) && Succeeds(s.pending[t], r)
    ensures StaysEmpty(Step(s, Reply(t, r)))
  {
    hide Trim;
    ApplicationForgetsIff(s, t, r);
  }

  // ---------------------------------------------------------------------------------------------
  // A check whose key stays as it was

  /** The one operation under way is this check, and the group's key has not been edited since it began. */
  ghost predicate Checking(s: State, t: nat, op: Operation, key: string) {
    && op.Validating? && s.pending == map[t := op] && s.token == Some(t)
    && GroupOf(s, op.id).epoch == op.epoch && GroupOf(s, op.id).key == key
  }

  /** Asking for a check of a key that is not blank begins one, and what was found before is dropped. */
  lemma CheckBegins(s: State, id: GroupId)
    requires s.token.None? && s.pending == map[] && Trim(GroupOf(s, id).key) != ""
    ensures var q, g := Step(s, Event.Validate(id)), GroupOf(s, id);
            var op := q.pending[s.nextToken];
            && Checking(q, s.nextToken, op, g.key) && op.id == id && op.key == Trim(g.key)
            && GroupOf(q, id).discovery.None? && GroupOf(q, id).selected == []
            && GroupOf(q, id.Other()) == GroupOf(s, id.Other())
  {
    hide Trim;
  }

  lemma StepKeepsChecking(s: State, e: Event, t: nat, op: Operation, key: string)
    requires Checking(s, t, op, key) && !(e.EditKey? && e.id == op.id) && !(e.Reply? && e.t == t)
    ensures Checking(Step(s, e), t, op, key)
  {
    hide Trim, GetApplyBlockReason, EnableCheck, InputOf, Resumed, Without;
  }

  lemma {:induction false} ChecksGoOn(s: State, events: seq<Event>, t: nat, op: Operation, key: string)
    requires Checking(s, t, op, key)
    requires forall e <- events :: !(e.EditKey? && e.id == op.id) && !(e.Reply? && e.t == t)
    ensures Checking(Run(s, events), t, op, key)
  {
    if events != [] {
      hide Step, Checking;
      var front, e := events[..|events| - 1], events[|events| - 1];
      assert e in events && forall x <- front :: x in events;
      ChecksGoOn(s, front, t, op, key);
      StepKeepsChecking(Run(s, front), e, t, op, key);
    }
  }

  /**
   Whatever else happens meanwhile, if the key of the group under check is not edited the answer counts: models
   that were found are shown, all selected, as those of that very key, and fill an empty default; any other answer
   leaves the group without models.
   */
  lemma AnswerIsTaken(s: State, events: seq<Event>, t: nat, op: Operation, key: string, r: Response)
    requires Checking(s, t, op, key)
    requires forall e <- events :: !(e.EditKey? && e.id == op.id) && !(e.Reply? && e.t == t)
    ensures var before := Run(s, events);
            var q := Step(before, Reply(t, r));
            var g := GroupOf(q, op.id);
            && q.token.None? && q.pending == map[] && g.key == key
            && GroupOf(q, op.id.Other()) == GroupOf(before, op.id.Other()) && q.image == before.image
            && if !r.thrown && r.ok && r.discovery.Some? then
                 && g.discovery == r.discovery && g.selected == r.discovery.value.models && g.checkedKey == op.key
                 && q.defaultModel == (if before.defaultModel == "" then r.discovery.value.defaultModel
                                       else before.defaultModel)
               else g.discovery.None? && g.selected == []
  {
    hide Run;
    ChecksGoOn(s, events, t, op, key);
  }

  ghost predicate CheckingImage(s: State, t: nat, op: Operation, key: string) {
    && op.ValidatingImage? && s.pending == map[t := op] && s.token == Some(t)
    && s.image.epoch == op.epoch && s.image.key == key && !s.image.validated
  }

  lemma ImageCheckBegins(s: State)
    requires s.token.None? && s.pending == map[] && Trim(s.image.key) != ""
    ensures var q := Step(s, ValidateImage);
            CheckingImage(q, s.nextToken, q.pending[s.nextToken], s.image.key)
            && q.pending[s.nextToken].key == Trim(s.image.key)
  {
    hide Trim;
  }

  lemma StepKeepsCheckingImage(s: State, e: Event, t: nat, op: Operation, key: string)
    requires CheckingImage(s, t, op, key) && !e.EditImageKey? && !(e.Reply? && e.t == t)
    ensures CheckingImage(Step(s, e), t, op, key)
  {
    hide Trim, GetApplyBlockReason, EnableCheck, InputOf, Resumed, Without;
  }

  lemma {:induction false} ImageChecksGoOn(s: State, events: seq<Event>, t: nat, op: Operation, key: string)
    requires CheckingImage(s, t, op, key) && forall e <- events :: !e.EditImageKey? && !(e.Reply? && e.t == t)
    ensures CheckingImage(Run(s, events), t, op, key)
  {
    if events != [] {
      hide Step, CheckingImage;
      var front, e := events[..|events| - 1], events[|events| - 1];
      assert e in events && forall x <- front :: x in events;
      ImageChecksGoOn(s, front, t, op, key);
      StepKeepsCheckingImage(Run(s, front), e, t, op, key);
    }
  }

  /** The image key is confirmed, as the key that was checked, exactly if the answer says so and it was not edited. */
  lemma ImageAnswerIsTaken(s: State, events: seq<Event>, t: nat, op: Operation, key: string, r: Response)
    requires CheckingImage(s, t, op, key) && forall e <- events :: !e.EditImageKey? && !(e.Reply? && e.t == t)
    ensures var q := Step(Run(s, events), Reply(t, r));
            && q.token.None? && q.image.key == key
            && (q.image.validated <==> !r.thrown && r.ok) && (q.image.validated ==> q.image.checkedKey == op.key)
  {
    hide Run;
    ImageChecksGoOn(s, events, t, op, key);
  }

  /** Asking for a check, or editing the key, withdraws the confirmation, whatever comes of it; nothing else is lost. */
  lemma ConfirmationIsWithdrawn(s: State, e: Event)
    requires e.ValidateImage? || e.EditImageKey?
    ensures var q := Step(s, e);
            && !q.image.validated && q.image.key == (if e.EditImageKey? then e.value else s.image.key)
            && q.pro == s.pro && q.ent == s.ent && q.defaultModel == s.defaultModel
            && (e.EditImageKey? || s.token.Some? ==> q.pending == s.pending && q.token == s.token)
  {
    hide Trim;
  }

  /** Whatever operation has this token by now, it is not a check of the present image key. */
  ghost predicate IsLateImage(s: State, t: nat, epoch: nat) {
    && t < s.nextToken
    && (t in s.pending ==> s.pending[t].ValidatingImage? && s.pending[t].epoch == epoch)
    && epoch < s.image.epoch
  }

  lemma StepStaysLateImage(s: State, e: Event, t: nat, epoch: nat)
    requires IsLateImage(s, t, epoch)
    ensures IsLateImage(Step(s, e), t, epoch)
  {
    hide Trim, GetApplyBlockReason, EnableCheck, InputOf, Without;
  }

  /** Once the image key was edited, the answer to a check started before only ends its operation. */
  lemma {:induction false} LateImageAnswerIsDropped(s: State, t: nat, value: string, events: seq<Event>, r: Response)
    requires Honest(s) && t in s.pending && s.pending[t].ValidatingImage?
    ensures var late := Run(Step(s, EditImageKey(value)), events);
            SameKeys(late, Step(late, Reply(t, r))) && IsLateImage(late, t, s.pending[t].epoch)
  {
    if events == [] {
      hide Trim;
      assert OperationIsHonest(s, s.pending[t]);
    } else {
      hide Step, Honest, IsLateImage, SameKeys;
      var front := events[..|events| - 1];
      LateImageAnswerIsDropped(s, t, value, front, r);
      StepStaysLateImage(Run(Step(s, EditImageKey(value)), front), events[|events| - 1], t, s.pending[t].epoch);
      LateImageStep(Run(Step(s, EditImageKey(value)), events), t, r, s.pending[t].epoch);
    }
  }

  lemma LateImageStep(s: State, t: nat, r: Response, epoch: nat)
    requires IsLateImage(s, t, epoch)
    ensures SameKeys(s, Step(s, Reply(t, r)))
  {}

  // ---------------------------------------------------------------------------------------------
  // Edits and selections

  /** The default after its group lost it: the first model that is still selected, of this group before the other. */
  predicate FallsBack(s: State, q: State, id: GroupId) {
    q.defaultModel ==
      if GroupOf(q, id).selected != [] then GroupOf(q, id).selected[0]
      else if GroupOf(s, id.Other()).selected != [] then GroupOf(s, id.Other()).selected[0]
      else ""
  }

  /** What an edit of a key or a selection does to the models selected in its group. */
  ghost predicate Selects(s: State, q: State, e: Event) {
    match e
    case EditKey(id, value) => var g := GroupOf(q, id); g.key == value && g.discovery.None? && g.selected == []
    case ClearSelection(id) => GroupOf(q, id).selected == []
    case SelectAll(id) => GroupOf(s, id).discovery.Some? ==>
        GroupOf(q, id).selected == GroupOf(s, id).discovery.value.models
    case Toggle(id, model) =>
      forall m :: m in GroupOf(q, id).selected <==> (m in GroupOf(s, id).selected) != (m == model)
    case _ => true
  }

  /**
   Edits and selections act on their own group, and the default follows: one that the group no longer selects falls
   back on the first model still selected, an empty one takes what was just selected, and any other stays.
   */
  lemma DefaultFollows(s: State, e: Event)
    requires e.EditKey? || e.ClearSelection? || e.SelectAll? || e.Toggle?
    requires Shown(s, e) && s.defaultModel != ""
    ensures var q := Step(s, e);
            && Selects(s, q, e) && GroupOf(q, e.id.Other()) == GroupOf(s, e.id.Other())
            && q.pending == s.pending && q.token == s.token && q.image == s.image
            && if s.defaultModel in GroupOf(s, e.id).selected && s.defaultModel !in GroupOf(q, e.id).selected
               && !e.SelectAll?
               then FallsBack(s, q, e.id) else q.defaultModel == s.defaultModel
  {
    hide Without;
    if e.Toggle? {
      WithoutMembers(GroupOf(s, e.id).selected, e.model);
    }
  }

  /** Choosing a default makes it the default, in whichever group it stands, and changes nothing else. */
  lemma DefaultIsChosen(s: State, id: GroupId, model: string)
    ensures var q := Step(s, ChooseDefault(id, model));
            && q.defaultModel == model && q.pro == s.pro && q.ent == s.ent && q.image == s.image
            && q.pending == s.pending && q.token == s.token
  {}

  lemma EmptyDefaultIsFilled(s: State, e: Event)
    requires (e.SelectAll? || e.Toggle?) && Shown(s, e) && s.defaultModel == "" && "" !in GroupOf(s, e.id).selected
    ensures Selects(s, Step(s, e), e)
    ensures Step(s, e).defaultModel ==
              if e.SelectAll? then GroupOf(s, e.id).discovery.value.defaultModel
              else if e.model in GroupOf(s, e.id).selected then "" else e.model
  {
    hide Without;
    if e.Toggle? {
      WithoutMembers(GroupOf(s, e.id).selected, e.model);
    }
  }
}
