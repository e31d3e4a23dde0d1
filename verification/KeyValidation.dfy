/**
 The key panel of the manager: two key groups with their discovered models, an image key, and one default
 model. At most one operation runs at a time, under a token; a counter per key tells whether the key was edited
 while its check was under way, and a late answer is then dropped.
 */
module KeyValidation {
  import opened Text
  import opened Wrappers
  import opened ApplyGuard

  datatype GroupId = CodexPro | Enterprise {
    function Other(): GroupId { if CodexPro? then Enterprise else CodexPro }
  }

  datatype Discovery = Discovery(models: seq<string>, defaultModel: string)

  /** `checkedKey` is kept by the model only: the key whose check led to the present discovery. */
  datatype Group = Group(key: string, discovery: Option<Discovery>, selected: seq<string>, epoch: nat,
      checkedKey: string)

  datatype ImageKey = ImageKey(key: string, validated: bool, epoch: nat, checkedKey: string)

  /** An operation under way, with what its handler captured when it was called. */
  datatype Operation =
    | Validating(id: GroupId, key: string, epoch: nat, own: seq<string>, other: seq<string>)
    | ValidatingImage(key: string, epoch: nat)
    | Applying
    | Restoring
    | Recovering
    | Plain

  datatype State = State(
    pro: Group, ent: Group, image: ImageKey, defaultModel: string,
    pending: map<nat, Operation>, token: Option<nat>, nextToken: nat)

  const NO_GROUP := Group("", None, [], 0, "")
  const START := State(NO_GROUP, NO_GROUP, ImageKey("", false, 0, ""), "", map[], None, 0)

  /** An answer from the backend; `thrown` when the call itself failed. */
  datatype Response = Response(thrown: bool, ok: bool, discovery: Option<Discovery>)

  /** What the guard looks at besides the keys. */
  datatype Environment = Environment(
    stateUnreadable: bool, baselineExists: bool, preflight: Option<Preflight>, mode: AccessMode,
    mixedAuthReady: Option<bool>, mixedAuthMessage: string, imagegenEnabled: bool, imagegenConfigured: bool)

  datatype Event =
    | EditKey(id: GroupId, value: string)
    | EditImageKey(value: string)
    | Validate(id: GroupId)
    | ValidateImage
    | Enable(env: Environment)
    | Begin(op: Operation)
    | Reply(t: nat, r: Response)
    | SelectAll(id: GroupId)
    | ClearSelection(id: GroupId)
    | Toggle(id: GroupId, model: string)
    | ChooseDefault(id: GroupId, model: string)

  function GroupOf(s: State, id: GroupId): Group { if id.CodexPro? then s.pro else s.ent }

  function WithGroup(s: State, id: GroupId, g: Group): State {
    if id.CodexPro? then s.(pro := g) else s.(ent := g)
  }

  function Head(ids: seq<string>): string { if ids == [] then "" else ids[0] }

  function Begun(s: State, op: Operation): State {
    s.(pending := s.pending[s.nextToken := op], token := Some(s.nextToken), nextToken := s.nextToken + 1)
  }

  function Ended(s: State, t: nat): State {
    s.(pending := s.pending - {t}, token := if s.token == Some(t) then None else s.token)
  }

  /** Dropping a group's discovery; `own` and `other` are the selections that the caller captured. */
  function Dropped(s: State, id: GroupId, own: seq<string>, other: seq<string>): State {
    WithGroup(s, id, GroupOf(s, id).(discovery := None, selected := []))
      .(defaultModel := if s.defaultModel in own then Head(other) else s.defaultModel)
  }

  function Emptied(s: State): State {
    s.(pro := s.pro.(key := "", discovery := None, selected := []),
       ent := s.ent.(key := "", discovery := None, selected := []),
       defaultModel := "", image := s.image.(key := "", validated := false))
  }

  function InputOf(s: State, env: Environment): Input {
    Input(s.token.Some?, env.stateUnreadable, env.baselineExists, env.preflight, env.mode, env.mixedAuthReady,
          env.mixedAuthMessage,
          [KeyGroup("CodexPro Key", s.pro.key, s.pro.discovery.Some?, s.pro.selected),
           KeyGroup("Enterprise", s.ent.key, s.ent.discovery.Some?, s.ent.selected)],
          s.defaultModel, env.imagegenEnabled, env.imagegenConfigured, s.image.key, s.image.validated)
  }

  function ValidateStep(s: State, id: GroupId): State {
    if s.token.Some? then s
    else
      var g := GroupOf(s, id);
      var own, other := g.selected, GroupOf(s, id.Other()).selected;
      var begun := Begun(s, Validating(id, Trim(g.key), g.epoch + 1, own, other));
      var dropped := Dropped(WithGroup(begun, id, g.(epoch := g.epoch + 1)), id, own, other);
      if Trim(g.key) == "" then Ended(dropped, s.nextToken) else dropped
  }

  function ValidateImageStep(s: State): State {
    var i := s.image.(validated := false);
    if Trim(i.key) == "" || s.token.Some? then s.(image := i)
    else Begun(s.(image := i.(epoch := i.epoch + 1)), ValidatingImage(Trim(i.key), i.epoch + 1))
  }

  /** What the rest of an operation's handler does once the backend has answered. */
  function Resumed(s: State, op: Operation, r: Response): State {
    var fine := !r.thrown && r.ok;
    match op
    case Validating(id, key, epoch, own, other) =>
      var g := GroupOf(s, id);
      if g.epoch != epoch then s
      else if !fine || r.discovery.None? then Dropped(s, id, own, other)
      else
        var d := r.discovery.value;
        WithGroup(s, id, g.(discovery := Some(d), selected := d.models, checkedKey := key))
          .(defaultModel := if s.defaultModel == "" then d.defaultModel else s.defaultModel)
    case ValidatingImage(key, epoch) =>
      if s.image.epoch != epoch then s
      else if fine then s.(image := s.image.(validated := true, checkedKey := key))
      else if r.thrown then s.(image := s.image.(validated := false))
      else s
    case Applying => if fine then Emptied(s) else s
    case Restoring => if r.thrown then s else Emptied(s)
    case Recovering => if fine then Emptied(s) else s
    case Plain => s
  }

  function ToggleStep(s: State, id: GroupId, model: string): State {
    var g := GroupOf(s, id);
    if model !in g.selected then
      WithGroup(s, id, g.(selected := g.selected + [model]))
        .(defaultModel := if s.defaultModel == "" then model else s.defaultModel)
    else
      var remaining := Without(g.selected, model);
      WithGroup(s, id, g.(selected := remaining))
        .(defaultModel := if s.defaultModel != model then s.defaultModel
                          else if remaining != [] then remaining[0]
                          else Head(GroupOf(s, id.Other()).selected))
  }

  function Without(ids: seq<string>, id: string): seq<string> {
    if ids == [] then []
    else if ids[0] == id then Without(ids[1..], id)
    else [ids[0]] + Without(ids[1..], id)
  }

  function Step(s: State, e: Event): State {
    match e
    case EditKey(id, value) =>
      var g := GroupOf(s, id);
      WithGroup(s, id, g.(key := value, discovery := None, selected := [], epoch := g.epoch + 1))
        .(defaultModel := if s.defaultModel in g.selected then Head(GroupOf(s, id.Other()).selected)
            else s.defaultModel)
    case EditImageKey(value) => s.(image := s.image.(key := value, validated := false, epoch := s.image.epoch + 1))
    case Validate(id) => ValidateStep(s, id)
    case ValidateImage => ValidateImageStep(s)
    case Enable(env) =>
      if GetApplyBlockReason(InputOf(s, env)).Some? || EnableCheck(InputOf(s, env)).Some? || s.token.Some? then s
      else Begun(s, Applying)
    case Begin(op) => if s.token.Some? || op.Validating? || op.ValidatingImage? || op.Applying? then s else Begun(s, op)
    case Reply(t, r) => if t in s.pending then Ended(Resumed(s, s.pending[t], r), t) else s
    case SelectAll(id) =>
      var g := GroupOf(s, id);
      if g.discovery.None? then s
      else
        WithGroup(s, id, g.(selected := g.discovery.value.models))
          .(defaultModel := if s.defaultModel == "" then g.discovery.value.defaultModel else s.defaultModel)
    case ClearSelection(id) =>
      var g := GroupOf(s, id);
      WithGroup(s, id, g.(selected := []))
        .(defaultModel := if s.defaultModel in g.selected then Head(GroupOf(s, id.Other()).selected)
            else s.defaultModel)
    case Toggle(id, model) => ToggleStep(s, id, model)
    case ChooseDefault(_, model) => s.(defaultModel := model)
  }

  function Run(s: State, events: seq<Event>): State {
    if events == [] then s else Step(Run(s, events[..|events| - 1]), events[|events| - 1])
  }

  // ---------------------------------------------------------------------------------------------
  // The handlers

  class Manager {
    var pro: Group
    var ent: Group
    var image: ImageKey
    var defaultModel: string
    var pending: map<nat, Operation>
    var operationToken: Option<nat>
    var nextToken: nat

    ghost function View(): State
      reads this
    {
      State(pro, ent, image, defaultModel, pending, operationToken, nextToken)
    }

    constructor ()
      ensures View() == START
    {
      pro, ent, image, defaultModel := NO_GROUP, NO_GROUP, ImageKey("", false, 0, ""), "";
      pending, operationToken, nextToken := map[], None, 0;
    }

    method BeginOperation(op: Operation) returns (token: Option<nat>)
      modifies this
      ensures old(operationToken).Some? ==> token.None? && View() == old(View())
      ensures old(operationToken).None? ==> token == Some(old(nextToken)) && View() == Begun(old(View()), op)
    {
      if operationToken.Some? {
        return None;
      }
      token := Some(nextToken);
      operationToken := token;
      pending := pending[nextToken := op];
      nextToken := nextToken + 1;
    }

    method EndOperation(token: nat)
      modifies this
      ensures View() == Ended(old(View()), token)
    {
      pending := pending - {token};
      if operationToken != Some(token) {
        return;
      }
      operationToken := None;
    }

    /** `setDiscovery`, `setSelectedModelIds` and their twins for the other group. */
    method SetGroup(id: GroupId, g: Group)
      modifies this`pro, this`ent
      ensures View() == WithGroup(old(View()), id, g)
    {
      if id == Enterprise {
        ent := g;
      } else {
        pro := g;
      }
    }

    method ClearGroupValidation(id: GroupId, own: seq<string>, other: seq<string>)
      modifies this
      ensures View() == Dropped(old(View()), id, own, other)
    {
      SetGroup(id, (if id == Enterprise then ent else pro).(discovery := None, selected := []));
      if defaultModel in own {
        defaultModel := if |other| > 0 then other[0] else "";
      }
    }

    /** `validate` up to the call of the backend. */
    method Validate(id: GroupId)
      modifies this
      ensures View() == Step(old(View()), Event.Validate(id))
    {
      hide Trim;
      var g := if id == Enterprise then ent else pro;
      var other := (if id == Enterprise then pro else ent).selected;
      var token := BeginOperation(Validating(id, Trim(g.key), g.epoch + 1, g.selected, other));
      if token.None? {
        return;
      }
      SetGroup(id, g.(epoch := g.epoch + 1));
      ClearGroupValidation(id, g.selected, other);
      if Trim(g.key) == "" {
        EndOperation(token.value);
      }
    }

    /** The rest of `validate`. */
    method FinishValidation(token: nat, op: Operation, r: Response)
      requires op.Validating? && token in pending && pending[token] == op
      modifies this
      ensures View() == Step(old(View()), Reply(token, r))
    {
      var g := if op.id == Enterprise then ent else pro;
      if g.epoch != op.epoch {
        EndOperation(token);
        return;
      }
      if r.thrown || !r.ok || r.discovery.None? {
        ClearGroupValidation(op.id, op.own, op.other);
        EndOperation(token);
        return;
      }
      var d := r.discovery.value;
      SetGroup(op.id, g.(discovery := Some(d), selected := d.models, checkedKey := op.key));
      if defaultModel == "" {
        defaultModel := d.defaultModel;
      }
      EndOperation(token);
    }

    /** `validateImageKey` up to the call of the backend. */
    method ValidateImageKey()
      modifies this
      ensures View() == Step(old(View()), ValidateImage)
    {
      hide Trim;
      image := image.(validated := false);
      if Trim(image.key) == "" {
        return;
      }
      var token := BeginOperation(ValidatingImage(Trim(image.key), image.epoch + 1));
      if token.None? {
        return;
      }
      image := image.(epoch := image.epoch + 1);
    }

    /** The rest of `validateImageKey`. */
    method FinishImageValidation(token: nat, op: Operation, r: Response)
      requires op.ValidatingImage? && token in pending && pending[token] == op
      modifies this
      ensures View() == Step(old(View()), Reply(token, r))
    {
      if image.epoch == op.epoch {
        if r.thrown {
          image := image.(validated := false);
        } else if r.ok {
          image := image.(validated := true, checkedKey := op.key);
        }
      }
      EndOperation(token);
    }

    /** `enable` up to the call of the backend. */
    method EnableAccess(env: Environment) returns (started: bool)
      modifies this
      ensures View() == Step(old(View()), Enable(env))
      ensures started <==> View() != old(View())
    {
      hide GetApplyBlockReason, EnableCheck;
      var input := Input(operationToken.Some?, env.stateUnreadable, env.baselineExists, env.preflight, env.mode,
        env.mixedAuthReady, env.mixedAuthMessage,
        [KeyGroup("CodexPro Key", pro.key, pro.discovery.Some?, pro.selected),
         KeyGroup("Enterprise", ent.key, ent.discovery.Some?, ent.selected)],
        defaultModel, env.imagegenEnabled, env.imagegenConfigured, image.key, image.validated);
      if GetApplyBlockReason(input).Some? || EnableCheck(input).Some? {
        return false;
      }
      var token := BeginOperation(Applying);
      started := token.Some?;
    }

    /** The rest of `enable`, `restore` and `recoverFromBaseline`, as far as the keys are concerned. */
    method FinishApplication(token: nat, op: Operation, r: Response)
      requires (op.Applying? || op.Restoring? || op.Recovering?) && token in pending && pending[token] == op
      modifies this
      ensures View() == Step(old(View()), Reply(token, r))
    {
      if r.thrown || (!r.ok && !op.Restoring?) {
        EndOperation(token);
        return;
      }
      pro := pro.(key := "", discovery := None, selected := []);
      ent := ent.(key := "", discovery := None, selected := []);
      defaultModel := "";
      image := image.(key := "", validated := false);
      EndOperation(token);
    }

    method OnApiKeyChange(id: GroupId, value: string)
      modifies this
      ensures View() == Step(old(View()), EditKey(id, value))
    {
      var g := if id == Enterprise then ent else pro;
      var other := (if id == Enterprise then pro else ent).selected;
      SetGroup(id, g.(epoch := g.epoch + 1));
      if defaultModel in g.selected {
        defaultModel := if |other| > 0 then other[0] else "";
      }
      SetGroup(id, g.(epoch := g.epoch + 1, key := value, discovery := None, selected := []));
    }

    method OnImageKeyChange(value: string)
      modifies this
      ensures View() == Step(old(View()), EditImageKey(value))
    {
      image := image.(epoch := image.epoch + 1);
      image := image.(key := value, validated := false);
    }

    method OnSelectAll(id: GroupId)
      modifies this
      ensures View() == Step(old(View()), SelectAll(id))
    {
      var g := if id == Enterprise then ent else pro;
      if g.discovery.None? {
        return;
      }
      SetGroup(id, g.(selected := g.discovery.value.models));
      if defaultModel == "" {
        defaultModel := g.discovery.value.defaultModel;
      }
    }

    method OnClearSelection(id: GroupId)
      modifies this
      ensures View() == Step(old(View()), ClearSelection(id))
    {
      var g := if id == Enterprise then ent else pro;
      var other := (if id == Enterprise then pro else ent).selected;
      SetGroup(id, g.(selected := []));
      if defaultModel in g.selected {
        defaultModel := if |other| > 0 then other[0] else "";
      }
    }

    method OnToggleModel(id: GroupId, model: string)
      modifies this
      ensures View() == Step(old(View()), Toggle(id, model))
    {
      var g := if id == Enterprise then ent else pro;
      var other := (if id == Enterprise then pro else ent).selected;
      if model !in g.selected {
        SetGroup(id, g.(selected := g.selected + [model]));
        if defaultModel == "" {
          defaultModel := model;
        }
      } else {
        var remaining := Without(g.selected, model);
        SetGroup(id, g.(selected := remaining));
        if defaultModel == model {
          defaultModel := if |remaining| > 0 then remaining[0] else if |other| > 0 then other[0] else "";
        }
      }
    }
  }

  // ---------------------------------------------------------------------------------------------
  // Events as the panel offers them

  predicate IsSelection(e: Event) { e.SelectAll? || e.ClearSelection? || e.Toggle? || e.ChooseDefault? }

  /** What is on the screen: models of a group are listed, and a default can be chosen among the selected ones. */
  predicate Shown(s: State, e: Event) {
    match e
    case SelectAll(id) => GroupOf(s, id).discovery.Some?
    case ClearSelection(id) => GroupOf(s, id).discovery.Some?
    case Toggle(id, model) => GroupOf(s, id).discovery.Some? && model in GroupOf(s, id).discovery.value.models
    case ChooseDefault(id, model) => model in GroupOf(s, id).selected
    case _ => true
  }

  /** Which controls are disabled during operations. */
  datatype Gate = Open | SelectionsWait | AllWait

  predicate Waits(gate: Gate, e: Event) {
    (gate != Open && IsSelection(e)) || (gate == AllWait && e.EditKey?)
  }

  /** A run of events that were on the screen and not disabled, with answers of any kind. */
  predicate Offered(events: seq<Event>, gate: Gate) {
    events == [] ||
    var front, e := events[..|events| - 1], events[|events| - 1];
    var s := Run(START, front);
    Offered(front, gate) && Shown(s, e) && (Waits(gate, e) ==> s.token.None?)
  }

  // ---------------------------------------------------------------------------------------------
  // Every run: one operation, and verified means verified for the key in the box

  ghost predicate OneOperation(s: State) {
    && (forall t :: t in s.pending <==> s.token == Some(t))
    && (s.token.Some? ==> s.token.value < s.nextToken)
  }

  ghost predicate GroupIsHonest(g: Group) {
    && (g.discovery.Some? ==> g.checkedKey == Trim(g.key) && g.checkedKey != "")
    && (g.discovery.None? ==> g.selected == [])
    && (g.discovery.Some? ==> forall m <- g.selected :: m in g.discovery.value.models)
  }

  ghost predicate ImageIsHonest(i: ImageKey) { i.validated ==> i.checkedKey == Trim(i.key) && i.checkedKey != "" }

  /** A check under way is for the key now in the box unless the counter has moved on. */
  ghost predicate OperationIsHonest(s: State, op: Operation) {
    match op
    case Validating(id, key, epoch, _, _) =>
      epoch <= GroupOf(s, id).epoch && (epoch == GroupOf(s, id).epoch ==> key == Trim(GroupOf(s, id).key) && key != "")
    case ValidatingImage(key, epoch) => epoch <= s.image.epoch
        && (epoch == s.image.epoch ==> key == Trim(s.image.key) && key != "")
    case _ => true
  }

  ghost predicate Honest(s: State) {
    && OneOperation(s) && GroupIsHonest(s.pro) && GroupIsHonest(s.ent) && ImageIsHonest(s.image)
    && forall t <- s.pending :: OperationIsHonest(s, s.pending[t])
  }

  lemma {:induction false} WithoutMembers(ids: seq<string>, id: string)
    ensures forall x :: x in Without(ids, id) <==> x in ids && x != id
  {
    if ids != [] {
      WithoutMembers(ids[1..], id);
      assert forall x :: x in ids <==> x == ids[0] || x in ids[1..];
    }
  }

  lemma ReplyStaysHonest(s: State, t: nat, r: Response)
    requires Honest(s) && Shown(s, Reply(t, r))
    ensures Honest(Step(s, Reply(t, r)))
  {
    hide Trim, Resumed, GroupIsHonest, ImageIsHonest;
    if t in s.pending {
      assert OperationIsHonest(s, s.pending[t]);
      ResumedStaysHonest(s, s.pending[t], r);
    }
  }

  lemma ResumedStaysHonest(s: State, op: Operation, r: Response)
    requires GroupIsHonest(s.pro) && GroupIsHonest(s.ent) && ImageIsHonest(s.image) && OperationIsHonest(s, op)
    ensures var q := Resumed(s, op, r);
            && GroupIsHonest(q.pro) && GroupIsHonest(q.ent) && ImageIsHonest(q.image)
            && q.pending == s.pending && q.token == s.token && q.nextToken == s.nextToken
  {
    hide Trim;
    assert Trim("") == "" by { TrimOfNothing(); }
    if op.Validating? {
      hide ImageIsHonest;
    }
  }

  lemma TrimOfNothing()
    ensures Trim("") == ""
  {}

  lemma ToggleStaysHonest(s: State, id: GroupId, model: string)
    requires Honest(s) && Shown(s, Toggle(id, model))
    ensures Honest(ToggleStep(s, id, model))
  {
    hide Trim, Without;
    WithoutMembers(GroupOf(s, id).selected, model);
  }

  lemma ValidateStaysHonest(s: State, id: GroupId)
    requires Honest(s)
    ensures Honest(ValidateStep(s, id))
  {
    hide Trim, ImageIsHonest;
  }

  lemma ValidateImageStaysHonest(s: State)
    requires Honest(s)
    ensures Honest(ValidateImageStep(s))
  {
    hide Trim, GroupIsHonest;
  }

  lemma EditStaysHonest(s: State, e: Event)
    requires Honest(s) && (e.EditKey? || e.EditImageKey?)
    ensures Honest(Step(s, e))
  {
    hide Trim;
  }

  lemma SelectionStaysHonest(s: State, e: Event)
    requires Honest(s) && Shown(s, e) && IsSelection(e)
    ensures Honest(Step(s, e))
  {
    hide Trim, ToggleStep;
    if e.Toggle? {
      ToggleStaysHonest(s, e.id, e.model);
    }
  }

  lemma StepStaysHonest(s: State, e: Event)
    requires Honest(s) && Shown(s, e)
    ensures Honest(Step(s, e))
  {
    hide Trim, GetApplyBlockReason, EnableCheck, InputOf, Step, Shown;
    if e.Reply? {
      ReplyStaysHonest(s, e.t, e.r);
    } else if IsSelection(e) {
      SelectionStaysHonest(s, e);
    } else if e.EditKey? || e.EditImageKey? {
      EditStaysHonest(s, e);
    } else {
      OtherStaysHonest(s, e);
    }
  }

  lemma OtherStaysHonest(s: State, e: Event)
    requires Honest(s) && (e.Validate? || e.ValidateImage? || e.Enable? || e.Begin?)
    ensures Honest(Step(s, e))
  {
    hide Trim, GetApplyBlockReason, EnableCheck, InputOf, ValidateStep, ValidateImageStep, GroupIsHonest, ImageIsHonest;
    ValidateStaysHonest(s, if e.Validate? then e.id else CodexPro);
    ValidateImageStaysHonest(s);
  }

  /**
   In every run, even if keys and selections change while operations are under way: at most one operation is
   under way, a group shown as verified was verified for the trimmed key now in its box, only models found with
   that key are selected, and a confirmed image key is the one in its box.
   */
  lemma {:induction false} RunsStayHonest(events: seq<Event>)
    requires Offered(events, Open)
    ensures Honest(Run(START, events)) && |Run(START, events).pending| <= 1
  {
    hide Honest, Step, Shown;
    if events == [] {
      StartIsHonest();
    } else {
      RunsStayHonest(events[..|events| - 1]);
      StepStaysHonest(Run(START, events[..|events| - 1]), events[|events| - 1]);
    }
    AtMostOne(Run(START, events));
  }

  lemma StartIsHonest()
    ensures Honest(START)
  {}

  lemma AtMostOne(s: State)
    requires Honest(s)
    ensures |s.pending| <= 1
  {
    if s.token.Some? {
      assert s.pending.Keys == {s.token.value};
    } else {
      assert s.pending.Keys == {};
    }
  }

  // ---------------------------------------------------------------------------------------------
  // The default model

  predicate DefaultIsSelected(s: State) {
    s.defaultModel == "" || s.defaultModel in s.pro.selected || s.defaultModel in s.ent.selected
  }

  /** The default that comes with the models is one of them, or there is none. */
  predicate Listed(d: Discovery) { d.defaultModel == "" || d.defaultModel in d.models }

  predicate Named(d: Discovery) { "" !in d.models }

  /** Every discovery that the backend answers lists its default and, if asked for, names its models. */
  predicate Answers(events: seq<Event>, named: bool) {
    forall e <- events :: e.Reply? && e.r.discovery.Some? ==>
      Listed(e.r.discovery.value) && (named ==> Named(e.r.discovery.value))
  }

  ghost predicate GroupIsListed(g: Group, named: bool) {
    g.discovery.Some? ==> Listed(g.discovery.value) && (named ==> Named(g.discovery.value))
  }

  /**
   While a check whose counter still holds is under way, the other selection is as captured, or was emptied
   since by an edit of its key, which then left no default.
   */
  ghost predicate CaptureHolds(s: State, op: Operation, named: bool) {
    op.Validating? && op.epoch == GroupOf(s, op.id).epoch ==>
      var other := GroupOf(s, op.id.Other()).selected;
      && GroupOf(s, op.id).discovery.None? && (named ==> "" !in op.own)
      && (other == op.other || (named && other == [] && s.defaultModel == ""))
  }

  ghost predicate DefaultIsSound(s: State, named: bool) {
    && Honest(s) && DefaultIsSelected(s) && GroupIsListed(s.pro, named) && GroupIsListed(s.ent, named)
    && forall t <- s.pending :: CaptureHolds(s, s.pending[t], named)
  }

  /** What a step has to keep besides honesty. */
  ghost predicate KeepsDefault(r: State, named: bool) {
    && DefaultIsSelected(r) && GroupIsListed(r.pro, named) && GroupIsListed(r.ent, named)
    && forall t <- r.pending :: CaptureHolds(r, r.pending[t], named)
  }

  lemma SelectedHaveNames(s: State, id: GroupId)
    requires Honest(s) && GroupIsListed(GroupOf(s, id), true)
    ensures "" !in GroupOf(s, id).selected
  {
    hide Trim, Listed;
  }

  lemma ReplyKeepsDefault(s: State, t: nat, r: Response, named: bool)
    requires DefaultIsSound(s, named) && t in s.pending && Answers([Reply(t, r)], named)
    ensures KeepsDefault(Step(s, Reply(t, r)), named)
  {
    hide Trim, Resumed, GroupIsHonest, ImageIsHonest, Listed, Named;
    assert Reply(t, r) in [Reply(t, r)];
    assert CaptureHolds(s, s.pending[t], named) && OperationIsHonest(s, s.pending[t]);
    ResumedKeepsDefault(s, s.pending[t], r, named);
  }

  lemma ResumedKeepsDefault(s: State, op: Operation, r: Response, named: bool)
    requires DefaultIsSelected(s) && GroupIsListed(s.pro, named) && GroupIsListed(s.ent, named)
    requires CaptureHolds(s, op, named) && GroupIsHonest(s.pro) && GroupIsHonest(s.ent)
    requires r.discovery.Some? ==> Listed(r.discovery.value) && (named ==> Named(r.discovery.value))
    ensures var q := Resumed(s, op, r);
            && DefaultIsSelected(q) && GroupIsListed(q.pro, named) && GroupIsListed(q.ent, named)
            && q.pending == s.pending && q.token == s.token
  {
    hide Trim, Named, Listed, DefaultIsSelected, CaptureHolds, Dropped, GroupIsHonest;
    if op.Validating? {
      if r.discovery.Some? {
        TakenKeepsDefault(s, op, r.discovery.value, named);
      }
      DroppedOnFailure(s, op, named);
    }
    EmptiedKeepsDefault(s);
    SameSelections(s);
  }

  /** A failed check falls back on what it captured. */
  lemma DroppedOnFailure(s: State, op: Operation, named: bool)
    requires op.Validating? && DefaultIsSelected(s) && CaptureHolds(s, op, named)
    requires GroupIsHonest(s.pro) && GroupIsHonest(s.ent)
    ensures var q := Dropped(s, op.id, op.own, op.other);
            && (op.epoch == GroupOf(s, op.id).epoch ==> DefaultIsSelected(q))
            && q.pending == s.pending && q.token == s.token
            && GroupOf(q, op.id).discovery.None? && GroupOf(q, op.id.Other()) == GroupOf(s, op.id.Other())
  {
    hide Trim;
  }

  lemma EmptiedKeepsDefault(s: State)
    ensures DefaultIsSelected(Emptied(s))
  {}

  lemma SameSelections(s: State)
    ensures forall image :: DefaultIsSelected(s.(image := image)) == DefaultIsSelected(s)
  {}

  /** The state with a discovery taken over as a validation does it. */
  function Taken(s: State, op: Operation, d: Discovery): State
    requires op.Validating?
  {
    WithGroup(s, op.id, GroupOf(s, op.id).(discovery := Some(d), selected := d.models, checkedKey := op.key))
      .(defaultModel := if s.defaultModel == "" then d.defaultModel else s.defaultModel)
  }

  lemma TakenKeepsDefault(s: State, op: Operation, d: Discovery, named: bool)
    requires op.Validating? && DefaultIsSelected(s) && CaptureHolds(s, op, named)
    requires GroupIsHonest(s.pro) && GroupIsHonest(s.ent) && Listed(d)
    ensures op.epoch == GroupOf(s, op.id).epoch ==> DefaultIsSelected(Taken(s, op, d))
  {
    hide Trim;
  }

  lemma EditKeepsDefault(s: State, id: GroupId, value: string, named: bool)
    requires DefaultIsSound(s, named) && (s.token.Some? ==> named)
    ensures KeepsDefault(Step(s, EditKey(id, value)), named)
  {
    hide Trim, Listed, Named;
    var r := Step(s, EditKey(id, value));
    forall t <- s.pending
      ensures CaptureHolds(r, s.pending[t], named)
    {
      assert CaptureHolds(s, s.pending[t], named) && OperationIsHonest(s, s.pending[t]);
    }
  }

  lemma ValidateKeepsDefault(s: State, id: GroupId, named: bool)
    requires DefaultIsSound(s, named)
    ensures KeepsDefault(ValidateStep(s, id), named)
  {
    hide Trim, Listed, Named, Honest, OperationIsHonest, GroupIsHonest, Dropped, DefaultIsSelected;
    HonestMeans(s, id);
    if named {
      SelectedHaveNames(s, id);
    }
    if s.token.None? {
      var g, other := GroupOf(s, id), GroupOf(s, id.Other()).selected;
      var begun := Begun(s, Validating(id, Trim(g.key), g.epoch + 1, g.selected, other));
      var bumped := WithGroup(begun, id, g.(epoch := g.epoch + 1));
      DroppedKeepsDefault(s, bumped, id);
      EndedKeepsDefault(Dropped(bumped, id, g.selected, other), s.nextToken);
    }
  }

  lemma DroppedKeepsDefault(s: State, bumped: State, id: GroupId)
    requires DefaultIsSelected(s) && bumped.defaultModel == s.defaultModel
    requires bumped.pro.selected == s.pro.selected && bumped.ent.selected == s.ent.selected
    ensures var r := Dropped(bumped, id, GroupOf(s, id).selected, GroupOf(s, id.Other()).selected);
            && DefaultIsSelected(r) && r.pending == bumped.pending && r.token == bumped.token
            && GroupOf(r, id) == GroupOf(bumped, id).(discovery := None, selected := [])
            && GroupOf(r, id.Other()) == GroupOf(bumped, id.Other())
  {}

  lemma EndedKeepsDefault(s: State, t: nat)
    ensures DefaultIsSelected(Ended(s, t)) <==> DefaultIsSelected(s)
  {}

  lemma HonestMeans(s: State, id: GroupId)
    requires Honest(s)
    ensures OneOperation(s) && (GroupOf(s, id).discovery.None? ==> GroupOf(s, id).selected == [])
  {
    hide Trim;
  }

  lemma SelectionKeepsDefault(s: State, e: Event, named: bool)
    requires DefaultIsSound(s, named) && Shown(s, e) && IsSelection(e) && s.token.None?
    ensures KeepsDefault(Step(s, e), named)
  {
    hide Trim, ToggleStep, Named;
    if e.Toggle? {
      hide Listed;
      ToggleKeepsDefault(s, e.id, e.model);
    }
  }

  lemma ToggleKeepsDefault(s: State, id: GroupId, model: string)
    requires DefaultIsSelected(s)
    ensures var q := ToggleStep(s, id, model);
            && DefaultIsSelected(q) && q.pending == s.pending
            && q.pro.discovery == s.pro.discovery && q.ent.discovery == s.ent.discovery
  {
    hide Without;
    WithoutMembers(GroupOf(s, id).selected, model);
  }

  lemma OtherKeepsDefault(s: State, e: Event, named: bool)
    requires DefaultIsSound(s, named)
        && (e.ValidateImage? || e.Enable? || e.Begin? || e.EditImageKey? || (e.Reply? && e.t !in s.pending))
    ensures KeepsDefault(Step(s, e), named)
  {
    hide Trim, GetApplyBlockReason, EnableCheck, InputOf, Honest, GroupIsListed;
  }

  lemma StepKeepsDefault(s: State, e: Event, gate: Gate, named: bool)
    requires DefaultIsSound(s, named) && Shown(s, e) && Answers([e], named)
    requires (Waits(gate, e) ==> s.token.None?) && (gate == AllWait || (gate == SelectionsWait && named))
    ensures DefaultIsSound(Step(s, e), named)
  {
    hide Step, Honest, Answers, Shown;
    DefaultIsSoundMeans(s, named);
    StepStaysHonest(s, e);
    if e.Reply? && e.t in s.pending {
      ReplyKeepsDefault(s, e.t, e.r, named);
    } else if e.EditKey? {
      EditKeepsDefault(s, e.id, e.value, named);
    } else if e.Validate? {
      ValidateKeepsDefault(s, e.id, named);
      ValidateIsStep(s, e.id);
    } else if IsSelection(e) {
      SelectionKeepsDefault(s, e, named);
    } else {
      OtherKeepsDefault(s, e, named);
    }
  }

  lemma DefaultIsSoundMeans(s: State, named: bool)
    ensures DefaultIsSound(s, named) <==> Honest(s) && KeepsDefault(s, named)
  {}

  lemma ValidateIsStep(s: State, id: GroupId)
    ensures Step(s, Event.Validate(id)) == ValidateStep(s, id)
  {}

  /**
   In every run in which selections are disabled during operations and discoveries list their default, the default
   model is empty or selected in some group; if keys can be edited during operations, models also need names.
   */
  lemma {:induction false} DefaultStaysSelected(events: seq<Event>, gate: Gate, named: bool)
    requires Offered(events, gate) && Answers(events, named)
    requires gate == AllWait || (gate == SelectionsWait && named)
    ensures DefaultIsSound(Run(START, events), named) && DefaultIsSelected(Run(START, events))
  {
    hide DefaultIsSelected, CaptureHolds, Honest, Step, Shown, Listed, Named;
    if events == [] {
      StartIsSound(named);
    } else {
      var front, e := events[..|events| - 1], events[|events| - 1];
      assert e in events && forall x <- front :: x in events;
      DefaultStaysSelected(front, gate, named);
      StepKeepsDefault(Run(START, front), e, gate, named);
    }
  }

  lemma StartIsSound(named: bool)
    ensures DefaultIsSound(START, named)
  {}

  /** An answer that is taken leaves a selected default exactly if there was one, or its own is selected somewhere. */
  lemma AnswerKeepsDefaultIff(s: State, t: nat, d: Discovery, named: bool)
    requires DefaultIsSound(s, named) && t in s.pending
    requires s.pending[t].Validating? && s.pending[t].epoch == GroupOf(s, s.pending[t].id).epoch
    ensures DefaultIsSelected(Step(s, Reply(t, Response(false, true, Some(d))))) <==>
              s.defaultModel != "" || Listed(d) || d.defaultModel in GroupOf(s, s.pending[t].id.Other()).selected
  {
    hide Trim;
    assert CaptureHolds(s, s.pending[t], named);
  }

  lemma OneMore(events: seq<Event>, e: Event, gate: Gate)
    ensures Run(START, events + [e]) == Step(Run(START, events), e)
    ensures Offered(events + [e], gate) <==>
              && Offered(events, gate) && Shown(Run(START, events), e)
              && (Waits(gate, e) ==> Run(START, events).token.None?)
  {
    hide Shown, Step;
    assert (events + [e])[..|events|] == events;
  }

  lemma TrimOfKey()
    ensures Trim("k") == "k"
  {
    assert !IsJsSpace('k');
    StripOfStripped("k", IsJsSpace);
  }

  /** Both keys are checked, with these answers, and then the first one is being checked again. */
  lemma CheckedAgain(mine: Discovery, yours: Discovery, named: bool) returns (events: seq<Event>)
    requires Listed(mine) && Listed(yours) && (named ==> Named(mine) && Named(yours))
    requires (mine.defaultModel == "") == ("" in mine.models) && "x" !in mine.models
    requires yours.models != [] && yours.defaultModel == yours.models[0] == "x"
    ensures Offered(events, AllWait) && Answers(events, named)
    ensures var s := Run(START, events);
            && s.pro == Group("k", None, [], 3, "k") && s.ent == Group("k", Some(yours), yours.models, 2, "k")
            && s.pending == map[2 := Validating(CodexPro, "k", 3, mine.models, yours.models)] && s.token == Some(2)
            && s.defaultModel == "x"
  {
    hide Offered, Run, Named, Step, Shown;
    var first := CheckedOnce(mine);
    var edit, check := EditKey(Enterprise, "k"), Event.Validate(Enterprise);
    var answer, again := Reply(1, Response(false, true, Some(yours))), Event.Validate(CodexPro);
    SecondSteps(Run(START, first), mine, yours);
    OneMore(first, edit, AllWait);
    OneMore(first + [edit], check, AllWait);
    OneMore(first + [edit] + [check], answer, AllWait);
    OneMore(first + [edit] + [check] + [answer], again, AllWait);
    events := first + [edit] + [check] + [answer] + [again];
  }

  /** The other key is checked, and then the first one again. */
  lemma SecondSteps(s0: State, mine: Discovery, yours: Discovery)
    requires s0 == START.(pro := Group("k", Some(mine), mine.models, 2, "k"), defaultModel := mine.defaultModel,
        nextToken := 1)
    requires mine.defaultModel != "" ==> mine.defaultModel in mine.models
    requires (mine.defaultModel == "") == ("" in mine.models) && "x" !in mine.models
    requires yours.models != [] && yours.defaultModel == yours.models[0] == "x"
    ensures var s1 := Step(s0, EditKey(Enterprise, "k"));
            var s2 := Step(s1, Event.Validate(Enterprise));
            var answer := Reply(1, Response(false, true, Some(yours)));
            var s3 := Step(s2, answer);
            var s4 := Step(s3, Event.Validate(CodexPro));
            && s0.token.None? && Shown(s0, EditKey(Enterprise, "k")) && Shown(s1, Event.Validate(Enterprise))
            && Shown(s2, answer) && Shown(s3, Event.Validate(CodexPro))
            && s4.pro == Group("k", None, [], 3, "k") && s4.ent == Group("k", Some(yours), yours.models, 2, "k")
            && s4.pending == map[2 := Validating(CodexPro, "k", 3, mine.models, yours.models)] && s4.token == Some(2)
            && s4.defaultModel == "x"
  {
    hide Trim;
    TrimOfKey();
    var s1 := Step(s0, EditKey(Enterprise, "k"));
    assert s1 == s0.(ent := Group("k", None, [], 1, ""));
    var s2 := Step(s1, Event.Validate(Enterprise));
    assert s2.ent == Group("k", None, [], 2, "") && s2.pro == s0.pro && s2.defaultModel == mine.defaultModel;
    assert s2.pending == map[1 := Validating(Enterprise, "k", 2, [], mine.models)] && s2.token == Some(1);
    var s3 := Step(s2, Reply(1, Response(false, true, Some(yours))));
    assert s3.ent == Group("k", Some(yours), yours.models, 2, "k") && s3.pro == s0.pro;
    assert s3.pending == map[] && s3.token == None && s3.nextToken == 2;
  }

  lemma CheckedOnce(mine: Discovery) returns (events: seq<Event>)
    ensures Offered(events, AllWait) && |events| == 3 && events[0].EditKey? && events[1].Validate?
    ensures events[2] == Reply(0, Response(false, true, Some(mine)))
    ensures Run(START, events) ==
              START.(pro := Group("k", Some(mine), mine.models, 2, "k"), defaultModel := mine.defaultModel,
                  nextToken := 1)
  {
    hide Trim, Offered, Run;
    TrimOfKey();
    NoEvents();
    var edit, check := EditKey(CodexPro, "k"), Event.Validate(CodexPro);
    var answer := Reply(0, Response(false, true, Some(mine)));
    OneMore([], edit, AllWait);
    OneMore([] + [edit], check, AllWait);
    OneMore([] + [edit] + [check], answer, AllWait);
    events := [] + [edit] + [check] + [answer];
  }

  lemma NoEvents()
    ensures Run(START, []) == START && Offered([], AllWait)
  {}

  lemma OfferedMore(events: seq<Event>, gate: Gate)
    requires Offered(events, AllWait)
    ensures Offered(events, gate)
  {
    hide Run;
  }

  /**
   Were selections not disabled during operations, the default could be left on a model that no group has
   selected: the failed check falls back on a selection captured before it was changed.
   */
  lemma DefaultGoesStaleUngated() returns (events: seq<Event>)
    ensures Offered(events, Open) && Answers(events, true) && !DefaultIsSelected(Run(START, events))
  {
    hide Offered, Run, Step, Shown;
    var before := CheckedAgain(Discovery(["a"], "a"), Discovery(["x", "a"], "x"), true);
    OfferedMore(before, Open);
    var e0, e1 := ChooseDefault(Enterprise, "a"), Toggle(Enterprise, "x");
    var e2 := Reply(2, Response(true, false, None));
    StaleSteps(Run(START, before));
    OneMore(before, e0, Open);
    OneMore(before + [e0], e1, Open);
    OneMore(before + [e0] + [e1], e2, Open);
    events := before + [e0] + [e1] + [e2];
  }

  /** The default moves to a, x is deselected, and the failed check brings x back. */
  lemma StaleSteps(s: State)
    requires s.pro == Group("k", None, [], 3, "k")
        && s.ent == Group("k", Some(Discovery(["x", "a"], "x")), ["x", "a"], 2, "k")
    requires s.pending == map[2 := Validating(CodexPro, "k", 3, ["a"], ["x", "a"])] && s.defaultModel == "x"
    ensures var e0, e1, e2 := ChooseDefault(Enterprise, "a"), Toggle(Enterprise, "x"),
        Reply(2, Response(true, false, None));
            var s1 := Step(s, e0);
            var s2 := Step(s1, e1);
            && Shown(s, e0) && Shown(s1, e1) && Shown(s2, e2) && !DefaultIsSelected(Step(s2, e2))
  {
    hide Step;
    ReselectSteps(s);
    StaleReply(Step(Step(s, ChooseDefault(Enterprise, "a")), Toggle(Enterprise, "x")));
  }

  lemma ReselectSteps(s: State)
    requires s.ent == Group("k", Some(Discovery(["x", "a"], "x")), ["x", "a"], 2, "k")
    ensures var s1 := Step(s, ChooseDefault(Enterprise, "a"));
            var s2 := Step(s1, Toggle(Enterprise, "x"));
            && s1 == s.(defaultModel := "a") && s2 == s1.(ent := s.ent.(selected := ["a"]))
  {
    assert Without(["x", "a"], "x") == ["a"] by {
      assert ["x", "a"][1..] == ["a"] && ["a"][1..] == [];
    }
    hide Without, ValidateStep, ValidateImageStep, Resumed, GetApplyBlockReason, EnableCheck, InputOf;
  }

  lemma StaleReply(s: State)
    requires s.pro == Group("k", None, [], 3, "k") && s.ent.selected == ["a"] && s.defaultModel == "a"
    requires s.pending == map[2 := Validating(CodexPro, "k", 3, ["a"], ["x", "a"])]
    ensures !DefaultIsSelected(Step(s, Reply(2, Response(true, false, None))))
  {
    hide ValidateStep, ValidateImageStep, ToggleStep, GetApplyBlockReason, EnableCheck, InputOf;
  }

  /** With keys that can be edited during operations and a model without name, the default can go stale too. */
  lemma DefaultGoesStaleNameless() returns (events: seq<Event>)
    ensures Offered(events, SelectionsWait) && Answers(events, false) && !DefaultIsSelected(Run(START, events))
  {
    hide Offered, Run;
    var before := CheckedAgain(Discovery([""], ""), Discovery(["x"], "x"), false);
    OfferedMore(before, SelectionsWait);
    var e0, e1 := EditKey(Enterprise, "k"), Reply(2, Response(true, false, None));
    OneMore(before, e0, SelectionsWait);
    OneMore(before + [e0], e1, SelectionsWait);
    events := before + [e0] + [e1];
  }

  // ---------------------------------------------------------------------------------------------
  // Late answers

  /** Whatever operation has this token by now, it is not a check of the group for its present key. */
  ghost predicate IsLate(s: State, t: nat, id: GroupId, epoch: nat) {
    && t < s.nextToken
    && (t in s.pending ==> s.pending[t].Validating? && s.pending[t].id == id && s.pending[t].epoch == epoch)
    && epoch < GroupOf(s, id).epoch
  }

  lemma StepStaysLate(s: State, e: Event, t: nat, id: GroupId, epoch: nat)
    requires IsLate(s, t, id, epoch)
    ensures IsLate(Step(s, e), t, id, epoch)
  {
    hide Trim, GetApplyBlockReason, EnableCheck, InputOf, ToggleStep, ValidateStep, Resumed;
    match e {
      case Validate(other) => ValidateStaysLate(s, other, t, id, epoch);
      case Toggle(other, model) => ToggleKeepsCounters(s, other, model);
      case Reply(u, r) =>
        if u in s.pending {
          ResumedKeepsCounters(s, s.pending[u], r);
        }
      case _ =>
    }
  }

  ghost predicate SameCounters(s: State, q: State) {
    && q.pro.epoch == s.pro.epoch && q.ent.epoch == s.ent.epoch
    && q.pending == s.pending && q.token == s.token && q.nextToken == s.nextToken
  }

  lemma ToggleKeepsCounters(s: State, id: GroupId, model: string)
    ensures SameCounters(s, ToggleStep(s, id, model))
  {
    hide Without;
  }

  lemma ResumedKeepsCounters(s: State, op: Operation, r: Response)
    ensures SameCounters(s, Resumed(s, op, r))
  {}

  lemma ValidateStaysLate(s: State, other: GroupId, t: nat, id: GroupId, epoch: nat)
    requires IsLate(s, t, id, epoch)
    ensures IsLate(ValidateStep(s, other), t, id, epoch)
  {
    hide Trim;
  }

  /**
   Once the key was edited, the answer of a check started before changes nothing but the end of the operation,
   whatever the answer is and whatever happens in between.
   */
  lemma {:induction false} LateAnswerIsDropped(s: State, t: nat, value: string, events: seq<Event>, r: Response)
    requires Honest(s) && t in s.pending && s.pending[t].Validating?
    ensures var late := Run(Step(s, EditKey(s.pending[t].id, value)), events);
            Step(late, Reply(t, r)) == if t in late.pending then Ended(late, t) else late
    ensures IsLate(Run(Step(s, EditKey(s.pending[t].id, value)), events), t, s.pending[t].id, s.pending[t].epoch)
  {
    hide Trim;
    if events == [] {
      assert OperationIsHonest(s, s.pending[t]);
    } else {
      hide Step;
      LateAnswerIsDropped(s, t, value, events[..|events| - 1], r);
      StepStaysLate(Run(Step(s, EditKey(s.pending[t].id, value)), events[..|events| - 1]), events[|events| - 1],
                    t, s.pending[t].id, s.pending[t].epoch);
      LateStep(Run(Step(s, EditKey(s.pending[t].id, value)), events), t, r, s.pending[t].id, s.pending[t].epoch);
    }
  }

  lemma LateStep(s: State, t: nat, r: Response, id: GroupId, epoch: nat)
    requires IsLate(s, t, id, epoch)
    ensures Step(s, Reply(t, r)) == if t in s.pending then Ended(s, t) else s
  {}

  // ---------------------------------------------------------------------------------------------
  // What is applied

  /** The access is applied exactly when the guard is silent. */
  lemma AppliesIff(s: State, env: Environment)
    ensures Step(s, Enable(env)) == (if GetApplyBlockReason(InputOf(s, env)).None? then Begun(s, Applying) else s)
  {
    hide Trim, GetApplyBlockReason, EnableCheck;
    GuardAgreesWithHandler(InputOf(s, env));
  }

  /** The group stands for what one of the two boxes holds, as verified. */
  ghost predicate IsVerifiedGroup(s: State, g: KeyGroup, id: GroupId) {
    && GroupOf(s, id).discovery.Some?
    && g.apiKey == GroupOf(s, id).checkedKey != "" && g.selected == GroupOf(s, id).selected != []
    && forall m <- g.selected :: m in GroupOf(s, id).discovery.value.models
  }

  /**
   In any run, what an application sends is verified: every group sent carries the very key that was checked and
   only models found with it, no model is in two places, the default is one of them, and so is the image key if
   images are wanted.
   */
  lemma AppliedIsVerified(events: seq<Event>, env: Environment)
    requires Offered(events, Open)
    ensures var s := Run(START, events);
            Step(s, Enable(env)) != s ==>
              var sent := SentGroups(InputOf(s, env));
              && sent != []
                  && (forall g <- sent :: IsVerifiedGroup(s, g, CodexPro) || IsVerifiedGroup(s, g, Enterprise))
              && !TwiceInside(sent) && !TwiceAcross(sent)
              && (exists g <- sent :: s.defaultModel in g.selected) && s.defaultModel != ""
              && (env.imagegenEnabled && Trim(s.image.key) != "" ==> s.image.checkedKey == Trim(s.image.key))
  {
    hide Trim, Run, Offered, Step;
    var s := Run(START, events);
    RunsStayHonest(events);
    AppliesIff(s, env);
    if GetApplyBlockReason(InputOf(s, env)).None? {
      GuardedIsVerified(s, env);
    }
  }

  lemma GuardedIsVerified(s: State, env: Environment)
    requires Honest(s) && GetApplyBlockReason(InputOf(s, env)).None?
    ensures var sent := SentGroups(InputOf(s, env));
            && sent != [] && (forall g <- sent :: IsVerifiedGroup(s, g, CodexPro) || IsVerifiedGroup(s, g, Enterprise))
            && !TwiceInside(sent) && !TwiceAcross(sent)
            && (exists g <- sent :: s.defaultModel in g.selected) && s.defaultModel != ""
            && (env.imagegenEnabled && Trim(s.image.key) != "" ==> s.image.checkedKey == Trim(s.image.key))
  {
    hide Trim, GetApplyBlockReason, AllSelected, RepeatsAny;
    var input := InputOf(s, env);
    GuardAgreesWithHandler(input);
    GuardIsSilentIff(input);
    RepeatsIff(AllSelected(SentGroups(input)));
    assert SentGroups(input) != [] && s.defaultModel in AllSelected(SentGroups(input));
    SelectedAre(SentGroups(input));
    SentAreInUse(input);
    forall g | g in SentGroups(input)
      ensures IsVerifiedGroup(s, g, CodexPro) || IsVerifiedGroup(s, g, Enterprise)
    {
      SentIsTrimmed(s, env, g);
    }
  }

  lemma SentIsTrimmed(s: State, env: Environment, g: KeyGroup)
    requires Honest(s) && EnableCheck(InputOf(s, env)).None? && g in SentGroups(InputOf(s, env))
    ensures IsVerifiedGroup(s, g, CodexPro) || IsVerifiedGroup(s, g, Enterprise)
  {
    hide Trim, AllSelected, RepeatsAny;
    var groups := InputOf(s, env).groups;
    assert groups[1..][1..] == [];
    assert g == WithTrimmedKey(groups[0]) || g == WithTrimmedKey(groups[1]) by {
      hide WithTrimmedKey;
      TrimmedAt(groups);
      PresentMembers(WithTrimmedKeys(groups));
    }
  }

  lemma {:induction false} PresentMembers(groups: seq<KeyGroup>)
    ensures forall g <- Present(groups) :: g in groups
  {
    if groups != [] {
      PresentMembers(groups[1..]);
    }
  }
}
