/**
 The rewriter of outgoing requests: it sets the service tier and the model provider of thread and turn
 requests, whichever of the app's message envelopes carries them.

 Each rewriting function returns `None` where the source returns the very object it was given.
 */
module RequestRewrite {
  import opened Text
  import opened Wrappers
  import opened SessionKeys
  import opened TierModes
  import opened RequestValues

  // ---------------------------------------------------------------------------------------------
  // The state a rewrite depends on

  datatype Profile = Profile(relayMode: string, officialMixApiKey: bool, configProvider: string)

  datatype Env = Env(
    tierControls: bool,
    controlMode: ControlMode,
    defaultMode: ThreadMode,
    overrides: map<string, ThreadMode>,
    draft: ThreadMode,
    configuredTier: Value,
    fastTierValue: string,
    currentSession: string,
    catalogModel: string,
    profile: Option<Profile>,
    sessionProvider: string,
    fallbackProvider: string)

  const FALLBACK_FAST := "priority"
  const SUPPORTED_FAST_MODELS := {"gpt-5.4", "gpt-5.5", "gpt-5.6-sol", "gpt-5.6-terra", "gpt-5.6-luna"}
  const TIER_METHODS := {"thread/start", "thread/resume", "turn/start"}
  const NEW_THREAD_METHODS :=
    {"thread/start", "start-conversation", "start-thread-for-host", "thread-prewarm-start",
        "prewarm-thread-start-for-host"}

  predicate IsFast(v: Value) { Lower(Trim(AsText(v))) in {"fast", "priority"} }

  function FastValue(env: Env): string { if env.fastTierValue != "" then env.fastTierValue else FALLBACK_FAST }

  predicate Supported(model: string) { Lower(Trim(model)) in SUPPORTED_FAST_MODELS }

  function ModelFor(env: Env, params: Value): string {
    var model := ModelFromValue(params, 0);
    if model != "" then model else env.catalogModel
  }

  // ---------------------------------------------------------------------------------------------
  // Service tier

  datatype Override = Override(tier: Value, blocked: bool)

  /** The tier to send when `requested` is wanted: fast only for models that offer it. */
  function OverrideResult(env: Env, params: Value, requested: Value): Override {
    var fast := IsFast(requested);
    var supported := !fast || Supported(ModelFor(env, params));
    Override(if fast && supported then Str(FastValue(env)) else Null, fast && !supported)
  }

  function KeyOf(v: Value): string { if v.Str? then ValidKey(v.text) else "" }

  function ThreadIdFor(env: Env, rpc: string, params: Value, hint: Value): string {
    if rpc == "thread/start" then KeyOf(Or(Get(params, "threadId"), hint))
    else KeyOf(Or(Get(params, "threadId"), Or(Get(params, "conversationId"), Or(hint, Str(env.currentSession)))))
  }

  /** The mode that applies to the request's thread in custom control: its own, the draft's, or the default. */
  function ModeFor(env: Env, rpc: string, params: Value, hint: Value): ThreadMode {
    var thread := ThreadIdFor(env, rpc, params, hint);
    var own := if thread == "" then env.draft else if thread in env.overrides then env.overrides[thread] else Inherit;
    if own != Inherit then own else env.defaultMode
  }

  function InheritedOverride(env: Env, params: Value): Option<Override> {
    var requested := Coalesce(Get(params, "serviceTier"), Coalesce(Get(params, "service_tier"), env.configuredTier));
    var result := OverrideResult(env, params, requested);
    if result.blocked then Some(result) else None
  }

  function OverrideFor(env: Env, rpc: string, params: Value, hint: Value): Option<Override> {
    if !env.tierControls || rpc !in TIER_METHODS || !params.Object? then None
    else match env.controlMode
      case Inherited => InheritedOverride(env, params)
      case GlobalStandard => Some(OverrideResult(env, params, Null))
      case GlobalFast => Some(OverrideResult(env, params, Str(FastValue(env))))
      case Custom =>
        match ModeFor(env, rpc, params, hint)
        case Inherit => InheritedOverride(env, params)
        case Standard => Some(OverrideResult(env, params, Null))
        case Fast => Some(OverrideResult(env, params, Str(FastValue(env))))
  }

  // ---------------------------------------------------------------------------------------------
  // Model provider

  predicate PatchEnabled(env: Env) {
    env.profile.Some? &&
    var p := env.profile.value;
    p.relayMode in {"pureApi", "mixedApi", "aggregate"} || (p.relayMode == "official" && p.officialMixApiKey)
  }

  function TargetProvider(env: Env): string {
    var config := if env.profile.Some? then Trim(env.profile.value.configProvider) else "";
    if config != "" then config
    else if env.profile.Some? && env.profile.value.relayMode == "pureApi" then "custom"
    else Trim(env.fallbackProvider)
  }

  predicate ProviderEnabled(env: Env) {
    PatchEnabled(env) &&
    var session := Lower(Trim(env.sessionProvider));
    if session != "" then session != "openai" else TargetProvider(env) !in {"", "openai"}
  }

  function RequestedProvider(params: Value): string {
    Trim(AsText(Or(Get(params, "modelProvider"), Get(params, "model_provider"))))
  }

  /** Whether this kind of request is in the provider rewriter's reach at all. */
  predicate ProviderApplies(env: Env, rpc: string, params: Value) {
    && (rpc in NEW_THREAD_METHODS || rpc in {"thread/resume", "turn/start"})
    && ProviderEnabled(env)
    && params.Object?
    && (rpc in {"thread/resume", "turn/start"} ==> env.profile.value.relayMode == "pureApi")
    && (rpc == "turn/start" ==> Has(params, "modelProvider") || Has(params, "model_provider"))
    && TargetProvider(env) !in {"", "openai"}
  }

  function ApplyProvider(env: Env, rpc: string, params: Value): (r: Option<Value>)
    ensures r.Some? ==> params.Object? && r.value.Object?
  {
    if !ProviderApplies(env, rpc, params) then None
    else
      var target := TargetProvider(env);
      var requested := RequestedProvider(params);
      var legacy := requested == "openai" || requested == "custom";
      if rpc !in NEW_THREAD_METHODS && requested != "" && !legacy && requested != target then None
      else if requested == target && !Has(params, "model_provider") then None
      else Some(Delete(Set(params, "modelProvider", Str(target)), "model_provider"))
  }

  /** Provider first, then the tier; the tier is decided on the original parameters. */
  function Apply(env: Env, rpc: string, params: Value, hint: Value): (r: Option<Value>)
    ensures r.Some? ==> params.Object? && r.value.Object?
  {
    var provided := ApplyProvider(env, rpc, params);
    match OverrideFor(env, rpc, params, hint)
    case None => provided
    case Some(o) => Some(WithTier(provided.GetOr(params), o))
  }

  function WithTier(params: Value, o: Override): (r: Value)
    requires params.Object?
    ensures r.Object?
  {
    var next := Set(params, "serviceTier", o.tier);
    if Has(next, "service_tier") || o.blocked then Set(next, "service_tier", o.tier) else next
  }

  // ---------------------------------------------------------------------------------------------
  // Envelopes

  datatype Slot = Whole | InParams | InRequest

  /** A request found in a message: where its parameters sit, the method it stands for and a thread hint. */
  datatype Carrier = Carrier(slot: Slot, rpc: string, params: Value, hint: Value)

  function CarrierOf(m: Value): (r: Option<Carrier>)
    ensures r.Some? ==> m.Object? && (r.value.slot == InRequest ==> Get(m, "request").Object?)
    ensures r.Some? ==> Get(m, "type") != Str("fetch")
  {
    var kind := Get(m, "type");
    var request := Get(m, "request");
    var params := Get(m, "params");
    if kind == Str("send-cli-request-for-host") then
      Some(Carrier(InParams, AsText(Get(m, "method")), params, Str("")))
    else if (kind == Str("mcp-request") || kind == Str("worker-request")) && request.Object? then
      Some(Carrier(InRequest, AsText(Get(request, "method")), Get(request, "params"), Str("")))
    else if kind == Str("thread-prewarm-start") && request.Object? then
      Some(Carrier(InRequest, "thread/start", Get(request, "params"), Str("")))
    else if kind == Str("start-conversation") || kind == Str("start-thread-for-host") then
      Some(Carrier(Whole, "thread/start", m, Str("")))
    else if kind == Str("prewarm-thread-start-for-host") && params.Object? then
      Some(Carrier(InParams, "thread/start", params, Str("")))
    else if kind == Str("start-turn-for-host") && params.Object? then
      Some(Carrier(InParams, "turn/start", params, Get(m, "conversationId")))
    else None
  }

  /** The message with other parameters in that place. */
  function Fill(m: Value, slot: Slot, params: Value): (r: Value)
    requires m.Object? && params.Object? && (slot == InRequest ==> Get(m, "request").Object?)
    ensures r.Object?
  {
    match slot
    case Whole => params
    case InParams => Set(m, "params", params)
    case InRequest => Set(m, "request", Set(Get(m, "request"), "params", params))
  }

  function RewriteBare(env: Env, m: Value): (r: Option<Value>)
    ensures r.Some? ==> m.Object? && r.value.Object?
  {
    match CarrierOf(m)
    case None => None
    case Some(c) =>
      match Apply(env, c.rpc, c.params, c.hint)
      case None => None
      case Some(p) => Some(Fill(m, c.slot, p))
  }

  /** `JSON.parse` and `JSON.stringify`. */
  datatype Codec = Codec(parse: string -> Option<Value>, render: Value -> string)

  const URL_PREFIX := "vscode://codex/"

  function UpToQuery(s: string): string {
    if s == "" || s[0] == '?' || s[0] == '#' then "" else [s[0]] + UpToQuery(s[1..])
  }

  predicate IsFetch(m: Value) { Get(m, "type") == Str("fetch") && Get(m, "url").Str? }

  /** The object in a fetch message's body, when there is one to rewrite. */
  function Body(codec: Codec, m: Value): (r: Option<Value>)
    requires IsFetch(m)
    ensures r.Some? ==> r.value.Object?
  {
    if !(URL_PREFIX <= Get(m, "url").text) then None
    else match Get(m, "body")
      case Str(s) =>
        (match codec.parse(s)
         case Some(v) => if v.Object? then Some(v) else None
         case None => None)
      case Object(fields) => Some(Object(fields))
      case _ => None
  }

  /** The message a fetch body stands for: the body under the type its address names. */
  function Unwrapped(m: Value, body: Value): (r: Value)
    requires IsFetch(m) && URL_PREFIX <= Get(m, "url").text && body.Object?
    ensures r.Object?
  {
    Set(body, "type", Str(UpToQuery(Get(m, "url").text[|URL_PREFIX|..])))
  }

  /** Puts back the type the body had of its own, if it had one. */
  function RestoreType(body: Value, patched: Value): (r: Value)
    requires body.Object? && patched.Object?
    ensures r.Object?
  {
    if Has(body, "type") then Set(Delete(patched, "type"), "type", Get(body, "type")) else Delete(patched, "type")
  }

  function RewriteFetch(env: Env, codec: Codec, m: Value): (r: Option<Value>)
    requires IsFetch(m)
    ensures r.Some? ==> r.value.Object?
  {
    match Body(codec, m)
    case None => None
    case Some(body) =>
      match RewriteBare(env, Unwrapped(m, body))
      case None => None
      case Some(patched) =>
        var next := RestoreType(body, patched);
        Some(Set(m, "body", if Get(m, "body").Str? then Str(codec.render(next)) else next))
  }

  function Rewrite(env: Env, codec: Codec, m: Value): Option<Value> {
    if !env.tierControls && !ProviderEnabled(env) then None
    else if !m.Object? then None
    else if IsFetch(m) then RewriteFetch(env, codec, m)
    else RewriteBare(env, m)
  }

  /** What is sent on: the rewritten message, or the message itself. */
  function Sent(env: Env, codec: Codec, m: Value): Value { Rewrite(env, codec, m).GetOr(m) }

  // ---------------------------------------------------------------------------------------------
  // The model a request names

  /** The request names a model that offers the fast tier; one that names none goes to the catalog's model. */
  ghost predicate Offers(env: Env, params: Value) {
    if Nameless(params, 4) then Supported(env.catalogModel)
    else exists path: Path :: FirstName(params, 4, path) && Supported(NameAt(params, path))
  }

  /** The model looked at is the first one named at most four levels down, or the catalog's if there is none. */
  lemma ModelIsFirstName(env: Env, params: Value) returns (path: Path)
    ensures if Nameless(params, 4) then ModelFor(env, params) == env.catalogModel
            else FirstName(params, 4, path) && ModelFor(env, params) == NameAt(params, path)
    ensures Offers(env, params) <==> Supported(ModelFor(env, params))
  {
    hide ModelFromValue, Supported, NameAt, Earlier;
    path := SearchFinds(params, 0);
    if !Nameless(params, 4) {
      if other: Path :| FirstName(params, 4, other) && Supported(NameAt(params, other)) {
        FirstNameIsUnique(params, 4, path, other);
      }
    }
  }

  /** A word without capitals offers fast, or asks for it, exactly if it is on the list; blanks around are nothing. */
  lemma WordsAreRead(word: string)
    requires word != "" && !IsJsSpace(word[0]) && !IsJsSpace(word[|word| - 1])
    requires forall i :: 0 <= i < |word| ==> !('A' <= word[i] <= 'Z')
    ensures forall text :: Trim(text) == word ==>
              && (Supported(text) <==> word in ["gpt-5.4", "gpt-5.5", "gpt-5.6-sol", "gpt-5.6-terra", "gpt-5.6-luna"])
              && (IsFast(Str(text)) <==> word in ["fast", "priority"])
  {
    hide Trim, Lower;
    NormalWord(word);
    forall text | Trim(text) == word
      ensures Lower(Trim(text)) == word && (text == "" ==> Trim(text) == "")
    {
      TrimIdempotent(text);
      TrimNothing();
    }
    TrimNothing();
  }

  lemma TrimNothing()
    ensures Trim("") == ""
  {}

  /** The request's own model field decides, whatever else it holds and whatever the catalog says. */
  lemma OwnModelDecides(env: Env, params: Value)
    requires Get(params, "model").Str? && Trim(Get(params, "model").text) != ""
    ensures ModelFor(env, params) == Trim(Get(params, "model").text)
    ensures Offers(env, params) <==> Supported(Get(params, "model").text)
  {
    hide Trim;
    var path := ModelIsFirstName(env, params);
    assert MODEL_KEYS[0] == "model" && ModelFromValue(Get(params, "model"), 1) == Trim(Get(params, "model").text);
    TrimIdempotent(Get(params, "model").text);
  }

  // ---------------------------------------------------------------------------------------------
  // What rewriting parameters leaves alone

  const REWRITTEN := {"serviceTier", "service_tier", "modelProvider", "model_provider"}

  /** Everything but the four rewritten fields is the same. */
  ghost predicate SameElse(a: Value, b: Value) {
    a.Object? && b.Object? && a.fields - REWRITTEN == b.fields - REWRITTEN
  }

  lemma SameElseGet(a: Value, b: Value, key: string)
    requires SameElse(a, b) && key !in REWRITTEN
    ensures Get(a, key) == Get(b, key) && (Has(a, key) <==> Has(b, key))
  {
    assert key in a.fields <==> key in a.fields - REWRITTEN;
    assert key in b.fields <==> key in b.fields - REWRITTEN;
  }

  lemma {:induction false} SameElseFirstModel(a: Value, b: Value, keys: seq<string>, depth: nat)
    requires SameElse(a, b) && depth <= 3 && forall k <- keys :: k !in REWRITTEN
    ensures FirstModel(a, keys, depth) == FirstModel(b, keys, depth)
    decreases |keys|
  {
    if keys != [] {
      SameElseGet(a, b, keys[0]);
      SameElseFirstModel(a, b, keys[1..], depth);
    }
  }

  lemma ModelKeysAreKept()
    ensures forall k <- MODEL_KEYS :: k !in REWRITTEN
  {}

  lemma SameElseModel(env: Env, a: Value, b: Value)
    requires SameElse(a, b)
    ensures ModelFor(env, a) == ModelFor(env, b)
  {
    hide FirstModel, Get, SameElse;
    ModelKeysAreKept();
    SameElseObjects(a, b);
    SameElseFirstModel(a, b, MODEL_KEYS, 0);
  }

  lemma SameElseMode(env: Env, rpc: string, a: Value, b: Value, hint: Value)
    requires SameElse(a, b)
    ensures ModeFor(env, rpc, a, hint) == ModeFor(env, rpc, b, hint)
  {
    SameElseGet(a, b, "threadId");
    SameElseGet(a, b, "conversationId");
  }

  lemma ProviderShape(env: Env, rpc: string, params: Value)
    ensures var r := ApplyProvider(env, rpc, params);
            r.Some? ==> r.value == Delete(Set(params, "modelProvider", Str(TargetProvider(env))), "model_provider")
  {
    hide ProviderApplies, TargetProvider, RequestedProvider;
  }

  lemma SetKeepsElse(a: Value, b: Value, key: string, x: Value)
    requires SameElse(a, b) && key in REWRITTEN
    ensures SameElse(a, Set(b, key, x)) && SameElse(a, Delete(b, key))
  {
    assert Set(b, key, x).fields - REWRITTEN == b.fields - REWRITTEN;
    assert Delete(b, key).fields - REWRITTEN == b.fields - REWRITTEN;
  }

  lemma ProviderTouchesProviderFields(env: Env, rpc: string, params: Value)
    requires params.Object?
    ensures SameElse(params, ApplyProvider(env, rpc, params).GetOr(params))
  {
    hide ApplyProvider, SameElse;
    ProviderShape(env, rpc, params);
    SameElseSelf(params);
    SetKeepsElse(params, params, "modelProvider", Str(TargetProvider(env)));
    SetKeepsElse(params, Set(params, "modelProvider", Str(TargetProvider(env))), "model_provider", Null);
  }

  lemma SameElseSelf(a: Value)
    requires a.Object?
    ensures SameElse(a, a)
  {}

  /** Rewriting touches the tier and the provider and nothing else. */
  lemma ApplyTouchesFourFields(env: Env, rpc: string, params: Value, hint: Value)
    requires params.Object?
    ensures SameElse(params, Apply(env, rpc, params, hint).GetOr(params))
  {
    hide ApplyProvider, OverrideFor, SameElse, Set, Delete;
    ProviderTouchesProviderFields(env, rpc, params);
    var override := OverrideFor(env, rpc, params, hint);
    if override.Some? {
      var provided := ApplyProvider(env, rpc, params).GetOr(params);
      var tier := override.value.tier;
      SetKeepsElse(params, provided, "serviceTier", tier);
      SetKeepsElse(params, Set(provided, "serviceTier", tier), "service_tier", tier);
    }
  }

  // ---------------------------------------------------------------------------------------------
  // The tier of what is sent

  /** The tier the server acts on: `serviceTier ?? service_tier`. */
  function EffectiveTier(params: Value): Value { Coalesce(Get(params, "serviceTier"), Get(params, "service_tier")) }

  /** Once an override applies, the effective tier is the one it decided on. */
  lemma OverrideDecides(env: Env, rpc: string, params: Value, hint: Value)
    requires params.Object? && OverrideFor(env, rpc, params, hint).Some?
    ensures var tier := OverrideFor(env, rpc, params, hint).value.tier;
            var sent := Apply(env, rpc, params, hint);
            && sent.Some?
            && (EffectiveTier(sent.value) == tier || (tier == Null && EffectiveTier(sent.value) == Undefined))
  {
    hide ApplyProvider, OverrideFor;
  }

  lemma ProviderKeepsTier(env: Env, rpc: string, params: Value)
    requires params.Object?
    ensures var provided := ApplyProvider(env, rpc, params).GetOr(params);
            && Get(provided, "serviceTier") == Get(params, "serviceTier")
            && Get(provided, "service_tier") == Get(params, "service_tier")
  {
    hide ApplyProvider, TargetProvider;
    ProviderShape(env, rpc, params);
  }

  /** What an override decides: fast only if the model offers it. */
  lemma OverrideIsSafe(env: Env, rpc: string, params: Value, hint: Value)
    ensures var o := OverrideFor(env, rpc, params, hint);
            o.Some? && o.value.tier != Null ==> Supported(ModelFor(env, params))
    ensures (env.tierControls && rpc in TIER_METHODS && params.Object? && OverrideFor(env, rpc, params, hint).None?
             && IsFast(EffectiveTier(params))) ==> Supported(ModelFor(env, params))
  {
    hide Supported, IsFast, ModelFor, ModeFor;
    NothingIsNotFast();
  }

  lemma NothingIsNotFast()
    ensures !IsFast(Null) && !IsFast(Undefined)
  {
    assert Trim("") == "";
  }

  /** No request that asks for the fast tier goes out for a model that does not offer it. */
  lemma FastOnlyForSupportedModels(env: Env, rpc: string, params: Value, hint: Value)
    requires env.tierControls && rpc in TIER_METHODS && params.Object?
    ensures var sent := Apply(env, rpc, params, hint).GetOr(params);
            IsFast(EffectiveTier(sent)) ==> Offers(env, sent)
  {
    hide Supported, IsFast, ModelFor, OverrideFor, ApplyProvider, Offers;
    NothingIsNotFast();
    ApplyTouchesFourFields(env, rpc, params, hint);
    var sent := Apply(env, rpc, params, hint).GetOr(params);
    SameElseModel(env, params, sent);
    OverrideIsSafe(env, rpc, params, hint);
    var path := ModelIsFirstName(env, sent);
    if OverrideFor(env, rpc, params, hint).Some? {
      OverrideDecides(env, rpc, params, hint);
    } else {
      ProviderKeepsTier(env, rpc, params);
    }
  }

  /** Whether the fast tier is asked for: by the mode in force, or where none is set by the request itself. */
  predicate FastIsWanted(env: Env, rpc: string, params: Value, hint: Value) {
    match env.controlMode
    case Inherited => IsFast(EffectiveTier(params))
    case GlobalStandard => false
    case GlobalFast => IsFast(Str(FastValue(env)))
    case Custom =>
      match ModeFor(env, rpc, params, hint)
      case Inherit => IsFast(EffectiveTier(params))
      case Standard => false
      case Fast => IsFast(Str(FastValue(env)))
  }

  /** What is decided, and what stands where nothing is decided, is fast exactly if wanted and offered. */
  lemma DecidedFastIff(env: Env, rpc: string, params: Value, hint: Value)
    requires params.Object? && env.tierControls && rpc in TIER_METHODS
    ensures var o := OverrideFor(env, rpc, params, hint);
            IsFast(if o.Some? then o.value.tier else EffectiveTier(params))
            <==> FastIsWanted(env, rpc, params, hint) && Supported(ModelFor(env, params))
  {
    hide Supported, IsFast, ModelFor, ModeFor, FastValue, Get;
    NothingIsNotFast();
  }

  /**
   With tier controls on, a thread or turn request goes out with the fast tier exactly if that is wanted
   and its model offers it; any other request keeps the tier it had.
   */
  lemma FastIsSentIff(env: Env, rpc: string, params: Value, hint: Value)
    requires params.Object?
    ensures var sent := EffectiveTier(Apply(env, rpc, params, hint).GetOr(params));
            if env.tierControls && rpc in TIER_METHODS then
              IsFast(sent) <==> FastIsWanted(env, rpc, params, hint) && Offers(env, params)
            else sent == EffectiveTier(params)
  {
    hide Supported, IsFast, ModelFor, ApplyProvider, FastIsWanted, Get, Offers;
    var path := ModelIsFirstName(env, params);
    ProviderKeepsTier(env, rpc, params);
    if env.tierControls && rpc in TIER_METHODS {
      hide OverrideFor;
      NothingIsNotFast();
      DecidedFastIff(env, rpc, params, hint);
      if OverrideFor(env, rpc, params, hint).Some? {
        OverrideDecides(env, rpc, params, hint);
      }
    }
  }

  /** Whether a mode, global or of the thread, decides on the tier, and which. */
  function DecidingMode(env: Env, rpc: string, params: Value, hint: Value): ThreadMode {
    match env.controlMode
    case Inherited => Inherit
    case GlobalStandard => Standard
    case GlobalFast => Fast
    case Custom => ModeFor(env, rpc, params, hint)
  }

  /** What the request asks for where no mode decides: its own tier in either spelling, or the configured one. */
  function AskedTier(env: Env, params: Value): Value {
    var own := EffectiveTier(params);
    if own.Undefined? || own.Null? then env.configuredTier else own
  }

  /**
   The very fields that are sent. Under Fast the tier is the account's fast value if the model offers it, and null
   otherwise; under Standard it is null; where no mode decides both fields stay, unless fast is asked for and
   not offered, which leaves both null. The second spelling is never left behind with another value.
   */
  lemma SentTierIs(env: Env, rpc: string, params: Value, hint: Value)
    requires params.Object? && env.tierControls && rpc in TIER_METHODS
    ensures var sent := Apply(env, rpc, params, hint).GetOr(params);
            var fast := Str(if env.fastTierValue != "" then env.fastTierValue else "priority");
            match DecidingMode(env, rpc, params, hint)
            case Standard => Get(sent, "serviceTier") == Null && Get(sent, "service_tier") in {Undefined, Null}
            case Fast =>
              && Get(sent, "serviceTier") == (if IsFast(fast) && Offers(env, params) then fast else Null)
              && Get(sent, "service_tier") in {Undefined, Get(sent, "serviceTier")}
              && (IsFast(fast) && !Offers(env, params) ==> Get(sent, "service_tier") == Null)
            case Inherit =>
              if IsFast(AskedTier(env, params)) && !Offers(env, params) then
                Get(sent, "serviceTier") == Null == Get(sent, "service_tier")
              else
                && Get(sent, "serviceTier") == Get(params, "serviceTier")
                && Get(sent, "service_tier") == Get(params, "service_tier")
  {
    hide Supported, IsFast, ModelFor, ModeFor, ApplyProvider, Offers, OverrideFor, WithTier, Get, AskedTier;
    DecisionIs(env, rpc, params, hint);
    ProviderKeepsTier(env, rpc, params);
    var o := OverrideFor(env, rpc, params, hint);
    if o.Some? {
      WithTierFields(ApplyProvider(env, rpc, params).GetOr(params), o.value);
    }
  }

  lemma WithTierFields(params: Value, o: Override)
    requires params.Object?
    ensures Get(WithTier(params, o), "serviceTier") == o.tier
    ensures Get(WithTier(params, o), "service_tier") ==
              if Has(params, "service_tier") || o.blocked then o.tier else Undefined
  {}

  lemma DecisionIs(env: Env, rpc: string, params: Value, hint: Value)
    requires params.Object? && env.tierControls && rpc in TIER_METHODS
    ensures var fast := Str(if env.fastTierValue != "" then env.fastTierValue else "priority");
            OverrideFor(env, rpc, params, hint) ==
              match DecidingMode(env, rpc, params, hint)
              case Standard => Some(Override(Null, false))
              case Fast => Some(Override(if IsFast(fast) && Offers(env, params) then fast else Null,
                                         IsFast(fast) && !Offers(env, params)))
              case Inherit =>
                if IsFast(AskedTier(env, params)) && !Offers(env, params) then Some(Override(Null, true)) else None
  {
    hide Supported, IsFast, ModelFor, ModeFor, Offers, Get;
    NothingIsNotFast();
    var path := ModelIsFirstName(env, params);
  }

  /** The mode of a thread: its own if it has one, else the default. */
  predicate ModeOfThread(env: Env, key: string, mode: ThreadMode) {
    mode == if key in env.overrides && env.overrides[key] != Inherit then env.overrides[key] else env.defaultMode
  }

  /**
   Which mode counts in custom control. The thread is the one the parameters name, by `threadId` or except for
   a new thread by `conversationId`, else the one the envelope names, else except for a new thread the one on the
   screen; if there is none the draft counts.
   */
  lemma ThreadModeIs(env: Env, rpc: string, params: Value, hint: Value, key: string)
    requires IsValidKey(key)
    ensures var thread, conversation := Get(params, "threadId"), Get(params, "conversationId");
            var mode, starts := ModeFor(env, rpc, params, hint), rpc == "thread/start";
            && (thread == Str(key) ==> ModeOfThread(env, key, mode))
            && (!Truthy(thread) && !starts && conversation == Str(key) ==> ModeOfThread(env, key, mode))
            && (!Truthy(thread) && (starts || !Truthy(conversation)) && hint == Str(key) ==>
                  ModeOfThread(env, key, mode))
            && (!Truthy(thread) && !Truthy(conversation) && !Truthy(hint) && !starts && env.currentSession == key ==>
                  ModeOfThread(env, key, mode))
            && (!Truthy(thread) && !Truthy(hint) && (starts || (!Truthy(conversation) && env.currentSession == "")) ==>
                  mode == if env.draft != Inherit then env.draft else env.defaultMode)
  {
    hide IsValidKey, ValidKey, Get, ThreadIdFor;
    ThreadIdIs(env, rpc, params, hint, key);
    KeyIsText(key);
  }

  lemma ThreadIdIs(env: Env, rpc: string, params: Value, hint: Value, key: string)
    requires IsValidKey(key)
    ensures var thread, conversation := Get(params, "threadId"), Get(params, "conversationId");
            var id, starts := ThreadIdFor(env, rpc, params, hint), rpc == "thread/start";
            && (thread == Str(key) ==> id == key)
            && (!Truthy(thread) && !starts && conversation == Str(key) ==> id == key)
            && (!Truthy(thread) && (starts || !Truthy(conversation)) && hint == Str(key) ==> id == key)
            && (!Truthy(thread) && !Truthy(conversation) && !Truthy(hint) && !starts && env.currentSession == key ==>
                  id == key)
            && (!Truthy(thread) && !Truthy(hint) && (starts || (!Truthy(conversation) && env.currentSession == "")) ==>
                  id == "")
  {
    hide IsValidKey, ValidKey, Get;
    ValidKeyIsStable(key);
    KeyIsText(key);
  }

  lemma KeyIsText(key: string)
    requires IsValidKey(key)
    ensures key != "" && ValidKey("") == ""
  {}

  // ---------------------------------------------------------------------------------------------
  // Which requests the provider rewriter reaches

  /** The profile sends its traffic elsewhere: one of the three relays, or the official one mixed with a key. */
  predicate Relays(env: Env) {
    env.profile.Some? &&
    (env.profile.value.relayMode in {"pureApi", "mixedApi", "aggregate"}
     || (env.profile.value.relayMode == "official" && env.profile.value.officialMixApiKey))
  }

  /** The provider a profile asks for: the one its configuration names, "custom" for a pure API, or the fallback. */
  predicate AsksFor(env: Env, target: string) {
    env.profile.Some? &&
    var named := Trim(env.profile.value.configProvider);
    target == if named != "" then named
              else if env.profile.value.relayMode == "pureApi" then "custom" else Trim(env.fallbackProvider)
  }

  /** The provider that parameters name, in either spelling. */
  function NamedProvider(params: Value): string {
    var current, legacy := Get(params, "modelProvider"), Get(params, "model_provider");
    Trim(if Truthy(current) then AsText(current) else AsText(legacy))
  }

  /**
   New threads of a profile that relays leave with the provider it asks for, unless that is none or the session's
   own is openai; without such a profile nothing is rewritten, and other requests only under a pure API.
   */
  lemma NewThreadsNameTheirProvider(env: Env, rpc: string, params: Value, target: string)
    requires params.Object? && AsksFor(env, target) && target != "" && target != "openai"
    requires Lower(Trim(env.sessionProvider)) != "openai"
    ensures rpc in NEW_THREAD_METHODS && Relays(env) ==>
              var sent := ApplyProvider(env, rpc, params).GetOr(params);
              NamedProvider(sent) == target && !Has(sent, "model_provider")
    ensures !Relays(env) || (rpc !in NEW_THREAD_METHODS && env.profile.value.relayMode != "pureApi") ==>
              ApplyProvider(env, rpc, params).None?
  {
    hide Trim, Lower;
    assert TargetProvider(env) == target;
    hide TargetProvider;
    if ProviderApplies(env, rpc, params) {
      ProviderIsNamed(env, rpc, params);
    }
  }

  /** A session of openai itself keeps its provider, and so does any request if the profile asks for openai or none. */
  lemma OpenAiIsLeftAlone(env: Env, rpc: string, params: Value)
    requires Lower(Trim(env.sessionProvider)) == "openai" || AsksFor(env, "openai") || AsksFor(env, "")
    ensures ApplyProvider(env, rpc, params).None?
  {
    hide Trim, Lower;
  }

  /** Under a pure API a turn that names a provider leaves with the target unless it named a foreign one. */
  lemma TurnsNameTheirProvider(env: Env, params: Value, target: string)
    requires params.Object? && AsksFor(env, target) && target != "" && target != "openai"
    requires Lower(Trim(env.sessionProvider)) != "openai" && env.profile.value.relayMode == "pureApi"
    ensures var sent := ApplyProvider(env, "turn/start", params).GetOr(params);
            if (Has(params, "modelProvider") || Has(params, "model_provider"))
                && NamedProvider(params) in {"", "openai", "custom", target} then
              NamedProvider(sent) == target && !Has(sent, "model_provider")
            else sent == params
  {
    hide Trim, Lower;
    assert TargetProvider(env) == target;
    TargetIsTrimmed(env);
    hide TargetProvider;
  }

  // ---------------------------------------------------------------------------------------------
  // Rewriting twice is rewriting once

  ghost predicate SameProviderFields(a: Value, b: Value) {
    && a.Object? && b.Object?
    && Get(a, "modelProvider") == Get(b, "modelProvider") && (Has(a, "modelProvider") <==> Has(b, "modelProvider"))
    && Get(a, "model_provider") == Get(b, "model_provider") && (Has(a, "model_provider") <==> Has(b, "model_provider"))
  }

  lemma AppliesDependsOn(env: Env, rpc: string, a: Value, b: Value)
    requires SameProviderFields(a, b)
    ensures ProviderApplies(env, rpc, a) <==> ProviderApplies(env, rpc, b)
    ensures RequestedProvider(a) == RequestedProvider(b)
  {
    hide ProviderEnabled, TargetProvider, Trim, AsText;
  }

  lemma ProviderDependsOn(env: Env, rpc: string, a: Value, b: Value)
    requires SameProviderFields(a, b)
    ensures ApplyProvider(env, rpc, a).Some? <==> ApplyProvider(env, rpc, b).Some?
  {
    hide ProviderApplies, RequestedProvider, TargetProvider;
    AppliesDependsOn(env, rpc, a, b);
  }

  lemma TargetIsTrimmed(env: Env)
    ensures Trim(TargetProvider(env)) == TargetProvider(env)
  {
    hide Trim;
    if env.profile.Some? {
      TrimIdempotent(env.profile.value.configProvider);
    }
    TrimIdempotent(env.fallbackProvider);
    CustomIsTrimmed();
  }

  lemma CustomIsTrimmed()
    ensures Trim("custom") == "custom"
  {
    hide Strip;
    assert !IsJsSpace('c') && !IsJsSpace('m');
    StripOfStripped("custom", IsJsSpace);
  }

  lemma ProviderSettles(env: Env, rpc: string, params: Value)
    ensures ApplyProvider(env, rpc, ApplyProvider(env, rpc, params).GetOr(params)).None?
  {
    hide ProviderApplies, TargetProvider, Trim;
    ProviderShape(env, rpc, params);
    TargetIsTrimmed(env);
    var provided := ApplyProvider(env, rpc, params).GetOr(params);
    if ApplyProvider(env, rpc, params).Some? && TargetProvider(env) != "" {
      assert RequestedProvider(provided) == TargetProvider(env);
    }
  }

  /** Deciding again on what was sent either does nothing or repeats the decision. */
  lemma OverrideTwice(env: Env, rpc: string, params: Value, sent: Value, hint: Value)
    requires SameElse(params, sent) && OverrideFor(env, rpc, params, hint).Some?
    requires var o := OverrideFor(env, rpc, params, hint).value;
             Get(sent, "serviceTier") == o.tier && (o.blocked ==> Get(sent, "service_tier") == o.tier)
    ensures var again := OverrideFor(env, rpc, sent, hint);
            again.None? || again == OverrideFor(env, rpc, params, hint)
  {
    hide Supported, IsFast, ModelFor, ModeFor, FastValue, SameElse;
    SameElseModel(env, params, sent);
    SameElseMode(env, rpc, params, sent, hint);
  }

  lemma NoOverrideTwice(env: Env, rpc: string, params: Value, sent: Value, hint: Value)
    requires SameElse(params, sent) && OverrideFor(env, rpc, params, hint).None?
    requires forall key :: key in {"serviceTier", "service_tier"} ==> Get(sent, key) == Get(params, key)
    ensures OverrideFor(env, rpc, sent, hint).None?
  {
    hide Supported, IsFast, ModelFor, ModeFor, FastValue, SameElse;
    SameElseModel(env, params, sent);
    SameElseMode(env, rpc, params, sent, hint);
    assert Get(sent, "serviceTier") == Get(params, "serviceTier");
    assert Get(sent, "service_tier") == Get(params, "service_tier");
    SameElseObjects(params, sent);
  }

  lemma SameElseObjects(a: Value, b: Value)
    requires SameElse(a, b)
    ensures a.Object? && b.Object?
  {}

  /** Setting a field to the value it has changes nothing. */
  lemma SetSame(v: Value, key: string)
    requires Has(v, key)
    ensures Set(v, key, Get(v, key)) == v
  {
    assert v.fields[key := v.fields[key]] == v.fields;
  }

  lemma ApplyIdempotent(env: Env, rpc: string, params: Value, hint: Value)
    requires params.Object?
    ensures var sent := Apply(env, rpc, params, hint).GetOr(params);
            Apply(env, rpc, sent, hint).GetOr(sent) == sent
  {
    hide ApplyProvider, OverrideFor, SameElse;
    var provided := ApplyProvider(env, rpc, params).GetOr(params);
    var sent := Apply(env, rpc, params, hint).GetOr(params);
    ApplyTouchesFourFields(env, rpc, params, hint);
    ProviderSettles(env, rpc, params);
    ProviderDependsOn(env, rpc, provided, sent);
    if OverrideFor(env, rpc, params, hint).Some? {
      OverrideTwice(env, rpc, params, sent, hint);
      SetSame(sent, "serviceTier");
      if Has(sent, "service_tier") {
        SetSame(sent, "service_tier");
      }
    } else {
      ProviderKeepsTier(env, rpc, params);
      NoOverrideTwice(env, rpc, params, sent, hint);
    }
  }

  // ---------------------------------------------------------------------------------------------
  // Messages

  /** Filling in parameters that differ only in the four fields leaves the message what it was. */
  lemma CarrierSurvives(m: Value, p: Value)
    requires CarrierOf(m).Some? && SameElse(CarrierOf(m).value.params, p)
    ensures var c := CarrierOf(m).value;
            && CarrierOf(Fill(m, c.slot, p)) == Some(c.(params := p))
            && Get(Fill(m, c.slot, p), "type") == Get(m, "type")
  {
    hide SameElse, Fill;
    SameElseObjects(CarrierOf(m).value.params, p);
    match CarrierOf(m).value.slot {
      case Whole =>
        SameElseGet(m, p, "type");
        WholeSurvives(m, p);
      case InParams => InParamsSurvives(m, p);
      case InRequest => InRequestSurvives(m, p);
    }
  }

  lemma WholeSurvives(m: Value, p: Value)
    requires CarrierOf(m).Some? && CarrierOf(m).value.slot == Whole && p.Object? && Get(p, "type") == Get(m, "type")
    ensures Fill(m, Whole, p) == p && CarrierOf(p) == Some(CarrierOf(m).value.(params := p))
  {}

  lemma InParamsSurvives(m: Value, p: Value)
    requires CarrierOf(m).Some? && CarrierOf(m).value.slot == InParams && p.Object?
    ensures var r := Fill(m, InParams, p);
            CarrierOf(r) == Some(CarrierOf(m).value.(params := p)) && Get(r, "type") == Get(m, "type")
  {
    var r := Fill(m, InParams, p);
    assert Get(r, "params") == p && Get(r, "type") == Get(m, "type");
    assert Get(r, "method") == Get(m, "method") && Get(r, "conversationId") == Get(m, "conversationId");
    assert Get(r, "request") == Get(m, "request");
    hide Fill, Get, AsText;
  }

  lemma InRequestSurvives(m: Value, p: Value)
    requires CarrierOf(m).Some? && CarrierOf(m).value.slot == InRequest && p.Object?
    ensures var r := Fill(m, InRequest, p);
            CarrierOf(r) == Some(CarrierOf(m).value.(params := p)) && Get(r, "type") == Get(m, "type")
  {
    var r := Fill(m, InRequest, p);
    var request := Get(m, "request");
    assert Get(r, "request") == Set(request, "params", p) && Get(r, "type") == Get(m, "type");
    assert Get(r, "params") == Get(m, "params");
    assert Get(Set(request, "params", p), "params") == p;
    assert Get(Set(request, "params", p), "method") == Get(request, "method");
    hide Fill, Get, AsText, Set;
  }

  /** A bare message is rewritten by filling in parameters that differ only in the four fields. */
  lemma BareFrame(env: Env, m: Value)
    requires RewriteBare(env, m).Some?
    ensures CarrierOf(m).Some? &&
            var c := CarrierOf(m).value;
            var p := Apply(env, c.rpc, c.params, c.hint).GetOr(c.params);
            && c.params.Object? && SameElse(c.params, p)
            && RewriteBare(env, m).value == Fill(m, c.slot, p)
            && CarrierOf(RewriteBare(env, m).value) == Some(c.(params := p))
            && Get(RewriteBare(env, m).value, "type") == Get(m, "type")
  {
    hide Apply, SameElse, CarrierOf;
    var c := CarrierOf(m).value;
    ApplyTouchesFourFields(env, c.rpc, c.params, c.hint);
    CarrierSurvives(m, Apply(env, c.rpc, c.params, c.hint).value);
  }

  lemma BareKeepsType(env: Env, m: Value)
    requires RewriteBare(env, m).Some?
    ensures Get(RewriteBare(env, m).value, "type") == Get(m, "type") != Str("fetch")
  {
    hide Apply, SameElse, CarrierOf, Fill;
    BareFrame(env, m);
  }

  lemma BareIdempotent(env: Env, m: Value)
    requires RewriteBare(env, m).Some?
    ensures var r := RewriteBare(env, m).value;
            RewriteBare(env, r).GetOr(r) == r
  {
    hide Apply, SameElse, CarrierOf;
    BareFrame(env, m);
    var c := CarrierOf(m).value;
    ApplyIdempotent(env, c.rpc, c.params, c.hint);
    var p := Apply(env, c.rpc, c.params, c.hint).GetOr(c.params);
    FillTwice(m, c.slot, p);
  }

  lemma FillTwice(m: Value, slot: Slot, p: Value)
    requires m.Object? && p.Object? && (slot == InRequest ==> Get(m, "request").Object?)
    ensures Fill(Fill(m, slot, p), slot, p) == Fill(m, slot, p)
  {
    SetTwice(m, "params", p);
    if slot == InRequest {
      var request := Set(Get(m, "request"), "params", p);
      SetTwice(Get(m, "request"), "params", p);
      SetTwice(m, "request", request);
    }
  }

  lemma SetTwice(v: Value, key: string, x: Value)
    requires v.Object?
    ensures Set(Set(v, key, x), key, x) == Set(v, key, x)
  {
    assert v.fields[key := x][key := x] == v.fields[key := x];
  }

  /** Without `undefined` anywhere inside: what JSON text can express. */
  ghost predicate Clean(v: Value) {
    v != Undefined && (v.Object? ==> forall key <- v.fields :: Clean(v.fields[key]))
  }

  /** Parsing and printing undo each other on the values JSON can express. */
  ghost predicate IsJson(codec: Codec) {
    && (forall s :: codec.parse(s).Some? ==> Clean(codec.parse(s).value))
    && (forall v :: Clean(v) ==> codec.parse(codec.render(v)) == Some(v))
  }

  lemma SetClean(v: Value, key: string, x: Value)
    requires v.Object? && Clean(v) && Clean(x)
    ensures Clean(Set(v, key, x)) && Clean(Delete(v, key))
  {}

  lemma ApplyClean(env: Env, rpc: string, params: Value, hint: Value)
    requires params.Object? && Clean(params)
    ensures Clean(Apply(env, rpc, params, hint).GetOr(params))
  {
    hide ApplyProvider, OverrideFor, WithTier, Clean;
    ProvidedIsClean(env, rpc, params);
    TierIsClean(env, rpc, params, hint);
    var o := OverrideFor(env, rpc, params, hint);
    if o.Some? {
      WithTierIsClean(ApplyProvider(env, rpc, params).GetOr(params), o.value);
    }
  }

  lemma ProvidedIsClean(env: Env, rpc: string, params: Value)
    requires params.Object? && Clean(params)
    ensures Clean(ApplyProvider(env, rpc, params).GetOr(params))
  {
    hide ApplyProvider, Clean, Set, Delete;
    var target := Str(TargetProvider(env));
    TextIsClean(TargetProvider(env));
    TextIsClean("");
    ProviderShape(env, rpc, params);
    SetClean(params, "modelProvider", target);
    SetClean(Set(params, "modelProvider", target), "model_provider", Str(""));
  }

  lemma WithTierIsClean(params: Value, o: Override)
    requires params.Object? && Clean(params) && Clean(o.tier)
    ensures Clean(WithTier(params, o))
  {
    hide Clean, Set, Has;
    SetClean(params, "serviceTier", o.tier);
    SetClean(Set(params, "serviceTier", o.tier), "service_tier", o.tier);
  }

  lemma TextIsClean(text: string)
    ensures Clean(Str(text))
  {}

  lemma TierIsClean(env: Env, rpc: string, params: Value, hint: Value)
    ensures OverrideFor(env, rpc, params, hint).Some? ==> Clean(OverrideFor(env, rpc, params, hint).value.tier)
  {
    hide IsFast, ModelFor, ModeFor, Supported, FastValue, TargetProvider;
  }

  lemma BareClean(env: Env, m: Value)
    requires m.Object? && Clean(m) && RewriteBare(env, m).Some?
    ensures Clean(RewriteBare(env, m).value)
  {
    hide Apply, SameElse, CarrierOf, Fill, Clean;
    BareFrame(env, m);
    var c := CarrierOf(m).value;
    CarriedIsClean(m);
    ApplyClean(env, c.rpc, c.params, c.hint);
    FillClean(m, c.slot, Apply(env, c.rpc, c.params, c.hint).GetOr(c.params));
  }

  lemma CarriedIsClean(m: Value)
    requires m.Object? && Clean(m) && CarrierOf(m).Some? && CarrierOf(m).value.params.Object?
    ensures Clean(CarrierOf(m).value.params)
  {
    GotIsClean(m, "params");
    GotIsClean(m, "request");
    GotIsClean(Get(m, "request"), "params");
    hide Clean, Get, AsText;
  }

  lemma GotIsClean(v: Value, key: string)
    requires Clean(v) || v == Undefined
    ensures Get(v, key) == Undefined || Clean(Get(v, key))
  {}

  lemma FillClean(m: Value, slot: Slot, p: Value)
    requires m.Object? && p.Object? && (slot == InRequest ==> Get(m, "request").Object?)
    requires Clean(m) && Clean(p)
    ensures Clean(Fill(m, slot, p))
  {
    hide Clean, Set;
    SetClean(m, "params", p);
    if slot == InRequest {
      GotIsClean(m, "request");
      SetClean(Get(m, "request"), "params", p);
      SetClean(m, "request", Set(Get(m, "request"), "params", p));
    }
  }

  // ---------------------------------------------------------------------------------------------
  // The fetch envelope

  lemma RestoreCleanBody(body: Value, patched: Value)
    requires body.Object? && patched.Object? && Clean(body) && Clean(patched)
    ensures Clean(RestoreType(body, patched))
  {}

  /** Unwrapping the restored body gives back the patched message. */
  lemma UnwrapRestored(m: Value, body: Value, patched: Value)
    requires IsFetch(m) && URL_PREFIX <= Get(m, "url").text && body.Object? && patched.Object?
    requires Get(patched, "type") == Get(Unwrapped(m, body), "type")
    ensures Unwrapped(m, RestoreType(body, patched)) == patched
  {
    assert Unwrapped(m, RestoreType(body, patched)).fields == patched.fields;
  }

  lemma RestoreUnwrapped(m: Value, body: Value)
    requires IsFetch(m) && URL_PREFIX <= Get(m, "url").text && body.Object?
    ensures RestoreType(body, Unwrapped(m, body)) == body
  {
    assert RestoreType(body, Unwrapped(m, body)).fields == body.fields;
  }

  /**
   Rewriting commutes with the fetch envelope: the body that is sent is the rewritten inner message
   with the body's own type put back.
   */
  lemma FetchCommutes(env: Env, codec: Codec, m: Value)
    requires IsFetch(m) && IsJson(codec) && Body(codec, m).Some?
    requires env.tierControls || ProviderEnabled(env)
    ensures var body := Body(codec, m).value;
            var inner := Unwrapped(m, body);
            var sent := Sent(env, codec, m);
            && IsFetch(sent)
            && Body(codec, sent) == Some(RestoreType(body, RewriteBare(env, inner).GetOr(inner)))
            && forall key | key != "body" :: Get(sent, key) == Get(m, key)
  {
    hide RewriteBare, Clean, ProviderEnabled;
    var body := Body(codec, m).value;
    var inner := Unwrapped(m, body);
    RestoreUnwrapped(m, body);
    if RewriteBare(env, inner).Some? && Get(m, "body").Str? {
      BodyIsClean(codec, m);
      UnwrappedClean(m, body);
      BareClean(env, inner);
      RestoreCleanBody(body, RewriteBare(env, inner).value);
    }
  }

  lemma BodyIsClean(codec: Codec, m: Value)
    requires IsFetch(m) && IsJson(codec) && Body(codec, m).Some? && Get(m, "body").Str?
    ensures Clean(Body(codec, m).value)
  {}

  lemma UnwrappedClean(m: Value, body: Value)
    requires IsFetch(m) && URL_PREFIX <= Get(m, "url").text && body.Object? && Clean(body)
    ensures Clean(Unwrapped(m, body))
  {
    SetClean(body, "type", Str(UpToQuery(Get(m, "url").text[|URL_PREFIX|..])));
  }

  /** What is sent, seen as the message that carries the request: the fetch body unwrapped, or the message itself. */
  function Logical(codec: Codec, m: Value): Option<Value> {
    if IsFetch(m) then
      (match Body(codec, m)
       case None => None
       case Some(body) => Some(Unwrapped(m, body)))
    else Some(m)
  }

  /** What is sent carries the rewritten inner message. */
  lemma SentIsRewritten(env: Env, codec: Codec, m: Value)
    requires IsJson(codec) && (env.tierControls || ProviderEnabled(env))
    ensures Logical(codec, m).Some? <==> Logical(codec, Sent(env, codec, m)).Some?
    ensures Logical(codec, m).Some? ==>
              var inner := Logical(codec, m).value;
              Logical(codec, Sent(env, codec, m)).value == RewriteBare(env, inner).GetOr(inner)
  {
    hide RewriteBare, Clean, ProviderEnabled, RestoreType;
    if IsFetch(m) {
      if Body(codec, m).Some? {
        FetchCommutes(env, codec, m);
        var body := Body(codec, m).value;
        var inner := Unwrapped(m, body);
        if RewriteBare(env, inner).Some? {
          BareKeepsType(env, inner);
          UnwrapRestored(m, body, RewriteBare(env, inner).value);
        } else {
          RestoreUnwrapped(m, body);
        }
        var sent := Sent(env, codec, m);
        assert Get(sent, "url") == Get(m, "url");
        SameAddress(m, sent, RestoreType(body, RewriteBare(env, inner).GetOr(inner)));
      }
    } else if RewriteBare(env, m).Some? {
      BareKeepsType(env, m);
    }
  }

  lemma SameAddress(m: Value, n: Value, body: Value)
    requires IsFetch(m) && IsFetch(n) && Get(m, "url") == Get(n, "url") && URL_PREFIX <= Get(m, "url").text
        && body.Object?
    ensures Unwrapped(m, body) == Unwrapped(n, body)
  {}

  // ---------------------------------------------------------------------------------------------
  // Main results on messages

  /**
   With tier controls on, whatever the modes, the draft and the envelope, a thread or turn request that
   goes out with the fast tier names a model that offers it.
   */
  lemma SentFastOnlyForSupportedModels(env: Env, codec: Codec, m: Value)
    requires IsJson(codec) && env.tierControls
    ensures var out := Logical(codec, Sent(env, codec, m));
            out.Some? && CarrierOf(out.value).Some? ==>
              var c := CarrierOf(out.value).value;
              c.rpc in TIER_METHODS && c.params.Object? && IsFast(EffectiveTier(c.params)) ==>
                Offers(env, c.params)
  {
    hide Apply, CarrierOf, Sent, Logical, IsFast, Supported, Offers, Clean;
    SentIsRewritten(env, codec, m);
    if Logical(codec, m).Some? {
      var inner := Logical(codec, m).value;
      if CarrierOf(inner).Some? {
        var c := CarrierOf(inner).value;
        if RewriteBare(env, inner).Some? {
          BareFrame(env, inner);
        }
        if c.rpc in TIER_METHODS && c.params.Object? {
          FastOnlyForSupportedModels(env, c.rpc, c.params, c.hint);
        }
      }
    }
  }

  /** In every envelope the request goes out fast exactly if that is wanted and its model offers it. */
  lemma SentFastIsSentIff(env: Env, codec: Codec, m: Value)
    requires IsJson(codec) && env.tierControls
    requires Logical(codec, m).Some? && CarrierOf(Logical(codec, m).value).Some?
    ensures var c := CarrierOf(Logical(codec, m).value).value;
            c.rpc in TIER_METHODS && c.params.Object? ==>
              var out := Logical(codec, Sent(env, codec, m));
              && out.Some? && CarrierOf(out.value).Some?
              && var sent := CarrierOf(out.value).value;
              && sent.rpc == c.rpc && sent.slot == c.slot
              && (IsFast(EffectiveTier(sent.params)) <==>
                  FastIsWanted(env, c.rpc, c.params, c.hint) && Offers(env, c.params))
  {
    hide Apply, CarrierOf, Sent, Logical, IsFast, Supported, Offers, Clean, FastIsWanted, EffectiveTier;
    SentIsRewritten(env, codec, m);
    var inner := Logical(codec, m).value;
    var c := CarrierOf(inner).value;
    if c.params.Object? {
      FastIsSentIff(env, c.rpc, c.params, c.hint);
      if RewriteBare(env, inner).Some? {
        BareFrame(env, inner);
      }
    }
  }

  /** Rewriting what was already rewritten changes nothing, in every envelope. */
  lemma SentIdempotent(env: Env, codec: Codec, m: Value)
    requires IsJson(codec)
    ensures Sent(env, codec, Sent(env, codec, m)) == Sent(env, codec, m)
  {
    hide RewriteBare, Clean, ProviderEnabled, RewriteFetch, Body;
    if m.Object? && (env.tierControls || ProviderEnabled(env)) {
      if !IsFetch(m) {
        BareMessageIdempotent(env, codec, m);
      } else if Body(codec, m).Some? {
        FetchIdempotent(env, codec, m);
      } else {
        EmptyFetchIsSent(env, codec, m);
      }
    }
  }

  lemma BareMessageIdempotent(env: Env, codec: Codec, m: Value)
    requires m.Object? && !IsFetch(m) && (env.tierControls || ProviderEnabled(env))
    ensures Sent(env, codec, Sent(env, codec, m)) == Sent(env, codec, m)
  {
    hide RewriteBare, ProviderEnabled, RewriteFetch;
    if RewriteBare(env, m).Some? {
      BareKeepsType(env, m);
      BareIdempotent(env, m);
    }
  }

  lemma EmptyFetchIsSent(env: Env, codec: Codec, m: Value)
    requires IsFetch(m) && Body(codec, m).None?
    ensures Sent(env, codec, m) == m
  {
    hide ProviderEnabled;
  }

  lemma FetchIdempotent(env: Env, codec: Codec, m: Value)
    requires IsJson(codec) && IsFetch(m) && Body(codec, m).Some?
    requires env.tierControls || ProviderEnabled(env)
    ensures Sent(env, codec, Sent(env, codec, m)) == Sent(env, codec, m)
  {
    hide RewriteBare, Clean, ProviderEnabled, RestoreType;
    var body := Body(codec, m).value;
    var inner := Unwrapped(m, body);
    if RewriteBare(env, inner).Some? {
      FetchCommutes(env, codec, m);
      var patched := RewriteBare(env, inner).value;
      var sent := Sent(env, codec, m);
      var next := RestoreType(body, patched);
      BareKeepsType(env, inner);
      BareIdempotent(env, inner);
      UnwrapRestored(m, body, patched);
      SameAddress(m, sent, next);
      RestoreAgain(body, patched);
      SetTwice(m, "body", Get(sent, "body"));
    }
  }

  lemma RestoreAgain(body: Value, patched: Value)
    requires body.Object? && patched.Object?
    ensures RestoreType(RestoreType(body, patched), patched) == RestoreType(body, patched)
  {}

  /**
   A request in the provider rewriter's reach leaves with the target provider and no legacy field
   exactly if it starts a thread or did not name a foreign provider.
   */
  lemma ProviderIsNamed(env: Env, rpc: string, params: Value)
    requires ProviderApplies(env, rpc, params)
    ensures var sent := ApplyProvider(env, rpc, params).GetOr(params);
            (RequestedProvider(sent) == TargetProvider(env) && !Has(sent, "model_provider"))
            <==> (rpc in NEW_THREAD_METHODS
                  || RequestedProvider(params) in {"", "openai", "custom", TargetProvider(env)})
  {
    hide Trim, TargetProvider, ProviderEnabled;
    TargetIsTrimmed(env);
    if ApplyProvider(env, rpc, params).Some? {
      var sent := ApplyProvider(env, rpc, params).value;
      assert Get(sent, "modelProvider") == Str(TargetProvider(env));
    }
  }
}
