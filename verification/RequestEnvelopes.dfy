/**
 The envelopes that carry requests, written down from the sender's side: how a message of each kind is put
 together, bare or in the body of a fetch. Rewriting such a message is putting together the rewritten request.
 */
module RequestEnvelopes {
  import opened Text
  import opened Wrappers
  import opened SessionKeys
  import opened TierModes
  import opened RequestValues
  import opened RequestRewrite

  /** The kinds of messages, by what they are called on the wire. */
  datatype Kind =
    | SendCliRequest | McpRequest | WorkerRequest | ThreadPrewarm
    | StartConversation | StartThread | PrewarmThreadStart | StartTurn

  function TypeOf(kind: Kind): string {
    match kind
    case SendCliRequest => "send-cli-request-for-host"
    case McpRequest => "mcp-request"
    case WorkerRequest => "worker-request"
    case ThreadPrewarm => "thread-prewarm-start"
    case StartConversation => "start-conversation"
    case StartThread => "start-thread-for-host"
    case PrewarmThreadStart => "prewarm-thread-start-for-host"
    case StartTurn => "start-turn-for-host"
  }

  /** Three kinds say which method they are for, one stands for a turn, the others for a new thread. */
  function MethodOf(kind: Kind, rpc: string): string {
    match kind
    case SendCliRequest => rpc
    case McpRequest => rpc
    case WorkerRequest => rpc
    case StartTurn => "turn/start"
    case _ => "thread/start"
  }

  /** What else a message and the request in it hold. */
  datatype Rest = Rest(message: Value, request: Value)

  /** The message of this kind that carries these parameters; two kinds are their parameters themselves. */
  function Message(kind: Kind, rest: Rest, rpc: string, params: Value): Value
    requires rest.message.Object? && rest.request.Object? && params.Object?
  {
    var named := Set(rest.message, "type", Str(TypeOf(kind)));
    match kind
    case SendCliRequest => Set(Set(named, "method", Str(rpc)), "params", params)
    case McpRequest => Set(named, "request", Set(Set(rest.request, "method", Str(rpc)), "params", params))
    case WorkerRequest => Set(named, "request", Set(Set(rest.request, "method", Str(rpc)), "params", params))
    case ThreadPrewarm => Set(named, "request", Set(rest.request, "params", params))
    case StartConversation => Set(params, "type", Str(TypeOf(kind)))
    case StartThread => Set(params, "type", Str(TypeOf(kind)))
    case PrewarmThreadStart => Set(named, "params", params)
    case StartTurn => Set(named, "params", params)
  }

  /** The parameters as the rewriter sees them: for two kinds with the type among them. */
  function Seen(kind: Kind, params: Value): Value
    requires params.Object?
  {
    if IsParams(kind) then Set(params, "type", Str(TypeOf(kind))) else params
  }

  /** The thread a turn's envelope names. */
  function HintOf(kind: Kind, rest: Rest): Value {
    if kind.StartTurn? then Get(rest.message, "conversationId") else Str("")
  }

  lemma NoKindIsFetch(kind: Kind)
    ensures TypeOf(kind) != "fetch"
  {}

  /** The parameters stand in the request inside the message, are the message itself, or stand beside its type. */
  predicate Nests(kind: Kind) { kind.McpRequest? || kind.WorkerRequest? || kind.ThreadPrewarm? }

  predicate IsParams(kind: Kind) { kind.StartConversation? || kind.StartThread? }

  lemma NestedCarrier(m: Value, kind: Kind)
    requires Get(m, "type") == Str(TypeOf(kind)) && Nests(kind) && Get(m, "request").Object?
    ensures var request := Get(m, "request");
            CarrierOf(m) == Some(Carrier(InRequest,
                                         if kind.ThreadPrewarm? then "thread/start" else AsText(Get(request, "method")),
                                         Get(request, "params"), Str("")))
  {
    hide Get, AsText;
  }

  lemma WholeCarrier(m: Value, kind: Kind)
    requires Get(m, "type") == Str(TypeOf(kind)) && IsParams(kind) && m.Object?
    ensures CarrierOf(m) == Some(Carrier(Whole, "thread/start", m, Str("")))
  {
    hide Get, AsText;
  }

  lemma BesideCarrier(m: Value, kind: Kind)
    requires Get(m, "type") == Str(TypeOf(kind)) && !Nests(kind) && !IsParams(kind) && Get(m, "params").Object?
    ensures CarrierOf(m) == Some(Carrier(InParams,
                                         if kind.SendCliRequest? then AsText(Get(m, "method"))
                                         else if kind.StartTurn? then "turn/start" else "thread/start",
                                         Get(m, "params"), HintOf(kind, Rest(m, Null))))
  {
    hide Get, AsText;
  }

  /** Every kind of message carries its request, under the method it stands for. */
  lemma EveryKindCarries(kind: Kind, rest: Rest, rpc: string, params: Value)
    requires rest.message.Object? && rest.request.Object? && params.Object?
    ensures CarrierOf(Message(kind, rest, rpc, params)) ==
              Some(Carrier(if Nests(kind) then InRequest else if IsParams(kind) then Whole else InParams,
                           MethodOf(kind, rpc), Seen(kind, params), HintOf(kind, rest)))
  {
    hide CarrierOf, TypeOf;
    var m := Message(kind, rest, rpc, params);
    if Nests(kind) {
      NestedCarrier(m, kind);
    } else if IsParams(kind) {
      WholeCarrier(m, kind);
    } else {
      BesideCarrier(m, kind);
    }
  }

  /** The message with other parameters in its slot is the message that carries those. */
  lemma FilledIsMessage(kind: Kind, rest: Rest, rpc: string, params: Value, p: Value)
    requires rest.message.Object? && rest.request.Object? && params.Object? && p.Object?
    requires Get(Seen(kind, params), "type") == Get(p, "type")
    ensures var m := Message(kind, rest, rpc, params);
            var c := CarrierOf(m);
            c.Some? && Fill(m, c.value.slot, p) == Message(kind, rest, rpc, p)
  {
    EveryKindCarries(kind, rest, rpc, params);
    var m := Message(kind, rest, rpc, params);
    var named := Set(rest.message, "type", Str(TypeOf(kind)));
    hide TypeOf, CarrierOf;
    if IsParams(kind) {
      SetSame(p, "type");
    } else {
      match kind {
        case SendCliRequest => SetAgain(Set(named, "method", Str(rpc)), "params", params, p);
        case McpRequest => RequestAgain(named, Set(rest.request, "method", Str(rpc)), params, p);
        case WorkerRequest => RequestAgain(named, Set(rest.request, "method", Str(rpc)), params, p);
        case ThreadPrewarm => RequestAgain(named, rest.request, params, p);
        case _ => SetAgain(named, "params", params, p);
      }
    }
  }

  lemma SetAgain(v: Value, key: string, x: Value, y: Value)
    requires v.Object?
    ensures Set(Set(v, key, x), key, y) == Set(v, key, y)
  {
    assert v.fields[key := x][key := y] == v.fields[key := y];
  }

  lemma RequestAgain(v: Value, request: Value, x: Value, y: Value)
    requires v.Object? && request.Object? && x.Object? && y.Object?
    ensures Fill(Set(v, "request", Set(request, "params", x)), InRequest, y)
            == Set(v, "request", Set(request, "params", y))
  {
    SetAgain(request, "params", x, y);
    SetAgain(v, "request", Set(request, "params", x), Set(request, "params", y));
  }

  /** What rewriting makes of the parameters that a kind of message carries. */
  function Rewritten(env: Env, kind: Kind, rest: Rest, rpc: string, params: Value): Value
    requires params.Object?
  {
    Apply(env, MethodOf(kind, rpc), Seen(kind, params), HintOf(kind, rest)).GetOr(Seen(kind, params))
  }

  /** Rewriting a message of any kind is putting together the message of the rewritten request. */
  lemma RewritingIsRefilling(env: Env, kind: Kind, rest: Rest, rpc: string, params: Value)
    requires rest.message.Object? && rest.request.Object? && params.Object?
    ensures Rewritten(env, kind, rest, rpc, params).Object?
    ensures var m := Message(kind, rest, rpc, params);
            RewriteBare(env, m).GetOr(m) == Message(kind, rest, rpc, Rewritten(env, kind, rest, rpc, params))
  {
    hide Apply, CarrierOf, TypeOf, Fill, SameElse;
    var seen, m := Seen(kind, params), Message(kind, rest, rpc, params);
    EveryKindCarries(kind, rest, rpc, params);
    ApplyTouchesFourFields(env, MethodOf(kind, rpc), seen, HintOf(kind, rest));
    var sent := Rewritten(env, kind, rest, rpc, params);
    SameElseObjects(seen, sent);
    SameElseGet(seen, sent, "type");
    FilledIsMessage(kind, rest, rpc, params, sent);
    FilledIsMessage(kind, rest, rpc, params, seen);
    if IsParams(kind) {
      SetTwice(params, "type", Str(TypeOf(kind)));
    }
  }

  /** The body of a fetch, as an object or as text. */
  datatype Body = Plain | Text

  function Printed(codec: Codec, body: Body, v: Value): Value {
    if body.Plain? then v else Str(codec.render(v))
  }

  /** A query or a fragment, if there is one. */
  predicate IsQuery(s: string) { s == "" || s[0] == '?' || s[0] == '#' }

  /** A fetch to the address that names this type, with this body. */
  predicate IsFetchOf(codec: Codec, m: Value, kind: Kind, query: string, body: Body, v: Value) {
    && Get(m, "type") == Str("fetch") && Get(m, "url") == Str(URL_PREFIX + TypeOf(kind) + query)
    && Get(m, "body") == Printed(codec, body, v)
  }

  lemma {:induction false} UpToQueryOf(name: string, query: string)
    requires IsQuery(query) && HasNoQuery(name)
    ensures UpToQuery(name + query) == name
  {
    if name != "" {
      assert (name + query)[1..] == name[1..] + query;
      UpToQueryOf(name[1..], query);
    } else {
      assert name + query == query;
    }
  }

  predicate HasNoQuery(s: string) { forall i :: 0 <= i < |s| ==> s[i] != '?' && s[i] != '#' }

  lemma TypesHaveNoQuery(kind: Kind)
    ensures HasNoQuery(TypeOf(kind))
  {
    hide TypeOf;
    if kind.McpRequest? || kind.WorkerRequest? || kind.StartConversation? {
      ShortTypesHaveNoQuery(kind);
    } else if kind.ThreadPrewarm? || kind.StartThread? || kind.StartTurn? {
      MiddleTypesHaveNoQuery(kind);
    } else {
      LongTypesHaveNoQuery(kind);
    }
  }

  lemma ShortTypesHaveNoQuery(kind: Kind)
    requires kind.McpRequest? || kind.WorkerRequest? || kind.StartConversation?
    ensures forall i :: 0 <= i < |TypeOf(kind)| ==> TypeOf(kind)[i] != '?' && TypeOf(kind)[i] != '#'
  {}

  lemma MiddleTypesHaveNoQuery(kind: Kind)
    requires kind.ThreadPrewarm? || kind.StartThread? || kind.StartTurn?
    ensures forall i :: 0 <= i < |TypeOf(kind)| ==> TypeOf(kind)[i] != '?' && TypeOf(kind)[i] != '#'
  {}

  lemma LongTypesHaveNoQuery(kind: Kind)
    requires kind.SendCliRequest? || kind.PrewarmThreadStart?
    ensures forall i :: 0 <= i < |TypeOf(kind)| ==> TypeOf(kind)[i] != '?' && TypeOf(kind)[i] != '#'
  {}

  /** A fetch stands for the message its address names, with the fields of its body, plain or as text. */
  lemma FetchStandsFor(codec: Codec, m: Value, kind: Kind, query: string, body: Body, v: Value)
    requires IsJson(codec) && Clean(v) && v.Object? && IsQuery(query) && IsFetchOf(codec, m, kind, query, body, v)
    ensures Logical(codec, m) == Some(Set(v, "type", Str(TypeOf(kind))))
  {
    hide TypeOf, Clean;
    TypesHaveNoQuery(kind);
    UpToQueryOf(TypeOf(kind), query);
    assert (URL_PREFIX + TypeOf(kind) + query)[|URL_PREFIX|..] == TypeOf(kind) + query;
    assert URL_PREFIX <= Get(m, "url").text;
  }

  /**
   Every kind of message, sent bare: what goes out is the message of the rewritten request. In the body of a fetch,
   with or without a type of its own there: what goes out stands for that message.
   */
  lemma EveryEnvelopeIsRewritten(env: Env, codec: Codec, m: Value, kind: Kind, rest: Rest, rpc: string, params: Value,
      query: string, body: Body, v: Value)
    requires IsJson(codec) && (env.tierControls || ProviderEnabled(env))
    requires rest.message.Object? && rest.request.Object? && params.Object?
    requires v.Object? && Clean(v) && IsQuery(query) && IsFetchOf(codec, m, kind, query, body, v)
    requires Set(v, "type", Str(TypeOf(kind))) == Message(kind, rest, rpc, params)
    ensures var sent := Message(kind, rest, rpc, Rewritten(env, kind, rest, rpc, params));
            && Sent(env, codec, Message(kind, rest, rpc, params)) == sent
            && Logical(codec, Sent(env, codec, m)) == Some(sent)
  {
    hide Apply, CarrierOf, Fill, Clean, RewriteFetch, ProviderEnabled, Logical, RewriteBare;
    RewritingIsRefilling(env, kind, rest, rpc, params);
    NoKindIsFetch(kind);
    FetchStandsFor(codec, m, kind, query, body, v);
    SentIsRewritten(env, codec, m);
  }

  /** Messages of any other type are sent as they are. */
  lemma OthersAreSentAsTheyAre(env: Env, codec: Codec, m: Value)
    requires forall kind: Kind :: Get(m, "type") != Str(TypeOf(kind))
    requires Get(m, "type") != Str("fetch")
    ensures Sent(env, codec, m) == m
  {
    hide ProviderEnabled, Get, AsText, Apply;
    assert TypeOf(SendCliRequest) == "send-cli-request-for-host" && TypeOf(McpRequest) == "mcp-request"
        && TypeOf(WorkerRequest) == "worker-request" && TypeOf(ThreadPrewarm) == "thread-prewarm-start";
    assert TypeOf(StartConversation) == "start-conversation" && TypeOf(StartThread) == "start-thread-for-host"
        && TypeOf(PrewarmThreadStart) == "prewarm-thread-start-for-host" && TypeOf(StartTurn) == "start-turn-for-host";
  }
}
