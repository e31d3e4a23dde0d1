/**
 The values that messages are made of, and the search for the model a request names.
 */
module RequestValues {
  import opened Text

  // ---------------------------------------------------------------------------------------------
  // Values

  /**
   `Other` stands for numbers, booleans and arrays, with the text `String` gives for them. An array has
   no field that is looked at, so this is what it amounts to except where it is the parameters themselves.
   */
  datatype Value =
    | Undefined
    | Null
    | Str(text: string)
    | Other(truthy: bool, printed: string)
    | Object(fields: map<string, Value>)

  function Get(v: Value, key: string): Value {
    if v.Object? && key in v.fields then v.fields[key] else Undefined
  }

  predicate Has(v: Value, key: string) { v.Object? && key in v.fields }

  function Set(v: Value, key: string, x: Value): (r: Value)
    requires v.Object?
    ensures r.Object?
  {
    Object(v.fields[key := x])
  }

  function Delete(v: Value, key: string): (r: Value)
    requires v.Object?
    ensures r.Object?
  {
    Object(v.fields - {key})
  }

  predicate Truthy(v: Value) {
    match v
    case Undefined => false
    case Null => false
    case Str(s) => s != ""
    case Other(truthy, _) => truthy
    case Object(_) => true
  }

  /** `a || b` */
  function Or(a: Value, b: Value): Value { if Truthy(a) then a else b }

  /** `a ?? b` */
  function Coalesce(a: Value, b: Value): Value { if a.Undefined? || a.Null? then b else a }

  /** `String(v || "")` */
  function AsText(v: Value): string {
    if !Truthy(v) then ""
    else match v
      case Str(s) => s
      case Other(_, printed) => printed
      case _ => "[object Object]"
  }

  // ---------------------------------------------------------------------------------------------
  // The search for a model

  const MODEL_KEYS := ["model", "modelId", "model_id", "selectedModel", "selected_model",
                       "defaultModel", "default_model",
                       "params", "request", "payload", "body", "config", "options"]

  /** The first model named in a value, looking at most four levels deep. */
  function ModelFromValue(v: Value, depth: nat): string
    decreases 4 - depth, |MODEL_KEYS| + 1
  {
    match v
    case Str(s) => Trim(s)
    case Object(_) => if depth > 3 then "" else FirstModel(v, MODEL_KEYS, depth)
    case _ => ""
  }

  function FirstModel(v: Value, keys: seq<string>, depth: nat): string
    requires depth <= 3
    decreases 4 - depth, |keys|
  {
    if keys == [] then ""
    else
      var model := ModelFromValue(Get(v, keys[0]), depth + 1);
      if model != "" then model else FirstModel(v, keys[1..], depth)
  }

  // ---------------------------------------------------------------------------------------------
  // What the search finds

  /** A way into a value: at each level the number of one of the keys that are looked under. */
  type Path = seq<nat>

  predicate InKeys(path: Path) { forall i :: 0 <= i < |path| ==> path[i] < |MODEL_KEYS| }

  function At(v: Value, path: Path): Value
    requires InKeys(path)
    decreases |path|
  {
    if path == [] then v else At(Get(v, MODEL_KEYS[path[0]]), path[1..])
  }

  predicate IsPath(path: Path, levels: nat) { |path| <= levels && InKeys(path) }

  /** The model named at this place: a text that is not blank, without the blanks around it. */
  function NameAt(v: Value, path: Path): string
    requires InKeys(path)
  {
    match At(v, path)
    case Str(s) => Trim(s)
    case _ => ""
  }

  /** The place comes first: at the first level where the two differ its key has the smaller number. */
  predicate Earlier(a: Path, b: Path) {
    a != [] && b != [] && (a[0] < b[0] || (a[0] == b[0] && Earlier(a[1..], b[1..])))
  }

  /** The first place, in the order of the keys at each level, that names a model. */
  ghost predicate FirstName(v: Value, levels: nat, path: Path) {
    && IsPath(path, levels) && NameAt(v, path) != ""
    && forall other: Path :: IsPath(other, levels) && Earlier(other, path) ==> NameAt(v, other) == ""
  }

  ghost predicate Nameless(v: Value, levels: nat) {
    forall path: Path :: IsPath(path, levels) ==> NameAt(v, path) == ""
  }

  lemma BelowKey(v: Value, k: nat, rest: Path, levels: nat)
    requires k < |MODEL_KEYS| && IsPath(rest, levels)
    ensures IsPath([k] + rest, levels + 1) && NameAt(v, [k] + rest) == NameAt(Get(v, MODEL_KEYS[k]), rest)
  {
    assert ([k] + rest)[1..] == rest;
  }

  lemma FromKey(v: Value, path: Path, levels: nat)
    requires IsPath(path, levels) && path != []
    ensures levels > 0 && path[0] < |MODEL_KEYS| && IsPath(path[1..], levels - 1)
    ensures NameAt(v, path) == NameAt(Get(v, MODEL_KEYS[path[0]]), path[1..])
  {
  }

  /** From key `k` on, the search under an object finds the first name that lies there. */
  ghost predicate FoundFrom(v: Value, k: nat, levels: nat, model: string, path: Path) {
    if model == "" then forall p: Path :: IsPath(p, levels) && p != [] && p[0] >= k ==> NameAt(v, p) == ""
    else
      && IsPath(path, levels) && path != [] && path[0] >= k && NameAt(v, path) == model
      && forall p: Path :: IsPath(p, levels) && Earlier(p, path) && p != [] && p[0] >= k ==> NameAt(v, p) == ""
  }

  lemma {:induction false} SearchFinds(v: Value, depth: nat) returns (path: Path)
    requires depth <= 4
    ensures var model := ModelFromValue(v, depth);
            if model == "" then Nameless(v, 4 - depth)
            else FirstName(v, 4 - depth, path) && NameAt(v, path) == model
    decreases 4 - depth, |MODEL_KEYS| + 1
  {
    hide NameAt, FirstName, Nameless, FoundFrom, FirstModel, Get, MODEL_KEYS, InKeys, Earlier, Trim;
    path := [];
    if v.Object? && depth <= 3 {
      assert MODEL_KEYS[0..] == MODEL_KEYS;
      path := KeysFind(v, 0, depth);
      ObjectNames(v);
      FoundAnywhere(v, 4 - depth, FirstModel(v, MODEL_KEYS, depth), path);
    } else {
      LeafNames(v, 4 - depth);
      LeafIsFirst(v, 4 - depth);
    }
  }

  lemma FoundAnywhere(v: Value, levels: nat, model: string, path: Path)
    requires FoundFrom(v, 0, levels, model, path) && NameAt(v, []) == ""
    ensures if model == "" then Nameless(v, levels) else FirstName(v, levels, path) && NameAt(v, path) == model
  {
    hide NameAt, InKeys;
    assert forall p: Path :: Earlier(p, path) ==> p != [];
  }

  lemma LeafIsFirst(v: Value, levels: nat)
    requires forall p: Path :: IsPath(p, levels) && p != [] ==> NameAt(v, p) == ""
    ensures if NameAt(v, []) == "" then Nameless(v, levels) else FirstName(v, levels, [])
  {
    hide NameAt;
  }

  /** An object is no name, and neither is anything below what is no object. */
  lemma ObjectNames(v: Value)
    requires v.Object?
    ensures NameAt(v, []) == ""
  {}

  lemma LeafNames(v: Value, levels: nat)
    requires !v.Object? || levels == 0
    ensures forall p: Path :: IsPath(p, levels) && p != [] ==> NameAt(v, p) == ""
    ensures NameAt(v, []) == if v.Str? then Trim(v.text) else ""
  {
    forall p: Path | IsPath(p, levels) && p != []
      ensures NameAt(v, p) == ""
    {
      FromKey(v, p, levels);
      NothingBelow(p[1..], levels - 1);
    }
  }

  lemma {:induction false} NothingBelow(p: Path, levels: nat)
    requires IsPath(p, levels)
    ensures NameAt(Undefined, p) == ""
  {
    if p != [] {
      FromKey(Undefined, p, levels);
      NothingBelow(p[1..], levels - 1);
    }
  }

  lemma {:induction false} KeysFind(v: Value, k: nat, depth: nat) returns (path: Path)
    requires k <= |MODEL_KEYS| && depth <= 3 && v.Object?
    ensures FoundFrom(v, k, 4 - depth, FirstModel(v, MODEL_KEYS[k..], depth), path)
    decreases 4 - depth, |MODEL_KEYS| - k
  {
    hide NameAt, FirstName, Nameless, Earlier, Get, MODEL_KEYS, Trim;
    path := [];
    var levels := 4 - depth;
    if k < |MODEL_KEYS| {
      var x := Get(v, MODEL_KEYS[k]);
      assert MODEL_KEYS[k..][0] == MODEL_KEYS[k] && MODEL_KEYS[k..][1..] == MODEL_KEYS[k + 1..];
      var below := SearchFinds(x, depth + 1);
      var model := ModelFromValue(x, depth + 1);
      if model != "" {
        path := [k] + below;
        FoundHere(v, k, levels, below);
      } else {
        path := KeysFind(v, k + 1, depth);
        FoundFurther(v, k, levels, FirstModel(v, MODEL_KEYS[k + 1..], depth), path);
      }
    } else {
      assert MODEL_KEYS[k..] == [];
    }
  }

  lemma EarlierBelow(p: Path, k: nat, below: Path)
    requires Earlier(p, [k] + below) && p[0] >= k
    ensures p[0] == k && Earlier(p[1..], below)
  {
    assert ([k] + below)[1..] == below;
  }

  lemma FoundHere(v: Value, k: nat, levels: nat, below: Path)
    requires k < |MODEL_KEYS| && levels > 0 && FirstName(Get(v, MODEL_KEYS[k]), levels - 1, below)
    ensures FoundFrom(v, k, levels, NameAt(Get(v, MODEL_KEYS[k]), below), [k] + below)
  {
    hide NameAt, Earlier, Get;
    BelowKey(v, k, below, levels - 1);
    var path := [k] + below;
    forall p: Path | IsPath(p, levels) && Earlier(p, path) && p != [] && p[0] >= k
      ensures NameAt(v, p) == ""
    {
      EarlierBelow(p, k, below);
      FromKey(v, p, levels);
    }
  }

  lemma FoundFurther(v: Value, k: nat, levels: nat, model: string, path: Path)
    requires k < |MODEL_KEYS| && levels > 0 && Nameless(Get(v, MODEL_KEYS[k]), levels - 1)
    requires FoundFrom(v, k + 1, levels, model, path)
    ensures FoundFrom(v, k, levels, model, path)
  {
    hide NameAt, Earlier, Get;
    forall p: Path | IsPath(p, levels) && p != [] && p[0] == k
      ensures NameAt(v, p) == ""
    {
      FromKey(v, p, levels);
    }
  }

  /** Two places cannot both be the first. */
  lemma FirstNameIsUnique(v: Value, levels: nat, a: Path, b: Path)
    requires FirstName(v, levels, a) && FirstName(v, levels, b)
    ensures a == b
  {
    OneIsEarlier(v, a, b, levels);
  }

  /** Of two different places that name models one comes first: neither lies below the other. */
  lemma {:induction false} OneIsEarlier(v: Value, a: Path, b: Path, levels: nat)
    requires IsPath(a, levels) && IsPath(b, levels) && NameAt(v, a) != "" && NameAt(v, b) != ""
    ensures a == b || Earlier(a, b) || Earlier(b, a)
    decreases levels
  {
    hide NameAt, InKeys;
    if a != [] && b != [] {
      FromKey(v, a, levels);
      FromKey(v, b, levels);
      if a[0] == b[0] {
        OneIsEarlier(Get(v, MODEL_KEYS[a[0]]), a[1..], b[1..], levels - 1);
        assert a == [a[0]] + a[1..] && b == [b[0]] + b[1..];
      }
    } else if v.Object? {
      ObjectNames(v);
    } else {
      LeafNames(v, levels);
    }
  }
}
