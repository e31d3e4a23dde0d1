/**
 Adding the plugin marketplaces found on this machine to the list that the server sent. What the server sent
 stays where it is; a local marketplace of a known name only contributes the plugins that are missing.
 */
module Marketplaces {
  import opened Text
  import opened Wrappers

  /** An element of a plugin list. A field that is missing is the empty text; `rest` stands for the other fields. */
  datatype Item =
    | Junk(tag: nat)
    | Plugin(name: string, id: string, pluginName: string, market: string, path: string,
             displayName: string, keywords: Option<seq<string>>, rest: nat)

  /** An element of a marketplace list. `plugins` is None when it is not a list. */
  datatype Entry =
    | Stray(tag: nat)
    | Market(name: string, plugins: Option<seq<Item>>, rest: nat)

  function OrElse(a: string, b: string): string { if a != "" then a else b }

  function Key(p: Item): string {
    if p.Junk? then "" else Trim(OrElse(p.name, OrElse(p.id, p.pluginName)))
  }

  function Restore(name: string): string {
    if name == "codex-plus-openai-bundled" then "openai-bundled"
    else if name == "codex-plus-openai-curated" then "openai-curated"
    else if name == "codex-plus-openai-primary-runtime" then "openai-primary-runtime"
    else if name == "codex-plus-openai-api-curated" then "openai-api-curated"
    else if name == "codex-plus-openai-curated-remote" then "openai-curated-remote"
    else name
  }

  function NameOf(m: Entry): string { if m.Stray? then "" else Restore(m.name) }

  /** A copy of a local plugin with its missing fields filled in. */
  function Localized(p: Item, market: string): (r: Item)
    requires Key(p) != ""
    ensures Key(r) == Key(p)
  {
    var name := Key(p);
    TrimIdempotent(OrElse(p.name, OrElse(p.id, p.pluginName)));
    Plugin(OrElse(p.name, name), OrElse(p.id, name + "@" + market), p.pluginName, OrElse(p.market, market),
           OrElse(p.path, market), OrElse(p.displayName, name), if p.keywords.None? then Some([]) else p.keywords,
               p.rest)
  }

  // ---------------------------------------------------------------------------------------------
  // Plugins of one marketplace

  predicate HasKey(items: seq<Item>, key: string) { exists p <- items :: Key(p) == key }

  function AddPlugin(items: seq<Item>, p: Item, market: string): seq<Item> {
    if Key(p) == "" || HasKey(items, Key(p)) then items else items + [Localized(p, market)]
  }

  function AddPlugins(items: seq<Item>, more: seq<Item>, market: string): seq<Item> {
    if more == [] then items
    else AddPlugin(AddPlugins(items, more[..|more| - 1], market), more[|more| - 1], market)
  }

  function LocalizedAll(items: seq<Item>, market: string): seq<Item> {
    if items == [] then []
    else
      var front, p := LocalizedAll(items[..|items| - 1], market), items[|items| - 1];
      if Key(p) == "" then front else front + [Localized(p, market)]
  }

  /** The keys after `items` are all different from each other and from the keys in `items`. */
  ghost predicate AddsNoDuplicate(items: seq<Item>, all: seq<Item>) {
    && items <= all
    && forall j :: |items| <= j < |all| ==> NewAt(all, j)
  }

  /** The plugin at `j` has a key that none before it has. */
  ghost predicate NewAt(all: seq<Item>, j: nat)
    requires j < |all|
  {
    Key(all[j]) != "" && forall i :: 0 <= i < j ==> Key(all[i]) != Key(all[j])
  }

  lemma NewAtGrows(all: seq<Item>, more: seq<Item>, j: nat)
    requires j < |all| && all <= more && NewAt(all, j)
    ensures NewAt(more, j)
  {
    hide Key;
    assert forall i :: 0 <= i <= j ==> more[i] == all[i];
  }

  lemma NewAtEnd(all: seq<Item>, q: Item)
    requires Key(q) != "" && !HasKey(all, Key(q))
    ensures NewAt(all + [q], |all|)
  {
    hide Key;
    assert forall i :: 0 <= i < |all| ==> all[i] in all;
  }

  /** Every keyed plugin of `wanted` is there under its key. */
  ghost predicate Covers(items: seq<Item>, wanted: seq<Item>) {
    forall p <- wanted :: Key(p) != "" ==> HasKey(items, Key(p))
  }

  lemma AddPluginEffect(items: seq<Item>, all: seq<Item>, p: Item, market: string)
    requires AddsNoDuplicate(items, all)
    ensures var r := AddPlugin(all, p, market);
            AddsNoDuplicate(items, r) && all <= r && (Key(p) != "" ==> HasKey(r, Key(p)))
  {
    hide Key, Localized, HasKey, NewAt;
    if Key(p) != "" && !HasKey(all, Key(p)) {
      var q := Localized(p, market);
      NewAtEnd(all, q);
      HasLast(all + [q]);
      forall j | |items| <= j < |all|
        ensures NewAt(all + [q], j)
      {
        NewAtGrows(all, all + [q], j);
      }
    }
  }

  lemma HasKeyGrows(items: seq<Item>, more: seq<Item>, key: string)
    requires items <= more && HasKey(items, key)
    ensures HasKey(more, key)
  {
    hide Key;
    assert forall p <- items :: p in more;
  }

  lemma CoversGrows(items: seq<Item>, more: seq<Item>, wanted: seq<Item>)
    requires items <= more && Covers(items, wanted)
    ensures Covers(more, wanted)
  {
    hide Key, HasKey;
    forall p <- wanted | Key(p) != ""
      ensures HasKey(more, Key(p))
    {
      HasKeyGrows(items, more, Key(p));
    }
  }

  lemma {:induction false} AddPluginsEffect(items: seq<Item>, more: seq<Item>, market: string)
    ensures AddsNoDuplicate(items, AddPlugins(items, more, market))
    ensures Covers(AddPlugins(items, more, market), more)
  {
    hide Key, AddPlugin, HasKey, Covers, AddsNoDuplicate;
    if more == [] {
      NothingAdded(items);
    } else {
      var front, p := more[..|more| - 1], more[|more| - 1];
      var before := AddPlugins(items, front, market);
      AddPluginsEffect(items, front, market);
      AddPluginEffect(items, before, p, market);
      CoversGrows(before, AddPlugin(before, p, market), front);
      CoversOneMore(AddPlugin(before, p, market), front, p);
      assert front + [p] == more;
    }
  }

  lemma NothingAdded(items: seq<Item>)
    ensures AddsNoDuplicate(items, items) && Covers(items, [])
  {}

  lemma CoversOneMore(items: seq<Item>, wanted: seq<Item>, p: Item)
    requires Covers(items, wanted) && (Key(p) != "" ==> HasKey(items, Key(p)))
    ensures Covers(items, wanted + [p])
  {
    hide Key, HasKey;
  }

  lemma {:induction false} NothingToAdd(items: seq<Item>, more: seq<Item>, market: string)
    requires Covers(items, more)
    ensures AddPlugins(items, more, market) == items
  {
    hide Key, HasKey;
    if more != [] {
      assert more[|more| - 1] in more && forall p <- more[..|more| - 1] :: p in more;
      NothingToAdd(items, more[..|more| - 1], market);
    }
  }

  lemma {:induction false} LocalizedAllCovers(items: seq<Item>, market: string)
    ensures Covers(LocalizedAll(items, market), items)
  {
    hide Key, HasKey, Covers, Localized;
    if items == [] {
      NothingAdded([]);
    } else {
      var front, p := items[..|items| - 1], items[|items| - 1];
      LocalizedAllCovers(front, market);
      var all := LocalizedAll(items, market);
      CoversGrows(LocalizedAll(front, market), all, front);
      if Key(p) != "" {
        HasLast(all);
      }
      CoversOneMore(all, front, p);
      assert front + [p] == items;
    }
  }

  lemma HasLast(items: seq<Item>)
    requires items != []
    ensures HasKey(items, Key(items[|items| - 1]))
  {}

  // ---------------------------------------------------------------------------------------------
  // Marketplaces

  /** The last marketplace of a name, or -1. */
  function Last(markets: seq<Entry>, name: string): (k: int)
    ensures -1 <= k < |markets|
    ensures k >= 0 ==> NameOf(markets[k]) == name
    ensures forall i :: k < i < |markets| ==> NameOf(markets[i]) != name
  {
    LastBelow(markets, name, |markets|)
  }

  function LastBelow(markets: seq<Entry>, name: string, n: nat): (k: int)
    requires n <= |markets|
    ensures -1 <= k < n
    ensures k >= 0 ==> NameOf(markets[k]) == name
    ensures forall i :: k < i < n ==> NameOf(markets[i]) != name
  {
    if n == 0 then -1 else if NameOf(markets[n - 1]) == name then n - 1 else LastBelow(markets, name, n - 1)
  }

  function ItemsOf(m: Entry): seq<Item> { if m.Stray? then [] else m.plugins.GetOr([]) }

  function Extended(m: Entry, source: Entry): Entry
    requires m.Market? && source.Market?
  {
    if source.plugins.None? then m
    else m.(plugins := Some(AddPlugins(ItemsOf(m), source.plugins.value, Restore(OrElse(m.name, source.name)))))
  }

  function Fresh(source: Entry): Entry
    requires source.Market?
  {
    source.(plugins := Some(LocalizedAll(ItemsOf(source), NameOf(source))))
  }

  function MergeOne(markets: seq<Entry>, local: Entry): seq<Entry> {
    var name := NameOf(local);
    var k := Last(markets, name);
    if name == "" then markets
    else if k >= 0 then markets[k := Extended(markets[k], local)]
    else markets + [Fresh(local)]
  }

  function MergeAll(markets: seq<Entry>, locals: seq<Entry>): seq<Entry> {
    if locals == [] then markets
    else MergeOne(MergeAll(markets, locals[..|locals| - 1]), locals[|locals| - 1])
  }

  function PluginCount(markets: seq<Entry>): nat {
    if markets == [] then 0 else PluginCount(markets[..|markets| - 1]) + |ItemsOf(markets[|markets| - 1])|
  }

  lemma {:induction false} CountAfterUpdate(markets: seq<Entry>, k: nat, m: Entry)
    requires k < |markets|
    ensures PluginCount(markets[k := m]) == PluginCount(markets) + |ItemsOf(m)| - |ItemsOf(markets[k])|
  {
    hide ItemsOf;
    var n := |markets| - 1;
    if k < n {
      CountAfterUpdate(markets[..n], k, m);
      assert markets[k := m][..n] == markets[..n][k := m];
    } else {
      assert markets[k := m][..n] == markets[..n];
    }
  }

  /** The answer of the server as it is being patched; None when it holds no list of marketplaces. */
  class Catalog {
    var marketplaces: Option<seq<Entry>>

    constructor (answer: Option<seq<Entry>>)
      ensures marketplaces == answer
    {
      marketplaces := answer;
    }

    method MergePluginMarketplacePlugins(k: nat, source: Entry) returns (added: nat)
      requires marketplaces.Some? && k < |marketplaces.value| && marketplaces.value[k].Market? && source.Market?
      modifies this
      ensures marketplaces == Some(old(marketplaces).value[k := Extended(old(marketplaces).value[k], source)])
      ensures added == |ItemsOf(marketplaces.value[k])| - |ItemsOf(old(marketplaces).value[k])|
    {
      hide Key, HasKey, Localized, AddPlugin, AddPlugins, Restore;
      added := 0;
      var before := marketplaces.value;
      var target := before[k];
      if source.plugins.None? {
        assert before[k := target] == before;
        return;
      }
      var items, start := ItemsOf(target), ItemsOf(target);
      var market := Restore(OrElse(target.name, source.name));
      var existing := set p | p in items && Key(p) != "" :: Key(p);
      ExistingKeys(items, existing);
      AddNone(start, market);
      var i := 0;
      while i < |source.plugins.value|
        invariant i <= |source.plugins.value|
        invariant items == AddPlugins(start, source.plugins.value[..i], market)
        invariant |items| == |start| + added
        invariant KeysAre(items, existing)
      {
        var p := source.plugins.value[i];
        var key := Key(p);
        AddOneMore(start, source.plugins.value[..i], p, market);
        assert source.plugins.value[..i] + [p] == source.plugins.value[..i + 1];
        AddAsSeen(items, existing, p, market);
        if key != "" && key !in existing {
          items := items + [Localized(p, market)];
          existing := existing + {key};
          added := added + 1;
        }
        i := i + 1;
      }
      assert source.plugins.value[..i] == source.plugins.value;
      marketplaces := Some(before[k := target.(plugins := Some(items))]);
    }

    method MergeLocalPluginMarketplaces(locals: seq<Entry>) returns (addedMarketplaces: nat, addedPlugins: nat)
      modifies this
      ensures old(marketplaces).None? ==> marketplaces.None? && addedMarketplaces == 0 && addedPlugins == 0
      ensures old(marketplaces).Some? ==>
                && marketplaces == Some(MergeAll(old(marketplaces).value, locals))
                && addedMarketplaces == |marketplaces.value| - |old(marketplaces).value|
                && addedPlugins == PluginCount(marketplaces.value) - PluginCount(old(marketplaces).value)
    {
      hide Key, Localized, AddPlugins, LocalizedAll, Restore, PluginCount, NameOf, MergeOne, MergeAll, Extended, Fresh,
          Last;
      addedMarketplaces, addedPlugins := 0, 0;
      if marketplaces.None? {
        return;
      }
      ghost var start := marketplaces.value;
      MergeNone(start);
      if locals == [] {
        return;
      }
      var byName: map<string, nat> := map[];
      var i := 0;
      IndexNone(marketplaces.value);
      while i < |marketplaces.value|
        invariant marketplaces == Some(start) && i <= |start|
        invariant Indexes(byName, start[..i])
      {
        var name := NameOf(marketplaces.value[i]);
        IndexOneMore(byName, start[..i], start[i]);
        assert start[..i] + [start[i]] == start[..i + 1];
        if name != "" {
          byName := byName[name := i];
        }
        i := i + 1;
      }
      assert start[..i] == start;
      i := 0;
      while i < |locals|
        invariant i <= |locals|
        invariant marketplaces == Some(MergeAll(start, locals[..i]))
        invariant Indexes(byName, marketplaces.value)
        invariant addedMarketplaces == |marketplaces.value| - |start|
        invariant addedPlugins == PluginCount(marketplaces.value) - PluginCount(start)
      {
        var local := locals[i];
        var name := NameOf(local);
        var before := marketplaces.value;
        MergeOneMore(start, locals[..i], local);
        assert locals[..i] + [local] == locals[..i + 1];
        MergeOneCases(before, local);
        IndexFinds(byName, before, name);
        if name != "" {
          if name in byName {
            var k := byName[name];
            NamedIsMarket(before[k]);
            NamedIsMarket(local);
            var more := MergePluginMarketplacePlugins(k, local);
            CountAfterUpdate(before, k, marketplaces.value[k]);
            ExtendedNames(before[k], local);
            IndexUpdated(byName, before, k, marketplaces.value[k]);
            addedPlugins := addedPlugins + more;
          } else {
            NamedIsMarket(local);
            var cloned := Fresh(local);
            FreshNames(local);
            marketplaces := Some(before + [cloned]);
            IndexOneMore(byName, before, cloned);
            byName := byName[name := |before|];
            CountOneMore(before, cloned);
            addedMarketplaces := addedMarketplaces + 1;
            addedPlugins := addedPlugins + |ItemsOf(cloned)|;
          }
        }
        i := i + 1;
      }
      assert locals[..i] == locals;
    }
  }

  // Facts for the loops

  ghost predicate KeysAre(items: seq<Item>, keys: set<string>) {
    forall key :: key in keys <==> key != "" && HasKey(items, key)
  }

  lemma ExistingKeys(items: seq<Item>, keys: set<string>)
    requires keys == set p | p in items && Key(p) != "" :: Key(p)
    ensures KeysAre(items, keys)
  {
    hide Key;
  }

  lemma AddNone(items: seq<Item>, market: string)
    ensures AddPlugins(items, [], market) == items
  {}

  lemma AddOneMore(items: seq<Item>, more: seq<Item>, p: Item, market: string)
    ensures AddPlugins(items, more + [p], market) == AddPlugin(AddPlugins(items, more, market), p, market)
  {
    assert (more + [p])[..|more|] == more;
  }

  lemma AddAsSeen(items: seq<Item>, keys: set<string>, p: Item, market: string)
    requires KeysAre(items, keys)
    ensures AddPlugin(items, p, market) == if Key(p) != "" && Key(p) !in keys then items + [Localized(p, market)]
        else items
    ensures Key(p) != "" ==> KeysAre(items + [Localized(p, market)], keys + {Key(p)})
  {
    hide Key, Localized;
    if Key(p) != "" {
      var more := items + [Localized(p, market)];
      assert Localized(p, market) in more && forall q <- items :: q in more;
    }
  }

  lemma MergeNone(markets: seq<Entry>)
    ensures MergeAll(markets, []) == markets
  {}

  lemma MergeOneMore(markets: seq<Entry>, locals: seq<Entry>, local: Entry)
    ensures MergeAll(markets, locals + [local]) == MergeOne(MergeAll(markets, locals), local)
  {
    assert (locals + [local])[..|locals|] == locals;
  }

  lemma NamedIsMarket(m: Entry)
    requires NameOf(m) != ""
    ensures m.Market?
  {}

  lemma MergeOneCases(markets: seq<Entry>, local: Entry)
    ensures NameOf(local) == "" ==> MergeOne(markets, local) == markets
    ensures NameOf(local) != "" ==>
              var k := Last(markets, NameOf(local));
              && local.Market? && (k >= 0 ==> markets[k].Market?)
              && MergeOne(markets, local) == if k >= 0 then markets[k := Extended(markets[k], local)]
                  else markets + [Fresh(local)]
  {
    hide Extended, Fresh, Last;
  }

  /** The table of names leads to the last marketplace of every name. */
  ghost predicate Indexes(byName: map<string, nat>, markets: seq<Entry>) {
    forall name :: name != "" ==> IndexesName(byName, markets, name)
  }

  ghost predicate IndexesName(byName: map<string, nat>, markets: seq<Entry>, name: string) {
    if name in byName then Last(markets, name) == byName[name] else Last(markets, name) == -1
  }

  lemma IndexNone(markets: seq<Entry>)
    ensures Indexes(map[], markets[..0])
  {}

  lemma IndexOneMore(byName: map<string, nat>, markets: seq<Entry>, m: Entry)
    requires Indexes(byName, markets)
    ensures Indexes(if NameOf(m) != "" then byName[NameOf(m) := |markets|] else byName, markets + [m])
  {
    hide NameOf, Last;
    var r := if NameOf(m) != "" then byName[NameOf(m) := |markets|] else byName;
    forall name: string | name != ""
      ensures IndexesName(r, markets + [m], name)
    {
      assert IndexesName(byName, markets, name);
      LastOfMore(markets, m, name);
    }
  }

  lemma LastOfMore(markets: seq<Entry>, m: Entry, name: string)
    ensures Last(markets + [m], name) == if NameOf(m) == name then |markets| else Last(markets, name)
  {
    hide NameOf, Last;
    var more := markets + [m];
    assert forall i :: 0 <= i < |markets| ==> more[i] == markets[i];
    var j, k := Last(more, name), Last(markets, name);
    assert NameOf(more[|markets|]) == NameOf(m);
  }

  lemma IndexFinds(byName: map<string, nat>, markets: seq<Entry>, name: string)
    requires Indexes(byName, markets)
    ensures name != "" ==>
              var k := Last(markets, name);
              -1 <= k < |markets| && (k >= 0 ==> NameOf(markets[k]) == name) && (name in byName <==> k >= 0)
                  && (k >= 0 ==> byName[name] == k)
  {
    hide NameOf, Last;
    assert name != "" ==> IndexesName(byName, markets, name);
  }

  lemma IndexUpdated(byName: map<string, nat>, markets: seq<Entry>, k: nat, m: Entry)
    requires Indexes(byName, markets) && k < |markets| && NameOf(m) == NameOf(markets[k])
    ensures Indexes(byName, markets[k := m])
  {
    hide NameOf, Last;
    var r := markets[k := m];
    forall name: string | name != ""
      ensures IndexesName(byName, r, name)
    {
      assert IndexesName(byName, markets, name);
      LastOfUpdated(markets, k, m, name);
    }
  }

  lemma LastOfUpdated(markets: seq<Entry>, k: nat, m: Entry, name: string)
    requires k < |markets| && NameOf(m) == NameOf(markets[k])
    ensures Last(markets[k := m], name) == Last(markets, name)
  {
    hide NameOf, Last;
    assert forall i :: 0 <= i < |markets| ==> NameOf(markets[k := m][i]) == NameOf(markets[i]);
  }

  lemma ExtendedNames(m: Entry, source: Entry)
    requires m.Market? && source.Market?
    ensures NameOf(Extended(m, source)) == NameOf(m)
  {}

  lemma FreshNames(source: Entry)
    requires source.Market?
    ensures NameOf(Fresh(source)) == NameOf(source)
  {}

  lemma CountOneMore(markets: seq<Entry>, m: Entry)
    ensures PluginCount(markets + [m]) == PluginCount(markets) + |ItemsOf(m)|
  {
    hide ItemsOf;
    assert (markets + [m])[..|markets|] == markets;
  }

  // ---------------------------------------------------------------------------------------------
  // What a merge keeps and adds

  /** `after` is `before` with plugins of new keys added at the end, if with anything. */
  ghost predicate Grows(before: Entry, after: Entry) {
    && before.Market? == after.Market?
    && (before.Stray? ==> after == before)
    && (before.Market? ==> after.name == before.name && after.rest == before.rest)
    && (before.Market? && before.plugins.Some? ==> after.Market? && after.plugins.Some?)
    && AddsNoDuplicate(ItemsOf(before), ItemsOf(after))
  }

  /** Everything stays in its place, and grows at most. */
  ghost predicate AllGrow(before: seq<Entry>, after: seq<Entry>) {
    |before| <= |after| && forall i :: 0 <= i < |before| ==> Grows(before[i], after[i])
  }

  lemma ExtendedGrows(first: Entry, m: Entry, source: Entry)
    requires Grows(first, m) && m.Market? && source.Market?
    ensures Grows(first, Extended(m, source))
  {
    hide Restore, AddsNoDuplicate, AddPlugins;
    if source.plugins.Some? {
      AddPluginsStay(ItemsOf(first), ItemsOf(m), source.plugins.value, Restore(OrElse(m.name, source.name)));
    }
  }

  lemma AddPluginsStay(items: seq<Item>, all: seq<Item>, more: seq<Item>, market: string)
    requires AddsNoDuplicate(items, all)
    ensures AddsNoDuplicate(items, AddPlugins(all, more, market))
  {
    hide Key, AddPlugins, Covers;
    AddPluginsEffect(all, more, market);
    NoDuplicateAfterAll(items, all, AddPlugins(all, more, market));
  }

  lemma NoDuplicateAfterAll(items: seq<Item>, all: seq<Item>, more: seq<Item>)
    requires AddsNoDuplicate(items, all) && AddsNoDuplicate(all, more)
    ensures AddsNoDuplicate(items, more)
  {
    hide NewAt;
    forall j | |items| <= j < |more|
      ensures NewAt(more, j)
    {
      if j < |all| {
        NewAtGrows(all, more, j);
      }
    }
    PrefixTwice(items, all, more);
  }

  lemma PrefixTwice(items: seq<Item>, all: seq<Item>, more: seq<Item>)
    requires items <= all && all <= more
    ensures items <= more
  {
    assert forall i :: 0 <= i < |items| ==> more[i] == all[i] == items[i];
  }

  lemma GrowsAtOnce(m: Entry)
    ensures Grows(m, m)
  {}

  lemma MergeOneGrows(first: seq<Entry>, markets: seq<Entry>, local: Entry)
    requires AllGrow(first, markets)
    ensures AllGrow(first, MergeOne(markets, local))
  {
    hide Grows, MergeOne, Extended, Fresh, NameOf, Last;
    MergeOneCases(markets, local);
    if NameOf(local) != "" {
      var k := Last(markets, NameOf(local));
      if 0 <= k < |first| {
        ExtendedGrows(first[k], markets[k], local);
      }
    }
  }

  /**
   Whatever is merged, every marketplace of the server stays in its place under its name with its plugins in
   front, and what is added to it has keys, all of them new and all different.
   */
  lemma {:induction false} ServerListStays(markets: seq<Entry>, locals: seq<Entry>)
    ensures AllGrow(markets, MergeAll(markets, locals))
  {
    hide Grows, MergeOne;
    if locals == [] {
      forall i | 0 <= i < |markets|
        ensures Grows(markets[i], markets[i])
      {
        GrowsAtOnce(markets[i]);
      }
    } else {
      ServerListStays(markets, locals[..|locals| - 1]);
      MergeOneGrows(markets, MergeAll(markets, locals[..|locals| - 1]), locals[|locals| - 1]);
    }
  }

  /** Everything a local marketplace has to offer is there, in the last marketplace of its name. */
  ghost predicate Holds(markets: seq<Entry>, local: Entry) {
    NameOf(local) == "" ||
    var k := Last(markets, NameOf(local));
    k >= 0 && Offers(markets[k], local)
  }

  ghost predicate Offers(m: Entry, local: Entry) {
    && (ItemsOf(local) != [] || (local.Market? && local.plugins.Some?) ==> m.Market? && m.plugins.Some?)
    && Covers(ItemsOf(m), ItemsOf(local))
  }

  lemma ExtendedOffers(m: Entry, source: Entry)
    requires m.Market? && source.Market?
    ensures Offers(Extended(m, source), source)
    ensures forall other :: Offers(m, other) ==> Offers(Extended(m, source), other)
  {
    hide Restore, AddPlugins, Covers, Key;
    NothingAdded(ItemsOf(m));
    if source.plugins.Some? {
      var market := Restore(OrElse(m.name, source.name));
      AddPluginsEffect(ItemsOf(m), source.plugins.value, market);
      forall other | Offers(m, other)
        ensures Offers(Extended(m, source), other)
      {
        CoversGrows(ItemsOf(m), AddPlugins(ItemsOf(m), source.plugins.value, market), ItemsOf(other));
      }
    }
  }

  lemma FreshOffers(source: Entry)
    requires source.Market?
    ensures Offers(Fresh(source), source)
  {
    hide Covers, LocalizedAll, Restore;
    LocalizedAllCovers(ItemsOf(source), NameOf(source));
  }

  lemma MergeOneHolds(markets: seq<Entry>, local: Entry)
    ensures Holds(MergeOne(markets, local), local)
  {
    hide MergeOne, Extended, Fresh, NameOf, Last, Offers;
    MergeOneCases(markets, local);
    if NameOf(local) != "" {
      var k := Last(markets, NameOf(local));
      if k >= 0 {
        ExtendedOffers(markets[k], local);
        ExtendedNames(markets[k], local);
        LastOfUpdated(markets, k, Extended(markets[k], local), NameOf(local));
      } else {
        FreshOffers(local);
        FreshNames(local);
        LastOfMore(markets, Fresh(local), NameOf(local));
      }
    }
  }

  lemma HoldsStays(markets: seq<Entry>, local: Entry, other: Entry)
    requires Holds(markets, other)
    ensures Holds(MergeOne(markets, local), other)
  {
    hide MergeOne, Extended, Fresh, NameOf, Last, Offers;
    MergeOneCases(markets, local);
    if NameOf(local) != "" && NameOf(other) != "" {
      var k := Last(markets, NameOf(local));
      if k >= 0 {
        ExtendedOffers(markets[k], local);
        ExtendedNames(markets[k], local);
        LastOfUpdated(markets, k, Extended(markets[k], local), NameOf(other));
      } else {
        FreshNames(local);
        LastOfMore(markets, Fresh(local), NameOf(other));
      }
    }
  }

  /** Every keyed plugin of every named local marketplace is there afterwards. */
  lemma {:induction false} LocalPluginsArePresent(markets: seq<Entry>, locals: seq<Entry>)
    ensures forall local <- locals :: Holds(MergeAll(markets, locals), local)
  {
    hide MergeOne, Holds;
    if locals != [] {
      var front, last := locals[..|locals| - 1], locals[|locals| - 1];
      LocalPluginsArePresent(markets, front);
      MergeOneHolds(MergeAll(markets, front), last);
      forall local <- locals
        ensures Holds(MergeAll(markets, locals), local)
      {
        if local in front {
          HoldsStays(MergeAll(markets, front), last, local);
        }
      }
    }
  }

  /** A local marketplace changes nothing exactly when everything it offers is there already. */
  lemma MergeOneIsIdleIff(markets: seq<Entry>, local: Entry)
    ensures MergeOne(markets, local) == markets <==> Holds(markets, local)
  {
    hide MergeOne, Fresh, NameOf, Last, AddPlugins, Covers, Restore;
    MergeOneHolds(markets, local);
    MergeOneCases(markets, local);
    if Holds(markets, local) && NameOf(local) != "" {
      var k := Last(markets, NameOf(local));
      if local.plugins.Some? {
        NothingToAdd(ItemsOf(markets[k]), local.plugins.value, Restore(OrElse(markets[k].name, local.name)));
      }
      assert Extended(markets[k], local) == markets[k];
    }
  }

  /** Merging again what has been merged adds nothing, whichever part of it and in whatever order. */
  lemma {:induction false} MergingAgainAddsNothing(markets: seq<Entry>, locals: seq<Entry>, again: seq<Entry>)
    requires forall local <- again :: local in locals
    ensures var once := MergeAll(markets, locals);
            MergeAll(once, again) == once
  {
    hide MergeOne, Holds;
    if again != [] {
      var front, last := again[..|again| - 1], again[|again| - 1];
      assert last in again && forall local <- front :: local in again;
      MergingAgainAddsNothing(markets, locals, front);
      LocalPluginsArePresent(markets, locals);
      MergeOneIsIdleIff(MergeAll(markets, locals), last);
    }
  }

  // ---------------------------------------------------------------------------------------------
  // Where added plugins come from

  /** Filling in touches no field that holds something, and leaves no field empty that has to be filled. */
  lemma LocalizedOnlyFills(p: Item, market: string)
    requires Key(p) != ""
    ensures var r := Localized(p, market);
            && r.Plugin? && r.rest == p.rest && r.pluginName == p.pluginName
            && (p.name != "" ==> r.name == p.name) && (p.id != "" ==> r.id == p.id)
            && (p.market != "" ==> r.market == p.market) && (p.path != "" ==> r.path == p.path)
            && (p.displayName != "" ==> r.displayName == p.displayName)
                && (p.keywords.Some? ==> r.keywords == p.keywords)
            && (p.name == "" ==> r.name == Key(p)) && (p.id == "" ==> r.id == Key(p) + "@" + market)
            && (p.market == "" ==> r.market == market) && (p.path == "" ==> r.path == market)
            && (p.displayName == "" ==> r.displayName == Key(p)) && (p.keywords.None? ==> r.keywords == Some([]))
  {
    hide Trim;
  }

  const OFFICIAL :=
    ["openai-bundled", "openai-curated", "openai-primary-runtime", "openai-api-curated", "openai-curated-remote"]

  /** A local copy of one of the five official marketplaces goes by the official name, and nothing else is renamed. */
  lemma LocalCopiesAreOfficial(name: string)
    ensures name in OFFICIAL ==> Restore("codex-plus-" + name) == name
    ensures Restore(name) == name || (Restore(name) in OFFICIAL && name == "codex-plus-" + Restore(name))
  {
    LocalNames();
    RuntimeName();
    ApiName();
    RemoteName();
  }

  lemma LocalNames()
    ensures "codex-plus-" + "openai-bundled" == "codex-plus-openai-bundled"
    ensures "codex-plus-" + "openai-curated" == "codex-plus-openai-curated"
  {}

  lemma RuntimeName()
    ensures "codex-plus-" + "openai-primary-runtime" == "codex-plus-openai-primary-runtime"
  {}

  lemma ApiName()
    ensures "codex-plus-" + "openai-api-curated" == "codex-plus-openai-api-curated"
  {}

  lemma RemoteName()
    ensures "codex-plus-" + "openai-curated-remote" == "codex-plus-openai-curated-remote"
  {}

  /** A plugin goes by the first of its three names that is there. */
  lemma KeyIsFirstName(p: Item)
    requires p.Plugin?
    ensures Trim(p.name) != "" ==> Key(p) == Trim(p.name)
    ensures p.name == "" && Trim(p.id) != "" ==> Key(p) == Trim(p.id)
    ensures p.name == "" && p.id == "" ==> Key(p) == Trim(p.pluginName)
    ensures Key(p) != "" ==> Key(p) in {Trim(p.name), Trim(p.id), Trim(p.pluginName)}
  {
    TrimNothing();
    hide Trim;
  }

  lemma TrimNothing()
    ensures Trim("") == ""
  {}

  /** A filled-in copy of a plugin that some local marketplace of this name offers. */
  ghost predicate IsLocal(x: Item, name: string, locals: seq<Entry>) {
    exists local, p ::
      local in locals && NameOf(local) == name && p in ItemsOf(local) && Key(p) != "" && x == Localized(p, name)
  }

  /** Every plugin of the marketplace was there or is local. */
  ghost predicate Accounted(m: Entry, was: seq<Item>, locals: seq<Entry>) {
    forall x <- ItemsOf(m) :: x in was || IsLocal(x, NameOf(m), locals)
  }

  /** The plugins that marketplace `i` had, none if it is new. */
  function Before(markets: seq<Entry>, i: nat): seq<Item> { if i < |markets| then ItemsOf(markets[i]) else [] }

  ghost predicate AllAccounted(first: seq<Entry>, markets: seq<Entry>, locals: seq<Entry>) {
    forall i :: 0 <= i < |markets| ==> Accounted(markets[i], Before(first, i), locals)
  }

  lemma {:induction false} AddedComeFrom(items: seq<Item>, more: seq<Item>, market: string)
    ensures forall x <- AddPlugins(items, more, market) ::
              x in items || exists p :: p in more && Key(p) != "" && x == Localized(p, market)
  {
    hide Key, Localized, HasKey;
    if more != [] {
      AddedComeFrom(items, more[..|more| - 1], market);
      assert more[|more| - 1] in more && forall p <- more[..|more| - 1] :: p in more;
    }
  }

  lemma {:induction false} LocalizedComeFrom(items: seq<Item>, market: string)
    ensures forall x <- LocalizedAll(items, market) ::
              exists p :: p in items && Key(p) != "" && x == Localized(p, market)
  {
    hide Key, Localized;
    if items != [] {
      LocalizedComeFrom(items[..|items| - 1], market);
      assert items[|items| - 1] in items && forall p <- items[..|items| - 1] :: p in items;
    }
  }

  lemma ExtendedIsAccounted(m: Entry, was: seq<Item>, locals: seq<Entry>, source: Entry)
    requires m.Market? && source.Market? && source in locals
    requires NameOf(m) == NameOf(source) != "" && Accounted(m, was, locals)
    ensures Accounted(Extended(m, source), was, locals)
  {
    hide Key, Localized, AddPlugins, IsLocal;
    if source.plugins.Some? {
      assert Restore(OrElse(m.name, source.name)) == NameOf(m);
      ExtendedNames(m, source);
      hide NameOf, Restore;
      AddedComeFrom(ItemsOf(m), source.plugins.value, NameOf(m));
      forall x | x in ItemsOf(Extended(m, source))
        ensures x in was || IsLocal(x, NameOf(m), locals)
      {
        if x !in ItemsOf(m) {
          var p :| p in source.plugins.value && Key(p) != "" && x == Localized(p, NameOf(m));
          LocalWitness(x, NameOf(m), locals, source, p);
        }
      }
    }
  }

  lemma LocalWitness(x: Item, name: string, locals: seq<Entry>, local: Entry, p: Item)
    requires local in locals && NameOf(local) == name && p in ItemsOf(local) && Key(p) != "" && x == Localized(p, name)
    ensures IsLocal(x, name, locals)
  {}

  lemma FreshIsAccounted(locals: seq<Entry>, source: Entry)
    requires source.Market? && source in locals
    ensures Accounted(Fresh(source), [], locals)
  {
    hide Key, Localized, LocalizedAll, IsLocal;
    FreshNames(source);
    hide NameOf, Restore;
    LocalizedComeFrom(ItemsOf(source), NameOf(source));
    forall x | x in ItemsOf(Fresh(source))
      ensures IsLocal(x, NameOf(source), locals)
    {
      var p :| p in ItemsOf(source) && Key(p) != "" && x == Localized(p, NameOf(source));
      LocalWitness(x, NameOf(source), locals, source, p);
    }
  }

  lemma AccountedWithMore(m: Entry, was: seq<Item>, locals: seq<Entry>, more: seq<Entry>)
    requires Accounted(m, was, locals) && forall local <- locals :: local in more
    ensures Accounted(m, was, more)
  {
    hide NameOf, Key, Localized;
  }

  /** Nothing is made up: every plugin afterwards was there before or is a local one of that marketplace's name. */
  lemma {:induction false} NothingIsInvented(markets: seq<Entry>, locals: seq<Entry>)
    ensures AllAccounted(markets, MergeAll(markets, locals), locals)
  {
    hide MergeOne, Accounted, NameOf, Last, Extended, Fresh;
    if locals == [] {
      forall i | 0 <= i < |markets|
        ensures Accounted(markets[i], Before(markets, i), locals)
      {
        UnchangedIsAccounted(markets[i], locals);
      }
    } else {
      var front, local := locals[..|locals| - 1], locals[|locals| - 1];
      var before := MergeAll(markets, front);
      NothingIsInvented(markets, front);
      ServerListStays(markets, front);
      MergeOneCases(before, local);
      assert local in locals && forall l <- front :: l in locals;
      var k := Last(before, NameOf(local));
      forall i | 0 <= i < |MergeAll(markets, locals)|
        ensures Accounted(MergeAll(markets, locals)[i], Before(markets, i), locals)
      {
        if i < |before| {
          AccountedWithMore(before[i], Before(markets, i), front, locals);
          if NameOf(local) != "" && i == k {
            LastIsNamed(before, NameOf(local));
            ExtendedIsAccounted(before[i], Before(markets, i), locals, local);
          }
        } else {
          FreshIsAccounted(locals, local);
        }
      }
    }
  }

  lemma LastIsNamed(markets: seq<Entry>, name: string)
    ensures Last(markets, name) >= 0 ==> NameOf(markets[Last(markets, name)]) == name
  {}

  lemma UnchangedIsAccounted(m: Entry, locals: seq<Entry>)
    ensures Accounted(m, ItemsOf(m), locals)
  {}
}
