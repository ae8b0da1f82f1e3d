/**
 Stamping a saved template into a new app: stampBlueprint of
 packages/shared-types/src/app-templates.ts:1026-1086. `supply` is what successive calls of wid() return.
 */
module Blueprints {
  import opened JsonValues
  import opened Prelude
  import opened Slices

  /** A container's config.widgets is an array: its `children`. `config` is the other entries of the
      config and `rest` the widget's other properties. */
  datatype Widget = Widget(id: string, rest: seq<Entry>, config: seq<Entry>, container: bool, children: seq<Widget>)

  datatype Page = Page(rest: seq<Entry>, widgets: seq<Widget>)

  datatype Blueprint = Blueprint(rest: seq<Entry>, pages: seq<Page>)

  type Renaming = map<string, string>

  const REF_KEYS: set<string> := {"mapWidgetId", "syncWithMapWidgetId", "targetWidgetId"}

  // ---------------------------------------------------------------- the ids of a tree

  function Ids(ws: seq<Widget>): seq<string>
    decreases ws, 0
  {
    if ws == [] then [] else IdsOf(ws[0]) + Ids(ws[1..])
  }

  /** A widget's own id, then those of its children. */
  function IdsOf(w: Widget): seq<string>
    decreases w, 1
  {
    [w.id] + if w.container then Ids(w.children) else []
  }

  function PageIds(pages: seq<Page>): seq<string> {
    if pages == [] then [] else Ids(pages[0].widgets) + PageIds(pages[1..])
  }

  /** Map.set for each id in turn: the last one wins. */
  function Assign(m: Renaming, olds: seq<string>, news: seq<string>): Renaming
    requires |olds| == |news|
    decreases |olds|
  {
    if olds == [] then m else Assign(m[olds[0] := news[0]], olds[1..], news[1..])
  }

  lemma {:induction false} AssignConcat(m: Renaming, a: seq<string>, b: seq<string>, x: seq<string>, y: seq<string>)
    requires |a| == |x| && |b| == |y|
    ensures Assign(m, a + b, x + y) == Assign(Assign(m, a, x), b, y)
    decreases |a|
  {
    if a == [] {
      assert a + b == b && x + y == y;
    } else {
      assert (a + b)[1..] == a[1..] + b && (x + y)[1..] == x[1..] + y;
      AssignConcat(m[a[0] := x[0]], a[1..], b, x[1..], y);
    }
  }

  // ---------------------------------------------------------------- the methods

  /** collectIds: one fresh id per widget, parents first. */
  method CollectIds(ws: seq<Widget>, remap: Renaming, supply: seq<string>, next: nat) returns (all: Renaming, used: nat)
    requires next + |Ids(ws)| <= |supply|
    ensures used == next + |Ids(ws)|
    ensures all == Assign(remap, Ids(ws), supply[next..used])
    decreases ws, 0
  {
    hide Assign, IdsOf;
    all, used := remap, next;
    AssignNothing(remap);
    ghost var done: seq<string> := [];
    assert ws[0..] == ws && supply[next..next] == [];
    for n := 0 to |ws|
      invariant done + Ids(ws[n..]) == Ids(ws) && used == next + |done|
      invariant all == Assign(remap, done, supply[next..used])
    {
      assert ws[n..][1..] == ws[n + 1..];
      ghost var before := used;
      Concat3(done, IdsOf(ws[n]), Ids(ws[n + 1..]));
      all, used := CollectOne(ws[n], all, supply, used);
      AssignMore(remap, done, IdsOf(ws[n]), supply, next, before, used);
      done := done + IdsOf(ws[n]);
    }
    assert ws[|ws|..] == [] && done + [] == done;
  }

  lemma AssignMore(m: Renaming, done: seq<string>, own: seq<string>, supply: seq<string>, next: nat, before: nat, used: nat)
    requires next <= before <= used <= |supply| && |done| == before - next && |own| == used - before
    ensures Assign(Assign(m, done, supply[next..before]), own, supply[before..used]) == Assign(m, done + own, supply[next..used])
  {
    AssignConcat(m, done, own, supply[next..before], supply[before..used]);
    assert supply[next..before] + supply[before..used] == supply[next..used];
  }

  lemma AssignNothing(m: Renaming)
    ensures Assign(m, [], []) == m
  {
  }

  method CollectOne(w: Widget, remap: Renaming, supply: seq<string>, next: nat) returns (all: Renaming, used: nat)
    requires next + |IdsOf(w)| <= |supply|
    ensures used == next + |IdsOf(w)|
    ensures all == Assign(remap, IdsOf(w), supply[next..used])
    decreases w, 1
  {
    all, used := remap[w.id := supply[next]], next + 1;
    ghost var kids := if w.container then Ids(w.children) else [];
    if w.container {
      all, used := CollectIds(w.children, all, supply, used);
    }
    assert supply[next..used][1..] == supply[next + 1..used];
    assert ([w.id] + kids)[1..] == kids;
  }

  function RemapValue(key: string, value: Json, remap: Renaming): Json
    decreases value, 1
  {
    if key in REF_KEYS && value.Str? && value.s in remap then Str(remap[value.s]) else Remap(value, remap)
  }

  function Remap(j: Json, remap: Renaming): Json
    decreases j, 0
  {
    match j
    case Arr(items) => Arr(RemapItems(items, remap))
    case Obj(entries) => Obj(RemapEntries(entries, remap))
    case _ => j
  }

  function RemapItems(items: seq<Json>, remap: Renaming): (r: seq<Json>)
    ensures |r| == |items|
    decreases items
  {
    if items == [] then [] else [Remap(items[0], remap)] + RemapItems(items[1..], remap)
  }

  function RemapEntries(entries: seq<Entry>, remap: Renaming): (r: seq<Entry>)
    ensures |r| == |entries|
    decreases entries
  {
    if entries == [] then []
    else [Entry(entries[0].key, RemapValue(entries[0].key, entries[0].value, remap))] + RemapEntries(entries[1..], remap)
  }

  /** The object case of remapRefsInConfig: fills a fresh record entry by entry. */
  method RemapRefsInConfig(entries: seq<Entry>, remap: Renaming) returns (out: seq<Entry>)
    ensures out == RemapEntries(entries, remap)
  {
    hide Remap, RemapValue;
    out := [];
    for n := 0 to |entries|
      invariant out + RemapEntries(entries[n..], remap) == RemapEntries(entries, remap)
    {
      assert entries[n..][0] == entries[n] && entries[n..][1..] == entries[n + 1..];
      var value := RemapEntryValue(entries[n], remap);
      Concat3(out, [Entry(entries[n].key, value)], RemapEntries(entries[n + 1..], remap));
      out := out + [Entry(entries[n].key, value)];
    }
    assert entries[|entries|..] == [] && out + [] == out;
  }

  method RemapEntryValue(e: Entry, remap: Renaming) returns (value: Json)
    ensures value == RemapValue(e.key, e.value, remap)
  {
    if e.key in REF_KEYS && e.value.Str? && e.value.s in remap {
      value := Str(remap[e.value.s]);
    } else {
      value := Remap(e.value, remap);
    }
  }

  function NewId(id: string, remap: Renaming): string {
    if id in remap then remap[id] else id
  }

  function Rewrite(ws: seq<Widget>, remap: Renaming): (r: seq<Widget>)
    ensures |r| == |ws|
    decreases ws, 0
  {
    if ws == [] then [] else [RewriteOne(ws[0], remap)] + Rewrite(ws[1..], remap)
  }

  /** Every id was collected, so the lookup never falls back to another fresh one. */
  function RewriteOne(w: Widget, remap: Renaming): Widget
    decreases w, 1
  {
    Widget(NewId(w.id, remap), w.rest, RemapEntries(w.config, remap),
           w.container, if w.container then Rewrite(w.children, remap) else w.children)
  }

  function RewritePages(pages: seq<Page>, remap: Renaming): (r: seq<Page>)
    ensures |r| == |pages|
  {
    if pages == [] then [] else [pages[0].(widgets := Rewrite(pages[0].widgets, remap))] + RewritePages(pages[1..], remap)
  }

  function RenamingOf(b: Blueprint, supply: seq<string>): Renaming
    requires |PageIds(b.pages)| <= |supply|
  {
    Assign(map[], PageIds(b.pages), supply[..|PageIds(b.pages)|])
  }

  function Stamp(b: Blueprint, supply: seq<string>): Blueprint
    requires |PageIds(b.pages)| <= |supply|
  {
    b.(pages := RewritePages(b.pages, RenamingOf(b, supply)))
  }

  /** stampBlueprint: collect over every page first, then rewrite. */
  method StampBlueprint(b: Blueprint, supply: seq<string>) returns (stamped: Blueprint)
    requires |PageIds(b.pages)| <= |supply|
    ensures stamped == Stamp(b, supply)
  {
    hide Assign, RewritePages;
    var remap: Renaming, used := map[], 0;
    AssignNothing(map[]);
    assert supply[..0] == [];
    ghost var done: seq<string> := [];
    assert b.pages[0..] == b.pages;
    for n := 0 to |b.pages|
      invariant done + PageIds(b.pages[n..]) == PageIds(b.pages) && used == |done|
      invariant remap == Assign(map[], done, supply[..used])
    {
      assert b.pages[n..][1..] == b.pages[n + 1..];
      ghost var before := used;
      ghost var own := Ids(b.pages[n].widgets);
      Concat3(done, own, PageIds(b.pages[n + 1..]));
      remap, used := CollectIds(b.pages[n].widgets, remap, supply, used);
      assert supply[0..before] == supply[..before] && supply[0..used] == supply[..used];
      AssignMore(map[], done, own, supply, 0, before, used);
      done := done + own;
    }
    assert b.pages[|b.pages|..] == [] && done + [] == done;
    stamped := b.(pages := RewritePages(b.pages, remap));
  }

  // ---------------------------------------------------------------- the new ids

  predicate Distinct(ids: seq<string>) {
    forall i, j :: 0 <= i < j < |ids| ==> ids[i] != ids[j]
  }

  predicate Disjoint(a: seq<string>, b: seq<string>) {
    forall x :: x in a ==> x !in b
  }

  lemma {:induction false} AssignMisses(m: Renaming, olds: seq<string>, news: seq<string>, id: string)
    requires |olds| == |news| && id !in olds
    ensures id in Assign(m, olds, news) <==> id in m
    ensures id in m ==> Assign(m, olds, news)[id] == m[id]
    decreases |olds|
  {
    if olds != [] {
      AssignMisses(m[olds[0] := news[0]], olds[1..], news[1..], id);
    }
  }

  lemma {:induction false} AssignAt(m: Renaming, olds: seq<string>, news: seq<string>, k: nat)
    requires |olds| == |news| && Distinct(olds) && k < |olds|
    ensures olds[k] in Assign(m, olds, news) && Assign(m, olds, news)[olds[k]] == news[k]
    decreases |olds|
  {
    if k == 0 {
      AssignMisses(m[olds[0] := news[0]], olds[1..], news[1..], olds[0]);
    } else {
      AssignAt(m[olds[0] := news[0]], olds[1..], news[1..], k - 1);
    }
  }

  lemma RenamingIsExact(olds: seq<string>, news: seq<string>, id: string)
    requires |olds| == |news| && Distinct(olds)
    ensures id in Assign(map[], olds, news) <==> id in olds
    ensures forall k :: 0 <= k < |olds| ==> olds[k] in Assign(map[], olds, news) && Assign(map[], olds, news)[olds[k]] == news[k]
  {
    forall k | 0 <= k < |olds| ensures olds[k] in Assign(map[], olds, news) && Assign(map[], olds, news)[olds[k]] == news[k] {
      AssignAt(map[], olds, news, k);
    }
    if id !in olds {
      AssignMisses(map[], olds, news, id);
    }
  }

  function Renamed(ids: seq<string>, remap: Renaming): (r: seq<string>)
    ensures |r| == |ids|
  {
    if ids == [] then [] else [NewId(ids[0], remap)] + Renamed(ids[1..], remap)
  }

  lemma {:induction false} RenamedConcat(a: seq<string>, b: seq<string>, remap: Renaming)
    ensures Renamed(a + b, remap) == Renamed(a, remap) + Renamed(b, remap)
  {
    if a == [] {
      assert a + b == b;
    } else {
      assert (a + b)[1..] == a[1..] + b;
      RenamedConcat(a[1..], b, remap);
    }
  }

  lemma {:induction false} IdsOfRewrite(ws: seq<Widget>, remap: Renaming)
    ensures Ids(Rewrite(ws, remap)) == Renamed(Ids(ws), remap)
    decreases ws, 0
  {
    if ws != [] {
      IdsOfRewriteOne(ws[0], remap);
      IdsOfRewrite(ws[1..], remap);
      RenamedConcat(IdsOf(ws[0]), Ids(ws[1..]), remap);
      assert Rewrite(ws, remap)[1..] == Rewrite(ws[1..], remap);
    }
  }

  lemma {:induction false} IdsOfRewriteOne(w: Widget, remap: Renaming)
    ensures IdsOf(RewriteOne(w, remap)) == Renamed(IdsOf(w), remap)
    decreases w, 1
  {
    var kids := if w.container then Ids(w.children) else [];
    if w.container {
      IdsOfRewrite(w.children, remap);
    }
    assert ([w.id] + kids)[1..] == kids;
  }

  lemma {:induction false} IdsOfRewritePages(pages: seq<Page>, remap: Renaming)
    ensures PageIds(RewritePages(pages, remap)) == Renamed(PageIds(pages), remap)
  {
    if pages != [] {
      IdsOfRewrite(pages[0].widgets, remap);
      IdsOfRewritePages(pages[1..], remap);
      RenamedConcat(Ids(pages[0].widgets), PageIds(pages[1..]), remap);
      assert RewritePages(pages, remap)[1..] == RewritePages(pages[1..], remap);
    }
  }

  lemma {:induction false} RenamedAt(ids: seq<string>, remap: Renaming, k: nat)
    requires k < |ids|
    ensures Renamed(ids, remap)[k] == NewId(ids[k], remap)
  {
    if k > 0 {
      RenamedAt(ids[1..], remap, k - 1);
    }
  }

  /** The stamped tree's ids, in document order, are exactly the fresh ones: so all distinct and none
      of the old ones. */
  lemma StampedIdsAreFresh(b: Blueprint, supply: seq<string>)
    requires |PageIds(b.pages)| <= |supply| && Distinct(PageIds(b.pages))
    ensures PageIds(Stamp(b, supply).pages) == supply[..|PageIds(b.pages)|]
    ensures Distinct(supply) ==> Distinct(PageIds(Stamp(b, supply).pages))
    ensures Disjoint(PageIds(b.pages), supply) ==> Disjoint(PageIds(b.pages), PageIds(Stamp(b, supply).pages))
  {
    var olds, remap := PageIds(b.pages), RenamingOf(b, supply);
    var news := supply[..|olds|];
    IdsOfRewritePages(b.pages, remap);
    forall k | 0 <= k < |olds| ensures Renamed(olds, remap)[k] == news[k] {
      RenamingIsExact(olds, news, olds[k]);
      RenamedAt(olds, remap, k);
    }
    assert Renamed(olds, remap) == news;
  }

  // ---------------------------------------------------------------- references, position by position

  predicate IsRefPath(path: seq<Key>) {
    path != [] && path[|path| - 1].Field?
    && path[|path| - 1].name in {"mapWidgetId", "syncWithMapWidgetId", "targetWidgetId"}
  }

  lemma {:induction false} RemappedItem(items: seq<Json>, remap: Renaming, k: nat)
    requires k < |items|
    ensures RemapItems(items, remap)[k] == Remap(items[k], remap)
  {
    if k > 0 {
      RemappedItem(items[1..], remap, k - 1);
    }
  }

  lemma {:induction false} RemappedField(entries: seq<Entry>, remap: Renaming, name: string)
    ensures Lookup(entries, name).None? ==> Lookup(RemapEntries(entries, remap), name).None?
    ensures Lookup(entries, name).Some? ==>
              Lookup(RemapEntries(entries, remap), name) == Some(RemapValue(name, Lookup(entries, name).value, remap))
  {
    hide RemapValue;
    if entries != [] {
      RemappedField(entries[1..], remap, name);
      assert RemapEntries(entries, remap)[1..] == RemapEntries(entries[1..], remap);
    }
  }

  function RemappedAt(path: seq<Key>, v: Json, remap: Renaming): Json {
    if path == [] then Remap(v, remap) else KeyedRemap(path[|path| - 1], v, remap)
  }

  function KeyedRemap(key: Key, v: Json, remap: Renaming): Json {
    if key.Field? then RemapValue(key.name, v, remap) else Remap(v, remap)
  }

  lemma ChildAfterRemap(j: Json, remap: Renaming, key: Key)
    ensures Child(j, key).None? ==> Child(Remap(j, remap), key).None?
    ensures Child(j, key).Some? ==> Child(Remap(j, remap), key) == Some(KeyedRemap(key, Child(j, key).value, remap))
  {
    hide RemapValue;
    assert Remap(j, remap).Obj? == j.Obj? && Remap(j, remap).Arr? == j.Arr?;
    if key.Field? && j.Obj? {
      RemappedField(j.entries, remap, key.name);
    } else if key.Index? && j.Arr? && key.at < |j.items| {
      RemappedItem(j.items, remap, key.at);
    }
  }

  /** Below the top of a value it makes no difference whether a reference was replaced. */
  lemma BelowTheTop(key: Key, v: Json, remap: Renaming, path: seq<Key>)
    requires path != []
    ensures ValueAt(KeyedRemap(key, v, remap), path) == ValueAt(Remap(v, remap), path)
  {
  }

  /** A config keeps its shape: what was at a path is there still, remapped, and nothing else is. */
  lemma {:induction false} ValueAfterRemap(j: Json, remap: Renaming, path: seq<Key>)
    ensures ValueAt(j, path).None? ==> ValueAt(Remap(j, remap), path).None?
    ensures ValueAt(j, path).Some? ==> ValueAt(Remap(j, remap), path) == Some(RemappedAt(path, ValueAt(j, path).value, remap))
    decreases |path|
  {
    hide Remap, KeyedRemap, Child;
    if path != [] {
      var key, rest, child := path[0], path[1..], Child(j, path[0]);
      ChildAfterRemap(j, remap, key);
      if child.Some? {
        assert ValueAt(j, path) == ValueAt(child.value, rest);
        assert ValueAt(Remap(j, remap), path) == ValueAt(KeyedRemap(key, child.value, remap), rest);
        if rest == [] {
          assert ValueAt(child.value, rest) == Some(child.value);
          assert ValueAt(KeyedRemap(key, child.value, remap), rest) == Some(KeyedRemap(key, child.value, remap));
        } else {
          BelowTheTop(key, child.value, remap, rest);
          ValueAfterRemap(child.value, remap, rest);
          assert path[|path| - 1] == rest[|rest| - 1];
        }
      }
    }
  }

  /** At a reference position a known id is replaced by its new one and an unknown one stays; at any
      other position a string stays. */
  lemma StringAfterRemap(j: Json, remap: Renaming, path: seq<Key>, v: string)
    requires ValueAt(j, path) == Some(Str(v))
    ensures ValueAt(Remap(j, remap), path) == Some(Str(if IsRefPath(path) then NewId(v, remap) else v))
  {
    ValueAfterRemap(j, remap, path);
    assert Remap(Str(v), remap) == Str(v);
  }

  /** A widget's place: the page, then a child index per level. */
  function WidgetAt(ws: seq<Widget>, path: seq<nat>): Option<Widget>
    decreases |path|
  {
    if path == [] || path[0] >= |ws| then None
    else if |path| == 1 then Some(ws[path[0]])
    else if !ws[path[0]].container then None
    else WidgetAt(ws[path[0]].children, path[1..])
  }

  function WidgetOf(b: Blueprint, page: nat, path: seq<nat>): Option<Widget> {
    if page < |b.pages| then WidgetAt(b.pages[page].widgets, path) else None
  }

  lemma {:induction false} RewrittenAt(ws: seq<Widget>, remap: Renaming, k: nat)
    requires k < |ws|
    ensures Rewrite(ws, remap)[k] == RewriteOne(ws[k], remap)
  {
    if k > 0 {
      RewrittenAt(ws[1..], remap, k - 1);
    }
  }

  lemma {:induction false} RewrittenPage(pages: seq<Page>, remap: Renaming, k: nat)
    requires k < |pages|
    ensures RewritePages(pages, remap)[k] == pages[k].(widgets := Rewrite(pages[k].widgets, remap))
  {
    if k > 0 {
      RewrittenPage(pages[1..], remap, k - 1);
    }
  }

  /** The tree keeps its shape: every place holds the rewritten widget it held before. */
  lemma {:induction false} WidgetKeepsItsPlace(ws: seq<Widget>, remap: Renaming, path: seq<nat>)
    ensures WidgetAt(ws, path).None? ==> WidgetAt(Rewrite(ws, remap), path).None?
    ensures WidgetAt(ws, path).Some? ==> WidgetAt(Rewrite(ws, remap), path) == Some(RewriteOne(WidgetAt(ws, path).value, remap))
    decreases |path|
  {
    if path != [] && path[0] < |ws| {
      RewrittenAt(ws, remap, path[0]);
      if |path| > 1 && ws[path[0]].container {
        WidgetKeepsItsPlace(ws[path[0]].children, remap, path[1..]);
      }
    }
  }

  lemma StampKeepsPlaces(b: Blueprint, supply: seq<string>, page: nat, path: seq<nat>)
    requires |PageIds(b.pages)| <= |supply|
    ensures WidgetOf(b, page, path).None? ==> WidgetOf(Stamp(b, supply), page, path).None?
    ensures WidgetOf(b, page, path).Some? ==>
              WidgetOf(Stamp(b, supply), page, path) == Some(RewriteOne(WidgetOf(b, page, path).value, RenamingOf(b, supply)))
  {
    hide Assign, Rewrite, RewriteOne;
    if page < |b.pages| {
      RewrittenPage(b.pages, RenamingOf(b, supply), page);
      WidgetKeepsItsPlace(b.pages[page].widgets, RenamingOf(b, supply), path);
    }
  }

  lemma {:induction false} PlacedIsCollected(ws: seq<Widget>, path: seq<nat>)
    requires WidgetAt(ws, path).Some?
    ensures WidgetAt(ws, path).value.id in Ids(ws)
    decreases |path|
  {
    var w := ws[path[0]];
    if |path| > 1 {
      PlacedIsCollected(w.children, path[1..]);
    }
    assert WidgetAt(ws, path).value.id in IdsOf(w);
    IdsOfMember(ws, path[0]);
  }

  lemma {:induction false} IdsOfMember(ws: seq<Widget>, k: nat)
    requires k < |ws|
    ensures forall id :: id in IdsOf(ws[k]) ==> id in Ids(ws)
  {
    if k > 0 {
      IdsOfMember(ws[1..], k - 1);
    }
  }

  lemma {:induction false} IdsOfPage(pages: seq<Page>, k: nat)
    requires k < |pages|
    ensures forall id :: id in Ids(pages[k].widgets) ==> id in PageIds(pages)
  {
    if k > 0 {
      IdsOfPage(pages[1..], k - 1);
    }
  }

  /** A reference field of any widget's config, however deep, that names the widget at some other place,
      on any page and in any container, names the copy at that same place after stamping. */
  lemma ReferencesFollowTheirTargets(b: Blueprint, supply: seq<string>, page: nat, path: seq<nat>, key: seq<Key>,
                                     targetPage: nat, target: seq<nat>)
    requires |PageIds(b.pages)| <= |supply| && IsRefPath(key)
    requires WidgetOf(b, page, path).Some? && WidgetOf(b, targetPage, target).Some?
    requires ValueAt(Obj(WidgetOf(b, page, path).value.config), key) == Some(Str(WidgetOf(b, targetPage, target).value.id))
    ensures var s := Stamp(b, supply);
            && WidgetOf(s, page, path).Some? && WidgetOf(s, targetPage, target).Some?
            && ValueAt(Obj(WidgetOf(s, page, path).value.config), key) == Some(Str(WidgetOf(s, targetPage, target).value.id))
  {
    hide Assign, ValueAt, Ids, PageIds, Stamp;
    var remap := RenamingOf(b, supply);
    var w := WidgetOf(b, page, path).value;
    StampKeepsPlaces(b, supply, page, path);
    StampKeepsPlaces(b, supply, targetPage, target);
    StringAfterRemap(Obj(w.config), remap, key, WidgetOf(b, targetPage, target).value.id);
  }

  /** A reference to an id no widget of the blueprint has stays as it is. */
  lemma UnknownReferencesStay(b: Blueprint, supply: seq<string>, page: nat, path: seq<nat>, key: seq<Key>, v: string)
    requires |PageIds(b.pages)| <= |supply| && v !in PageIds(b.pages)
    requires WidgetOf(b, page, path).Some? && ValueAt(Obj(WidgetOf(b, page, path).value.config), key) == Some(Str(v))
    ensures WidgetOf(Stamp(b, supply), page, path).Some?
    ensures ValueAt(Obj(WidgetOf(Stamp(b, supply), page, path).value.config), key) == Some(Str(v))
  {
    hide Assign, ValueAt, Ids, PageIds, Stamp;
    var remap := RenamingOf(b, supply);
    StampKeepsPlaces(b, supply, page, path);
    AssignMisses(map[], PageIds(b.pages), supply[..|PageIds(b.pages)|], v);
    StringAfterRemap(Obj(WidgetOf(b, page, path).value.config), remap, key, v);
  }

  /** After stamping no widget keeps an id it had: each place holds the new name of its old id. */
  lemma EveryIdIsReplaced(b: Blueprint, supply: seq<string>, page: nat, path: seq<nat>)
    requires |PageIds(b.pages)| <= |supply| && Distinct(PageIds(b.pages)) && Disjoint(PageIds(b.pages), supply)
    requires WidgetOf(b, page, path).Some?
    ensures WidgetOf(Stamp(b, supply), page, path).Some?
    ensures WidgetOf(Stamp(b, supply), page, path).value.id in supply
    ensures WidgetOf(Stamp(b, supply), page, path).value.id !in PageIds(b.pages)
  {
    hide Stamp;
    var olds := PageIds(b.pages);
    var id := WidgetOf(b, page, path).value.id;
    StampKeepsPlaces(b, supply, page, path);
    PlacedIsCollected(b.pages[page].widgets, path);
    IdsOfPage(b.pages, page);
    var k :| 0 <= k < |olds| && olds[k] == id;
    AssignAt(map[], olds, supply[..|olds|], k);
  }

  // ---------------------------------------------------------------- references anywhere in a blueprint

  /** An object of a blueprint: the app's own properties, a page's, a widget's, or a widget's config. */
  datatype Place = InApp | InPage(page: nat) | InWidget(page: nat, path: seq<nat>) | InConfig(page: nat, path: seq<nat>)

  function EntriesAt(b: Blueprint, place: Place): Option<seq<Entry>> {
    match place
    case InApp => Some(b.rest)
    case InPage(page) => if page < |b.pages| then Some(b.pages[page].rest) else None
    case InWidget(page, path) =>
      var w := WidgetOf(b, page, path);
      if w.Some? then Some(w.value.rest) else None
    case InConfig(page, path) =>
      var w := WidgetOf(b, page, path);
      if w.Some? then Some(w.value.config) else None
  }

  function StringAt(b: Blueprint, place: Place, key: seq<Key>): Option<string> {
    var entries := EntriesAt(b, place);
    if entries.None? then None
    else
      var v := ValueAt(Obj(entries.value), key);
      if v.Some? && v.value.Str? then Some(v.value.s) else None
  }

  /** What stamping looks at: a reference field of a widget's config, at any depth. */
  predicate IsRemapped(place: Place, key: seq<Key>) {
    place.InConfig? && IsRefPath(key)
  }

  /** Every string stays where it is; one at a remapped place that names a widget gets its new name. */
  lemma StringAfterStamp(b: Blueprint, supply: seq<string>, place: Place, key: seq<Key>)
    requires |PageIds(b.pages)| <= |supply| && StringAt(b, place, key).Some?
    ensures StringAt(Stamp(b, supply), place, key) ==
            Some(if IsRemapped(place, key) then NewId(StringAt(b, place, key).value, RenamingOf(b, supply)) else StringAt(b, place, key).value)
  {
    hide Assign, ValueAt, Ids, PageIds, Rewrite;
    var remap := RenamingOf(b, supply);
    match place
    case InApp =>
    case InPage(page) => RewrittenPage(b.pages, remap, page);
    case InWidget(page, path) => StampKeepsPlaces(b, supply, page, path);
    case InConfig(page, path) =>
      hide Stamp;
      StampKeepsPlaces(b, supply, page, path);
      StringAfterRemap(Obj(WidgetOf(b, page, path).value.config), remap, key, StringAt(b, place, key).value);
  }

  /** A string that names a widget, anywhere in a blueprint, names that widget's copy after stamping with
      fresh ids exactly when it is at a reference field of some widget's config; any other then names no
      widget at all. */
  lemma ReferenceFollowsIff(b: Blueprint, supply: seq<string>, place: Place, key: seq<Key>, targetPage: nat, target: seq<nat>)
    requires |PageIds(b.pages)| <= |supply| && Distinct(PageIds(b.pages)) && Disjoint(PageIds(b.pages), supply)
    requires WidgetOf(b, targetPage, target).Some? && StringAt(b, place, key) == Some(WidgetOf(b, targetPage, target).value.id)
    ensures var s := Stamp(b, supply);
            && WidgetOf(s, targetPage, target).Some?
            && (StringAt(s, place, key) == Some(WidgetOf(s, targetPage, target).value.id) <==> IsRemapped(place, key))
            && (!IsRemapped(place, key) ==> StringAt(s, place, key).Some? && StringAt(s, place, key).value !in PageIds(s.pages))
  {
    var id := WidgetOf(b, targetPage, target).value.id;
    PlacedIsCollected(b.pages[targetPage].widgets, target);
    IdsOfPage(b.pages, targetPage);
    hide Assign, ValueAt, Ids, PageIds, Stamp, StringAt, WidgetOf;
    StringAfterStamp(b, supply, place, key);
    StampKeepsPlaces(b, supply, targetPage, target);
    EveryIdIsReplaced(b, supply, targetPage, target);
    StampedIdsAreFresh(b, supply);
    assert id in PageIds(b.pages);
  }

  /** The live case: `sources[0].followMapWidgetId` is carried over as it was, so the stamped app's source
      follows a widget that is not there. */
  lemma FollowedMapIsLost(b: Blueprint, supply: seq<string>, mapWidget: Widget)
    requires |PageIds(b.pages)| <= |supply| && Distinct(PageIds(b.pages)) && Disjoint(PageIds(b.pages), supply)
    requires WidgetOf(b, 0, [0]) == Some(mapWidget)
    requires b.rest == [Entry("sources", Arr([Obj([Entry("followMapWidgetId", Str(mapWidget.id))])]))]
    ensures var s := Stamp(b, supply);
            && s.rest == b.rest && mapWidget.id !in PageIds(s.pages)
            && StringAt(s, InApp, [Field("sources"), Index(0), Field("followMapWidgetId")]) == Some(mapWidget.id)
  {
    var key := [Field("sources"), Index(0), Field("followMapWidgetId")];
    FollowPath(b.rest, mapWidget.id);
    assert key[2].name !in REF_KEYS;
    ReferenceFollowsIff(b, supply, InApp, key, 0, [0]);
  }

  lemma FollowPath(entries: seq<Entry>, id: string)
    requires entries == [Entry("sources", Arr([Obj([Entry("followMapWidgetId", Str(id))])]))]
    ensures ValueAt(Obj(entries), [Field("sources"), Index(0), Field("followMapWidgetId")]) == Some(Str(id))
  {
    var source := Obj([Entry("followMapWidgetId", Str(id))]);
    assert ValueAt(Str(id), []) == Some(Str(id));
    assert [Field("followMapWidgetId")][1..] == [];
    assert ValueAt(source, [Field("followMapWidgetId")]) == Some(Str(id));
    assert [Index(0), Field("followMapWidgetId")][1..] == [Field("followMapWidgetId")];
    assert ValueAt(Arr([source]), [Index(0), Field("followMapWidgetId")]) == Some(Str(id));
    assert [Field("sources"), Index(0), Field("followMapWidgetId")][1..] == [Index(0), Field("followMapWidgetId")];
  }
}
