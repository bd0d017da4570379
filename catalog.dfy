/**
 * The widget catalog of the dashboard store (src/store/dashboardStore.ts): an
 * ordered list of categories, each an ordered list of widgets, plus the search
 * term. The new field values are computed by the pure functions below; the
 * class `Store` holds the two fields and replaces them.
 */
module Catalog {
  import opened Wrappers
  import opened Text
  import Seqs

  /** The widget's kind tag. */
  datatype Kind = Chart | Metric | Progress | Alert

  /** The optional payload, one variant per shape the seed uses; the catalog only copies it. */
  datatype Payload =
    | AccountCounts(connected: int, notConnected: int)
    | IssueCounts(total: int, failed: int, warning: int, notAvailable: int, passed: int)
    | SeverityCounts(total: int, critical: int, high: int)

  datatype Widget = Widget(id: string, name: string, text: string, kind: Kind, data: Option<Payload>)

  /** A widget before it is given an id (`Omit<Widget, 'id'>`). */
  datatype Draft = Draft(name: string, text: string, kind: Kind, data: Option<Payload>)

  datatype Category = Category(id: string, name: string, widgets: seq<Widget>)

  /** A search hit: the widget together with the id of the category that owns it. */
  datatype Tagged = Tagged(widget: Widget, categoryId: string)

  /** `{ ...draft, id }`: the draft's fields, kept as they are, under the given id. */
  function Stamp(d: Draft, id: string): (w: Widget)
    ensures w.id == id
    ensures Draft(w.name, w.text, w.kind, w.data) == d
  {
    Widget(id, d.name, d.text, d.kind, d.data)
  }

  /** The category ids, in catalog order. */
  function Ids(cats: seq<Category>): (r: seq<string>)
    ensures |r| == |cats|
    ensures forall i :: 0 <= i < |cats| ==> r[i] == cats[i].id
  {
    if cats == [] then [] else [cats[0].id] + Ids(cats[1..])
  }

  // ---------------------------------------------------------------- seed data

  /**
   * The fixed seed the store is initialised with: three categories, two
   * widgets each, widget ids distinct within each category.
   */
  function InitialData(): (r: seq<Category>)
    ensures |r| == 3 && r[0].id == "cspm" && r[1].id == "cwpp" && r[2].id == "registry"
    ensures forall c :: c in r ==> |c.widgets| == 2 && c.widgets[0].id != c.widgets[1].id
  {
    [ Category("cspm", "CSPM Executive Dashboard", [
        Widget("cloud-accounts", "Cloud Accounts", "Connected (2), Not Connected (2)",
               Chart, Some(AccountCounts(2, 2))),
        Widget("cloud-risk-assessment", "Cloud Account Risk Assessment", "9659 Total Issues",
               Chart, Some(IssueCounts(9659, 1689, 681, 36, 7253)))]),
      Category("cwpp", "CWPP Dashboard", [
        Widget("namespace-alerts", "Top 5 Namespace Specific Alerts", "No Graph data available!",
               Alert, None),
        Widget("workload-alerts", "Workload Alerts", "No Graph data available!",
               Alert, None)]),
      Category("registry", "Registry Scan", [
        Widget("image-risk", "Image Risk Assessment", "1470 Total Vulnerabilities",
               Progress, Some(SeverityCounts(1470, 9, 150))),
        Widget("image-security", "Image Security Issues", "2 Total Images",
               Progress, Some(SeverityCounts(2, 2, 2)))])
    ]
  }

  /** The seed's category ids, in order. */
  lemma InitialDataShape()
    ensures Ids(InitialData()) == ["cspm", "cwpp", "registry"]
  {
    var cats := InitialData();
    assert Ids(cats) == [cats[0].id, cats[1].id, cats[2].id];
  }

  // ---------------------------------------------------------------- addWidget

  /** One category after `addWidget`: the stamped widget appended when the id matches. */
  function AppendIn(c: Category, categoryId: string, w: Widget): Category {
    if c.id == categoryId then c.(widgets := c.widgets + [w]) else c
  }

  /**
   * `addWidget(categoryId, d)` with the id `id`: every category whose id matches
   * gets the stamped widget appended; every other category is left as it was.
   */
  function AddTo(cats: seq<Category>, categoryId: string, d: Draft, id: string): (r: seq<Category>)
    ensures |r| == |cats|
    ensures forall i :: 0 <= i < |cats| ==> r[i].id == cats[i].id && r[i].name == cats[i].name
    ensures forall i :: 0 <= i < |cats| && cats[i].id != categoryId ==> r[i] == cats[i]
    ensures forall i :: 0 <= i < |cats| && cats[i].id == categoryId ==>
      |r[i].widgets| == |cats[i].widgets| + 1 &&
      r[i].widgets[..|cats[i].widgets|] == cats[i].widgets &&
      r[i].widgets[|cats[i].widgets|] == Stamp(d, id)
  {
    if cats == [] then [] else [AppendIn(cats[0], categoryId, Stamp(d, id))] + AddTo(cats[1..], categoryId, d, id)
  }

  lemma {:induction false} AddToAt(cats: seq<Category>, categoryId: string, d: Draft, id: string, i: nat)
    requires i < |cats|
    ensures AddTo(cats, categoryId, d, id)[i] == AppendIn(cats[i], categoryId, Stamp(d, id))
  {
    if i > 0 {
      AddToAt(cats[1..], categoryId, d, id, i - 1);
    }
  }

  /** `addWidget` never changes the category ids or their order. */
  lemma AddToKeepsIds(cats: seq<Category>, categoryId: string, d: Draft, id: string)
    ensures Ids(AddTo(cats, categoryId, d, id)) == Ids(cats)
  {
  }

  /** `addWidget` with an id that matches no category leaves the catalog equal to before. */
  lemma {:induction false} AddToAbsent(cats: seq<Category>, categoryId: string, d: Draft, id: string)
    requires categoryId !in Ids(cats)
    ensures AddTo(cats, categoryId, d, id) == cats
  {
    if cats != [] {
      assert Ids(cats[1..]) == Ids(cats)[1..];
      AddToAbsent(cats[1..], categoryId, d, id);
    }
  }

  // ------------------------------------------------------------- removeWidget

  /** The filter callback of `removeWidget`: keep widgets whose id differs. */
  function KeepOthers(widgetId: string): Widget -> bool {
    (w: Widget) => w.id != widgetId
  }

  /** `widgets.filter(w => w.id !== widgetId)` */
  function Without(ws: seq<Widget>, widgetId: string): (r: seq<Widget>)
    ensures |r| <= |ws|
    ensures forall w :: w in r <==> w in ws && w.id != widgetId
  {
    var r := Seqs.Filter(ws, KeepOthers(widgetId));
    assert forall w :: w in r <==> w in ws && w.id != widgetId by {
      forall w ensures w in r <==> w in ws && w.id != widgetId {
        Seqs.FilterContains(ws, KeepOthers(widgetId), w);
      }
    }
    r
  }

  /** The survivors are exactly the widgets with a different id, in their original relative order. */
  lemma WithoutKeepsOrder(ws: seq<Widget>, widgetId: string) returns (idx: seq<nat>)
    ensures Seqs.PicksExactly(Without(ws, widgetId), ws, KeepOthers(widgetId), idx)
    ensures forall i :: 0 <= i < |ws| ==> (ws[i].id != widgetId <==> i in idx)
  {
    idx := Seqs.FilterPicks(ws, KeepOthers(widgetId));
  }

  /** Removing an id no widget carries changes nothing. */
  lemma WithoutAbsent(ws: seq<Widget>, widgetId: string)
    requires forall w :: w in ws ==> w.id != widgetId
    ensures Without(ws, widgetId) == ws
  {
    Seqs.FilterKeepsAll(ws, KeepOthers(widgetId));
  }

  /** One category after `removeWidget`. */
  function DropIn(c: Category, categoryId: string, widgetId: string): Category {
    if c.id == categoryId then c.(widgets := Without(c.widgets, widgetId)) else c
  }

  /**
   * `removeWidget(categoryId, widgetId)`: in every category whose id matches,
   * every widget with that id is dropped; every other category is left as it was.
   */
  function RemoveFrom(cats: seq<Category>, categoryId: string, widgetId: string): (r: seq<Category>)
    ensures |r| == |cats|
    ensures forall i :: 0 <= i < |cats| ==> r[i].id == cats[i].id && r[i].name == cats[i].name
    ensures forall i :: 0 <= i < |cats| && cats[i].id != categoryId ==> r[i] == cats[i]
    ensures forall i :: 0 <= i < |cats| && cats[i].id == categoryId ==>
      forall w :: w in r[i].widgets <==> w in cats[i].widgets && w.id != widgetId
  {
    if cats == [] then [] else [DropIn(cats[0], categoryId, widgetId)] + RemoveFrom(cats[1..], categoryId, widgetId)
  }

  /** `removeWidget` never changes the category ids or their order. */
  lemma RemoveFromKeepsIds(cats: seq<Category>, categoryId: string, widgetId: string)
    ensures Ids(RemoveFrom(cats, categoryId, widgetId)) == Ids(cats)
  {
  }

  /** Each matching category keeps exactly its widgets with another id, in order. */
  lemma RemoveFromKeepsOrder(cats: seq<Category>, categoryId: string, widgetId: string, i: nat)
    returns (idx: seq<nat>)
    requires i < |cats| && cats[i].id == categoryId
    ensures Seqs.PicksExactly(RemoveFrom(cats, categoryId, widgetId)[i].widgets, cats[i].widgets,
                              KeepOthers(widgetId), idx)
  {
    RemoveFromIs(cats, categoryId, widgetId, i);
    idx := WithoutKeepsOrder(cats[i].widgets, widgetId);
  }

  lemma {:induction false} RemoveFromIs(cats: seq<Category>, categoryId: string, widgetId: string, i: nat)
    requires i < |cats|
    ensures RemoveFrom(cats, categoryId, widgetId)[i] == DropIn(cats[i], categoryId, widgetId)
  {
    if i > 0 {
      RemoveFromIs(cats[1..], categoryId, widgetId, i - 1);
    }
  }

  /** Removing an id that no widget of the matching categories carries is a no-op. */
  lemma {:induction false} RemoveFromAbsent(cats: seq<Category>, categoryId: string, widgetId: string)
    requires forall c, w :: c in cats && c.id == categoryId && w in c.widgets ==> w.id != widgetId
    ensures RemoveFrom(cats, categoryId, widgetId) == cats
  {
    if cats != [] {
      if cats[0].id == categoryId {
        WithoutAbsent(cats[0].widgets, widgetId);
      }
      RemoveFromAbsent(cats[1..], categoryId, widgetId);
    }
  }

  /**
   * Removing the id just added takes the catalog back to where it was, provided
   * no widget of the matching categories already carried that id.
   */
  lemma {:induction false} RemoveUndoesAdd(cats: seq<Category>, categoryId: string, d: Draft, id: string)
    requires forall c, w :: c in cats && c.id == categoryId && w in c.widgets ==> w.id != id
    ensures RemoveFrom(AddTo(cats, categoryId, d, id), categoryId, id) == cats
  {
    if cats != [] {
      var c := cats[0];
      if c.id == categoryId {
        Seqs.FilterAppend(c.widgets, [Stamp(d, id)], KeepOthers(id));
        WithoutAbsent(c.widgets, id);
        assert Without(c.widgets + [Stamp(d, id)], id) == c.widgets;
      }
      assert AddTo(cats, categoryId, d, id)[1..] == AddTo(cats[1..], categoryId, d, id);
      RemoveUndoesAdd(cats[1..], categoryId, d, id);
    }
  }

  // ------------------------------------------------------- getFilteredWidgets

  /** The widgets of one category, each tagged with the category's id. */
  function TagAll(c: Category): (r: seq<Tagged>)
    ensures |r| == |c.widgets|
    ensures forall j :: 0 <= j < |r| ==> r[j] == Tagged(c.widgets[j], c.id)
  {
    seq(|c.widgets|, j requires 0 <= j < |c.widgets| => Tagged(c.widgets[j], c.id))
  }

  /** The total number of widgets in the catalog. */
  function Count(cats: seq<Category>): nat {
    if cats == [] then 0 else |cats[0].widgets| + Count(cats[1..])
  }

  /**
   * `categories.flatMap(c => c.widgets.map(w => ({ ...w, categoryId: c.id })))`:
   * category order first, widget order within a category second.
   */
  function Flatten(cats: seq<Category>): (r: seq<Tagged>)
    ensures |r| == Count(cats)
  {
    if cats == [] then [] else TagAll(cats[0]) + Flatten(cats[1..])
  }

  /**
   * Flattening puts the categories one after another and keeps each category's
   * widget order: widget `j` of category `k` sits after all widgets of the
   * categories before `k`, tagged with category `k`'s id.
   */
  lemma {:induction false} FlattenAt(cats: seq<Category>, k: nat, j: nat)
    requires k < |cats| && j < |cats[k].widgets|
    ensures Count(cats[..k]) + j < |Flatten(cats)|
    ensures Flatten(cats)[Count(cats[..k]) + j] == Tagged(cats[k].widgets[j], cats[k].id)
  {
    if k == 0 {
      assert cats[..k] == [];
    } else {
      FlattenAt(cats[1..], k - 1, j);
      assert cats[..k][1..] == cats[1..][..k - 1];
      assert cats[..k][0] == cats[0];
    }
  }

  /** Some category of the catalog carries `t`'s category id and holds `t`'s widget. */
  ghost predicate Owns(cats: seq<Category>, t: Tagged) {
    exists k :: 0 <= k < |cats| && t.categoryId == cats[k].id && t.widget in cats[k].widgets
  }

  /** The flattened catalog holds exactly the widgets of the catalog, each tagged with an owning category's id. */
  lemma {:induction false} FlattenContains(cats: seq<Category>, t: Tagged)
    ensures t in Flatten(cats) <==> Owns(cats, t)
  {
    if cats != [] {
      var head := TagAll(cats[0]);
      FlattenContains(cats[1..], t);
      assert t in head <==> t.categoryId == cats[0].id && t.widget in cats[0].widgets by {
        if t.categoryId == cats[0].id && t.widget in cats[0].widgets {
          var j :| 0 <= j < |cats[0].widgets| && cats[0].widgets[j] == t.widget;
          assert head[j] == t;
        }
      }
      if Owns(cats, t) {
        var k :| 0 <= k < |cats| && t.categoryId == cats[k].id && t.widget in cats[k].widgets;
        if k > 0 {
          assert cats[1..][k - 1] == cats[k];
        }
      }
      if Owns(cats[1..], t) {
        var k :| 0 <= k < |cats[1..]| && t.categoryId == cats[1..][k].id && t.widget in cats[1..][k].widgets;
        assert cats[k + 1] == cats[1..][k];
      }
    }
  }

  /**
   * The filter callback of `getFilteredWidgets`, given the lower-cased term:
   * the term occurs somewhere in the lower-cased name or in the lower-cased text.
   */
  predicate Matches(w: Widget, lowTerm: string): (b: bool)
    ensures b <==> Occurs(Lower(w.name), lowTerm) || Occurs(Lower(w.text), lowTerm)
  {
    IncludesIff(Lower(w.name), lowTerm);
    IncludesIff(Lower(w.text), lowTerm);
    Includes(Lower(w.name), lowTerm) || Includes(Lower(w.text), lowTerm)
  }

  function MatchesTerm(lowTerm: string): Tagged -> bool {
    (t: Tagged) => Matches(t.widget, lowTerm)
  }

  /**
   * `getFilteredWidgets()` for the given catalog and term: nothing for the empty
   * term; otherwise the tagged widgets whose lower-cased name or text contains
   * the lower-cased term.
   */
  function FilterWidgets(cats: seq<Category>, term: string): (r: seq<Tagged>)
    ensures term == "" ==> r == []
    ensures forall t :: t in r <==> term != "" && Owns(cats, t) && Matches(t.widget, Lower(term))
  {
    if term == "" then []
    else
      var r := Seqs.Filter(Flatten(cats), MatchesTerm(Lower(term)));
      assert forall t :: t in r <==> Owns(cats, t) && Matches(t.widget, Lower(term)) by {
        forall t ensures t in r <==> Owns(cats, t) && Matches(t.widget, Lower(term)) {
          Seqs.FilterContains(Flatten(cats), MatchesTerm(Lower(term)), t);
          FlattenContains(cats, t);
        }
      }
      r
  }

  /**
   * For a non-empty term the hits are the flattened widgets at strictly
   * increasing positions, and those positions are exactly the matching ones.
   */
  lemma FilterWidgetsOrdered(cats: seq<Category>, term: string) returns (idx: seq<nat>)
    requires term != ""
    ensures Seqs.PicksExactly(FilterWidgets(cats, term), Flatten(cats), MatchesTerm(Lower(term)), idx)
  {
    idx := Seqs.FilterPicks(Flatten(cats), MatchesTerm(Lower(term)));
  }

  /** The search is case-insensitive: terms that lower-case alike give the same hits. */
  lemma FilterWidgetsCaseInsensitive(cats: seq<Category>, a: string, b: string)
    requires Lower(a) == Lower(b)
    ensures FilterWidgets(cats, a) == FilterWidgets(cats, b)
  {
    assert |a| == |Lower(a)| == |b|;
  }

  // ---------------------------------------------------------------- the store

  /** The store's state: the catalog and the search term. */
  class Store {
    var categories: seq<Category>
    var searchTerm: string

    /**
     * The catalog's category ids are the seed's, or there are none: no
     * operation adds or removes a category.
     */
    ghost predicate IdsAsSeeded()
      reads this
    {
      categories == [] || Ids(categories) == ["cspm", "cwpp", "registry"]
    }

    /** The store before `initializeData` runs: no categories, empty term. */
    constructor ()
      ensures categories == [] && searchTerm == ""
      ensures IdsAsSeeded()
    {
      categories := [];
      searchTerm := "";
    }

    /** `addWidget`, with `id` the clock reading the source renders as the new widget's id. */
    method AddWidget(categoryId: string, d: Draft, id: string)
      modifies this
      ensures categories == AddTo(old(categories), categoryId, d, id)
      ensures searchTerm == old(searchTerm)
      ensures old(IdsAsSeeded()) ==> IdsAsSeeded()
    {
      AddToKeepsIds(categories, categoryId, d, id);
      categories := AddTo(categories, categoryId, d, id);
    }

    method RemoveWidget(categoryId: string, widgetId: string)
      modifies this
      ensures categories == RemoveFrom(old(categories), categoryId, widgetId)
      ensures searchTerm == old(searchTerm)
      ensures old(IdsAsSeeded()) ==> IdsAsSeeded()
    {
      RemoveFromKeepsIds(categories, categoryId, widgetId);
      categories := RemoveFrom(categories, categoryId, widgetId);
    }

    method SetSearchTerm(term: string)
      modifies this
      ensures searchTerm == term && categories == old(categories)
      ensures old(IdsAsSeeded()) ==> IdsAsSeeded()
    {
      searchTerm := term;
    }

    /**
     * `getFilteredWidgets()`: a query on the current state. The hits are exactly
     * the owned widgets that match the term, in catalog order.
     */
    function GetFilteredWidgets(): (r: seq<Tagged>)
      reads this
      ensures searchTerm == "" ==> r == []
      ensures forall t :: t in r <==> searchTerm != "" && Owns(categories, t) && Matches(t.widget, Lower(searchTerm))
      ensures searchTerm != "" ==>
        exists idx :: Seqs.PicksExactly(r, Flatten(categories), MatchesTerm(Lower(searchTerm)), idx)
    {
      assert searchTerm != "" ==>
        exists idx :: Seqs.PicksExactly(FilterWidgets(categories, searchTerm), Flatten(categories),
                                         MatchesTerm(Lower(searchTerm)), idx) by {
        if searchTerm != "" {
          var idx := FilterWidgetsOrdered(categories, searchTerm);
        }
      }
      FilterWidgets(categories, searchTerm)
    }

    /** `initializeData()`: the seed, whatever the catalog held before, so running it twice is running it once. */
    method InitializeData()
      modifies this
      ensures categories == InitialData() && searchTerm == old(searchTerm)
      ensures IdsAsSeeded()
    {
      InitialDataShape();
      categories := InitialData();
    }
  }
}
