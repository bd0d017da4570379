/**
 * The add-widget dialog (src/components/AddWidgetModal.tsx): its table of
 * predefined widgets, its local state (selected category, name and text fields,
 * selected predefined names) and the three handlers that act on that state and
 * on the store.
 */
module Modal {
  import opened Wrappers
  import opened Text
  import opened Catalog
  import Seqs

  // ------------------------------------------------------- predefined widgets

  /** The predefined widgets offered per tab key. */
  const PredefinedTable: map<string, seq<Draft>> := map[
    "cspm" := [
      Draft("Cloud Accounts", "Connected and disconnected cloud accounts overview", Chart, None),
      Draft("Cloud Account Risk Assessment", "Security risks across cloud accounts", Chart, None),
      Draft("Security Compliance", "Compliance status across services", Metric, None)],
    "cwpp" := [
      Draft("Top 5 Namespace Specific Alerts", "Critical namespace alerts", Alert, None),
      Draft("Workload Alerts", "Workload security alerts", Alert, None),
      Draft("Threat Detection", "Real-time threat detection status", Metric, None)],
    "image" := [
      Draft("Image Vulnerability Scan", "Container image security scan results", Progress, None),
      Draft("Registry Security", "Registry security compliance", Metric, None),
      Draft("Base Image Analysis", "Base image security assessment", Chart, None)],
    "ticket" := [
      Draft("Open Security Tickets", "Current open security tickets", Metric, None),
      Draft("Ticket Resolution Time", "Average ticket resolution metrics", Chart, None),
      Draft("Critical Incidents", "High priority security incidents", Alert, None)]
  ]

  /** The table has the four tabs `cspm`, `cwpp`, `image` and `ticket`, each offering three drafts with distinct names. */
  lemma PredefinedTableShape()
    ensures PredefinedTable.Keys == {"cspm", "cwpp", "image", "ticket"}
    ensures forall k :: k in PredefinedTable ==> |PredefinedTable[k]| == 3
    ensures forall k, i, j :: k in PredefinedTable && 0 <= i < j < |PredefinedTable[k]| ==>
      PredefinedTable[k][i].name != PredefinedTable[k][j].name
  {
  }

  /** `predefinedWidgets[key] || []` */
  function PredefinedFor(key: string): (r: seq<Draft>)
    ensures key !in PredefinedTable ==> r == []
    ensures key in PredefinedTable ==> |r| == 3
  {
    if key in PredefinedTable then PredefinedTable[key] else []
  }

  /** The table's keys `image` and `ticket` name no seeded category, and the seeded `registry` has no table entry. */
  lemma TableKeysAgainstSeed()
    ensures "image" !in Ids(InitialData()) && "ticket" !in Ids(InitialData())
    ensures PredefinedFor("registry") == []
  {
    InitialDataShape();
  }

  // -------------------------------------------------------------- local state

  /** `defaultCategory || 'cspm'`: an absent or empty default falls back to `cspm`. */
  function InitialCategory(defaultCategory: Option<string>): (r: string)
    ensures r != ""
    ensures defaultCategory.Some? && defaultCategory.value != "" ==> r == defaultCategory.value
    ensures defaultCategory.None? || defaultCategory.value == "" ==> r == "cspm"
  {
    if defaultCategory.Some? && defaultCategory.value != "" then defaultCategory.value else "cspm"
  }

  /** The selection after toggling `name`: its membership flips, every other name keeps its membership. */
  function Toggle(selected: set<string>, name: string): (r: set<string>)
    ensures name in r <==> name !in selected
    ensures forall n :: n != name ==> (n in r <==> n in selected)
  {
    if name in selected then selected - {name} else selected + {name}
  }

  /** Toggling the same name twice restores the selection. */
  lemma ToggleTwice(selected: set<string>, name: string)
    ensures Toggle(Toggle(selected, name), name) == selected
  {
  }

  /** The `forEach` test: the draft's name is selected. */
  function IsSelected(selected: set<string>): Draft -> bool {
    (d: Draft) => d.name in selected
  }

  /** The drafts of a tab that are selected, in table order. */
  function Chosen(drafts: seq<Draft>, selected: set<string>): (r: seq<Draft>)
    ensures |r| <= |drafts|
    ensures forall j :: 0 <= j < |r| ==> r[j].name in selected
  {
    var r := Seqs.Filter(drafts, IsSelected(selected));
    assert forall j :: 0 <= j < |r| ==> IsSelected(selected)(r[j]);
    r
  }

  /** One `forEach` step: the next draft joins the chosen ones exactly when its name is selected. */
  lemma ChosenStep(drafts: seq<Draft>, selected: set<string>, i: nat)
    requires i < |drafts|
    ensures Chosen(drafts[..i + 1], selected) ==
      Chosen(drafts[..i], selected) + (if drafts[i].name in selected then [drafts[i]] else [])
  {
    assert drafts[..i + 1] == drafts[..i] + [drafts[i]];
    Seqs.FilterAppend(drafts[..i], [drafts[i]], IsSelected(selected));
    assert [drafts[i]][1..] == [];
  }

  /**
   * `addWidget(categoryId, ds[j])` for j = 0, 1, ... in order, the j-th call
   * getting the id `stamps(j)`.
   */
  function AddAll(cats: seq<Category>, categoryId: string, ds: seq<Draft>, stamps: nat -> string): (r: seq<Category>)
    ensures |r| == |cats|
    ensures forall i :: 0 <= i < |cats| ==> r[i].id == cats[i].id && r[i].name == cats[i].name
  {
    if ds == [] then cats
    else AddTo(AddAll(cats, categoryId, ds[..|ds| - 1], stamps), categoryId, ds[|ds| - 1], stamps(|ds| - 1))
  }

  /** The widgets the calls create, in call order. */
  function StampAll(ds: seq<Draft>, stamps: nat -> string): (r: seq<Widget>)
    ensures |r| == |ds| && forall j :: 0 <= j < |ds| ==> r[j] == Stamp(ds[j], stamps(j))
  {
    seq(|ds|, j requires 0 <= j < |ds| => Stamp(ds[j], stamps(j)))
  }

  /** The last call of a run of `addWidget` calls. */
  lemma AddAllSnoc(cats: seq<Category>, categoryId: string, ds: seq<Draft>, d: Draft, stamps: nat -> string)
    ensures AddAll(cats, categoryId, ds + [d], stamps) == AddTo(AddAll(cats, categoryId, ds, stamps), categoryId, d, stamps(|ds|))
  {
    assert (ds + [d])[..|ds|] == ds;
  }

  /** A category with the drafts' stamped widgets appended when its id matches. */
  function AppendAllIn(c: Category, categoryId: string, ws: seq<Widget>): Category {
    if c.id == categoryId then c.(widgets := c.widgets + ws) else c
  }

  /** The widgets of a run of calls, split before the last call. */
  lemma StampAllSnoc(ds: seq<Draft>, stamps: nat -> string)
    requires ds != []
    ensures StampAll(ds, stamps) == StampAll(ds[..|ds| - 1], stamps) + [Stamp(ds[|ds| - 1], stamps(|ds| - 1))]
  {
  }

  lemma {:induction false} AddAllAt(cats: seq<Category>, categoryId: string, ds: seq<Draft>, stamps: nat -> string, i: nat)
    requires i < |cats|
    ensures AddAll(cats, categoryId, ds, stamps)[i] == AppendAllIn(cats[i], categoryId, StampAll(ds, stamps))
  {
    if ds == [] {
      assert cats[i].widgets + [] == cats[i].widgets;
    } else {
      var init := ds[..|ds| - 1];
      var last := Stamp(ds[|ds| - 1], stamps(|ds| - 1));
      AddAllAt(cats, categoryId, init, stamps, i);
      AddToAt(AddAll(cats, categoryId, init, stamps), categoryId, ds[|ds| - 1], stamps(|ds| - 1), i);
      StampAllSnoc(ds, stamps);
      if cats[i].id == categoryId {
        assert cats[i].widgets + StampAll(init, stamps) + [last] == cats[i].widgets + (StampAll(init, stamps) + [last]);
      }
    }
  }


  /**
   * Adding several drafts one call at a time: every matching category ends with
   * its old widgets followed by the stamped drafts in call order; every other
   * category, and every id and name, is unchanged.
   */
  lemma AddAllEffect(cats: seq<Category>, categoryId: string, ds: seq<Draft>, stamps: nat -> string)
    ensures |AddAll(cats, categoryId, ds, stamps)| == |cats|
    ensures forall i :: 0 <= i < |cats| ==>
      AddAll(cats, categoryId, ds, stamps)[i].id == cats[i].id &&
      AddAll(cats, categoryId, ds, stamps)[i].name == cats[i].name
    ensures forall i :: 0 <= i < |cats| && cats[i].id != categoryId ==>
      AddAll(cats, categoryId, ds, stamps)[i] == cats[i]
    ensures forall i :: 0 <= i < |cats| && cats[i].id == categoryId ==>
      AddAll(cats, categoryId, ds, stamps)[i].widgets == cats[i].widgets + StampAll(ds, stamps)
  {
    forall i | 0 <= i < |cats|
      ensures AddAll(cats, categoryId, ds, stamps)[i] == AppendAllIn(cats[i], categoryId, StampAll(ds, stamps))
    {
      AddAllAt(cats, categoryId, ds, stamps, i);
    }
  }

  /** When no category carries the id, adding any number of drafts leaves the catalog as it was. */
  lemma {:induction false} AddAllAbsent(cats: seq<Category>, categoryId: string, ds: seq<Draft>, stamps: nat -> string)
    requires categoryId !in Ids(cats)
    ensures AddAll(cats, categoryId, ds, stamps) == cats
  {
    if ds != [] {
      AddAllAbsent(cats, categoryId, ds[..|ds| - 1], stamps);
      AddToAbsent(cats, categoryId, ds[|ds| - 1], stamps(|ds| - 1));
    }
  }

  /**
   * From the `image` or `ticket` tab, confirming changes nothing in the seeded
   * catalog (or in one that has not been seeded yet), whatever is selected.
   */
  lemma ImageAndTicketAddNothing(cats: seq<Category>, key: string, selected: set<string>, stamps: nat -> string)
    requires key == "image" || key == "ticket"
    requires cats == [] || Ids(cats) == ["cspm", "cwpp", "registry"]
    ensures AddAll(cats, key, Chosen(PredefinedFor(key), selected), stamps) == cats
  {
    assert key !in Ids(cats);
    AddAllAbsent(cats, key, Chosen(PredefinedFor(key), selected), stamps);
  }

  /** A draft is chosen exactly when it comes from the tab and its name is selected; order follows the table. */
  lemma ChosenExactly(drafts: seq<Draft>, selected: set<string>) returns (idx: seq<nat>)
    ensures Seqs.PicksExactly(Chosen(drafts, selected), drafts, IsSelected(selected), idx)
    ensures forall i :: 0 <= i < |drafts| ==> (drafts[i].name in selected <==> i in idx)
  {
    idx := Seqs.FilterPicks(drafts, IsSelected(selected));
  }

  // ------------------------------------------------------------------- dialog

  class AddWidgetModal {
    const store: Store
    /** The owner's open flag, which `onOpenChange(false)` clears. */
    var open: bool
    var selectedCategory: string
    var widgetName: string
    var widgetText: string
    var selectedWidgets: set<string>

    constructor (store: Store, open: bool, defaultCategory: Option<string>)
      ensures this.store == store && this.open == open
      ensures selectedCategory == InitialCategory(defaultCategory)
      ensures widgetName == "" && widgetText == "" && selectedWidgets == {}
    {
      this.store := store;
      this.open := open;
      selectedCategory := InitialCategory(defaultCategory);
      widgetName := "";
      widgetText := "";
      selectedWidgets := {};
    }

    /** `setSelectedCategory`, bound to the category tabs and the category select. */
    method SelectCategory(key: string)
      modifies this
      ensures selectedCategory == key
      ensures open == old(open) && widgetName == old(widgetName) && widgetText == old(widgetText)
      ensures selectedWidgets == old(selectedWidgets)
    {
      selectedCategory := key;
    }

    /** `setWidgetName`, bound to the name field. */
    method SetWidgetName(name: string)
      modifies this
      ensures widgetName == name
      ensures open == old(open) && selectedCategory == old(selectedCategory) && widgetText == old(widgetText)
      ensures selectedWidgets == old(selectedWidgets)
    {
      widgetName := name;
    }

    /** `setWidgetText`, bound to the text field. */
    method SetWidgetText(text: string)
      modifies this
      ensures widgetText == text
      ensures open == old(open) && selectedCategory == old(selectedCategory) && widgetName == old(widgetName)
      ensures selectedWidgets == old(selectedWidgets)
    {
      widgetText := text;
    }

    /** `handleWidgetToggle`: copy the selection, add or delete the name, store the copy. */
    method HandleWidgetToggle(name: string)
      modifies this
      ensures selectedWidgets == Toggle(old(selectedWidgets), name)
      ensures open == old(open) && selectedCategory == old(selectedCategory)
      ensures widgetName == old(widgetName) && widgetText == old(widgetText)
    {
      var next := selectedWidgets;
      if name in next {
        next := next - {name};
      } else {
        next := next + {name};
      }
      selectedWidgets := next;
    }

    /**
     * `handleAddCustomWidget`, with `id` the clock reading the store turns into
     * the new widget's id. A blank name or text changes nothing; otherwise one
     * `metric` widget with the untrimmed name and text goes to the selected
     * category, both fields are cleared and the dialog is closed.
     */
    method HandleAddCustomWidget(id: string)
      modifies this, store
      ensures IsBlank(old(widgetName)) || IsBlank(old(widgetText)) ==>
        unchanged(this) && unchanged(store)
      ensures !IsBlank(old(widgetName)) && !IsBlank(old(widgetText)) ==>
        && store.categories == AddTo(old(store.categories), old(selectedCategory),
                                     Draft(old(widgetName), old(widgetText), Metric, None), id)
        && store.searchTerm == old(store.searchTerm)
        && widgetName == "" && widgetText == "" && !open
        && selectedCategory == old(selectedCategory) && selectedWidgets == old(selectedWidgets)
    {
      var blank := IsBlank(widgetName) || IsBlank(widgetText);
      if !blank {
        var widget := Draft(widgetName, widgetText, Metric, None);
        store.AddWidget(selectedCategory, widget, id);
        widgetName := "";
        widgetText := "";
        open := false;
      }
    }

    /**
     * `handleAddPredefinedWidgets`, with `stamps(j)` the clock reading of the
     * j-th `addWidget` call. The selected drafts of the current tab are added in
     * table order; then the selection is emptied and the dialog closed.
     */
    method HandleAddPredefinedWidgets(stamps: nat -> string)
      modifies this, store
      ensures store.categories == AddAll(old(store.categories), old(selectedCategory),
                                         Chosen(PredefinedFor(old(selectedCategory)), old(selectedWidgets)), stamps)
      ensures store.searchTerm == old(store.searchTerm)
      ensures selectedWidgets == {} && !open
      ensures selectedCategory == old(selectedCategory)
      ensures widgetName == old(widgetName) && widgetText == old(widgetText)
    {
      var category := selectedCategory;
      var selected := selectedWidgets;
      var drafts := PredefinedFor(category);
      var calls := 0;
      for i := 0 to |drafts|
        invariant calls == |Chosen(drafts[..i], selected)|
        invariant store.categories == AddAll(old(store.categories), category, Chosen(drafts[..i], selected), stamps)
        invariant store.searchTerm == old(store.searchTerm)
        invariant selectedCategory == old(selectedCategory) && selectedWidgets == old(selectedWidgets)
        invariant widgetName == old(widgetName) && widgetText == old(widgetText)
      {
        ChosenStep(drafts, selected, i);
        if drafts[i].name in selected {
          AddAllSnoc(old(store.categories), category, Chosen(drafts[..i], selected), drafts[i], stamps);
          store.AddWidget(category, drafts[i], stamps(calls));
          calls := calls + 1;
        }
      }
      assert drafts[..|drafts|] == drafts;
      selectedWidgets := {};
      open := false;
    }
  }
}
