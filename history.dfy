/**
 * The quick-selection window: a list widget of nicknames over a selection
 * dictionary the caller owns and hands to every window it opens, and the
 * three actions of the selection-history command (add, remove, select).
 * The host's queries (alias text field, scene selection, highlighted row,
 * radio choice) are parameters; indices are 0-based.
 */
module History {
  import opened Outcomes
  import opened Formatting
  import opened Registry

  /** The caller's selection dictionary; it outlives the windows opened over it. */
  class SelectionStore {
    var entries: Store

    constructor ()
      ensures entries == map[]
    {
      entries := map[];
    }
  }

  /** The list a newly opened window shows: every stored nickname, once each, in some order. */
  method ListKeys(store: Store) returns (names: seq<string>)
    ensures Synced(names, store)
    ensures |names| == |store|
  {
    names := [];
    var rest := store.Keys;
    while rest != {}
      invariant rest <= store.Keys
      invariant NoDuplicates(names)
      invariant forall i :: 0 <= i < |names| ==> names[i] in store && names[i] !in rest
      invariant forall k :: k in store ==> k in rest || k in names
      decreases rest
    {
      var k :| k in rest;
      names := names + [k];
      rest := rest - {k};
    }
    SyncedSizes(names, store);
  }

  /** The message handed to the host's select: what to select and how. */
  datatype Directive = Directive(elements: seq<Element>, flags: Flags)

  class HistoryWindow {
    /** The rows of the list widget, top to bottom. */
    var items: seq<string>
    /** The dictionary the window was opened over (shared, not copied). */
    const store: SelectionStore

    /** Opening the window lists every stored nickname once; the dictionary is untouched. */
    constructor Open(store: SelectionStore)
      ensures this.store == store && store.entries == old(store.entries)
      ensures Synced(items, store.entries)
    {
      this.store := store;
      new;
      items := ListKeys(store.entries);
    }

    /**
     * Capture: store the scene selection under its nickname and append the
     * nickname to the list. An existing entry under that nickname is
     * overwritten, and the list then shows the nickname twice.
     */
    method Add(alias: string, selection: seq<Element>) returns (r: Result<string>)
      modifies this, store
      ensures selection == [] ==>
        r == Err(EmptySelection) && items == old(items) && store.entries == old(store.entries)
      ensures selection != [] ==>
        r == Ok(Nickname(alias, selection)) &&
        items == old(items) + [r.value] &&
        store.entries == old(store.entries)[r.value := selection]
    {
      if selection == [] {
        return Err(EmptySelection);
      }
      var nick := Nickname(alias, selection);
      items := items + [nick];
      store.entries := store.entries[nick := selection];
      r := Ok(nick);
    }

    /**
     * Discard: take the highlighted row out of the list, then delete its
     * nickname from the dictionary. The row goes first, so a nickname that is
     * not stored fails only after the row is gone.
     */
    method Remove(highlight: Option<nat>) returns (r: Result<string>)
      requires highlight.Some? ==> highlight.value < |items|
      modifies this, store
      ensures highlight.None? ==>
        r == Err(NoHighlight) && items == old(items) && store.entries == old(store.entries)
      ensures highlight.Some? ==>
        var name := old(items)[highlight.value];
        items == RemoveAt(old(items), highlight.value) &&
        (name in old(store.entries) ==> r == Ok(name) && store.entries == old(store.entries) - {name}) &&
        (name !in old(store.entries) ==> r == Err(MissingKey(name)) && store.entries == old(store.entries))
    {
      if highlight.None? {
        return Err(NoHighlight);
      }
      var name := items[highlight.value];
      items := RemoveAt(items, highlight.value);
      if name !in store.entries {
        return Err(MissingKey(name));
      }
      store.entries := store.entries - {name};
      r := Ok(name);
    }

    /**
     * Reapply: hand the stored selection of the highlighted nickname to the
     * host with the flags of the radio choice. The stored selection is looked
     * up before the flags are read, so an unstored nickname fails with a
     * missing key even when the radio value has no flags. Nothing in the
     * window or the dictionary changes.
     */
    method Select(radio: int, highlight: Option<nat>) returns (r: Result<Directive>)
      requires highlight.Some? ==> highlight.value < |items|
      ensures highlight.None? ==> r == Err(NoHighlight)
      ensures highlight.Some? && items[highlight.value] in store.entries && radio > 3 ==>
        r == Err(UnknownModifier(radio))
      ensures highlight.Some? && items[highlight.value] !in store.entries ==>
        r == Err(MissingKey(items[highlight.value]))
      ensures r.Ok? <==>
        highlight.Some? && radio <= 3 && items[highlight.value] in store.entries
      ensures r.Ok? ==>
        r.value.elements == store.entries[items[highlight.value]] &&
        !(r.value.flags.add && r.value.flags.deselect) &&
        (r.value.flags.add <==> radio == 2) && (r.value.flags.deselect <==> radio == 3)
    {
      if highlight.None? {
        return Err(NoHighlight);
      }
      var name := items[highlight.value];
      if name !in store.entries {
        return Err(MissingKey(name));
      }
      var flags := SelectFlags(radio);
      if flags.Err? {
        return Err(flags.failure);
      }
      r := Ok(Directive(store.entries[name], flags.value));
    }
  }

  /**
   * Two captures whose nicknames collide, then a discard of the first row:
   * the second row is left naming nothing, and selecting it fails.
   */
  method CollidingCaptureScenario(a: Element, b: Element, c: Element) returns (r: Result<Directive>)
    ensures r == Err(MissingKey(RangeTag(a, c)))
  {
    var store := new SelectionStore();
    var window := new HistoryWindow.Open(store);
    assert window.items == [] by { SyncedSizes(window.items, store.entries); }
    var first := window.Add("", [a, b, c]);
    var second := window.Add("", [a, c]);
    assert window.items == [RangeTag(a, c), RangeTag(a, c)];
    var removed := window.Remove(Some(0));
    assert window.items == [RangeTag(a, c)] && store.entries == map[];
    r := window.Select(1, Some(0));
  }
}
