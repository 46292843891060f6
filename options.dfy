/** The option lists of the author and genre selects: an "any" option first, then one
    option per entry of the lookup table, in the table's entry order. */
module Options {
  import opened Catalog

  /** An <option> element: its value and its text. */
  datatype SelectOption = SelectOption(value: string, text: string)

  /** One table entry as Object.entries yields it: [id, display name]. */
  type Entry = (string, string)

  function EntryOptions(entries: seq<Entry>): seq<SelectOption> {
    if entries == [] then []
    else
      var (id, name) := entries[|entries| - 1];
      EntryOptions(entries[..|entries| - 1]) + [SelectOption(id, name)]
  }

  /** The whole list: the "any" option labelled allText ("All Genres" / "All Authors"),
      then the entries. */
  function OptionList(allText: string, entries: seq<Entry>): seq<SelectOption> {
    [SelectOption(Any, allText)] + EntryOptions(entries)
  }

  /** The list has one option more than the table, "any" first, then entry k at position k + 1. */
  lemma {:induction false} OptionListShape(allText: string, entries: seq<Entry>)
    ensures |OptionList(allText, entries)| == 1 + |entries|
    ensures OptionList(allText, entries)[0] == SelectOption(Any, allText)
    ensures forall k :: 0 <= k < |entries| ==>
      OptionList(allText, entries)[k + 1] == SelectOption(entries[k].0, entries[k].1)
  {
    EntryOptionsAt(entries);
  }

  lemma {:induction false} EntryOptionsAt(entries: seq<Entry>)
    ensures |EntryOptions(entries)| == |entries|
    ensures forall k :: 0 <= k < |entries| ==>
      EntryOptions(entries)[k] == SelectOption(entries[k].0, entries[k].1)
  {
    if entries != [] {
      EntryOptionsAt(entries[..|entries| - 1]);
    }
  }

  /** The builder's loop: the "any" option, then one option appended per entry. */
  method BuildOptions(allText: string, entries: seq<Entry>) returns (fragment: seq<SelectOption>)
    ensures fragment == OptionList(allText, entries)
  {
    fragment := [SelectOption(Any, allText)];
    var i := 0;
    while i < |entries|
      invariant 0 <= i <= |entries|
      invariant fragment == OptionList(allText, entries[..i])
    {
      var (id, name) := entries[i];
      assert entries[..i + 1][..i] == entries[..i];
      fragment := fragment + [SelectOption(id, name)];
      i := i + 1;
    }
    assert entries[..|entries|] == entries;
  }
}
