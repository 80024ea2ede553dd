/** The selection widgets of the component showcase page: the framework
    options, the label lookup, the single-select toggle, the multi-select
    check boxes and badges, the autocomplete filter and the file picker. */
module ComponentsPage {
  import opened Wrappers
  import opened Strings
  import Seqs
  import Validations

  datatype SelectOption = SelectOption(value: string, labelText: string)

  const SelectOptions: seq<SelectOption> := [
    SelectOption("react", "React"),
    SelectOption("vue", "Vue"),
    SelectOption("angular", "Angular"),
    SelectOption("svelte", "Svelte"),
    SelectOption("next", "Next.js")]

  /** `options.find(opt => opt.value === value)?.label`: `None` when no option has the value. */
  function FindLabel(options: seq<SelectOption>, value: string): (r: Option<string>)
    ensures r.None? <==> forall i :: 0 <= i < |options| ==> options[i].value != value
  {
    if options == [] then None
    else if options[0].value == value then Some(options[0].labelText)
    else FindLabel(options[1..], value)
  }

  /** The label found is that of the first option carrying the value. */
  lemma {:induction false} FindLabelFirstMatch(options: seq<SelectOption>, value: string, i: nat)
    requires i < |options| && options[i].value == value
    requires forall j :: 0 <= j < i ==> options[j].value != value
    ensures FindLabel(options, value) == Some(options[i].labelText)
  {
    if i > 0 {
      FindLabelFirstMatch(options[1..], value, i - 1);
    }
  }

  /** The option values are distinct, so every option's value looks up its own label. */
  lemma EveryValueFindsItsLabel(i: nat)
    requires i < |SelectOptions|
    ensures FindLabel(SelectOptions, SelectOptions[i].value) == Some(SelectOptions[i].labelText)
  {
    FindLabelFirstMatch(SelectOptions, SelectOptions[i].value, i);
  }

  /** The trigger button's caption: the selected option's label, or the
      placeholder when nothing is selected. */
  function TriggerCaption(selected: string, placeholder: string): Option<string>
  {
    if selected != "" then FindLabel(SelectOptions, selected) else Some(placeholder)
  }

  /** A selected option shows its label, an empty selection the placeholder,
      and a value no option carries shows nothing. */
  lemma TriggerCaptionCases(selected: string, placeholder: string)
    ensures selected == "" ==> TriggerCaption(selected, placeholder) == Some(placeholder)
    ensures forall i :: 0 <= i < |SelectOptions| && SelectOptions[i].value == selected ==>
      TriggerCaption(selected, placeholder) == Some(SelectOptions[i].labelText)
    ensures TriggerCaption(selected, placeholder).None? <==>
      selected != "" && forall i :: 0 <= i < |SelectOptions| ==> SelectOptions[i].value != selected
  {
    forall i | 0 <= i < |SelectOptions| && SelectOptions[i].value == selected
      ensures TriggerCaption(selected, placeholder) == Some(SelectOptions[i].labelText)
    {
      EveryValueFindsItsLabel(i);
    }
  }

  /** The single-select's new value after `picked` is chosen: choosing the
      selected value again clears it. */
  function NextSingleSelect(current: string, picked: string): string
  {
    if picked == current then "" else picked
  }

  /** Choosing a value selects it unless it was already selected, in which case
      the selection is cleared; choosing it once more selects it again. */
  lemma SingleSelectToggles(current: string, picked: string)
    requires picked != ""
    ensures NextSingleSelect(current, picked) == picked <==> current != picked
    ensures NextSingleSelect(current, picked) == "" <==> current == picked
    ensures NextSingleSelect(NextSingleSelect(current, picked), picked) == (if current == picked then picked else "")
  {
  }

  /** The option's lowercased label contains the lowercased query. */
  predicate LabelMatches(o: SelectOption, query: string)
  {
    Contains(ToLower(o.labelText), ToLower(query))
  }

  /** The options the autocomplete lists for its current value. */
  function AutocompleteOptions(query: string): seq<SelectOption>
  {
    Seqs.Filter(SelectOptions, o => LabelMatches(o, query))
  }

  /** The autocomplete lists, in order, exactly the options whose lowercased label
      contains the lowercased query. */
  lemma AutocompleteCharacterised(query: string, o: SelectOption)
    ensures Seqs.IsSubsequence(AutocompleteOptions(query), SelectOptions)
    ensures o in AutocompleteOptions(query) <==>
      o in SelectOptions && Contains(ToLower(o.labelText), ToLower(query))
  {
    Seqs.FilterIsSubsequence(SelectOptions, p => LabelMatches(p, query));
  }

  /** With nothing typed the autocomplete lists all five options. */
  lemma AutocompleteEmptyListsAll()
    ensures AutocompleteOptions("") == SelectOptions
  {
    assert ToLower("") == "";
    forall i | 0 <= i < |SelectOptions|
      ensures LabelMatches(SelectOptions[i], "")
    {
      ContainsEmpty(ToLower(SelectOptions[i].labelText));
    }
    Seqs.FilterKeepsAll(SelectOptions, o => LabelMatches(o, ""));
  }

  /** Once an option is chosen in the autocomplete, its value becomes the query
      and the option is still listed. */
  lemma ChosenOptionStaysListed(i: nat)
    requires i < |SelectOptions|
    ensures SelectOptions[i] in AutocompleteOptions(SelectOptions[i].value)
  {
    var o := SelectOptions[i];
    var lowered := ToLower(o.labelText);
    assert ToLower(o.value) == o.value;
    assert lowered[..|o.value|] == o.value;
    assert LabelMatches(o, o.value);
    AutocompleteCharacterised(o.value, o);
  }

  /** The page's state for these widgets. */
  class ShowcaseState {
    var singleSelect: string
    var multiSelect: seq<string>
    var fileSelected: Option<Validations.FileHandle>
    var autocompleteValue: string

    constructor ()
      ensures singleSelect == "react" && multiSelect == ["react"]
      ensures fileSelected == None && autocompleteValue == ""
    {
      singleSelect := "react";
      multiSelect := ["react"];
      fileSelected := None;
      autocompleteValue := "";
    }

    /** A multi-select check box is checked when its value is in the list. */
    predicate IsChecked(value: string)
      reads this
    {
      value in multiSelect
    }

    /** The single-select's `onSelect`. */
    method SelectSingle(currentValue: string)
      modifies this
      ensures singleSelect == NextSingleSelect(old(singleSelect), currentValue)
      ensures multiSelect == old(multiSelect) && fileSelected == old(fileSelected)
      ensures autocompleteValue == old(autocompleteValue)
    {
      if currentValue == singleSelect {
        singleSelect := "";
      } else {
        singleSelect := currentValue;
      }
    }

    /** A multi-select check box's `onCheckedChange`: checking appends the value
        (no de-duplication), unchecking removes every occurrence; either way the
        box then shows the new state. */
    method ToggleMulti(value: string, checked: bool)
      modifies this
      ensures multiSelect == if checked then old(multiSelect) + [value]
                             else Seqs.RemoveAll(old(multiSelect), value)
      ensures IsChecked(value) == checked
      ensures multiset(multiSelect)[value] == if checked then multiset(old(multiSelect))[value] + 1 else 0
      ensures singleSelect == old(singleSelect) && fileSelected == old(fileSelected)
      ensures autocompleteValue == old(autocompleteValue)
    {
      if checked {
        multiSelect := multiSelect + [value];
        assert multiSelect[|multiSelect| - 1] == value;
      } else {
        multiSelect := Seqs.RemoveAll(multiSelect, value);
      }
    }

    /** Clicking a badge removes every occurrence of its value. */
    method RemoveBadge(value: string)
      modifies this
      ensures multiSelect == Seqs.RemoveAll(old(multiSelect), value)
      ensures !IsChecked(value)
      ensures forall v :: v != value ==> multiset(multiSelect)[v] == multiset(old(multiSelect))[v]
      ensures singleSelect == old(singleSelect) && fileSelected == old(fileSelected)
      ensures autocompleteValue == old(autocompleteValue)
    {
      multiSelect := Seqs.RemoveAll(multiSelect, value);
    }

    /** `handleFileChange`: keeps the first chosen file; an empty choice leaves
        the selection as it was. */
    method HandleFileChange(files: seq<Validations.FileHandle>)
      modifies this
      ensures fileSelected == if |files| > 0 then Some(files[0]) else old(fileSelected)
      ensures singleSelect == old(singleSelect) && multiSelect == old(multiSelect)
      ensures autocompleteValue == old(autocompleteValue)
    {
      if |files| > 0 {
        fileSelected := Some(files[0]);
      }
    }

    /** The autocomplete's `onSelect`: the chosen value replaces the current one. */
    method SelectAutocomplete(currentValue: string)
      modifies this
      ensures autocompleteValue == currentValue
      ensures singleSelect == old(singleSelect) && multiSelect == old(multiSelect)
      ensures fileSelected == old(fileSelected)
    {
      autocompleteValue := currentValue;
    }
  }
}
