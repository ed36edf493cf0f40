/**
 * The model selector: a popup over the available models with a search field. The search
 * keeps the models whose label, model name or provider name contains the lower-cased search
 * text, together with each model's index in the full list; the keyboard moves a focus over
 * that filtered list, and Enter or a click selects the model behind an entry. The widget's
 * state lives in ModelSelectorState across frames; `ModelSelector` only borrows it, so its
 * `show` is modelled as ModelSelectorState.Show. Whether egui shows the popup in a frame (it
 * toggles on the trigger, closes on a click outside and after `ui.close()`) is the `open`
 * parameter; `ui.close()` is answered as `closeRequested`.
 */
module ModelSelector {
  import opened Wrappers
  import opened Seqs
  import opened Focus

  datatype ModelOption = ModelOption(providerId: string, providerName: string, modelId: string, modelName: string, labelText: string)

  /** A model matches a lower-cased query when the query is empty or one of its three names
      contains it, ignoring case. */
  predicate Matches(m: ModelOption, query: string)
  {
    query == [] ||
    Contains(ToLower(m.labelText), query) ||
    Contains(ToLower(m.modelName), query) ||
    Contains(ToLower(m.providerName), query)
  }

  /** `recompute_filtered_models`: the entries are exactly the matching models, each with its
      index in `models`, in the order of `models`. */
  function Filter(models: seq<ModelOption>, search: string): (r: seq<(nat, ModelOption)>)
    ensures forall k :: 0 <= k < |r| ==> r[k].0 < |models| && r[k].1 == models[r[k].0] && Matches(r[k].1, ToLower(search))
    ensures forall k, l :: 0 <= k < l < |r| ==> r[k].0 < r[l].0
    ensures forall j :: 0 <= j < |models| && Matches(models[j], ToLower(search)) ==> (j, models[j]) in r
  {
    if models == [] then []
    else
      var n := |models| - 1;
      var front := Filter(models[..n], search);
      if Matches(models[n], ToLower(search)) then front + [(n, models[n])] else front
  }

  /** An empty search keeps every model, with its own index, in order. */
  lemma {:induction false} EmptySearchKeepsAll(models: seq<ModelOption>)
    ensures |Filter(models, "")| == |models|
    ensures forall k :: 0 <= k < |models| ==> Filter(models, "")[k] == (k, models[k])
  {
    if models != [] {
      var n := |models| - 1;
      EmptySearchKeepsAll(models[..n]);
      assert ToLower("") == "";
      assert Filter(models, "") == Filter(models[..n], "") + [(n, models[n])];
    }
  }

  /** The search ignores case: searching for a text and for its lower-cased form keep the
      same models. */
  lemma SearchIgnoresCase(models: seq<ModelOption>, search: string)
    ensures Filter(models, ToLower(search)) == Filter(models, search)
  {
    LowerTwice(search);
  }

  lemma LowerTwice(s: string)
    ensures ToLower(ToLower(s)) == ToLower(s)
  {
    var once := ToLower(s);
    forall i | 0 <= i < |s| ensures ToLower(once)[i] == once[i] {
      assert once[i] == LowerChar(s[i]);
    }
  }

  class ModelSelectorState {
    var availableModels: seq<ModelOption>
    var selectedModelIndex: Option<nat>
    var focusedIndex: Option<nat>
    var searchText: string
    var lastSearchText: string
    var filteredModels: seq<(nat, ModelOption)>
    var popupWasOpen: bool
    var scrollToFocused: bool

    /** The filtered list was computed from the available models, either for the search it
        was last computed for or for the current search. The second holds right after
        `set_models`, which filters by the search text without recording it; the first
        holds after an edit of the search field, until the next frame recomputes. */
    ghost predicate Valid()
      reads this
    {
      filteredModels == Filter(availableModels, lastSearchText) ||
      filteredModels == Filter(availableModels, searchText)
    }

    constructor ()
      ensures availableModels == [] && selectedModelIndex.None? && focusedIndex.None?
      ensures searchText == "" && lastSearchText == "" && filteredModels == []
      ensures !popupWasOpen && !scrollToFocused
      ensures Valid()
    {
      availableModels := [];
      selectedModelIndex := None;
      searchText := "";
      lastSearchText := "";
      filteredModels := [];
      focusedIndex := None;
      popupWasOpen := false;
      scrollToFocused := false;
    }

    /** `set_models`: the models are replaced, the selection is the given default, and the
        filtered list is recomputed for the current search. */
    method SetModels(models: seq<ModelOption>, defaultIndex: Option<nat>)
      modifies this
      ensures availableModels == models && selectedModelIndex == defaultIndex
      ensures filteredModels == Filter(models, searchText)
      ensures searchText == old(searchText) && lastSearchText == old(lastSearchText)
      ensures focusedIndex == old(focusedIndex) && popupWasOpen == old(popupWasOpen) && scrollToFocused == old(scrollToFocused)
      ensures Valid()
    {
      availableModels := models;
      selectedModelIndex := defaultIndex;
      RecomputeFilteredModels();
    }

    /** `recompute_filtered_models`: only the filtered list changes. */
    method RecomputeFilteredModels()
      modifies this
      ensures filteredModels == Filter(availableModels, searchText)
      ensures availableModels == old(availableModels) && selectedModelIndex == old(selectedModelIndex)
      ensures searchText == old(searchText) && lastSearchText == old(lastSearchText)
      ensures focusedIndex == old(focusedIndex) && popupWasOpen == old(popupWasOpen) && scrollToFocused == old(scrollToFocused)
      ensures Valid()
    {
      filteredModels := Filter(availableModels, searchText);
    }

    /** `selected_model`: none when nothing is selected or the index is past the models,
        otherwise the model at the index. */
    function SelectedModel(): (r: Option<ModelOption>)
      reads this
      ensures r.None? <==> selectedModelIndex.None? || selectedModelIndex.value >= |availableModels|
      ensures r.Some? ==> r.value == availableModels[selectedModelIndex.value]
    {
      match selectedModelIndex
      case None => None
      case Some(i) => if i < |availableModels| then Some(availableModels[i]) else None
    }

    /** `show` and `render_popup`, one frame. `triggerClicked` is a click on the button the
        popup hangs on, `open` whether egui shows the popup this frame, `keys` the keys
        pressed, `typed` the search field's text when the user edited it and `clickedRow`
        the filtered entry clicked. Opening the popup focuses the selected model; the
        filtered list is recomputed when the search changed since it was last computed;
        closing the popup clears the search and the focus. */
    method Show(triggerClicked: bool, open: bool, keys: set<Key>, typed: Option<string>, clickedRow: Option<nat>)
      returns (closeRequested: bool)
      requires Valid()
      modifies this
      ensures Valid()
      ensures availableModels == old(availableModels) && popupWasOpen == open
      ensures lastSearchText == old(searchText) && filteredModels == Filter(availableModels, old(searchText))
      ensures var start := if triggerClicked && !old(popupWasOpen) then old(selectedModelIndex) else old(focusedIndex);
        !(open && availableModels != []) ==>
          selectedModelIndex == old(selectedModelIndex) && !closeRequested &&
          searchText == (if !open && old(popupWasOpen) then "" else old(searchText)) &&
          focusedIndex == (if !open && old(popupWasOpen) then None else start) &&
          scrollToFocused == ((triggerClicked && !old(popupWasOpen)) || old(scrollToFocused))
      ensures var start := if triggerClicked && !old(popupWasOpen) then old(selectedModelIndex) else old(focusedIndex);
        open && availableModels != [] ==>
          PopupOutcome(start, old(selectedModelIndex), old(searchText), keys, typed, clickedRow, closeRequested)
      ensures open && filteredModels != [] && focusedIndex.Some? ==> focusedIndex.value < |filteredModels|
      ensures selectedModelIndex != old(selectedModelIndex) ==>
        SelectedModel().Some? && Matches(SelectedModel().value, ToLower(old(searchText)))
    {
      OpenFocus(triggerClicked);
      RefreshFilter();
      closeRequested := PopupOrClose(open, keys, typed, clickedRow);
    }

    /** The rest of `render_popup`, and `show` recording whether the popup is open: the
        popup's contents when it is open, the search and focus cleared when it has just
        closed. */
    method PopupOrClose(open: bool, keys: set<Key>, typed: Option<string>, clickedRow: Option<nat>)
      returns (closeRequested: bool)
      requires filteredModels == Filter(availableModels, lastSearchText)
      modifies this
      ensures availableModels == old(availableModels) && filteredModels == old(filteredModels)
      ensures lastSearchText == old(lastSearchText) && popupWasOpen == open
      ensures !(open && availableModels != []) ==>
        selectedModelIndex == old(selectedModelIndex) && !closeRequested &&
        searchText == (if !open && old(popupWasOpen) then "" else old(searchText)) &&
        focusedIndex == (if !open && old(popupWasOpen) then None else old(focusedIndex)) &&
        scrollToFocused == old(scrollToFocused)
      ensures open && availableModels != [] ==>
        PopupOutcome(old(focusedIndex), old(selectedModelIndex), old(searchText), keys, typed, clickedRow, closeRequested)
      ensures open && availableModels != [] && filteredModels != [] && focusedIndex.Some? ==> focusedIndex.value < |filteredModels|
      ensures selectedModelIndex != old(selectedModelIndex) ==>
        selectedModelIndex.Some? && selectedModelIndex.value < |availableModels| &&
        Matches(availableModels[selectedModelIndex.value], ToLower(lastSearchText))
    {
      closeRequested := false;
      if open {
        closeRequested := PopupBody(keys, typed, clickedRow);
      } else {
        ClearOnClose();
      }
      popupWasOpen := open;
    }

    /** A click on the trigger while the popup was closed focuses the selected model and
        asks to scroll it into view. */
    method OpenFocus(triggerClicked: bool)
      modifies this
      ensures focusedIndex == (if triggerClicked && !popupWasOpen then old(selectedModelIndex) else old(focusedIndex))
      ensures scrollToFocused == ((triggerClicked && !popupWasOpen) || old(scrollToFocused))
      ensures availableModels == old(availableModels) && filteredModels == old(filteredModels)
      ensures selectedModelIndex == old(selectedModelIndex) && searchText == old(searchText)
      ensures lastSearchText == old(lastSearchText) && popupWasOpen == old(popupWasOpen)
    {
      if triggerClicked && !popupWasOpen {
        focusedIndex := selectedModelIndex;
        scrollToFocused := true;
      }
    }

    /** A popup that was open last frame and is closed now: the search and the focus are
        cleared. */
    method ClearOnClose()
      modifies this
      ensures searchText == (if popupWasOpen then "" else old(searchText))
      ensures focusedIndex == (if popupWasOpen then None else old(focusedIndex))
      ensures availableModels == old(availableModels) && filteredModels == old(filteredModels)
      ensures selectedModelIndex == old(selectedModelIndex) && lastSearchText == old(lastSearchText)
      ensures popupWasOpen == old(popupWasOpen) && scrollToFocused == old(scrollToFocused)
    {
      if popupWasOpen {
        searchText := "";
        focusedIndex := None;
      }
    }

    /** What the popup over a non-empty model list leaves behind, from the focus, selection
        and search it started with: the focus clamped and moved by the arrows, then reset by
        an edit of the search (by the length of the list filtered for the search before the
        edit); Enter on a focused entry selects its model and closes, a click on an entry
        selects its model and closes, Escape closes; the scroll request is answered. */
    ghost predicate PopupOutcome(start: Option<nat>, selected: Option<nat>, search: string, keys: set<Key>,
                                 typed: Option<string>, clickedRow: Option<nat>, closeRequested: bool)
      reads this
    {
      var n := |filteredModels|;
      var nav := ArrowFocus(start, n, keys);
      var enterPick := Enter in keys && nav.Some? && nav.value < n;
      var clickPick := clickedRow.Some? && clickedRow.value < n;
      searchText == typed.UnwrapOr(search) &&
      focusedIndex == (if searchText != search then ResetFocus(n) else nav) &&
      selectedModelIndex == (if clickPick then Some(filteredModels[clickedRow.value].0)
                             else if enterPick then Some(filteredModels[nav.value].0)
                             else selected) &&
      !scrollToFocused &&
      closeRequested == (enterPick || Escape in keys || clickPick)
    }

    /** The start of `render_popup`: the filtered list is made current for the search. */
    method RefreshFilter()
      requires Valid()
      modifies this
      ensures filteredModels == Filter(availableModels, searchText) && lastSearchText == searchText
      ensures availableModels == old(availableModels) && selectedModelIndex == old(selectedModelIndex)
      ensures searchText == old(searchText) && focusedIndex == old(focusedIndex)
      ensures popupWasOpen == old(popupWasOpen) && scrollToFocused == old(scrollToFocused)
    {
      if searchText != lastSearchText {
        RecomputeFilteredModels();
        lastSearchText := searchText;
      }
    }

    /** The popup's contents for one frame: nothing but a notice when there are no models;
        otherwise the keys, the search field and the list, in that order. */
    method PopupBody(keys: set<Key>, typed: Option<string>, clickedRow: Option<nat>) returns (closeRequested: bool)
      requires filteredModels == Filter(availableModels, lastSearchText)
      modifies this
      ensures availableModels == old(availableModels) && filteredModels == old(filteredModels)
      ensures lastSearchText == old(lastSearchText) && popupWasOpen == old(popupWasOpen)
      ensures availableModels == [] ==>
        selectedModelIndex == old(selectedModelIndex) && focusedIndex == old(focusedIndex) &&
        searchText == old(searchText) && scrollToFocused == old(scrollToFocused) && !closeRequested
      ensures availableModels != [] ==>
        PopupOutcome(old(focusedIndex), old(selectedModelIndex), old(searchText), keys, typed, clickedRow, closeRequested)
      ensures availableModels != [] && filteredModels != [] && focusedIndex.Some? ==> focusedIndex.value < |filteredModels|
      ensures selectedModelIndex != old(selectedModelIndex) ==>
        selectedModelIndex.Some? && selectedModelIndex.value < |availableModels| &&
        Matches(availableModels[selectedModelIndex.value], ToLower(lastSearchText))
    {
      closeRequested := false;
      if availableModels == [] {
        return;
      }
      var closeByKey := Navigate(keys);
      EditSearch(typed);
      var clicked := ClickRow(clickedRow);
      closeRequested := closeByKey || clicked;
      scrollToFocused := false;
    }

    /** `setup_arrow_listeners`, after the clamp: the focus is clamped and moved by the
        arrows; Enter on a focused entry selects its model and closes, Escape closes. */
    method Navigate(keys: set<Key>) returns (closeRequested: bool)
      modifies this
      ensures var nav := ArrowFocus(old(focusedIndex), |filteredModels|, keys);
        focusedIndex == nav &&
        selectedModelIndex == (if Enter in keys && nav.Some? && nav.value < |filteredModels|
                               then Some(filteredModels[nav.value].0) else old(selectedModelIndex)) &&
        closeRequested == ((Enter in keys && nav.Some? && nav.value < |filteredModels|) || Escape in keys)
      ensures filteredModels != [] && focusedIndex.Some? ==> focusedIndex.value < |filteredModels|
      ensures availableModels == old(availableModels) && filteredModels == old(filteredModels)
      ensures searchText == old(searchText) && lastSearchText == old(lastSearchText) && popupWasOpen == old(popupWasOpen)
    {
      var n := |filteredModels|;
      var start := focusedIndex;
      focusedIndex := Clamp(focusedIndex, n);
      if ArrowDown in keys {
        focusedIndex := Down(focusedIndex, n);
        scrollToFocused := true;
      }
      if ArrowUp in keys {
        focusedIndex := Up(focusedIndex);
        scrollToFocused := true;
      }
      if n > 0 {
        ArrowFocusInRange(start, n, keys);
      }
      closeRequested := false;
      if Enter in keys && focusedIndex.Some? && focusedIndex.value < n {
        selectedModelIndex := Some(filteredModels[focusedIndex.value].0);
        closeRequested := true;
      }
      if Escape in keys {
        closeRequested := true;
      }
    }

    /** `render_search_bar`: an edit of the search resets the focus, by the length of the
        list filtered before the edit, and asks to scroll it into view. */
    method EditSearch(typed: Option<string>)
      modifies this
      ensures searchText == typed.UnwrapOr(old(searchText))
      ensures focusedIndex == (if searchText != old(searchText) then ResetFocus(|filteredModels|) else old(focusedIndex))
      ensures availableModels == old(availableModels) && filteredModels == old(filteredModels)
      ensures selectedModelIndex == old(selectedModelIndex) && lastSearchText == old(lastSearchText)
      ensures popupWasOpen == old(popupWasOpen)
    {
      var previous := searchText;
      if typed.Some? {
        searchText := typed.value;
      }
      if searchText != previous {
        focusedIndex := ResetFocus(|filteredModels|);
        scrollToFocused := true;
      }
    }

    /** `render_model_list`: a click on an entry selects its model and closes. */
    method ClickRow(clickedRow: Option<nat>) returns (clicked: bool)
      modifies this
      ensures clicked == (clickedRow.Some? && clickedRow.value < |filteredModels|)
      ensures selectedModelIndex == (if clicked then Some(filteredModels[clickedRow.value].0) else old(selectedModelIndex))
      ensures availableModels == old(availableModels) && filteredModels == old(filteredModels)
      ensures searchText == old(searchText) && lastSearchText == old(lastSearchText)
      ensures focusedIndex == old(focusedIndex) && popupWasOpen == old(popupWasOpen)
      ensures scrollToFocused == old(scrollToFocused)
    {
      clicked := clickedRow.Some? && clickedRow.value < |filteredModels|;
      if clicked {
        selectedModelIndex := Some(filteredModels[clickedRow.value].0);
      }
    }
  }
}
