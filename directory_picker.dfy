/**
 * The directory picker of the project form: a text field whose content is a path, with
 * `~` expanded against HOME, and a popup of at most fifty sub-directory suggestions the
 * keyboard moves through. HOME, the directory listings and what the user does in a frame
 * (typing, the folder dialog, keys, a click, whether the field has focus) are parameters.
 * Paths are Unix paths; the picker's per-id egui temp memory is the class `PickerMemory`.
 */
module DirectoryPicker {
  import opened Wrappers
  import opened Seqs
  import opened Focus

  const MaxSuggestions := 50

  // ---------------------------------------------------------------------------
  // Paths

  /** `PathBuf::join` on Unix: an absolute path replaces the base; otherwise exactly one
      separator is put between a non-empty base and the pushed path. */
  function Join(base: string, p: string): (r: string)
    ensures StartsWith(p, "/") || base == "" ==> r == p
    ensures !StartsWith(p, "/") && base != "" ==>
      StartsWith(r, base) && EndsWith(r, p) && |r| == |base| + |p| + (if EndsWith(base, "/") then 0 else 1) &&
      r[|r| - |p| - 1] == '/'
  {
    if StartsWith(p, "/") || base == "" then p
    else if EndsWith(base, "/") then base + p
    else base + "/" + p
  }

  /** A path joined under an absolute base is absolute. */
  lemma JoinAbsolute(base: string, p: string)
    requires StartsWith(base, "/")
    ensures StartsWith(Join(base, p), "/")
  {
    if !StartsWith(p, "/") {
      var r := Join(base, p);
      assert r[..1] == base[..1];
    }
  }

  /** `expand_tilde`: `~` is HOME and `~/rest` is `rest` under HOME; with HOME unset, or for
      any other input, the input comes back as it is. */
  function ExpandTilde(input: string, home: Option<string>): (r: string)
    ensures input == "~" && home.Some? ==> r == home.value
    ensures StartsWith(input, "~/") && home.Some? ==> r == Join(home.value, input[2..])
    ensures home.None? || !StartsWith(input, "~") ==> r == input
  {
    if input == "~" then
      if home.Some? then home.value else input
    else if StartsWith(input, "~/") && home.Some? then Join(home.value, input[2..])
    else input
  }

  /** With HOME unset or absolute, expanding twice is expanding once: nothing `~`-like is
      left after the first expansion. */
  lemma ExpandTildeIdempotent(input: string, home: Option<string>)
    requires home.None? || StartsWith(home.value, "/")
    ensures ExpandTilde(ExpandTilde(input, home), home) == ExpandTilde(input, home)
  {
    var r := ExpandTilde(input, home);
    if home.Some? && (input == "~" || StartsWith(input, "~/")) {
      if StartsWith(input, "~/") {
        JoinAbsolute(home.value, input[2..]);
      }
      assert r[0] == '/';
    }
  }

  /** The index of the last `/`, if there is one. */
  function LastSlash(s: string): (r: Option<nat>)
    ensures r.Some? ==> r.value < |s| && s[r.value] == '/' && forall k :: r.value < k < |s| ==> s[k] != '/'
    ensures r.None? ==> forall k :: 0 <= k < |s| ==> s[k] != '/'
    decreases |s|
  {
    if s == [] then None
    else if s[|s| - 1] == '/' then Some(|s| - 1)
    else LastSlash(s[..|s| - 1])
  }

  function TrimTrailingSlashes(s: string): (r: string)
    ensures |r| <= |s| && r == s[..|r|] && !EndsWith(r, "/")
    ensures forall k :: |r| <= k < |s| ==> s[k] == '/'
    decreases |s|
  {
    if EndsWith(s, "/") then TrimTrailingSlashes(s[..|s| - 1]) else s
  }

  /** The directory to list and the name prefix to match: a path ending in `/` is listed
      itself with no prefix; otherwise its parent is listed (`/` when it has none) and its
      last component is the prefix. A relative path with no separator has the empty parent. */
  function SplitParent(resolved: string): (r: (string, string))
    ensures EndsWith(resolved, "/") ==> r == (resolved, "")
    ensures !EndsWith(resolved, "/") ==> EndsWith(resolved, r.1) && forall k :: 0 <= k < |r.1| ==> r.1[k] != '/'
    ensures resolved != "" && !EndsWith(resolved, "/") ==> r.1 != ""
  {
    if EndsWith(resolved, "/") then (resolved, "")
    else if resolved == "" then ("/", "")
    else
      match LastSlash(resolved)
      case None => ("", resolved)
      case Some(i) =>
        var parent := TrimTrailingSlashes(resolved[..i]);
        (if parent == "" then "/" else parent, resolved[i + 1..])
  }

  /** The last separator is the one after which none follows. */
  lemma {:induction false} LastSlashIs(s: string, cut: nat)
    requires cut < |s| && s[cut] == '/' && forall k :: cut < k < |s| ==> s[k] != '/'
    ensures LastSlash(s) == Some(cut)
    decreases |s|
  {
    if cut < |s| - 1 {
      LastSlashIs(s[..|s| - 1], cut);
    }
  }

  /** Splitting a joined path gives back the directory and the name it was built from. */
  lemma SplitJoin(dir: string, name: string)
    requires name != "" && forall k :: 0 <= k < |name| ==> name[k] != '/'
    requires dir == "/" || (dir != "" && !EndsWith(dir, "/"))
    ensures SplitParent(Join(dir, name)) == (dir, name)
  {
    var head := if dir == "/" then "" else dir;
    var s := head + "/" + name;
    assert Join(dir, name) == s by {
      assert !StartsWith(name, "/") by { assert name[0] != '/'; }
      if dir == "/" {
        assert EndsWith(dir, "/");
      }
    }
    SplitAtLast(head, name);
  }

  lemma SplitAtLast(head: string, name: string)
    requires name != "" && forall k :: 0 <= k < |name| ==> name[k] != '/'
    requires !EndsWith(head, "/")
    ensures SplitParent(head + "/" + name) == (if head == "" then "/" else head, name)
  {
    var s := head + "/" + name;
    assert !EndsWith(s, "/") by {
      assert s[|s| - 1] == name[|name| - 1];
    }
    forall k | |head| < k < |s| ensures s[k] != '/' {
      assert s[k] == name[k - |head| - 1];
    }
    LastSlashIs(s, |head|);
    assert s[|head| + 1..] == name;
    assert s[..|head|] == head;
  }

  /** What `compute_dir_suggestions` lists and matches, or None when it gives up before
      reading a directory: an empty input, or a relative input with HOME unset. A relative
      input is resolved under HOME. */
  function Locate(input: string, home: Option<string>): (r: Option<(string, string)>)
    ensures input == "" ==> r.None?
    ensures input != "" && (StartsWith(input, "/") || StartsWith(input, "~")) ==> r == Some(SplitParent(ExpandTilde(input, home)))
    ensures input != "" && !StartsWith(input, "/") && !StartsWith(input, "~") ==>
      r == if home.None? then None else Some(SplitParent(Join(home.value, input)))
  {
    if input == "" then None
    else
      var expanded := ExpandTilde(input, home);
      if !StartsWith(input, "/") && !StartsWith(input, "~") then
        if home.None? then None else Some(SplitParent(Join(home.value, expanded)))
      else Some(SplitParent(expanded))
  }

  // ---------------------------------------------------------------------------
  // Suggestions

  /** One entry of `read_dir`: unreadable, or an entry whose file type may fail to be read
      (`isDir` None) and whose name may not be UTF-8 (`name` None). */
  datatype DirEntry = Unreadable | Entry(isDir: Option<bool>, name: Option<string>)

  /** An entry is offered when it is a directory with a UTF-8 name that is not hidden and
      starts, ignoring case, with the prefix. */
  predicate Offered(prefixLower: string, e: DirEntry)
  {
    e.Entry? && e.isDir == Some(true) && e.name.Some? &&
    !StartsWith(e.name.value, ".") &&
    (prefixLower == "" || StartsWith(ToLower(e.name.value), prefixLower))
  }

  /** The offered entries of a listing, in listing order, each as its full path. */
  function Offers(parent: string, prefixLower: string, entries: seq<DirEntry>): (r: seq<string>)
    ensures |r| <= |entries|
    ensures forall x :: x in r <==> exists i :: 0 <= i < |entries| && Offered(prefixLower, entries[i]) && x == Join(parent, entries[i].name.value)
    decreases |entries|
  {
    if entries == [] then []
    else
      var rest := Offers(parent, prefixLower, entries[1..]);
      assert forall i :: 1 <= i < |entries| ==> entries[i] == entries[1..][i - 1];
      if Offered(prefixLower, entries[0]) then [Join(parent, entries[0].name.value)] + rest else rest
  }

  /** Every offered path the directories give for `input`, before sorting and the cap. */
  function Candidates(input: string, home: Option<string>, fs: map<string, seq<DirEntry>>): seq<string>
  {
    match Locate(input, home)
    case None => []
    case Some(located) =>
      if located.0 in fs then Offers(located.0, ToLower(located.1), fs[located.0]) else []
  }

  function Take(s: seq<string>, n: nat): (r: seq<string>)
    ensures |r| <= n && |r| <= |s| && r == s[..|r|]
    ensures |r| == if |s| <= n then |s| else n
  {
    if |s| <= n then s else s[..n]
  }

  /** `compute_dir_suggestions`: the candidates sorted, then cut to fifty. A directory that
      cannot be read gives none. */
  function ComputeDirSuggestions(input: string, home: Option<string>, fs: map<string, seq<DirEntry>>): (r: seq<string>)
    ensures |r| <= MaxSuggestions
    ensures input == "" ==> r == []
    ensures Locate(input, home).None? ==> r == []
    ensures Locate(input, home).Some? && Locate(input, home).value.0 !in fs ==> r == []
  {
    Take(SortBy(Candidates(input, home, fs), StrLe), MaxSuggestions)
  }

  /** The suggestions are sorted, each is a candidate, and one candidate is left out only
      when fifty candidates that sort no later than it are shown. */
  lemma SuggestionsAreSmallestCandidates(input: string, home: Option<string>, fs: map<string, seq<DirEntry>>)
    ensures SortedBy(ComputeDirSuggestions(input, home, fs), StrLe)
    ensures forall x :: x in ComputeDirSuggestions(input, home, fs) ==> x in Candidates(input, home, fs)
    ensures forall x :: x in Candidates(input, home, fs) && x !in ComputeDirSuggestions(input, home, fs) ==>
      |ComputeDirSuggestions(input, home, fs)| == MaxSuggestions &&
      forall y :: y in ComputeDirSuggestions(input, home, fs) ==> StrLe(y, x)
  {
    SmallestSorted(Candidates(input, home, fs));
  }

  /** The first fifty of a list of names in order are in order, are among the names, and
      every name left out follows all of them. */
  lemma SmallestSorted(found: seq<string>)
    ensures SortedBy(Take(SortBy(found, StrLe), MaxSuggestions), StrLe)
    ensures forall x :: x in Take(SortBy(found, StrLe), MaxSuggestions) ==> x in found
    ensures forall x :: x in found && x !in Take(SortBy(found, StrLe), MaxSuggestions) ==>
      |Take(SortBy(found, StrLe), MaxSuggestions)| == MaxSuggestions &&
      forall y :: y in Take(SortBy(found, StrLe), MaxSuggestions) ==> StrLe(y, x)
  {
    var sorted := SortBy(found, StrLe);
    StrLeOrders();
    SortBySorted(found, StrLe);
    TakeOfSorted(sorted, MaxSuggestions);
    forall x ensures x in sorted <==> x in found {
      assert x in sorted <==> x in multiset(sorted);
      assert x in found <==> x in multiset(found);
    }
  }

  /** A prefix of a sorted list is sorted, and what it leaves out follows all of it. */
  lemma TakeOfSorted(sorted: seq<string>, n: nat)
    requires SortedBy(sorted, StrLe)
    ensures SortedBy(Take(sorted, n), StrLe)
    ensures forall x :: x in Take(sorted, n) ==> x in sorted
    ensures forall x :: x in sorted && x !in Take(sorted, n) ==>
      |Take(sorted, n)| == n && forall y :: y in Take(sorted, n) ==> StrLe(y, x)
  {
    var r := Take(sorted, n);
    forall x | x in sorted && x !in r
      ensures |r| == n && forall y :: y in r ==> StrLe(y, x)
    {
      var k :| 0 <= k < |sorted| && sorted[k] == x;
      assert k >= |r|;
      forall y | y in r ensures StrLe(y, x) {
        var j :| 0 <= j < |r| && r[j] == y;
        assert sorted[j] == y;
      }
    }
  }

  /** With fifty candidates or fewer, every candidate is suggested. */
  lemma FewCandidatesAllSuggested(input: string, home: Option<string>, fs: map<string, seq<DirEntry>>)
    requires |Candidates(input, home, fs)| <= MaxSuggestions
    ensures forall x :: x in Candidates(input, home, fs) <==> x in ComputeDirSuggestions(input, home, fs)
  {
    SuggestionsAreSmallestCandidates(input, home, fs);
    assert |ComputeDirSuggestions(input, home, fs)| == |Candidates(input, home, fs)|;
    forall x | x in Candidates(input, home, fs) ensures x in ComputeDirSuggestions(input, home, fs) {
      var found := Candidates(input, home, fs);
      assert x in multiset(SortBy(found, StrLe));
    }
  }

  /** A suggestion for an input ending in `/` is a visible sub-directory of that directory. */
  lemma TrailingSlashListsDirectory(input: string, home: Option<string>, fs: map<string, seq<DirEntry>>, x: string)
    requires StartsWith(input, "/") && EndsWith(input, "/")
    requires x in ComputeDirSuggestions(input, home, fs)
    ensures input in fs
    ensures exists i :: 0 <= i < |fs[input]| && Offered("", fs[input][i]) && x == Join(input, fs[input][i].name.value)
  {
    SuggestionsAreSmallestCandidates(input, home, fs);
    assert ExpandTilde(input, home) == input;
    assert ToLower("") == "";
  }

  lemma StrLeOrders()
    ensures TotalPreorder(StrLe)
  {
    forall a: string, b: string ensures StrLe(a, b) || StrLe(b, a) {
      StrLeTotal(a, b);
    }
    forall a: string, b: string, c: string | StrLe(a, b) && StrLe(b, c) ensures StrLe(a, c) {
      StrLeTrans(a, b, c);
    }
  }

  // ---------------------------------------------------------------------------
  // The popup's keys

  /** What the popup over `suggestions` leaves behind, as a focus and a pick: the focus is
      clamped and moved by the arrows; Enter on a focused suggestion picks it; otherwise,
      unless Escape emptied the list, a click on a row picks that row. A pick or Escape
      leaves no focus. */
  ghost function PopupResult(suggestions: seq<string>, focused: Option<nat>, keys: set<Key>, clickedRow: Option<nat>): (Option<nat>, Option<string>)
  {
    var n := |suggestions|;
    var nav := ArrowFocus(focused, n, keys);
    var enterPick := Enter in keys && nav.Some? && nav.value < n;
    var clickPick := !enterPick && Escape !in keys && clickedRow.Some? && clickedRow.value < n;
    if enterPick then (None, Some(suggestions[nav.value]))
    else if clickPick then (None, Some(suggestions[clickedRow.value]))
    else if Escape in keys then (None, None)
    else (nav, None)
  }

  /** Enter on the focused suggestion picks it, when no arrow moved the focus. */
  lemma EnterPicksFocused(suggestions: seq<string>, i: nat, keys: set<Key>, clickedRow: Option<nat>)
    requires i < |suggestions| && Enter in keys && ArrowDown !in keys && ArrowUp !in keys
    ensures PopupResult(suggestions, Some(i), keys, clickedRow) == (None, Some(suggestions[i]))
  {
  }

  /** A click on a suggestion picks it, when no key closed or picked before it. */
  lemma ClickPicksRow(suggestions: seq<string>, focused: Option<nat>, keys: set<Key>, row: nat)
    requires row < |suggestions| && Enter !in keys && Escape !in keys
    ensures PopupResult(suggestions, focused, keys, Some(row)) == (None, Some(suggestions[row]))
  {
  }

  /** Without Enter, Escape or a click, nothing is picked and the focus is where the arrows
      put it, on the list when it is not empty. */
  lemma ArrowsOnlyMoveFocus(suggestions: seq<string>, focused: Option<nat>, keys: set<Key>)
    requires suggestions != [] && Enter !in keys && Escape !in keys
    ensures PopupResult(suggestions, focused, keys, None).1.None?
    ensures PopupResult(suggestions, focused, keys, None).0 == ArrowFocus(focused, |suggestions|, keys)
    ensures PopupResult(suggestions, focused, keys, None).0.Some? ==> PopupResult(suggestions, focused, keys, None).0.value < |suggestions|
  {
    ArrowFocusInRange(focused, |suggestions|, keys);
  }

  /** The popup of one frame: the focus is clamped, moved by the arrows, then Enter picks
      the focused suggestion, Escape dismisses the list, and a click on a row still shown
      picks that row. Picking or dismissing empties the list and the focus. */
  method Popup(suggestions: seq<string>, focused: Option<nat>, keys: set<Key>, clickedRow: Option<nat>)
    returns (shown: seq<string>, focus: Option<nat>, chosen: Option<string>)
    ensures (focus, chosen) == PopupResult(suggestions, focused, keys, clickedRow)
    ensures suggestions != [] && focus.Some? ==> focus.value < |suggestions|
    ensures chosen.Some? || Escape in keys ==> shown == [] && focus.None?
    ensures chosen.None? && Escape !in keys ==> shown == suggestions && focus == ArrowFocus(focused, |suggestions|, keys)
    ensures chosen.Some? ==> chosen.value in suggestions
    ensures Enter in keys && ArrowFocus(focused, |suggestions|, keys).Some? && ArrowFocus(focused, |suggestions|, keys).value < |suggestions| ==>
      chosen == Some(suggestions[ArrowFocus(focused, |suggestions|, keys).value])
    ensures Enter !in keys && Escape !in keys && clickedRow.Some? && clickedRow.value < |suggestions| ==>
      chosen == Some(suggestions[clickedRow.value])
    ensures (Enter !in keys || ArrowFocus(focused, |suggestions|, keys).None?) && (clickedRow.None? || clickedRow.value >= |suggestions|) ==>
      chosen.None?
  {
    var n := |suggestions|;
    focus := Clamp(focused, n);
    if ArrowDown in keys {
      focus := Down(focus, n);
    }
    if ArrowUp in keys {
      focus := Up(focus);
    }
    if n > 0 {
      ArrowFocusInRange(focused, n, keys);
    }
    shown := suggestions;
    chosen := None;
    if Enter in keys && focus.Some? && focus.value < |shown| {
      chosen := Some(shown[focus.value]);
      shown := [];
      focus := None;
    }
    if Escape in keys {
      shown := [];
      focus := None;
    }
    if clickedRow.Some? && clickedRow.value < |shown| {
      chosen := Some(shown[clickedRow.value]);
      shown := [];
      focus := None;
    }
  }

  /** The popup is shown for a non-empty search with suggestions while the field has focus;
      otherwise the focus is left as it is and nothing is picked. */
  method PopupIfShown(current: string, listed: seq<string>, focused: Option<nat>, hasFocus: bool, keys: set<Key>, clickedRow: Option<nat>)
    returns (shownPopup: bool, focus: Option<nat>, chosen: Option<string>)
    ensures shownPopup == (current != "" && listed != [] && hasFocus)
    ensures !shownPopup ==> focus == focused && chosen.None?
    ensures shownPopup ==> (focus, chosen) == PopupResult(listed, focused, keys, clickedRow)
    ensures shownPopup && focus.Some? ==> focus.value < |listed|
    ensures chosen.Some? ==> shownPopup && chosen.value in listed
  {
    shownPopup := current != "" && listed != [] && hasFocus;
    focus, chosen := focused, None;
    if shownPopup {
      var shown;
      shown, focus, chosen := Popup(listed, focused, keys, clickedRow);
    }
  }

  // ---------------------------------------------------------------------------
  // The picker's memory across frames

  /** How the frame reads the `focused_index` slot: the value stored there, an unset slot
      reading as no focus. */
  function FocusRead(slot: Option<Option<nat>>): (r: Option<nat>)
    ensures slot.None? ==> r.None?
    ensures slot.Some? ==> r == slot.value
  {
    if slot.Some? then slot.value else None
  }

  /** The read as written: egui keys temp memory by id and type, and the slot is read as a
      `usize` while an `Option<usize>` is stored in it, so the read never finds the stored
      focus. */
  function FocusReadAsWritten(slot: Option<Option<nat>>): (r: Option<nat>)
    ensures r.None?
  {
    None
  }

  /** Two frames of ArrowDown over three suggestions: with the focus read back, the second
      press moves it to the third entry; as written, each frame starts unfocused and the
      focus stays on the second. */
  lemma FocusLostBetweenFrames(keys: set<Key>)
    requires keys == {ArrowDown}
    ensures ArrowFocus(Some(0), 3, keys) == Some(1)
    ensures ArrowFocus(FocusRead(Some(Some(1))), 3, keys) == Some(2)
    ensures ArrowFocus(FocusReadAsWritten(Some(Some(1))), 3, keys) == Some(1)
  {
  }

  /** The suggestions and the focus the popup of a frame starts from: those computed for a
      changed search, with the focus on the first; none after a folder picked in the dialog;
      otherwise the stored ones. */
  ghost function FrameListing(stored: seq<string>, storedFocus: Option<Option<nat>>, lastSearch: string, search: string,
                              picked: bool, home: Option<string>, fs: map<string, seq<DirEntry>>): (seq<string>, Option<nat>)
  {
    if search != lastSearch then
      var computed := ComputeDirSuggestions(search, home, fs);
      (computed, ResetFocus(|computed|))
    else if picked then ([], None)
    else (stored, FocusRead(storedFocus))
  }

  /** What the picker answers for one frame. */
  datatype PickerResponse = PickerResponse(path: string, changed: bool, browseClicked: bool)

  /** The search text a frame works on: the stored one (or the bound path when none is
      stored), as typed over this frame, replaced by a folder picked in the dialog. */
  function SearchOf(stored: Option<string>, path: string, typed: Option<string>, browse: Option<Option<string>>): (r: string)
    ensures browse.Some? && browse.value.Some? ==> r == browse.value.value
    ensures (browse.None? || browse.value.None?) && typed.Some? ==> r == typed.value
    ensures (browse.None? || browse.value.None?) && typed.None? ==> r == stored.UnwrapOr(path)
  {
    if browse.Some? && browse.value.Some? then browse.value.value
    else if typed.Some? then typed.value
    else stored.UnwrapOr(path)
  }

  class PickerMemory {
    var searchText: Option<string>
    var suggestions: seq<string>
    var focusedIndex: Option<Option<nat>>
    var lastSearch: string
    var scrollToFocused: bool
    var changed: bool
    var browseClicked: bool

    /** The stored focus, when there is one, points at a stored suggestion. */
    ghost predicate Valid()
      reads this
    {
      focusedIndex.Some? && focusedIndex.value.Some? ==> focusedIndex.value.value < |suggestions|
    }

    constructor ()
      ensures searchText.None? && suggestions == [] && focusedIndex.None? && lastSearch == ""
      ensures !scrollToFocused && !changed && !browseClicked
      ensures Valid()
    {
      searchText := None;
      suggestions := [];
      focusedIndex := None;
      lastSearch := "";
      scrollToFocused := false;
      changed := false;
      browseClicked := false;
    }

    /** The start of a frame: the stored search text (the bound path when none is stored),
        the stored suggestions and the stored focus, read as intended (`FocusRead`); then what
        the user typed, and a folder picked in the dialog, which replaces the search and clears
        the suggestions and the focus. */
    method Load(path: string, typed: Option<string>, browse: Option<Option<string>>)
      returns (current: string, listed: seq<string>, focused: Option<nat>, picked: bool)
      ensures current == SearchOf(searchText, path, typed, browse)
      ensures picked == (browse.Some? && browse.value.Some?)
      ensures picked ==> listed == [] && focused.None?
      ensures !picked ==> listed == suggestions && focused == FocusRead(focusedIndex)
    {
      current := searchText.UnwrapOr(path);
      listed := suggestions;
      focused := FocusRead(focusedIndex);
      picked := false;
      if typed.Some? {
        current := typed.value;
      }
      if browse.Some? && browse.value.Some? {
        current := browse.value.value;
        listed := [];
        focused := None;
        picked := true;
      }
    }

    /** The suggestions are recomputed and stored, with the search they were computed for,
        only when the search differs from the last one; the focus then moves to the first. */
    method Refresh(current: string, listed: seq<string>, focused: Option<nat>, home: Option<string>, fs: map<string, seq<DirEntry>>)
      returns (refreshed: bool, nowListed: seq<string>, nowFocused: Option<nat>)
      modifies this
      ensures refreshed == (current != old(lastSearch))
      ensures refreshed ==>
        suggestions == ComputeDirSuggestions(current, home, fs) && lastSearch == current &&
        nowListed == suggestions && nowFocused == ResetFocus(|suggestions|)
      ensures !refreshed ==>
        suggestions == old(suggestions) && lastSearch == old(lastSearch) && nowListed == listed && nowFocused == focused
      ensures searchText == old(searchText) && focusedIndex == old(focusedIndex) && scrollToFocused == old(scrollToFocused)
      ensures changed == old(changed) && browseClicked == old(browseClicked)
    {
      refreshed := current != lastSearch;
      nowListed, nowFocused := listed, focused;
      if refreshed {
        nowListed := ComputeDirSuggestions(current, home, fs);
        suggestions := nowListed;
        lastSearch := current;
        nowFocused := ResetFocus(|nowListed|);
      }
    }

    /** `show`, one frame. `path` is the bound path string, `typed` the field's text if the
        user edited it, `browse` the folder dialog (None: the button was not clicked), and
        `hasFocus`, `keys` and `clickedRow` what the user did to the popup. The suggestions
        are recomputed and stored only when the search text changed since the last
        computation; picking a suggestion stores it as the search text and answers it as the
        path, which is otherwise the search text with `~` expanded. */
    method Show(path: string, typed: Option<string>, browse: Option<Option<string>>, hasFocus: bool, keys: set<Key>,
                clickedRow: Option<nat>, home: Option<string>, fs: map<string, seq<DirEntry>>)
      returns (r: PickerResponse)
      requires Valid()
      modifies this
      ensures Valid()
      ensures r.browseClicked == browse.Some? && browseClicked == r.browseClicked && changed == r.changed
      ensures SearchOf(old(searchText), path, typed, browse) != old(lastSearch) ==>
        suggestions == ComputeDirSuggestions(SearchOf(old(searchText), path, typed, browse), home, fs) &&
        lastSearch == SearchOf(old(searchText), path, typed, browse)
      ensures SearchOf(old(searchText), path, typed, browse) == old(lastSearch) ==>
        suggestions == old(suggestions) && lastSearch == old(lastSearch)
      ensures var search := SearchOf(old(searchText), path, typed, browse);
        (searchText == Some(search) && r.path == ExpandTilde(search, home) &&
         r.changed == (search != old(lastSearch) || (browse.Some? && browse.value.Some?))) ||
        (searchText == Some(r.path) && r.path in suggestions && r.changed && search != "" && hasFocus)
      ensures var search := SearchOf(old(searchText), path, typed, browse);
        var picked := browse.Some? && browse.value.Some?;
        var start := FrameListing(old(suggestions), old(focusedIndex), old(lastSearch), search, picked, home, fs);
        var shown := search != "" && start.0 != [] && hasFocus;
        var outcome := PopupResult(start.0, start.1, keys, clickedRow);
        focusedIndex == Some(if shown then outcome.0 else start.1) &&
        scrollToFocused == (!shown && (old(scrollToFocused) || search != old(lastSearch))) &&
        (shown && outcome.1.Some? ==> searchText == outcome.1 && r.path == outcome.1.value && r.changed) &&
        (!(shown && outcome.1.Some?) ==>
          searchText == Some(search) && r.path == ExpandTilde(search, home) && r.changed == (search != old(lastSearch) || picked))
    {
      var current, listed, focused, picked := Load(path, typed, browse);
      var refreshed;
      refreshed, listed, focused := Refresh(current, listed, focused, home, fs);
      r := Finish(current, listed, focused, picked, refreshed, browse.Some?, hasFocus, keys, clickedRow, home);
    }

    /** The rest of the frame, after the suggestions are current: the popup over `listed`
        while the field has focus, then the search text, the focus, the scroll request and
        the flags are stored. A refresh asks to scroll the focus into view and showing the
        popup answers that request. */
    method Finish(current: string, listed: seq<string>, focused: Option<nat>, picked: bool, refreshed: bool,
                  browsed: bool, hasFocus: bool, keys: set<Key>, clickedRow: Option<nat>, home: Option<string>)
      returns (r: PickerResponse)
      requires focused.Some? ==> focused.value < |listed|
      requires listed == suggestions || listed == []
      modifies this
      ensures suggestions == old(suggestions) && lastSearch == old(lastSearch)
      ensures Valid()
      ensures r.browseClicked == browsed && browseClicked == browsed && changed == r.changed
      ensures scrollToFocused == (!(current != "" && listed != [] && hasFocus) && (old(scrollToFocused) || refreshed))
      ensures !(current != "" && listed != [] && hasFocus) ==> focusedIndex == Some(focused)
      ensures var outcome := PopupResult(listed, focused, keys, clickedRow);
        current != "" && listed != [] && hasFocus ==>
          focusedIndex == Some(outcome.0) &&
          (outcome.1.Some? ==> searchText == outcome.1 && r.path == outcome.1.value && r.changed)
      ensures !(current != "" && listed != [] && hasFocus && PopupResult(listed, focused, keys, clickedRow).1.Some?) ==>
        searchText == Some(current) && r.path == ExpandTilde(current, home) && r.changed == (picked || refreshed)
      ensures (searchText == Some(current) && r.path == ExpandTilde(current, home) && r.changed == (picked || refreshed)) ||
        (searchText == Some(r.path) && r.path in suggestions && r.changed && current != "" && hasFocus)
    {
      var shownPopup, focus, chosen := PopupIfShown(current, listed, focused, hasFocus, keys, clickedRow);
      searchText := Some(current);
      var newPath := ExpandTilde(current, home);
      if chosen.Some? {
        searchText := Some(chosen.value);
        newPath := chosen.value;
      }
      var changedNow := picked || refreshed || chosen.Some?;
      focusedIndex := Some(focus);
      scrollToFocused := !shownPopup && (scrollToFocused || refreshed);
      changed := changedNow;
      browseClicked := browsed;
      r := PickerResponse(newPath, changedNow, browsed);
    }
  }
}
