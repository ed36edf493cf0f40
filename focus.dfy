/**
 * Keyboard focus over a list of `n` entries, as the directory picker and the model selector
 * move it: the focused index is clamped into the list, ArrowDown moves it one step down and
 * stops at the last entry, ArrowUp moves it one step up and stops at the first. An unset
 * focus counts as the first entry when an arrow moves it. Indices are `usize` in the source,
 * whose `saturating_sub` is SaturatingSub below.
 */
module Focus {
  import opened Wrappers

  /** The keys a popup consumes, in the order it consumes them. */
  datatype Key = ArrowDown | ArrowUp | Enter | Escape

  /** `usize::saturating_sub`. */
  function SaturatingSub(a: nat, b: nat): (r: nat)
    ensures r + b >= a && (a >= b ==> r == a - b) && (a < b ==> r == 0)
  {
    if a >= b then a - b else 0
  }

  function Min(a: nat, b: nat): nat
  {
    if a <= b then a else b
  }

  /** The focus a popup starts its frame with: none for an empty list, the last entry when
      it points past the end, otherwise unchanged. */
  function Clamp(focus: Option<nat>, n: nat): (r: Option<nat>)
    ensures r.Some? ==> r.value < n
    ensures r.None? <==> n == 0 || focus.None?
    ensures focus.Some? && focus.value < n ==> r == focus
    ensures focus.Some? && n > 0 && focus.value >= n ==> r == Some(n - 1)
  {
    if n == 0 then None
    else if focus.Some? && focus.value >= n then Some(n - 1)
    else focus
  }

  /** ArrowDown: one below the focus, or below the first entry when nothing is focused,
      never past the last entry. */
  function Down(focus: Option<nat>, n: nat): (r: Option<nat>)
    ensures r.Some?
    ensures n > 0 ==> r.value < n
    ensures focus.Some? && focus.value + 1 < n ==> r == Some(focus.value + 1)
  {
    var current := focus.UnwrapOr(0);
    Some(Min(current + 1, SaturatingSub(n, 1)))
  }

  /** ArrowUp: one above the focus, never above the first entry. */
  function Up(focus: Option<nat>): (r: Option<nat>)
    ensures r.Some?
    ensures focus.Some? && focus.value > 0 ==> r == Some(focus.value - 1)
    ensures focus.None? || focus.value == 0 ==> r == Some(0)
  {
    var current := focus.UnwrapOr(0);
    Some(SaturatingSub(current, 1))
  }

  /** The focus after the arrows of one frame: the clamped focus, then ArrowDown, then
      ArrowUp, each when pressed. */
  function ArrowFocus(focus: Option<nat>, n: nat, keys: set<Key>): (r: Option<nat>)
  {
    var clamped := Clamp(focus, n);
    var down := if ArrowDown in keys then Down(clamped, n) else clamped;
    if ArrowUp in keys then Up(down) else down
  }

  /** Navigating a non-empty list never leaves it: whatever the focus was and whatever keys
      were pressed, the focus is unset or on an entry. */
  lemma ArrowFocusInRange(focus: Option<nat>, n: nat, keys: set<Key>)
    requires n > 0
    ensures ArrowFocus(focus, n, keys).Some? ==> ArrowFocus(focus, n, keys).value < n
    ensures ArrowFocus(focus, n, keys).None? <==> focus.None? && ArrowDown !in keys && ArrowUp !in keys
  {
  }

  /** An arrow on an empty list still sets the focus, to the first (missing) entry. */
  lemma ArrowOnEmptyList(focus: Option<nat>, keys: set<Key>)
    requires ArrowDown in keys || ArrowUp in keys
    ensures ArrowFocus(focus, 0, keys) == Some(0)
  {
  }

  /** ArrowUp undoes an ArrowDown that was not stopped by the end of the list, and ArrowDown
      undoes an ArrowUp that was not stopped by its start. */
  lemma DownThenUp(i: nat, n: nat)
    requires i + 1 < n
    ensures Up(Down(Some(i), n)) == Some(i)
  {
  }

  lemma UpThenDown(i: nat, n: nat)
    requires 0 < i < n
    ensures Down(Up(Some(i)), n) == Some(i)
  {
  }

  /** The arrows stop at the ends: ArrowDown on the last entry and ArrowUp on the first keep
      the focus where it is. */
  lemma ArrowsStopAtEnds(n: nat)
    requires n > 0
    ensures Down(Some(n - 1), n) == Some(n - 1)
    ensures Up(Some(0)) == Some(0)
  {
  }

  /** Clamping twice is clamping once. */
  lemma ClampIdempotent(focus: Option<nat>, n: nat)
    ensures Clamp(Clamp(focus, n), n) == Clamp(focus, n)
  {
  }

  /** `focused_index` after the list changed under it: the first entry, or none when the new
      list is empty. */
  function ResetFocus(n: nat): (r: Option<nat>)
    ensures r.None? <==> n == 0
    ensures r.Some? ==> r.value == 0 && r.value < n
  {
    if n > 0 then Some(0) else None
  }
}
