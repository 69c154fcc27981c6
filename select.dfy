/** The custom select box: the selected option derived from the current value,
    and the keyboard and mouse state machine over `open` and the highlighted
    index. */
module SelectBox {
  import opened Common

  datatype Choice = Choice(value: string, caption: string)

  datatype Key = ArrowDown | ArrowUp | Home | End | Enter | Space | Escape | Other(name: string)

  /** `findIndex` on the option values: the first option holding `value`, or -1. */
  function SelectedIndex(options: seq<Choice>, value: string): (r: int)
    ensures -1 <= r < |options|
    ensures r >= 0 ==> options[r].value == value && forall j :: 0 <= j < r ==> options[j].value != value
    ensures r == -1 <==> forall j :: 0 <= j < |options| ==> options[j].value != value
    decreases |options|
  {
    if options == [] then -1
    else if options[0].value == value then 0
    else
      var rest := SelectedIndex(options[1..], value);
      assert forall j :: 0 < j < |options| ==> options[j] == options[1..][j - 1];
      if rest == -1 then -1 else rest + 1
  }

  /** The option shown on the trigger: the selected one, or a placeholder
      option with value "" when no option holds the value. */
  function ShownChoice(options: seq<Choice>, value: string, placeholder: string): (c: Choice)
    ensures SelectedIndex(options, value) >= 0 ==> c == options[SelectedIndex(options, value)] && c.value == value
    ensures SelectedIndex(options, value) == -1 ==> c == Choice("", placeholder)
  {
    var i := SelectedIndex(options, value);
    if i >= 0 then options[i] else Choice("", placeholder)
  }

  /** The highlight the selection effect sets: the selected index, or 0. */
  function HighlightFor(options: seq<Choice>, value: string): (h: int)
    ensures 0 <= h && (|options| >= 1 ==> h < |options|)
    ensures || (h < |options| && options[h].value == value)
            || (h == 0 && forall j :: 0 <= j < |options| ==> options[j].value != value)
  {
    var i := SelectedIndex(options, value);
    if i >= 0 then i else 0
  }

  /** What a key press does to `open` and the highlight over `n` options, and
      which option index it selects, if any. */
  datatype KeyResult = KeyResult(open: bool, highlighted: int, pick: Option<nat>)

  function KeyStep(open: bool, highlighted: int, n: int, disabled: bool, key: Key): (r: KeyResult)
    ensures disabled ==> r == KeyResult(open, highlighted, None)
    ensures n >= 1 && 0 <= highlighted < n ==> 0 <= r.highlighted < n
    ensures r.pick.Some? ==>
      && !disabled && open && (key == Enter || key == Space)
      && r.pick.value == highlighted < n
      && r.open == open && r.highlighted == highlighted
    ensures !disabled && (key == ArrowDown || key == ArrowUp) ==> r.open
    ensures !disabled && (key == Home || key == End) ==> r.open == open
    ensures !disabled && key == Home ==> r.highlighted == 0
    ensures !disabled && key == End ==> r.highlighted == n - 1
    ensures !disabled && key == Escape ==> !r.open && r.highlighted == highlighted
    ensures !disabled && (key == Enter || key == Space) && !open ==> r == KeyResult(true, highlighted, None)
    ensures !disabled && (key == Enter || key == Space) && open && 0 <= highlighted < n ==> r.pick == Some(highlighted)
    ensures key.Other? ==> r == KeyResult(open, highlighted, None)
  {
    if disabled then KeyResult(open, highlighted, None)
    else
      match key
      case ArrowDown => KeyResult(true, Min(highlighted + 1, n - 1), None)
      case ArrowUp => KeyResult(true, Max(highlighted - 1, 0), None)
      case Home => KeyResult(open, 0, None)
      case End => KeyResult(open, n - 1, None)
      case Enter => Confirm(open, highlighted, n)
      case Space => Confirm(open, highlighted, n)
      case Escape => KeyResult(false, highlighted, None)
      case Other(_) => KeyResult(open, highlighted, None)
  }

  /** Enter and Space: open a closed list; on an open list pick the highlighted
      option when there is one at that index. */
  function Confirm(open: bool, highlighted: int, n: int): KeyResult {
    if !open then KeyResult(true, highlighted, None)
    else if 0 <= highlighted < n then KeyResult(open, highlighted, Some(highlighted))
    else KeyResult(open, highlighted, None)
  }

  /** ArrowDown and ArrowUp undo each other away from the ends of the list. */
  lemma ArrowsUndoEachOther(open: bool, h: int, n: int)
    requires 0 <= h < n - 1
    ensures var down := KeyStep(open, h, n, false, ArrowDown);
      KeyStep(down.open, down.highlighted, n, false, ArrowUp).highlighted == h
    ensures var up := KeyStep(open, h + 1, n, false, ArrowUp);
      KeyStep(up.open, up.highlighted, n, false, ArrowDown).highlighted == h + 1
  {
  }

  /** The highlight sticks at the ends: ArrowDown on the last option and
      ArrowUp on the first change nothing but `open`. */
  lemma ArrowsStopAtEnds(open: bool, n: int)
    requires n >= 1
    ensures KeyStep(open, n - 1, n, false, ArrowDown) == KeyResult(true, n - 1, None)
    ensures KeyStep(open, 0, n, false, ArrowUp) == KeyResult(true, 0, None)
  {
  }

  /** Pressing ArrowDown `k` times from the top highlights option `min(k, n-1)`. */
  function PressDown(open: bool, h: int, n: int, k: nat): KeyResult
    decreases k
  {
    if k == 0 then KeyResult(open, h, None)
    else
      var r := KeyStep(open, h, n, false, ArrowDown);
      PressDown(r.open, r.highlighted, n, k - 1)
  }

  lemma {:induction false} PressDownReaches(open: bool, h: int, n: int, k: nat)
    requires 0 <= h < n
    ensures PressDown(open, h, n, k).highlighted == Min(h + k, n - 1)
    decreases k
  {
    if k > 0 {
      var r := KeyStep(open, h, n, false, ArrowDown);
      PressDownReaches(r.open, r.highlighted, n, k - 1);
    }
  }

  /** The select box as the page holds it. `value` is the current value the
      parent passes in; `emitted` records the values handed to `onChange`. */
  class Select {
    const options: seq<Choice>
    const disabled: bool
    var value: string
    var open: bool
    var highlighted: int
    var emitted: seq<string>

    /** With at least one option the highlight always names one of them. */
    ghost predicate Valid()
      reads this
    {
      |options| >= 1 ==> 0 <= highlighted < |options|
    }

    /** Mounting: closed, with the selection effect applied. */
    constructor (options: seq<Choice>, value: string, disabled: bool)
      ensures Valid()
      ensures this.options == options && this.value == value && this.disabled == disabled
      ensures !open && highlighted == HighlightFor(options, value) && emitted == []
    {
      this.options := options;
      this.disabled := disabled;
      this.value := value;
      open := false;
      highlighted := HighlightFor(options, value);
      emitted := [];
    }

    /** The parent passes a new value; the selection effect runs when the
        selected index changed. */
    method ReceiveValue(newValue: string)
      requires Valid()
      modifies this
      ensures Valid()
      ensures value == newValue && open == old(open) && emitted == old(emitted)
      ensures SelectedIndex(options, newValue) != SelectedIndex(options, old(value)) ==>
        highlighted == HighlightFor(options, newValue)
      ensures SelectedIndex(options, newValue) == SelectedIndex(options, old(value)) ==>
        highlighted == old(highlighted)
    {
      var before := SelectedIndex(options, value);
      value := newValue;
      if SelectedIndex(options, value) != before {
        highlighted := HighlightFor(options, value);
      }
    }

    /** `handleSelect`: report the option's value only when it differs from
        the current one, and close the list either way. */
    method HandleSelect(choice: Choice)
      modifies this
      ensures !open && highlighted == old(highlighted) && value == old(value)
      ensures emitted == old(emitted) + (if choice.value != value then [choice.value] else [])
    {
      if choice.value != value {
        emitted := emitted + [choice.value];
      }
      open := false;
    }

    /** `handleKeyDown`. */
    method HandleKeyDown(key: Key)
      requires Valid()
      modifies this
      ensures Valid() && value == old(value)
      ensures var r := KeyStep(old(open), old(highlighted), |options|, disabled, key);
        && highlighted == r.highlighted
        && (r.pick.None? ==> open == r.open && emitted == old(emitted))
        && (r.pick.Some? ==>
              (!open && emitted == old(emitted) +
                 (if options[r.pick.value].value != value then [options[r.pick.value].value] else [])))
    {
      var r := KeyStep(open, highlighted, |options|, disabled, key);
      highlighted := r.highlighted;
      open := r.open;
      if r.pick.Some? {
        HandleSelect(options[r.pick.value]);
      }
    }

    /** A click on the trigger toggles the list; a disabled trigger takes no
        clicks. */
    method ToggleClick()
      modifies this
      ensures open == (if disabled then old(open) else !old(open))
      ensures highlighted == old(highlighted) && value == old(value) && emitted == old(emitted)
    {
      if !disabled {
        open := !open;
      }
    }

    /** The pointer entering option `index` highlights it. */
    method MouseEnter(index: nat)
      requires index < |options|
      modifies this
      ensures Valid()
      ensures highlighted == index && open == old(open) && value == old(value) && emitted == old(emitted)
    {
      highlighted := index;
    }

    /** A click on option `index` selects it. */
    method OptionClick(index: nat)
      requires index < |options|
      modifies this
      ensures !open && highlighted == old(highlighted) && value == old(value)
      ensures emitted == old(emitted) + (if options[index].value != value then [options[index].value] else [])
    {
      HandleSelect(options[index]);
    }
  }
}
