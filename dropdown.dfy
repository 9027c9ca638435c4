/**
 * The listbox selector of the export panel: a trigger button and, while
 * open, a menu of options with a keyboard-driven focus index.
 *
 * The React state (`isOpen`, `focusedIndex`) and the `value` prop form a
 * MenuState; every event handler is a total transition on it, and a
 * confirmed selection is reported as an emitted value (one onChange call).
 * The class Dropdown at the end holds the same state in fields and has one
 * method per handler, each specified by the transition function.
 */
module DropdownComponent {
  import opened Common

  /** One entry of the menu: the value reported through onChange and the text shown. */
  datatype MenuOption = MenuOption(value: string, labelText: string)

  datatype Option<T> = None | Some(value: T)

  /** The keys the handler distinguishes; every other key is OtherKey. */
  datatype Key = ArrowDown | ArrowUp | Enter | Space | Escape | Tab | OtherKey

  /** Where a document-level mousedown lands. */
  datatype Target = OnTrigger | InMenu | Elsewhere

  /** What can happen to one dropdown between two renders. */
  datatype Event =
    | TriggerMouseDown
    | KeyPress(key: Key)
    | OptionClick(index: nat)
    | DocumentMouseDown(target: Target)
    | ValueProp(newValue: string)

  /** The `value` prop together with the two state variables. */
  datatype MenuState = MenuState(value: string, isOpen: bool, focusedIndex: int)

  /** The state after an event, and the values passed to onChange, in order. */
  datatype Reaction = Reaction(state: MenuState, emitted: seq<string>)

  predicate Listed(options: seq<MenuOption>, value: string) {
    exists j :: 0 <= j < |options| && options[j].value == value
  }

  predicate DistinctValues(options: seq<MenuOption>) {
    forall i, j :: 0 <= i < j < |options| ==> options[i].value != options[j].value
  }

  /** options.findIndex(opt => opt.value === value): the first match, or -1. */
  function FindIndex(options: seq<MenuOption>, value: string): (r: int)
    ensures -1 <= r < |options|
    ensures 0 <= r ==> options[r].value == value
    ensures 0 <= r ==> forall j :: 0 <= j < r ==> options[j].value != value
    ensures r == -1 <==> !Listed(options, value)
  {
    if |options| == 0 then -1
    else if options[0].value == value then 0
    else
      var k := FindIndex(options[1..], value);
      assert forall j :: 1 <= j < |options| ==> options[j] == options[1..][j - 1];
      if k < 0 then -1 else k + 1
  }

  /** options.find(opt => opt.value === value): the selected option shown on the trigger. */
  function Find(options: seq<MenuOption>, value: string): (r: Option<MenuOption>)
    ensures r.Some? <==> Listed(options, value)
    ensures r.Some? ==> r.value == options[FindIndex(options, value)]
  {
    if |options| == 0 then None
    else if options[0].value == value then Some(options[0])
    else
      assert forall j :: 1 <= j < |options| ==> options[j] == options[1..][j - 1];
      Find(options[1..], value)
  }

  /** With distinct values, lookup by value finds the one option holding it. */
  lemma LookupUnambiguous(options: seq<MenuOption>, i: nat)
    requires DistinctValues(options) && i < |options|
    ensures FindIndex(options, options[i].value) == i
    ensures Find(options, options[i].value) == Some(options[i])
  {
  }

  /** The index the open effect focuses: the selected option, or 0 when none is selected. */
  function SeedFocus(options: seq<MenuOption>, value: string): (r: int)
    requires |options| > 0
    ensures 0 <= r < |options|
    ensures Listed(options, value) ==> options[r].value == value
    ensures Listed(options, value) ==> forall j :: 0 <= j < r ==> options[j].value != value
    ensures !Listed(options, value) ==> r == 0
  {
    var k := FindIndex(options, value);
    if k >= 0 then k else 0
  }

  /** The initial state: closed, focusedIndex -1. */
  function Initial(value: string): MenuState {
    MenuState(value, false, -1)
  }

  /** What the handlers rely on: options exist and focusedIndex is -1 or a valid index. */
  predicate InBounds(options: seq<MenuOption>, s: MenuState) {
    |options| > 0 && -1 <= s.focusedIndex < |options|
  }

  /** InBounds, and an open menu always focuses a real option. */
  predicate Coherent(options: seq<MenuOption>, s: MenuState) {
    InBounds(options, s) && (s.isOpen ==> 0 <= s.focusedIndex)
  }

  /** Opening, with the effect that runs after the render that opened the menu. */
  function Opened(options: seq<MenuOption>, s: MenuState): MenuState
    requires |options| > 0
  {
    s.(isOpen := true, focusedIndex := SeedFocus(options, s.value))
  }

  predicate OpensMenu(key: Key) {
    key == ArrowDown || key == ArrowUp || key == Enter || key == Space
  }

  /** handleMouseDown on the trigger: toggles isOpen. */
  function OnTriggerMouseDown(options: seq<MenuOption>, s: MenuState): (r: MenuState)
    requires InBounds(options, s)
    ensures r.value == s.value && r.isOpen == !s.isOpen
    ensures r.isOpen ==> r.focusedIndex == SeedFocus(options, s.value)
    ensures !r.isOpen ==> r.focusedIndex == s.focusedIndex
    ensures Coherent(options, r)
  {
    if s.isOpen then s.(isOpen := false) else Opened(options, s)
  }

  /** handleKeyDown on the trigger. */
  function OnKeyDown(options: seq<MenuOption>, s: MenuState, key: Key): (r: Reaction)
    requires InBounds(options, s)
    ensures InBounds(options, r.state) && r.state.value == s.value
    ensures Coherent(options, s) ==> Coherent(options, r.state)
    // closed: the four opening keys open the menu and do nothing else; other keys do nothing
    ensures !s.isOpen && OpensMenu(key) ==> r == Reaction(Opened(options, s), [])
    ensures !s.isOpen && !OpensMenu(key) ==> r == Reaction(s, [])
    // open: arrows move the focus, clamped at both ends, without closing or reporting
    ensures s.isOpen && key == ArrowDown ==>
      r == Reaction(s.(focusedIndex := Min(s.focusedIndex + 1, |options| - 1)), [])
    ensures s.isOpen && key == ArrowUp && s.focusedIndex >= 0 ==>
      r == Reaction(s.(focusedIndex := Max(s.focusedIndex - 1, 0)), [])
    ensures s.isOpen && key == ArrowUp && s.focusedIndex < 0 ==> r == Reaction(s, [])
    // open: Enter and Space confirm the focused option exactly once and close
    ensures s.isOpen && (key == Enter || key == Space) && s.focusedIndex >= 0 ==>
      r == Reaction(s.(isOpen := false), [options[s.focusedIndex].value])
    ensures s.isOpen && (key == Enter || key == Space) && s.focusedIndex < 0 ==>
      r == Reaction(s, [])
    // open: Escape and Tab close without reporting
    ensures s.isOpen && (key == Escape || key == Tab) ==> r == Reaction(s.(isOpen := false), [])
    ensures s.isOpen && key == OtherKey ==> r == Reaction(s, [])
    ensures |r.emitted| <= 1
  {
    if !s.isOpen && OpensMenu(key) then
      Reaction(Opened(options, s), [])
    else
      match key
      case ArrowDown =>
        Reaction(s.(focusedIndex := if s.focusedIndex < |options| - 1 then s.focusedIndex + 1 else s.focusedIndex), [])
      case ArrowUp =>
        Reaction(s.(focusedIndex := if s.focusedIndex > 0 then s.focusedIndex - 1 else s.focusedIndex), [])
      case Enter | Space =>
        if s.focusedIndex >= 0 then Reaction(s.(isOpen := false), [options[s.focusedIndex].value])
        else Reaction(s, [])
      case Escape | Tab =>
        Reaction(s.(isOpen := false), [])
      case OtherKey =>
        Reaction(s, [])
  }

  /**
   * handleOptionClick for the option at `index`: report its value and close.
   * The options are rendered only while the menu is open.
   */
  function OnOptionClick(options: seq<MenuOption>, s: MenuState, index: nat): (r: Reaction)
    requires InBounds(options, s) && s.isOpen && index < |options|
    ensures r.emitted == [options[index].value]
    ensures !r.state.isOpen && r.state.focusedIndex == s.focusedIndex && r.state.value == s.value
    ensures Coherent(options, r.state)
  {
    Reaction(s.(isOpen := false), [options[index].value])
  }

  /**
   * handleClickOutside: the listener is attached only while the menu is
   * open, and closes it when the target is outside both trigger and menu.
   */
  function OnDocumentMouseDown(s: MenuState, target: Target): (r: MenuState)
    ensures r.isOpen <==> s.isOpen && target != Elsewhere
    ensures r.focusedIndex == s.focusedIndex && r.value == s.value
  {
    if s.isOpen && target == Elsewhere then s.(isOpen := false) else s
  }

  /**
   * A new `value` prop. The open effect depends on [isOpen, selectedIndex],
   * so it re-seeds the focus only while open and only when the selected
   * index actually changed.
   */
  function OnValueProp(options: seq<MenuOption>, s: MenuState, v: string): (r: MenuState)
    requires InBounds(options, s)
    ensures r.value == v && r.isOpen == s.isOpen && InBounds(options, r)
    ensures Coherent(options, s) ==> Coherent(options, r)
    ensures s.isOpen && FindIndex(options, v) != FindIndex(options, s.value) ==>
      r.focusedIndex == SeedFocus(options, v)
    ensures !s.isOpen || FindIndex(options, v) == FindIndex(options, s.value) ==>
      r.focusedIndex == s.focusedIndex
  {
    if s.isOpen && FindIndex(options, v) != FindIndex(options, s.value)
    then s.(value := v, focusedIndex := SeedFocus(options, v))
    else s.(value := v)
  }

  /**
   * A click reaches handleOptionClick only when it lands on a rendered
   * option: the menu is open and the index is within the list.
   */
  predicate ClickLands(options: seq<MenuOption>, s: MenuState, index: nat) {
    s.isOpen && index < |options|
  }

  /** The events that reach onChange: an option click, or Enter/Space on a focused open menu. */
  predicate Confirms(options: seq<MenuOption>, s: MenuState, ev: Event) {
    (ev.OptionClick? && ClickLands(options, s, ev.index)) ||
    (ev.KeyPress? && (ev.key == Enter || ev.key == Space) && s.isOpen && s.focusedIndex >= 0)
  }

  /** Events that could ever confirm, whatever the state. */
  predicate MayConfirm(ev: Event) {
    ev.OptionClick? || ev == KeyPress(Enter) || ev == KeyPress(Space)
  }

  /** One event; a click that lands on no rendered option changes nothing. */
  function Step(options: seq<MenuOption>, s: MenuState, ev: Event): (r: Reaction)
    requires InBounds(options, s)
    ensures InBounds(options, r.state)
    ensures Coherent(options, s) ==> Coherent(options, r.state)
    ensures ev.OptionClick? && !ClickLands(options, s, ev.index) ==> r == Reaction(s, [])
    ensures |r.emitted| == (if Confirms(options, s, ev) then 1 else 0)
    ensures forall v :: v in r.emitted ==> Listed(options, v)
  {
    match ev
    case TriggerMouseDown => Reaction(OnTriggerMouseDown(options, s), [])
    case KeyPress(key) => OnKeyDown(options, s, key)
    case OptionClick(index) =>
      if ClickLands(options, s, index) then OnOptionClick(options, s, index) else Reaction(s, [])
    case DocumentMouseDown(target) => Reaction(OnDocumentMouseDown(s, target), [])
    case ValueProp(v) => Reaction(OnValueProp(options, s, v), [])
  }

  /** A sequence of events, one after another; the emitted values are concatenated. */
  function Run(options: seq<MenuOption>, s: MenuState, events: seq<Event>): Reaction
    requires InBounds(options, s)
    decreases |events|
  {
    if events == [] then Reaction(s, [])
    else
      var first := Step(options, s, events[0]);
      var rest := Run(options, first.state, events[1..]);
      Reaction(rest.state, first.emitted + rest.emitted)
  }

  lemma {:induction false} RunStaysCoherent(options: seq<MenuOption>, s: MenuState, events: seq<Event>)
    requires Coherent(options, s)
    ensures Coherent(options, Run(options, s, events).state)
    decreases |events|
  {
    if events != [] {
      RunStaysCoherent(options, Step(options, s, events[0]).state, events[1..]);
    }
  }

  /** Every value reported through onChange is the value of one of the options. */
  lemma {:induction false} RunEmitsListedValues(options: seq<MenuOption>, s: MenuState, events: seq<Event>)
    requires InBounds(options, s)
    ensures forall v :: v in Run(options, s, events).emitted ==> Listed(options, v)
    decreases |events|
  {
    if events != [] {
      RunEmitsListedValues(options, Step(options, s, events[0]).state, events[1..]);
    }
  }

  /** Escape, Tab, arrows, mousedowns and new props never call onChange. */
  lemma {:induction false} RunSilentWithoutConfirmation(options: seq<MenuOption>, s: MenuState, events: seq<Event>)
    requires InBounds(options, s)
    requires forall i :: 0 <= i < |events| ==> !MayConfirm(events[i])
    ensures Run(options, s, events).emitted == []
    decreases |events|
  {
    if events != [] {
      RunSilentWithoutConfirmation(options, Step(options, s, events[0]).state, events[1..]);
    }
  }

  /** Pressing ArrowDown k times on an open menu moves the focus k places, stopping at the last option. */
  lemma {:induction false} ArrowDownRepeated(options: seq<MenuOption>, s: MenuState, k: nat)
    requires Coherent(options, s) && s.isOpen
    ensures Run(options, s, Repeated(KeyPress(ArrowDown), k))
         == Reaction(s.(focusedIndex := Min(s.focusedIndex + k, |options| - 1)), [])
    decreases k
  {
    var events := Repeated(KeyPress(ArrowDown), k);
    if k > 0 {
      var next := s.(focusedIndex := Min(s.focusedIndex + 1, |options| - 1));
      assert Step(options, s, events[0]) == Reaction(next, []);
      assert events[1..] == Repeated(KeyPress(ArrowDown), k - 1);
      ArrowDownRepeated(options, next, k - 1);
    }
  }

  /** Pressing ArrowUp k times on an open menu moves the focus back k places, stopping at 0. */
  lemma {:induction false} ArrowUpRepeated(options: seq<MenuOption>, s: MenuState, k: nat)
    requires Coherent(options, s) && s.isOpen
    ensures Run(options, s, Repeated(KeyPress(ArrowUp), k))
         == Reaction(s.(focusedIndex := Max(s.focusedIndex - k, 0)), [])
    decreases k
  {
    var events := Repeated(KeyPress(ArrowUp), k);
    if k > 0 {
      var next := s.(focusedIndex := Max(s.focusedIndex - 1, 0));
      assert Step(options, s, events[0]) == Reaction(next, []);
      assert events[1..] == Repeated(KeyPress(ArrowUp), k - 1);
      ArrowUpRepeated(options, next, k - 1);
    }
  }

  /** How an option is shaded: the focused one first, then the selected one. */
  datatype Shade = FocusedShade | SelectedShade | NoShade

  /** aria-selected of an option. */
  predicate IsSelected(opt: MenuOption, value: string) {
    opt.value == value
  }

  function OptionShade(options: seq<MenuOption>, s: MenuState, index: nat): Shade
    requires index < |options|
  {
    if index == s.focusedIndex then FocusedShade
    else if IsSelected(options[index], s.value) then SelectedShade
    else NoShade
  }

  /**
   * While open, exactly the focused option is shaded as focused, the
   * selected option is shaded as selected unless it has the focus, and
   * with distinct values at most one option is marked selected.
   */
  lemma ShadesOfOpenMenu(options: seq<MenuOption>, s: MenuState)
    requires Coherent(options, s) && s.isOpen
    ensures 0 <= s.focusedIndex < |options| && OptionShade(options, s, s.focusedIndex) == FocusedShade
    ensures forall i :: 0 <= i < |options| && i != s.focusedIndex ==> OptionShade(options, s, i) != FocusedShade
    ensures forall i :: 0 <= i < |options| && i != s.focusedIndex ==>
      (OptionShade(options, s, i) == SelectedShade <==> IsSelected(options[i], s.value))
    ensures DistinctValues(options) ==>
      forall i, j ::
        (0 <= i < |options| && 0 <= j < |options| &&
         IsSelected(options[i], s.value) && IsSelected(options[j], s.value)) ==> i == j
  {
  }

  /** One rendered dropdown: the `value` prop and the two state variables as fields. */
  class Dropdown {
    const options: seq<MenuOption>
    var value: string
    var isOpen: bool
    var focusedIndex: int
    /** The values passed to onChange so far, oldest first. */
    var changes: seq<string>

    function Current(): MenuState
      reads this
    {
      MenuState(value, isOpen, focusedIndex)
    }

    ghost predicate Valid()
      reads this
    {
      Coherent(options, Current())
    }

    constructor (options: seq<MenuOption>, value: string)
      requires |options| > 0
      ensures this.options == options && Current() == Initial(value) && changes == []
      ensures Valid()
    {
      this.options := options;
      this.value := value;
      isOpen := false;
      focusedIndex := -1;
      changes := [];
    }

    /** The effect that seeds the focus whenever the menu has just opened. */
    method SeedOnOpen()
      requires |options| > 0 && isOpen
      modifies this
      ensures Current() == old(Current()).(focusedIndex := SeedFocus(options, value))
      ensures changes == old(changes)
    {
      var selectedIndex := FindIndex(options, value);
      focusedIndex := if selectedIndex >= 0 then selectedIndex else 0;
    }

    method HandleMouseDown()
      requires Valid()
      modifies this
      ensures Valid()
      ensures Current() == OnTriggerMouseDown(options, old(Current())) && changes == old(changes)
    {
      isOpen := !isOpen;
      if isOpen {
        SeedOnOpen();
      }
    }

    method HandleKeyDown(key: Key)
      requires Valid()
      modifies this
      ensures Valid()
      ensures Current() == OnKeyDown(options, old(Current()), key).state
      ensures changes == old(changes) + OnKeyDown(options, old(Current()), key).emitted
    {
      if !isOpen && OpensMenu(key) {
        isOpen := true;
        SeedOnOpen();
        return;
      }
      match key
      case ArrowDown =>
        focusedIndex := if focusedIndex < |options| - 1 then focusedIndex + 1 else focusedIndex;
      case ArrowUp =>
        focusedIndex := if focusedIndex > 0 then focusedIndex - 1 else focusedIndex;
      case Enter | Space =>
        if focusedIndex >= 0 {
          changes := changes + [options[focusedIndex].value];
          isOpen := false;
        }
      case Escape | Tab =>
        isOpen := false;
      case OtherKey =>
    }

    method HandleOptionClick(index: nat)
      requires Valid() && isOpen && index < |options|
      modifies this
      ensures Valid()
      ensures Current() == OnOptionClick(options, old(Current()), index).state
      ensures changes == old(changes) + [options[index].value]
    {
      changes := changes + [options[index].value];
      isOpen := false;
    }

    /** The document mousedown listener, which exists only while the menu is open. */
    method HandleClickOutside(target: Target)
      requires Valid()
      modifies this
      ensures Valid()
      ensures Current() == OnDocumentMouseDown(old(Current()), target) && changes == old(changes)
    {
      if isOpen && target == Elsewhere {
        isOpen := false;
      }
    }

    /** A re-render with a new `value` prop from the owner. */
    method ReceiveValue(v: string)
      requires Valid()
      modifies this
      ensures Valid()
      ensures Current() == OnValueProp(options, old(Current()), v) && changes == old(changes)
    {
      var selectedChanged := FindIndex(options, v) != FindIndex(options, value);
      value := v;
      if isOpen && selectedChanged {
        SeedOnOpen();
      }
    }
  }
}
