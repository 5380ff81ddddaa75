// What the three terminal navigators share: the menu tree (`TuiField` /
// `TuiKind` in src/tui.rs and src/tui/mod.rs), the keys they react to
// (src/tui/event.rs) and the wrapping cursor.
module Navigation {
  import opened Wrappers
  import opened Errors

  /**
   * The behaviour of an entry. A callback is an opaque tag; what running it
   * does is supplied from outside by whoever runs the menu.
   */
  datatype Kind = Map(callback: nat) | Parent(children: seq<Entry>) | Back(levels: nat) | Quit

  /** An entry: the text shown in the list and what selecting it does. */
  datatype Entry = Entry(msg: string, kind: Kind)

  /**
   * A menu page every navigator can index: it has at least one entry, and so
   * has every page nested under it (an empty page makes `len() - 1` underflow).
   */
  predicate WellFormed(fs: seq<Entry>)
    decreases fs
  {
    |fs| > 0 &&
    forall i :: 0 <= i < |fs| ==> fs[i].kind.Parent? ==> WellFormedChild(fs[i], fs[i].kind.children)
  }

  predicate WellFormedChild(e: Entry, children: seq<Entry>)
    requires e.kind.Parent? && children == e.kind.children
    decreases e, 0
  {
    WellFormed(children)
  }

  lemma ChildWellFormed(fs: seq<Entry>, i: nat)
    requires WellFormed(fs) && i < |fs|
    ensures fs[i].kind.Parent? ==> WellFormed(fs[i].kind.children)
  {
    if fs[i].kind.Parent? {
      assert WellFormedChild(fs[i], fs[i].kind.children);
    }
  }

  /**
   * The keys of src/tui/event.rs that the navigators tell apart; every other
   * key (Backspace, Home, Tab, F(n), Alt(c), ...) is `OtherKey`.
   */
  datatype Key = Char(c: char) | Ctrl(c: char) | Enter | Esc | Up | Down | Left | Right | OtherKey

  /** An input event: a key press, or a mouse or resize event. */
  datatype Event = KeyPress(key: Key) | NonKey

  /**
   * One turn of a page's loop as the terminal delivers it: drawing the page
   * fails, reading the next event fails, or an event arrives.
   */
  datatype Step = DrawFails | ReadFails | Arrives(event: Event)

  function Press(k: Key): Step {
    Arrives(KeyPress(k))
  }

  /**
   * What a run leaves behind on the terminal, in order: a page drawn with its
   * title and cursor, a callback run, the screen cleared.
   */
  datatype Shown = Drawn(title: Option<string>, selected: nat) | Called(callback: nat) | Cleared

  /**
   * How a whole session ends once the public entry point has dropped the
   * depth with `.map(|_| ())`: with its result, or still waiting for events
   * when the supplied ones are used up.
   */
  datatype Ending = Ended(result: Result<(), MenuError>) | StillWaiting

  /** Up/Left: one entry up, from the first entry to the last. */
  function MoveUp(selected: nat, len: nat): (r: nat)
    requires selected < len
    ensures r < len
    ensures selected > 0 ==> r == selected - 1
    ensures selected == 0 ==> r == len - 1
  {
    if selected == 0 then len - 1 else selected - 1
  }

  /** Down/Right: one entry down, from the last entry to the first. */
  function MoveDown(selected: nat, len: nat): (r: nat)
    requires selected < len
    ensures r < len
    ensures selected < len - 1 ==> r == selected + 1
    ensures selected == len - 1 ==> r == 0
  {
    if selected == len - 1 then 0 else selected + 1
  }

  /** Down undoes Up and Up undoes Down, so the cursor moves on a ring. */
  lemma MovesInverse(selected: nat, len: nat)
    requires selected < len
    ensures MoveDown(MoveUp(selected, len), len) == selected
    ensures MoveUp(MoveDown(selected, len), len) == selected
  {
  }

  function MoveDownTimes(selected: nat, len: nat, n: nat): (r: nat)
    requires selected < len
    ensures r < len
    decreases n
  {
    if n == 0 then selected else MoveDownTimes(MoveDown(selected, len), len, n - 1)
  }

  /** Pressing Down n times (at most one turn) moves the cursor n entries round the ring. */
  lemma {:induction false} MoveDownTimesRing(selected: nat, len: nat, n: nat)
    requires selected < len && n <= len
    ensures MoveDownTimes(selected, len, n) == if selected + n < len then selected + n else selected + n - len
    decreases n
  {
    if n > 0 {
      MoveDownTimesRing(MoveDown(selected, len), len, n - 1);
    }
  }

  /** A full turn brings the cursor back where it was. */
  lemma FullTurn(selected: nat, len: nat)
    requires selected < len
    ensures MoveDownTimes(selected, len, len) == selected
  {
    MoveDownTimesRing(selected, len, len);
  }
}
