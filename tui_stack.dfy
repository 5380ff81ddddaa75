// src/tui.rs: the event-driven navigator. Instead of recursing into nested
// pages it keeps an explicit stack of levels (a page and its cursor); each
// event pops the top level, acts on it, and pushes back what is left.
module TuiStack {
  import opened Wrappers
  import opened Errors
  import opened Utils
  import opened Navigation

  /** One entry of the `levels` stack: a page and the cursor on it. */
  datatype Level = Level(fields: seq<Entry>, selected: nat)

  /** Every level can be indexed: its page is well formed and its cursor is on an entry. */
  predicate ValidLevels(levels: seq<Level>) {
    forall i :: 0 <= i < |levels| ==> WellFormed(levels[i].fields) && levels[i].selected < |levels[i].fields|
  }

  /** `EventResult`; a callback is the tag of the entry's callback. */
  datatype EventResult = QuitMenu | Consumed | Ignored | Callback(cb: nat)

  /** What handling one event returns, with the stack it leaves. */
  datatype Handled = Handled(result: EventResult, levels: seq<Level>)

  /** The crossterm key codes the handler tells apart; every other code is `CtOtherCode`. */
  datatype CtCode = CtChar(c: char) | CtEnter | CtEsc | CtUp | CtDown | CtLeft | CtRight | CtOtherCode

  /**
   * A crossterm event: a key with its code and whether the modifiers are
   * exactly CONTROL, or any other event (mouse, resize, ...).
   */
  datatype CtEvent = CtKey(code: CtCode, controlOnly: bool) | CtOther

  /** The termion keys the handler tells apart; termion reports Enter as `TChar('\n')`. */
  datatype TKey = TChar(c: char) | TCtrl(c: char) | TEsc | TUp | TDown | TLeft | TRight | TOtherKey

  /** A termion event: a key, or any other event. */
  datatype TEvent = TKeyEvent(key: TKey) | TOther

  /** `n` pops of a `Vec`; popping an empty one does nothing. */
  function PopTimes(levels: seq<Level>, n: nat): (r: seq<Level>)
    ensures r == levels[..if n <= |levels| then |levels| - n else 0]
  {
    if n <= |levels| then levels[..|levels| - n] else []
  }

  /**
   * Selecting the entry under the cursor, after the level `(fs, sel)` has
   * been popped off `below`.
   */
  function SelectStep(below: seq<Level>, fs: seq<Entry>, sel: nat): (h: Handled)
    requires WellFormed(fs) && sel < |fs|
  {
    match fs[sel].kind
    case Map(cb) => Handled(Callback(cb), below + [Level(fs, sel)])
    case Parent(inner) =>
      ChildWellFormed(fs, sel);
      Handled(Consumed, below + [Level(fs, sel), Level(inner, if sel < |inner| - 1 then sel else |inner| - 1)])
    case Back(i) =>
      if i == 0 then Handled(Consumed, below + [Level(fs, sel)])
      else Handled(Consumed, PopTimes(below, i - 1))
    case Quit => Handled(QuitMenu, below)
  }

  /** `handle_ct_event` on the stack `levels`. */
  function CtStep(levels: seq<Level>, e: CtEvent): (h: Handled)
    requires ValidLevels(levels)
  {
    if levels == [] then Handled(QuitMenu, [])
    else
      var below := levels[..|levels| - 1];
      var fs, sel := levels[|levels| - 1].fields, levels[|levels| - 1].selected;
      match e
      case CtOther => Handled(Ignored, below + [Level(fs, sel)])
      case CtKey(code, controlOnly) =>
        if code == CtChar('q') then Handled(QuitMenu, below)
        else if (code == CtChar('c') || code == CtChar('d')) && controlOnly then Handled(QuitMenu, below)
        else if code == CtEsc then Handled(if below == [] then QuitMenu else Consumed, below)
        else if code == CtUp || code == CtLeft then Handled(Consumed, below + [Level(fs, MoveUp(sel, |fs|))])
        else if code == CtDown || code == CtRight then Handled(Consumed, below + [Level(fs, MoveDown(sel, |fs|))])
        else if code == CtEnter || code == CtChar(' ') then SelectStep(below, fs, sel)
        else Handled(Ignored, below + [Level(fs, sel)])
  }

  /**
   * `handle_t_event` as written: an ignored event returns before the popped
   * level is pushed back, so the level is lost.
   */
  function TStep(levels: seq<Level>, e: TEvent): (h: Handled)
    requires ValidLevels(levels)
  {
    if levels == [] then Handled(QuitMenu, [])
    else
      var below := levels[..|levels| - 1];
      var fs, sel := levels[|levels| - 1].fields, levels[|levels| - 1].selected;
      match e
      case TOther => Handled(Ignored, below)
      case TKeyEvent(k) =>
        if k == TChar('q') || k == TCtrl('c') || k == TCtrl('d') then Handled(QuitMenu, below)
        else if k == TEsc then Handled(if below == [] then QuitMenu else Consumed, below)
        else if k == TUp || k == TLeft then Handled(Consumed, below + [Level(fs, MoveUp(sel, |fs|))])
        else if k == TDown || k == TRight then Handled(Consumed, below + [Level(fs, MoveDown(sel, |fs|))])
        else if k == TChar(' ') || k == TChar('\n') then SelectStep(below, fs, sel)
        else Handled(Ignored, below)
  }

  /** `handle_t_event` as evidently intended: an ignored event leaves the stack as it was. */
  function TStepCorrected(levels: seq<Level>, e: TEvent): (h: Handled)
    requires ValidLevels(levels)
    ensures h.result == Ignored ==> h.levels == levels
    ensures h.result != Ignored ==> h == TStep(levels, e)
  {
    var h := TStep(levels, e);
    if h.result == Ignored then Handled(Ignored, levels) else h
  }

  /** `consume_cb`: runs a callback and clears the screen; tells whether the menu is to close. */
  function ConsumeCb(res: EventResult, callbacks: nat -> Option<MenuError>, clearFails: bool): (r: Result<bool, MenuError>)
    ensures r == Ok(true) <==> res == QuitMenu
    ensures r.Err? <==> res.Callback? && (callbacks(res.cb).Some? || clearFails)
    ensures res.Callback? && callbacks(res.cb).Some? ==> r == Err(callbacks(res.cb).value)
  {
    match res
    case Callback(cb) =>
      if callbacks(cb).Some? then Err(callbacks(cb).value)
      else if clearFails then Err(IOError)
      else Ok(false)
    case Consumed => Ok(false)
    case Ignored => Ok(false)
    case QuitMenu => Ok(true)
  }

  /** The stack the menu starts with, or the panic of `check_fields` on an empty page. */
  function Start(fields: seq<Entry>): (r: Result<seq<Level>, Panic>)
    ensures r.Err? <==> |fields| == 0
    ensures r.Ok? ==> r.value == [Level(fields, 0)]
  {
    match CheckFields(fields)
    case Some(p) => Err(p)
    case None => Ok([Level(fields, 0)])
  }

  /** `TuiMenu` of src/tui.rs, reduced to its stack of levels. */
  class TuiMenu {
    var levels: seq<Level>

    predicate Valid()
      reads this
    {
      ValidLevels(levels)
    }

    /** `new`: the stack holds the top page with the cursor on its first entry. */
    constructor (fields: seq<Entry>)
      requires Start(fields).Ok? && WellFormed(fields)
      ensures levels == Start(fields).value && Valid()
    {
      levels := [Level(fields, 0)];
    }

    /** The `for` loop of a `Back(i)` entry: `n` more pops. */
    method PopLevels(n: nat)
      modifies this
      ensures levels == PopTimes(old(levels), n)
    {
      for k := 0 to n
        invariant levels == PopTimes(old(levels), k)
      {
        if levels != [] {
          levels := levels[..|levels| - 1];
        }
      }
    }

    /** The `Enter` arm shared by both handlers, once the level `(fs, selected)` is off the stack. */
    method SelectEntry(fs: seq<Entry>, selected: nat) returns (r: EventResult)
      requires WellFormed(fs) && selected < |fs|
      modifies this
      ensures Handled(r, levels) == SelectStep(old(levels), fs, selected)
    {
      match fs[selected].kind
      case Map(cb) =>
        levels := levels + [Level(fs, selected)];
        return Callback(cb);
      case Parent(inner) =>
        ChildWellFormed(fs, selected);
        levels := levels + [Level(fs, selected)];
        levels := levels + [Level(inner, if selected < |inner| - 1 then selected else |inner| - 1)];
        return Consumed;
      case Back(i) =>
        if i == 0 {
          levels := levels + [Level(fs, selected)];
        } else {
          PopLevels(i - 1);
        }
        return Consumed;
      case Quit =>
        return QuitMenu;
    }

    /** `handle_ct_event`. */
    method HandleCtEvent(e: CtEvent) returns (r: EventResult)
      requires Valid()
      modifies this
      ensures Handled(r, levels) == CtStep(old(levels), e) && Valid()
    {
      StepKeepsLevelsValid(levels, e);
      if levels == [] {
        return QuitMenu;
      }
      var top := levels[|levels| - 1];
      levels := levels[..|levels| - 1];
      var fs, selected := top.fields, top.selected;
      var remaining := true;
      match e
      case CtOther =>
        levels := levels + [Level(fs, selected)];
        return Ignored;
      case CtKey(code, controlOnly) =>
        if code == CtChar('q') {
          return QuitMenu;
        } else if (code == CtChar('c') || code == CtChar('d')) && controlOnly {
          return QuitMenu;
        } else if code == CtEsc && levels == [] {
          return QuitMenu;
        } else if code == CtEsc {
          remaining := false;
        } else if code == CtUp || code == CtLeft {
          selected := if selected == 0 then |fs| - 1 else selected - 1;
        } else if code == CtDown || code == CtRight {
          selected := if selected == |fs| - 1 then 0 else selected + 1;
        } else if code == CtEnter || code == CtChar(' ') {
          r := SelectEntry(fs, selected);
          return;
        } else {
          levels := levels + [Level(fs, selected)];
          return Ignored;
        }
      if remaining {
        levels := levels + [Level(fs, selected)];
      }
      return Consumed;
    }

    /** `handle_t_event`, as written. */
    method HandleTEvent(e: TEvent) returns (r: EventResult)
      requires Valid()
      modifies this
      ensures Handled(r, levels) == TStep(old(levels), e) && Valid()
    {
      TStepKeepsLevelsValid(levels, e);
      if levels == [] {
        return QuitMenu;
      }
      var top := levels[|levels| - 1];
      levels := levels[..|levels| - 1];
      var fs, selected := top.fields, top.selected;
      var remaining := true;
      match e
      case TOther =>
        return Ignored;
      case TKeyEvent(k) =>
        if k == TChar('q') || k == TCtrl('c') || k == TCtrl('d') {
          return QuitMenu;
        } else if k == TEsc && levels == [] {
          return QuitMenu;
        } else if k == TEsc {
          remaining := false;
        } else if k == TUp || k == TLeft {
          selected := if selected == 0 then |fs| - 1 else selected - 1;
        } else if k == TDown || k == TRight {
          selected := if selected == |fs| - 1 then 0 else selected + 1;
        } else if k == TChar(' ') || k == TChar('\n') {
          r := SelectEntry(fs, selected);
          return;
        } else {
          return Ignored;
        }
      if remaining {
        levels := levels + [Level(fs, selected)];
      }
      return Consumed;
    }

    /** `handle_ct_event_with`: handles the event, then runs the callback it names. */
    method HandleCtEventWith(e: CtEvent, callbacks: nat -> Option<MenuError>, clearFails: bool) returns (r: Result<bool, MenuError>)
      requires Valid()
      modifies this
      ensures var h := CtStep(old(levels), e);
              r == ConsumeCb(h.result, callbacks, clearFails) && levels == h.levels && Valid()
    {
      var res := HandleCtEvent(e);
      r := ConsumeCb(res, callbacks, clearFails);
    }

    /**
     * `handle_t_event_with`, with the termion handler corrected: an ignored
     * event puts back the level it popped.
     */
    method HandleTEventWith(e: TEvent, callbacks: nat -> Option<MenuError>, clearFails: bool) returns (r: Result<bool, MenuError>)
      requires Valid()
      modifies this
      ensures var h := TStepCorrected(old(levels), e);
              r == ConsumeCb(h.result, callbacks, clearFails) && levels == h.levels && Valid()
    {
      var saved := levels;
      var res := HandleTEvent(e);
      if res == Ignored {
        levels := saved;
      }
      r := ConsumeCb(res, callbacks, clearFails);
    }
  }

  // ---- what the handlers promise --------------------------------------------

  /** Popping keeps every remaining level valid. */
  lemma PopKeepsValid(levels: seq<Level>, n: nat)
    requires ValidLevels(levels)
    ensures ValidLevels(PopTimes(levels, n))
  {
  }

  /** Selecting an entry leaves a valid stack, one level deeper at most. */
  lemma {:induction false} SelectKeepsValid(below: seq<Level>, fs: seq<Entry>, sel: nat)
    requires ValidLevels(below) && WellFormed(fs) && sel < |fs|
    ensures ValidLevels(SelectStep(below, fs, sel).levels)
    ensures |SelectStep(below, fs, sel).levels| <= |below| + 2
  {
    ChildWellFormed(fs, sel);
    match fs[sel].kind
    case Back(i) => if i > 0 { PopKeepsValid(below, i - 1); }
    case _ =>
  }

  /** Every crossterm event keeps each level's page indexable and its cursor on an entry. */
  lemma {:induction false} StepKeepsLevelsValid(levels: seq<Level>, e: CtEvent)
    requires ValidLevels(levels)
    ensures ValidLevels(CtStep(levels, e).levels)
  {
    if levels != [] {
      var below := levels[..|levels| - 1];
      var top := levels[|levels| - 1];
      assert ValidLevels(below);
      SelectKeepsValid(below, top.fields, top.selected);
    }
  }

  /** Every termion event keeps each level valid too. */
  lemma {:induction false} TStepKeepsLevelsValid(levels: seq<Level>, e: TEvent)
    requires ValidLevels(levels)
    ensures ValidLevels(TStep(levels, e).levels)
  {
    if levels != [] {
      var below := levels[..|levels| - 1];
      var top := levels[|levels| - 1];
      assert ValidLevels(below);
      SelectKeepsValid(below, top.fields, top.selected);
    }
  }

  /** Once the stack is empty every event closes the menu. */
  lemma EmptyStackQuits(e: CtEvent, t: TEvent)
    ensures CtStep([], e) == Handled(QuitMenu, [])
    ensures TStep([], t) == Handled(QuitMenu, [])
  {
  }

  /** The arrows move the top cursor round its page; nothing else changes. */
  lemma {:induction false} ArrowsMoveTopCursor(levels: seq<Level>, code: CtCode, controlOnly: bool)
    requires ValidLevels(levels) && levels != [] && code in {CtUp, CtLeft, CtDown, CtRight}
    ensures var n := |levels|;
            var top := levels[n - 1];
            var h := CtStep(levels, CtKey(code, controlOnly));
            h.result == Consumed && |h.levels| == n && h.levels[..n - 1] == levels[..n - 1]
            && h.levels[n - 1].fields == top.fields
            && h.levels[n - 1].selected == (if code == CtUp || code == CtLeft then MoveUp(top.selected, |top.fields|)
                                            else MoveDown(top.selected, |top.fields|))
  {
    var n := |levels|;
    var h := CtStep(levels, CtKey(code, controlOnly));
    assert h.levels[..n - 1] == levels[..n - 1];
  }

  /** Esc on the top page closes the menu; on a nested page it drops exactly that page. */
  lemma EscClimbsOneLevel(levels: seq<Level>, controlOnly: bool)
    requires ValidLevels(levels) && levels != []
    ensures var h := CtStep(levels, CtKey(CtEsc, controlOnly));
            h.levels == levels[..|levels| - 1]
            && (h.result == QuitMenu <==> |levels| == 1)
            && (|levels| > 1 ==> h.result == Consumed)
  {
  }

  /**
   * Selecting a parent entry keeps the current level and pushes the nested
   * page, its cursor on the same row or on its last entry if shorter.
   */
  lemma {:induction false} ParentPushesLevel(levels: seq<Level>, code: CtCode)
    requires ValidLevels(levels) && levels != [] && (code == CtEnter || code == CtChar(' '))
    requires var top := levels[|levels| - 1]; top.fields[top.selected].kind.Parent?
    ensures var top := levels[|levels| - 1];
            var inner := top.fields[top.selected].kind.children;
            var h := CtStep(levels, CtKey(code, false));
            h.result == Consumed && |h.levels| == |levels| + 1 && h.levels[..|levels|] == levels
            && h.levels[|levels|].fields == inner
            && h.levels[|levels|].selected == (if top.selected < |inner| then top.selected else |inner| - 1)
  {
    var top := levels[|levels| - 1];
    ChildWellFormed(top.fields, top.selected);
    var h := CtStep(levels, CtKey(code, false));
    assert levels[..|levels| - 1] + [top] == levels;
    assert h.levels[..|levels|] == levels;
  }

  /**
   * Selecting `Back(i)` removes `i` levels in all, stopping at the empty
   * stack; `Back(0)` changes nothing.
   */
  lemma {:induction false} BackDropsLevels(levels: seq<Level>)
    requires ValidLevels(levels) && levels != []
    requires var top := levels[|levels| - 1]; top.fields[top.selected].kind.Back?
    ensures var top := levels[|levels| - 1];
            var i := top.fields[top.selected].kind.levels;
            var h := CtStep(levels, CtKey(CtEnter, false));
            h.result == Consumed
            && |h.levels| == (if i <= |levels| then |levels| - i else 0)
            && h.levels == levels[..|h.levels|]
            && (i == 0 ==> h.levels == levels)
  {
    var top := levels[|levels| - 1];
    assert levels[..|levels| - 1] + [top] == levels;
  }

  /** A callback entry leaves the stack alone and hands the callback to the caller. */
  lemma {:induction false} MapHandsOverCallback(levels: seq<Level>)
    requires ValidLevels(levels) && levels != []
    requires var top := levels[|levels| - 1]; top.fields[top.selected].kind.Map?
    ensures var top := levels[|levels| - 1];
            CtStep(levels, CtKey(CtEnter, false)) == Handled(Callback(top.fields[top.selected].kind.callback), levels)
  {
    var top := levels[|levels| - 1];
    assert levels[..|levels| - 1] + [top] == levels;
  }

  /** 'q', Ctrl-c, Ctrl-d and a quit entry close the menu. */
  lemma QuitsOn(levels: seq<Level>, e: CtEvent)
    requires ValidLevels(levels) && levels != []
    requires e == CtKey(CtChar('q'), false) || e == CtKey(CtChar('q'), true)
             || e == CtKey(CtChar('c'), true) || e == CtKey(CtChar('d'), true)
             || (var top := levels[|levels| - 1]; top.fields[top.selected].kind.Quit? && e == CtKey(CtEnter, false))
    ensures CtStep(levels, e).result == QuitMenu
  {
  }

  /** Crossterm: an event the handler does not know leaves the stack exactly as it was. */
  lemma {:induction false} CtIgnoredKeepsLevels(levels: seq<Level>, e: CtEvent)
    requires ValidLevels(levels) && levels != []
    ensures CtStep(levels, e).result == Ignored ==> CtStep(levels, e).levels == levels
  {
    assert levels[..|levels| - 1] + [levels[|levels| - 1]] == levels;
  }

  /** Crossterm: one event opens at most one nested page. */
  lemma {:induction false} CtDepthChange(levels: seq<Level>, e: CtEvent)
    requires ValidLevels(levels)
    ensures |CtStep(levels, e).levels| <= |levels| + 1
  {
    if levels != [] {
      var top := levels[|levels| - 1];
      SelectKeepsValid(levels[..|levels| - 1], top.fields, top.selected);
    }
  }

  // ---- the termion handler's lost level -------------------------------------

  /**
   * As written, an unknown key on the top page empties the stack, and the
   * next event, whatever it is, closes the menu.
   */
  lemma {:induction false} TermionIgnoredLosesLevel(fields: seq<Entry>, next: TEvent)
    requires WellFormed(fields)
    ensures var h := TStep([Level(fields, 0)], TKeyEvent(TOtherKey));
            h == Handled(Ignored, []) && TStep(h.levels, next).result == QuitMenu
  {
  }

  /** Corrected, an ignored event changes nothing, so the menu stays open. */
  lemma {:induction false} TermionCorrectedKeepsLevel(levels: seq<Level>, e: TEvent)
    requires ValidLevels(levels) && levels != []
    ensures TStepCorrected(levels, e).result == Ignored ==> TStepCorrected(levels, e).levels == levels
    ensures TStep(levels, e).result == Ignored ==> TStep(levels, e).levels == levels[..|levels| - 1]
  {
  }

  /** The crossterm event a termion event stands for. */
  function CtOf(e: TEvent): CtEvent {
    match e
    case TOther => CtOther
    case TKeyEvent(k) =>
      match k
      case TChar(c) => if c == '\n' then CtKey(CtEnter, false) else CtKey(CtChar(c), false)
      case TCtrl(c) => CtKey(CtChar(c), true)
      case TEsc => CtKey(CtEsc, false)
      case TUp => CtKey(CtUp, false)
      case TDown => CtKey(CtDown, false)
      case TLeft => CtKey(CtLeft, false)
      case TRight => CtKey(CtRight, false)
      case TOtherKey => CtKey(CtOtherCode, false)
  }

  /**
   * The corrected termion handler is the crossterm handler on the same
   * event, except for Ctrl-q and Ctrl-space, which crossterm reads as 'q'
   * and the space bar whatever the modifiers.
   */
  lemma {:induction false} CorrectedMatchesCrossterm(levels: seq<Level>, e: TEvent)
    requires ValidLevels(levels) && e != TKeyEvent(TCtrl('q')) && e != TKeyEvent(TCtrl(' '))
    ensures TStepCorrected(levels, e) == CtStep(levels, CtOf(e))
  {
    if levels != [] {
      assert levels[..|levels| - 1] + [levels[|levels| - 1]] == levels;
    }
  }
}
