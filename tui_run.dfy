// src/menu/tui_run.rs: the earlier recursive terminal navigator. A page's
// loop returns `None` to close every page and `Some(i)` to climb; a parent
// page that receives `Some(0)` keeps running, and `Some(i)` climbs on as
// `Some(i - 1)`.
module TuiRun {
  import opened Wrappers
  import opened Errors
  import opened Navigation
  import opened BasicTree
  import TD = TuiDepth

  /**
   * How a page's loop ends: it returned `Ok(None)` or `Ok(Some(i))`, an
   * error came up through `?`, or it is still waiting for an event.
   */
  datatype Outcome = Returned(climb: Option<nat>) | Failed(error: MenuError) | Waiting

  datatype Run = Run(outcome: Outcome, rest: seq<Step>, shown: seq<Shown>)

  /**
   * `run_with` from cursor `selected` on, after history `shown`; `callbacks`
   * says what each callback returns (`None` for `Ok(())`).
   */
  function RunSpec(callbacks: nat -> Option<MenuError>, fs: seq<Entry>, title: Option<string>, selected: nat,
                   input: seq<Step>, shown: seq<Shown>): (r: Run)
    requires WellFormed(fs) && selected < |fs|
    ensures |r.rest| <= |input|
    decreases |input|
  {
    if input == [] then Run(Waiting, [], shown)
    else
      var rest := input[1..];
      var drawn := shown + [Drawn(title, selected)];
      match input[0]
      case DrawFails => Run(Failed(IOError), rest, shown)
      case ReadFails => Run(Failed(IOError), rest, drawn)
      case Arrives(NonKey) => RunSpec(callbacks, fs, title, selected, rest, drawn)
      case Arrives(KeyPress(k)) =>
        if k == Char('q') || k == Ctrl('c') then Run(Returned(None), rest, drawn)
        else if k == Up || k == Left then RunSpec(callbacks, fs, title, MoveUp(selected, |fs|), rest, drawn)
        else if k == Down || k == Right then RunSpec(callbacks, fs, title, MoveDown(selected, |fs|), rest, drawn)
        else if k == Enter then
          var e := fs[selected];
          match e.kind
          case Map(cb) =>
            if callbacks(cb).Some? then Run(Failed(callbacks(cb).value), rest, drawn + [Called(cb)])
            else Run(Returned(None), rest, drawn + [Called(cb)])
          case Parent(children) =>
            ChildWellFormed(fs, selected);
            var child := RunSpec(callbacks, children, Some(e.msg), 0, rest, drawn);
            if child.outcome == Returned(Some(0)) then
              RunSpec(callbacks, fs, title, selected, child.rest, child.shown)
            else if child.outcome.Returned? && child.outcome.climb.Some? then
              Run(Returned(Some(child.outcome.climb.value - 1)), child.rest, child.shown)
            else child
          case Back(i) =>
            if i == 0 then RunSpec(callbacks, fs, title, selected, rest, drawn)
            else Run(Returned(Some(i - 1)), rest, drawn)
          case Quit => Run(Returned(None), rest, drawn)
        else RunSpec(callbacks, fs, title, selected, rest, drawn)
  }

  /** The state shared by every page of one run (`RunParams`). */
  class RunParams {
    var input: seq<Step>
    var shown: seq<Shown>
    const callbacks: nat -> Option<MenuError>

    constructor (input: seq<Step>, callbacks: nat -> Option<MenuError>)
      ensures this.input == input && shown == [] && this.callbacks == callbacks
    {
      this.input := input;
      shown := [];
      this.callbacks := callbacks;
    }
  }

  /** `run_with`: the page's loop, recursing into nested pages. */
  method RunWith(params: RunParams, fs: seq<Entry>, title: Option<string>) returns (o: Outcome)
    requires WellFormed(fs)
    modifies params
    ensures Run(o, params.input, params.shown) == RunSpec(params.callbacks, fs, title, 0, old(params.input), old(params.shown))
    decreases |params.input|
  {
    var selected: nat := 0;
    ghost var whole := RunSpec(params.callbacks, fs, title, 0, params.input, params.shown);
    while true
      invariant selected < |fs| && |params.input| <= |old(params.input)|
      invariant RunSpec(params.callbacks, fs, title, selected, params.input, params.shown) == whole
      decreases |params.input|
    {
      if params.input == [] {
        return Waiting;
      }
      var step := params.input[0];
      params.input := params.input[1..];
      if step == DrawFails {
        return Failed(IOError);
      }
      params.shown := params.shown + [Drawn(title, selected)];
      if step == ReadFails {
        return Failed(IOError);
      }
      if step.event.KeyPress? {
        var k := step.event.key;
        if k == Char('q') || k == Ctrl('c') {
          return Returned(None);
        } else if k == Up || k == Left {
          selected := if selected == 0 then |fs| - 1 else selected - 1;
          continue;
        } else if k == Down || k == Right {
          selected := if selected == |fs| - 1 then 0 else selected + 1;
          continue;
        } else if k == Enter {
          var e := fs[selected];
          match e.kind
          case Map(cb) =>
            params.shown := params.shown + [Called(cb)];
            var result := params.callbacks(cb);
            if result.Some? {
              return Failed(result.value);
            }
            return Returned(None);
          case Parent(children) =>
            ChildWellFormed(fs, selected);
            var child := RunWith(params, children, Some(e.msg));
            match child {
              case Returned(None) => return Returned(None);
              case Returned(Some(i)) =>
                if i == 0 {
                  continue;
                }
                return Returned(Some(i - 1));
              case _ => return child;
            }
          case Back(i) =>
            if i == 0 {
              continue;
            }
            return Returned(Some(i - 1));
          case Quit =>
            return Returned(None);
        }
      }
    }
  }

  /** The public `run_with`: the depth is dropped, so every return is a success. */
  function Finish(o: Outcome): (e: Ending)
    ensures e == Ended(Ok(())) <==> o.Returned?
    ensures e.Ended? && e.result.Err? <==> o.Failed?
    ensures o.Failed? ==> e.result.error == o.error
    ensures e == StillWaiting <==> o == Waiting
  {
    match o
    case Returned(_) => Ended(Ok(()))
    case Failed(err) => Ended(Err(err))
    case Waiting => StillWaiting
  }

  function SessionSpec(fs: seq<Entry>, title: Option<string>, callbacks: nat -> Option<MenuError>, input: seq<Step>): (r: (Ending, seq<Shown>))
    requires WellFormed(fs)
  {
    var run := RunSpec(callbacks, fs, title, 0, input, []);
    (Finish(run.outcome), run.shown)
  }

  /** `TuiMenu` of src/menu/tui_run.rs, reduced to what decides navigation. */
  class TuiMenu {
    var fields: seq<Entry>
    /** The title of the block drawn around the top page. */
    var title: Option<string>

    constructor (fields: seq<Entry>)
      ensures this.fields == fields && title == None
    {
      this.fields := fields;
      title := None;
    }

    /** `with_block`, as far as the block's title goes. */
    method WithBlock(title: Option<string>)
      modifies this
      ensures this.title == title && fields == old(fields)
    {
      this.title := title;
    }

    /** The public `run_with`: runs the top page and drops the depth. */
    method RunWithArea(input: seq<Step>, callbacks: nat -> Option<MenuError>) returns (e: Ending, shown: seq<Shown>)
      requires WellFormed(fields)
      ensures (e, shown) == SessionSpec(fields, title, callbacks, input)
    {
      var params := new RunParams(input, callbacks);
      var o := RunWith(params, fields, title);
      e := match o
           case Returned(_) => Ended(Ok(()))
           case Failed(err) => Ended(Err(err))
           case Waiting => StillWaiting;
      shown := params.shown;
    }
  }

  // ---- what the navigator promises -------------------------------------------

  /** 'q' and Ctrl-c close every page at once. */
  lemma {:induction false} QuitKeys(callbacks: nat -> Option<MenuError>, fs: seq<Entry>, title: Option<string>, selected: nat,
                 k: Key, rest: seq<Step>, shown: seq<Shown>)
    requires WellFormed(fs) && selected < |fs| && (k == Char('q') || k == Ctrl('c'))
    ensures RunSpec(callbacks, fs, title, selected, [Press(k)] + rest, shown)
            == Run(Returned(None), rest, shown + [Drawn(title, selected)])
  {
    assert ([Press(k)] + rest)[1..] == rest;
  }

  /** Esc, the space bar, other keys and non-key events change nothing and the loop goes on. */
  lemma {:induction false} IgnoredSteps(callbacks: nat -> Option<MenuError>, fs: seq<Entry>, title: Option<string>, selected: nat,
                     step: Step, rest: seq<Step>, shown: seq<Shown>)
    requires WellFormed(fs) && selected < |fs|
    requires step == Arrives(NonKey) || step == Press(Esc) || step == Press(OtherKey)
             || (step.Arrives? && step.event.KeyPress? && step.event.key.Char? && step.event.key.c != 'q')
             || (step.Arrives? && step.event.KeyPress? && step.event.key.Ctrl? && step.event.key.c != 'c')
    ensures RunSpec(callbacks, fs, title, selected, [step] + rest, shown)
            == RunSpec(callbacks, fs, title, selected, rest, shown + [Drawn(title, selected)])
  {
    assert ([step] + rest)[1..] == rest;
  }

  /** Selecting a callback entry runs it and then closes every page (or reports its error). */
  lemma {:induction false} MappedEntryEndsMenu(callbacks: nat -> Option<MenuError>, fs: seq<Entry>, title: Option<string>, selected: nat,
                            input: seq<Step>, shown: seq<Shown>)
    requires WellFormed(fs) && selected < |fs| && fs[selected].kind.Map? && input != [] && input[0] == Press(Enter)
    ensures var cb := fs[selected].kind.callback;
            RunSpec(callbacks, fs, title, selected, input, shown)
            == Run(if callbacks(cb).Some? then Failed(callbacks(cb).value) else Returned(None),
                   input[1..], shown + [Drawn(title, selected), Called(cb)])
  {
  }

  /**
   * The `Option<usize>` protocol at a parent entry: the nested page starts on
   * its first entry; `None` closes this page too, `Some(0)` resumes this page
   * with its cursor unchanged, `Some(i)` is handed up as `Some(i - 1)`.
   */
  lemma {:induction false} ParentProtocol(callbacks: nat -> Option<MenuError>, fs: seq<Entry>, title: Option<string>, selected: nat,
                       input: seq<Step>, shown: seq<Shown>)
    requires WellFormed(fs) && selected < |fs| && fs[selected].kind.Parent? && input != [] && input[0] == Press(Enter)
    requires WellFormed(fs[selected].kind.children)
    ensures var e := fs[selected];
            var child := RunSpec(callbacks, e.kind.children, Some(e.msg), 0, input[1..], shown + [Drawn(title, selected)]);
            var whole := RunSpec(callbacks, fs, title, selected, input, shown);
            (child.outcome == Returned(None) ==> whole == child)
            && (child.outcome == Returned(Some(0)) ==> whole == RunSpec(callbacks, fs, title, selected, child.rest, child.shown))
            && (child.outcome.Returned? && child.outcome.climb.Some? && child.outcome.climb.value > 0 ==>
                  whole == Run(Returned(Some(child.outcome.climb.value - 1)), child.rest, child.shown))
            && (!child.outcome.Returned? ==> whole == child)
  {
  }

  /** `Back(0)` stays on the page, `Back(i)` returns `Some(i - 1)`, a quit entry returns `None`. */
  lemma {:induction false} BackAndQuitEntries(callbacks: nat -> Option<MenuError>, fs: seq<Entry>, title: Option<string>, selected: nat,
                           input: seq<Step>, shown: seq<Shown>)
    requires WellFormed(fs) && selected < |fs| && input != [] && input[0] == Press(Enter)
    ensures var whole := RunSpec(callbacks, fs, title, selected, input, shown);
            var drawn := shown + [Drawn(title, selected)];
            (fs[selected].kind == Back(0) ==> whole == RunSpec(callbacks, fs, title, selected, input[1..], drawn))
            && (fs[selected].kind.Back? && fs[selected].kind.levels > 0 ==>
                  whole == Run(Returned(Some(fs[selected].kind.levels - 1)), input[1..], drawn))
            && (fs[selected].kind == Quit ==> whole == Run(Returned(None), input[1..], drawn))
  {
  }

  /** `tail` is what is left of `s` once some prefix has been read. */
  predicate IsTail(tail: seq<Step>, s: seq<Step>) {
    |tail| <= |s| && tail == s[|s| - |tail|..]
  }

  lemma TailTransitive(a: seq<Step>, b: seq<Step>, c: seq<Step>)
    requires IsTail(b, a) && IsTail(c, b)
    ensures IsTail(c, a)
  {
    assert c == a[|a| - |b|..][|b| - |c|..];
  }

  /** What is left unread is always the tail of what was supplied. */
  lemma {:induction false} RestIsSuffix(callbacks: nat -> Option<MenuError>, fs: seq<Entry>, title: Option<string>, selected: nat,
                                        input: seq<Step>, shown: seq<Shown>)
    requires WellFormed(fs) && selected < |fs|
    ensures var r := RunSpec(callbacks, fs, title, selected, input, shown);
            IsTail(r.rest, input)
    decreases |input|, 1
  {
    if input != [] {
      var rest := input[1..];
      var drawn := shown + [Drawn(title, selected)];
      assert IsTail(rest, input);
      match input[0]
      case DrawFails =>
      case ReadFails =>
      case Arrives(NonKey) =>
        GoesOnTail(callbacks, fs, title, selected, input, rest, drawn);
      case Arrives(KeyPress(k)) =>
        if k == Char('q') || k == Ctrl('c') {
        } else if k == Up || k == Left {
          GoesOnTail(callbacks, fs, title, MoveUp(selected, |fs|), input, rest, drawn);
        } else if k == Down || k == Right {
          GoesOnTail(callbacks, fs, title, MoveDown(selected, |fs|), input, rest, drawn);
        } else if k == Enter {
          var e := fs[selected];
          match e.kind
          case Map(_) =>
          case Parent(children) =>
            ChildWellFormed(fs, selected);
            RestIsSuffix(callbacks, children, Some(e.msg), 0, rest, drawn);
            var child := RunSpec(callbacks, children, Some(e.msg), 0, rest, drawn);
            TailTransitive(input, rest, child.rest);
            if child.outcome == Returned(Some(0)) {
              GoesOnTail(callbacks, fs, title, selected, input, child.rest, child.shown);
            }
          case Back(i) =>
            if i == 0 {
              GoesOnTail(callbacks, fs, title, selected, input, rest, drawn);
            }
          case Quit =>
        } else {
          GoesOnTail(callbacks, fs, title, selected, input, rest, drawn);
        }
    }
  }

  /** A page that goes on from a tail of the input leaves a tail of that input. */
  lemma {:induction false} GoesOnTail(callbacks: nat -> Option<MenuError>, fs: seq<Entry>, title: Option<string>, selected: nat,
                                      input: seq<Step>, from: seq<Step>, after: seq<Shown>)
    requires WellFormed(fs) && selected < |fs|
    requires IsTail(from, input) && |from| < |input|
    ensures IsTail(RunSpec(callbacks, fs, title, selected, from, after).rest, input)
    decreases |input|, 0
  {
    RestIsSuffix(callbacks, fs, title, selected, from, after);
    TailTransitive(input, from, RunSpec(callbacks, fs, title, selected, from, after).rest);
  }

  // ---- agreement with the `Depth` navigator of src/tui/mod.rs ---------------

  /** Input without the two keys on which the navigators differ: Esc and the space bar. */
  predicate Plain(input: seq<Step>) {
    forall i :: 0 <= i < |input| ==> input[i] != Press(Esc) && input[i] != Press(Char(' '))
  }

  /** Whatever is left of plain input is plain. */
  lemma PlainTail(s: seq<Step>, tail: seq<Step>)
    requires Plain(s) && IsTail(tail, s)
    ensures Plain(tail)
  {
    assert forall i :: 0 <= i < |tail| ==> tail[i] == s[|s| - |tail| + i];
  }

  /** The `Depth` answer written in the `Option<usize>` protocol: `Quit` is `None`, `Back(i)` is `Some(i)`. */
  function FromDepth(o: TD.Outcome): Outcome {
    match o
    case Done(d) => if d.Quit? then Returned(None) else if d.Back? then Returned(Some(d.n)) else Returned(Some(0))
    case Failed(err) => Failed(err)
    case Waiting => Waiting
  }

  /**
   * The two recursive navigators agree whenever a callback ends the menu in
   * both (`once` set) and neither Esc nor the space bar is pressed: the same
   * pages are drawn in the same order, the same events are consumed, and the
   * `Depth` answer matches the `Option<usize>` one.
   */
  lemma {:induction false} AgreesWithDepthNavigator(h: TD.Hooks, fs: seq<Entry>, title: Option<string>, selected: nat,
                                                    input: seq<Step>, shown: seq<Shown>)
    requires h.once && WellFormed(fs) && selected < |fs| && Plain(input)
    ensures var d := TD.RunSpec(h, fs, title, selected, input, shown);
            RunSpec(h.callbacks, fs, title, selected, input, shown) == Run(FromDepth(d.outcome), d.rest, d.shown)
    decreases |input|, 2
  {
    if input != [] {
      var rest := input[1..];
      var drawn := shown + [Drawn(title, selected)];
      assert IsTail(rest, input);
      PlainTail(input, rest);
      match input[0]
      case DrawFails =>
      case ReadFails =>
      case Arrives(NonKey) => AgreesWithDepthNavigator(h, fs, title, selected, rest, drawn);
      case Arrives(KeyPress(k)) =>
        if k == Char('q') || k == Ctrl('c') {
        } else if k == Up || k == Left {
          AgreesWithDepthNavigator(h, fs, title, MoveUp(selected, |fs|), rest, drawn);
        } else if k == Down || k == Right {
          AgreesWithDepthNavigator(h, fs, title, MoveDown(selected, |fs|), rest, drawn);
        } else if k == Enter {
          AgreeOnSelection(h, fs, title, selected, input, shown);
        } else {
          AgreesWithDepthNavigator(h, fs, title, selected, rest, drawn);
        }
    }
  }

  /** The Enter case of `AgreesWithDepthNavigator`: both navigators act on the selected entry alike. */
  lemma {:induction false} AgreeOnSelection(h: TD.Hooks, fs: seq<Entry>, title: Option<string>, selected: nat,
                                            input: seq<Step>, shown: seq<Shown>)
    requires h.once && WellFormed(fs) && selected < |fs| && Plain(input) && input != [] && input[0] == Press(Enter)
    ensures var d := TD.RunSpec(h, fs, title, selected, input, shown);
            RunSpec(h.callbacks, fs, title, selected, input, shown) == Run(FromDepth(d.outcome), d.rest, d.shown)
    decreases |input|, 1
  {
    var rest := input[1..];
    var drawn := shown + [Drawn(title, selected)];
    assert IsTail(rest, input);
    PlainTail(input, rest);
    var e := fs[selected];
    ChildWellFormed(fs, selected);
    var handled := TD.HandleKeySpec(h, fs, title, selected, Enter, rest, drawn);
    assert handled.selected == selected;
    match e.kind
    case Map(cb) =>
      TD.CallbackOutcome(h, e, title, rest, drawn);
    case Parent(children) =>
      AgreeOnParent(h, fs, title, selected, input, shown);
    case Back(i) =>
      TD.BackEntryClimbs(h, e, title, rest, drawn);
      if i == 0 {
        AgreesWithDepthNavigator(h, fs, title, selected, rest, drawn);
      }
    case Quit =>
      assert TD.HandleFieldSpec(h, e, title, rest, drawn).outcome.Done?;
  }

  /** The Enter case on a parent entry: the child page runs alike in both, then the parent page resumes alike. */
  lemma {:induction false} AgreeOnParent(h: TD.Hooks, fs: seq<Entry>, title: Option<string>, selected: nat,
                                         input: seq<Step>, shown: seq<Shown>)
    requires h.once && WellFormed(fs) && selected < |fs| && Plain(input) && input != [] && input[0] == Press(Enter)
    requires fs[selected].kind.Parent?
    ensures var d := TD.RunSpec(h, fs, title, selected, input, shown);
            RunSpec(h.callbacks, fs, title, selected, input, shown) == Run(FromDepth(d.outcome), d.rest, d.shown)
    decreases |input|, 0
  {
    var rest := input[1..];
    var drawn := shown + [Drawn(title, selected)];
    assert IsTail(rest, input);
    PlainTail(input, rest);
    var e := fs[selected];
    ChildWellFormed(fs, selected);
    var children := e.kind.children;
    var handled := TD.HandleKeySpec(h, fs, title, selected, Enter, rest, drawn);
    assert handled.selected == selected;
    TD.ParentRelaysChild(h, e, title, rest, drawn);
    AgreesWithDepthNavigator(h, children, Some(e.msg), 0, rest, drawn);
    var child := RunSpec(h.callbacks, children, Some(e.msg), 0, rest, drawn);
    if child.outcome == Returned(Some(0)) {
      RestIsSuffix(h.callbacks, children, Some(e.msg), 0, rest, drawn);
      PlainTail(rest, child.rest);
      AgreesWithDepthNavigator(h, fs, title, selected, child.rest, child.shown);
    }
  }

  /** The tour of the example tree ends the same way here: every page closes and the session succeeds. */
  lemma {:induction false} BasicTreeTour(callbacks: nat -> Option<MenuError>)
    ensures WellFormed(TopPage)
            && RunSpec(callbacks, TopPage, None, 0,
                       [Press(Down), Press(Enter), Press(Enter), Press(Down), Press(Down), Press(Enter), Press(Char('q'))], [])
               == Run(Returned(None), [],
                      [Drawn(None, 0), Drawn(None, 1), Drawn(Some("Settings"), 0), Drawn(Some("Name"), 0),
                       Drawn(Some("Name"), 1), Drawn(Some("Name"), 2), Drawn(None, 1)])
  {
    TreeWellFormed();
    var h := TD.Hooks(true, callbacks);
    var tour := [Press(Down), Press(Enter), Press(Enter), Press(Down), Press(Down), Press(Enter), Press(Char('q'))];
    TD.BasicTreeTour(h, []);
    assert tour + [] == tour;
    AgreesWithDepthNavigator(h, TopPage, None, 0, tour, []);
  }
}
