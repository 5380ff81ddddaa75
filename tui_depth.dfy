// src/tui/mod.rs: the recursive terminal navigator. Each page runs its own
// reading loop over a local cursor; a nested page is run by a recursive call,
// and a `Depth` travels back up telling each page whether to stay, to climb
// further or to close everything.
module TuiDepth {
  import opened Wrappers
  import opened Errors
  import opened Utils
  import opened Navigation
  import opened BasicTree

  /**
   * The parts of `RunParams` that decide the run: `once`, and what each
   * callback returns (`None` for `Ok(())`).
   */
  datatype Hooks = Hooks(once: bool, callbacks: nat -> Option<MenuError>)

  /**
   * How a call ends: with a depth, with an error passed up by `?`, or still
   * waiting for an event once the supplied events are used up.
   */
  datatype Outcome = Done(depth: Depth) | Failed(error: MenuError) | Waiting

  /**
   * How a call ends, what it leaves unread, and everything shown on the
   * terminal up to then (the history it was given, extended).
   */
  datatype Run = Run(outcome: Outcome, rest: seq<Step>, shown: seq<Shown>)
  datatype KeyRun = KeyRun(outcome: Outcome, selected: nat, rest: seq<Step>, shown: seq<Shown>)

  /**
   * What a page does with the depth a nested page or a `Back` entry hands it:
   * `Current` and `Back(0)` stop here, `Back(i)` climbs one level less,
   * `Quit` goes on to the top.
   */
  function Climb(d: Depth): Depth {
    match d
    case Current => Depth.Current
    case Back(n) => if n == 0 then Depth.Current else Depth.Back(n - 1)
    case Quit => Depth.Quit
  }

  /** `Climb` applied to a finished call; errors and waiting pass unchanged. */
  function Relay(o: Outcome): Outcome {
    match o
    case Done(d) => Done(Climb(d))
    case _ => o
  }

  /** `run_with`: the loop of one page from cursor `selected` on, after history `shown`. */
  function RunSpec(h: Hooks, fs: seq<Entry>, title: Option<string>, selected: nat, input: seq<Step>, shown: seq<Shown>): (r: Run)
    requires WellFormed(fs) && selected < |fs|
    ensures |r.rest| <= |input|
    decreases |input|, 0
  {
    if input == [] then Run(Waiting, [], shown)
    else
      var rest := input[1..];
      match input[0]
      case DrawFails => Run(Failed(IOError), rest, shown)
      case ReadFails => Run(Failed(IOError), rest, shown + [Drawn(title, selected)])
      case Arrives(NonKey) => RunSpec(h, fs, title, selected, rest, shown + [Drawn(title, selected)])
      case Arrives(KeyPress(k)) =>
        var handled := HandleKeySpec(h, fs, title, selected, k, rest, shown + [Drawn(title, selected)]);
        if handled.outcome == Done(Depth.Current) then
          RunSpec(h, fs, title, handled.selected, handled.rest, handled.shown)
        else
          Run(handled.outcome, handled.rest, handled.shown)
  }

  /** `handle_key`: a key moves the cursor, selects the entry, climbs or quits. */
  function HandleKeySpec(h: Hooks, fs: seq<Entry>, title: Option<string>, selected: nat, k: Key, rest: seq<Step>, shown: seq<Shown>): (r: KeyRun)
    requires WellFormed(fs) && selected < |fs|
    ensures |r.rest| <= |rest| && r.selected < |fs|
    decreases |rest|, 2
  {
    if k == Char('q') || k == Ctrl('c') then KeyRun(Done(Depth.Quit), selected, rest, shown)
    else if k == Esc then KeyRun(Done(Depth.Back(0)), selected, rest, shown)
    else if k == Up || k == Left then KeyRun(Done(Depth.Current), MoveUp(selected, |fs|), rest, shown)
    else if k == Down || k == Right then KeyRun(Done(Depth.Current), MoveDown(selected, |fs|), rest, shown)
    else if k == Enter || k == Char(' ') then
      ChildWellFormed(fs, selected);
      var field := HandleFieldSpec(h, fs[selected], title, rest, shown);
      KeyRun(field.outcome, selected, field.rest, field.shown)
    else KeyRun(Done(Depth.Current), selected, rest, shown)
  }

  /** `handle_field`: what selecting an entry does. */
  function HandleFieldSpec(h: Hooks, e: Entry, title: Option<string>, rest: seq<Step>, shown: seq<Shown>): (r: Run)
    requires e.kind.Parent? ==> WellFormed(e.kind.children)
    ensures |r.rest| <= |rest|
    decreases |rest|, 1
  {
    match e.kind
    case Map(cb) =>
      if h.callbacks(cb).Some? then Run(Failed(h.callbacks(cb).value), rest, shown + [Called(cb)])
      else if h.once then Run(Done(Depth.Quit), rest, shown + [Called(cb)])
      else Run(Done(Depth.Current), rest, shown + [Called(cb), Cleared])
    case Parent(children) =>
      var child := RunSpec(h, children, Some(e.msg), 0, rest, shown);
      Run(Relay(child.outcome), child.rest, child.shown)
    case Back(n) => Run(Done(Climb(Depth.Back(n))), rest, shown)
    case Quit => Run(Done(Depth.Quit), rest, shown)
  }

  /** The state shared by every page of one run (`RunParams`). */
  class RunParams {
    /** The steps the terminal has still to deliver. */
    var input: seq<Step>
    /** What has been drawn and called so far. */
    var shown: seq<Shown>
    const hooks: Hooks

    constructor (input: seq<Step>, hooks: Hooks)
      ensures this.input == input && shown == [] && this.hooks == hooks
    {
      this.input := input;
      shown := [];
      this.hooks := hooks;
    }
  }

  /** `run_with`: the page's loop; the cursor starts on the first entry. */
  method RunWith(params: RunParams, fs: seq<Entry>, title: Option<string>) returns (o: Outcome)
    requires WellFormed(fs)
    modifies params
    ensures Run(o, params.input, params.shown) == RunSpec(params.hooks, fs, title, 0, old(params.input), old(params.shown))
    decreases |params.input|, 0
  {
    var selected: nat := 0;
    ghost var whole := RunSpec(params.hooks, fs, title, 0, params.input, params.shown);
    while true
      invariant selected < |fs| && |params.input| <= |old(params.input)|
      invariant RunSpec(params.hooks, fs, title, selected, params.input, params.shown) == whole
      decreases |params.input|
    {
      if params.input == [] {
        return Waiting;
      }
      var step := params.input[0];
      params.input := params.input[1..];
      if step == DrawFails {
        return Failed(IOError);
      }
      params.shown := params.shown + [Drawn(title, selected)];
      if step == ReadFails {
        return Failed(IOError);
      }
      if step.event.KeyPress? {
        var d, next := HandleKey(params, fs, title, selected, step.event.key);
        if d != Done(Depth.Current) {
          return d;
        }
        selected := next;
      }
    }
  }

  /** `handle_key`: the key's effect on the cursor and the depth it returns. */
  method HandleKey(params: RunParams, fs: seq<Entry>, title: Option<string>, selected: nat, k: Key)
    returns (d: Outcome, next: nat)
    requires WellFormed(fs) && selected < |fs|
    modifies params
    ensures KeyRun(d, next, params.input, params.shown)
            == HandleKeySpec(params.hooks, fs, title, selected, k, old(params.input), old(params.shown))
    decreases |params.input|, 2
  {
    next := selected;
    if k == Char('q') || k == Ctrl('c') {
      d := Done(Depth.Quit);
    } else if k == Esc {
      d := Done(Depth.Back(0));
    } else if k == Up || k == Left {
      if next == 0 {
        next := |fs| - 1;
      } else {
        next := next - 1;
      }
      d := Done(Depth.Current);
    } else if k == Down || k == Right {
      if next == |fs| - 1 {
        next := 0;
      } else {
        next := next + 1;
      }
      d := Done(Depth.Current);
    } else if k == Enter || k == Char(' ') {
      ChildWellFormed(fs, selected);
      d := HandleField(params, fs[selected], title);
    } else {
      d := Done(Depth.Current);
    }
  }

  /** `handle_field`: runs the callback, the nested page, or returns a depth. */
  method HandleField(params: RunParams, e: Entry, title: Option<string>) returns (d: Outcome)
    requires e.kind.Parent? ==> WellFormed(e.kind.children)
    modifies params
    ensures Run(d, params.input, params.shown) == HandleFieldSpec(params.hooks, e, title, old(params.input), old(params.shown))
    decreases |params.input|, 1
  {
    match e.kind
    case Map(cb) =>
      params.shown := params.shown + [Called(cb)];
      var result := params.hooks.callbacks(cb);
      if result.Some? {
        d := Failed(result.value);
      } else if params.hooks.once {
        d := Done(Depth.Quit);
      } else {
        params.shown := params.shown + [Cleared];
        d := Done(Depth.Current);
      }
    case Parent(children) =>
      var child := RunWith(params, children, Some(e.msg));
      d := match child
           case Done(Current) => Done(Depth.Current)
           case Done(Back(i)) => if i == 0 then Done(Depth.Current) else Done(Depth.Back(i - 1))
           case Done(Quit) => Done(Depth.Quit)
           case _ => child;
    case Back(i) =>
      d := if i == 0 then Done(Depth.Current) else Done(Depth.Back(i - 1));
    case Quit =>
      d := Done(Depth.Quit);
  }

  /** Any depth that leaves the top page ends the session successfully. */
  function Finish(o: Outcome): (e: Ending)
    ensures e == Ended(Ok(())) <==> o.Done?
    ensures e.Ended? && e.result.Err? <==> o.Failed?
    ensures o.Failed? ==> e.result.error == o.error
    ensures e == StillWaiting <==> o == Waiting
  {
    match o
    case Done(_) => Ended(Ok(()))
    case Failed(err) => Ended(Err(err))
    case Waiting => StillWaiting
  }

  /** The whole session: the top page, untitled unless a block title was set. */
  function SessionSpec(fs: seq<Entry>, title: Option<string>, h: Hooks, input: seq<Step>): (r: (Ending, seq<Shown>))
    requires WellFormed(fs)
  {
    var run := RunSpec(h, fs, title, 0, input, []);
    (Finish(run.outcome), run.shown)
  }

  /** `TuiMenu` of src/tui/mod.rs, reduced to what decides navigation. */
  class TuiMenu {
    var fields: seq<Entry>
    /** The title of the block drawn around the top page. */
    var title: Option<string>
    var once: bool

    /** `new`: a default block (no title), and callbacks do not end the menu. */
    constructor (fields: seq<Entry>)
      ensures this.fields == fields && title == None && !once
    {
      this.fields := fields;
      title := None;
      once := false;
    }

    /** `with_block`, as far as the block's title goes. */
    method WithBlock(title: Option<string>)
      modifies this
      ensures this.title == title && fields == old(fields) && once == old(once)
    {
      this.title := title;
    }

    /** `run_once`: whether a callback ends the menu. */
    method RunOnce(once: bool)
      modifies this
      ensures this.once == once && fields == old(fields) && title == old(title)
    {
      this.once := once;
    }

    /** `run_with_read`: runs the top page with the events `input` delivers. */
    method RunWithRead(input: seq<Step>, callbacks: nat -> Option<MenuError>) returns (e: Ending, shown: seq<Shown>)
      requires WellFormed(fields)
      ensures (e, shown) == SessionSpec(fields, title, Hooks(once, callbacks), input)
    {
      var params := new RunParams(input, Hooks(once, callbacks));
      var o := RunWith(params, fields, title);
      e := match o
           case Done(_) => Ended(Ok(()))
           case Failed(err) => Ended(Err(err))
           case Waiting => StillWaiting;
      shown := params.shown;
    }
  }

  // ---- what the navigator promises -------------------------------------------

  /** 'q' and Ctrl-c quit, Esc climbs, keys without a meaning change nothing. */
  lemma KeyMeanings(h: Hooks, fs: seq<Entry>, title: Option<string>, selected: nat, k: Key, rest: seq<Step>, shown: seq<Shown>)
    requires WellFormed(fs) && selected < |fs|
    ensures k == Char('q') || k == Ctrl('c') ==>
              HandleKeySpec(h, fs, title, selected, k, rest, shown) == KeyRun(Done(Depth.Quit), selected, rest, shown)
    ensures k == Esc ==>
              HandleKeySpec(h, fs, title, selected, k, rest, shown) == KeyRun(Done(Depth.Back(0)), selected, rest, shown)
    ensures (k.Char? && k.c != 'q' && k.c != ' ') || (k.Ctrl? && k.c != 'c') || k == OtherKey ==>
              HandleKeySpec(h, fs, title, selected, k, rest, shown) == KeyRun(Done(Depth.Current), selected, rest, shown)
  {
  }

  /** The arrows move the cursor round the ring and touch nothing else. */
  lemma ArrowsMoveCursor(h: Hooks, fs: seq<Entry>, title: Option<string>, selected: nat, k: Key, rest: seq<Step>, shown: seq<Shown>)
    requires WellFormed(fs) && selected < |fs|
    ensures k == Up || k == Left ==>
              HandleKeySpec(h, fs, title, selected, k, rest, shown) == KeyRun(Done(Depth.Current), MoveUp(selected, |fs|), rest, shown)
    ensures k == Down || k == Right ==>
              HandleKeySpec(h, fs, title, selected, k, rest, shown) == KeyRun(Done(Depth.Current), MoveDown(selected, |fs|), rest, shown)
  {
  }

  /** A page's loop only ever returns to climb or to quit (or on an error). */
  lemma {:induction false} PageNeverReturnsCurrent(h: Hooks, fs: seq<Entry>, title: Option<string>, selected: nat, input: seq<Step>, shown: seq<Shown>)
    requires WellFormed(fs) && selected < |fs|
    ensures RunSpec(h, fs, title, selected, input, shown).outcome != Done(Depth.Current)
    decreases |input|
  {
    if input != [] {
      var rest := input[1..];
      var s1 := shown + [Drawn(title, selected)];
      match input[0]
      case DrawFails =>
      case ReadFails =>
      case Arrives(NonKey) => PageNeverReturnsCurrent(h, fs, title, selected, rest, s1);
      case Arrives(KeyPress(k)) =>
        var handled := HandleKeySpec(h, fs, title, selected, k, rest, s1);
        if handled.outcome == Done(Depth.Current) {
          PageNeverReturnsCurrent(h, fs, title, handled.selected, handled.rest, handled.shown);
        }
    }
  }

  /** Selecting a nested page runs it from its first entry, titled with the entry's text, and relays its depth. */
  lemma ParentRelaysChild(h: Hooks, e: Entry, title: Option<string>, rest: seq<Step>, shown: seq<Shown>)
    requires e.kind.Parent? && WellFormed(e.kind.children)
    ensures var child := RunSpec(h, e.kind.children, Some(e.msg), 0, rest, shown);
            HandleFieldSpec(h, e, title, rest, shown) == Run(Relay(child.outcome), child.rest, child.shown)
  {
  }

  /** `Back(i)` entries and relayed depths follow the same rule. */
  lemma BackEntryClimbs(h: Hooks, e: Entry, title: Option<string>, rest: seq<Step>, shown: seq<Shown>)
    requires e.kind.Back?
    ensures e.kind.levels == 0 ==> HandleFieldSpec(h, e, title, rest, shown) == Run(Done(Depth.Current), rest, shown)
    ensures e.kind.levels > 0 ==> HandleFieldSpec(h, e, title, rest, shown) == Run(Done(Depth.Back(e.kind.levels - 1)), rest, shown)
  {
  }

  /** A callback that succeeds ends the menu with `once`, and otherwise clears the screen and stays. */
  lemma CallbackOutcome(h: Hooks, e: Entry, title: Option<string>, rest: seq<Step>, shown: seq<Shown>)
    requires e.kind.Map?
    ensures var cb := e.kind.callback;
            h.callbacks(cb).Some? ==> HandleFieldSpec(h, e, title, rest, shown) == Run(Failed(h.callbacks(cb).value), rest, shown + [Called(cb)])
    ensures var cb := e.kind.callback;
            h.callbacks(cb).None? && h.once ==> HandleFieldSpec(h, e, title, rest, shown) == Run(Done(Depth.Quit), rest, shown + [Called(cb)])
    ensures var cb := e.kind.callback;
            h.callbacks(cb).None? && !h.once ==>
              HandleFieldSpec(h, e, title, rest, shown) == Run(Done(Depth.Current), rest, shown + [Called(cb), Cleared])
  {
  }

  /** `Climb` applied `k` times: what the page `k - 1` levels above receives. */
  function ClimbTimes(d: Depth, k: nat): Depth
    decreases k
  {
    if k == 0 then d else ClimbTimes(Climb(d), k - 1)
  }

  /**
   * `Back(n)` climbs exactly `n` levels: the entry's own page and the `n - 1`
   * pages above it see a `Back`, and the page `n` levels up sees `Current`
   * and keeps running.
   */
  lemma {:induction false} BackClimbsExactly(n: nat, k: nat)
    ensures k <= n ==> ClimbTimes(Depth.Back(n), k) == Depth.Back(n - k)
    ensures ClimbTimes(Depth.Back(n), n + 1) == Depth.Current
    decreases n
  {
    if n > 0 {
      BackClimbsExactly(n - 1, if k == 0 then 0 else k - 1);
      assert ClimbTimes(Depth.Back(n), n + 1) == ClimbTimes(Depth.Back(n - 1), n);
    }
  }

  /** `Quit` reaches the top whatever the depth. */
  lemma {:induction false} QuitReachesTop(k: nat)
    ensures ClimbTimes(Depth.Quit, k) == Depth.Quit
    decreases k
  {
    if k > 0 {
      QuitReachesTop(k - 1);
    }
  }

  /** Whatever a page shows is added after what was already on the terminal. */
  lemma {:induction false} RunKeepsHistory(h: Hooks, fs: seq<Entry>, title: Option<string>, selected: nat, input: seq<Step>, shown: seq<Shown>)
    requires WellFormed(fs) && selected < |fs|
    ensures shown <= RunSpec(h, fs, title, selected, input, shown).shown
    decreases |input|, 0
  {
    if input != [] {
      var rest := input[1..];
      var s1 := shown + [Drawn(title, selected)];
      match input[0]
      case DrawFails =>
      case ReadFails =>
      case Arrives(NonKey) => RunKeepsHistory(h, fs, title, selected, rest, s1);
      case Arrives(KeyPress(k)) =>
        KeyKeepsHistory(h, fs, title, selected, k, rest, s1);
        var handled := HandleKeySpec(h, fs, title, selected, k, rest, s1);
        if handled.outcome == Done(Depth.Current) {
          RunKeepsHistory(h, fs, title, handled.selected, handled.rest, handled.shown);
        }
    }
  }

  lemma {:induction false} KeyKeepsHistory(h: Hooks, fs: seq<Entry>, title: Option<string>, selected: nat, k: Key, rest: seq<Step>, shown: seq<Shown>)
    requires WellFormed(fs) && selected < |fs|
    ensures shown <= HandleKeySpec(h, fs, title, selected, k, rest, shown).shown
    decreases |rest|, 2
  {
    if k != Char('q') && k != Ctrl('c') && k != Esc && k != Up && k != Left && k != Down && k != Right
       && (k == Enter || k == Char(' ')) {
      ChildWellFormed(fs, selected);
      FieldKeepsHistory(h, fs[selected], title, rest, shown);
    }
  }

  lemma {:induction false} FieldKeepsHistory(h: Hooks, e: Entry, title: Option<string>, rest: seq<Step>, shown: seq<Shown>)
    requires e.kind.Parent? ==> WellFormed(e.kind.children)
    ensures shown <= HandleFieldSpec(h, e, title, rest, shown).shown
    decreases |rest|, 1
  {
    if e.kind.Parent? {
      RunKeepsHistory(h, e.kind.children, Some(e.msg), 0, rest, shown);
    }
  }

  /** Each turn draws the page before anything else: the first thing shown is the page with its cursor. */
  lemma DrawsFirst(h: Hooks, fs: seq<Entry>, title: Option<string>, selected: nat, input: seq<Step>, shown: seq<Shown>)
    requires WellFormed(fs) && selected < |fs| && input != [] && input[0] != DrawFails
    ensures shown + [Drawn(title, selected)] <= RunSpec(h, fs, title, selected, input, shown).shown
  {
    var rest := input[1..];
    var s1 := shown + [Drawn(title, selected)];
    match input[0]
    case ReadFails =>
    case Arrives(NonKey) => RunKeepsHistory(h, fs, title, selected, rest, s1);
    case Arrives(KeyPress(k)) =>
      KeyKeepsHistory(h, fs, title, selected, k, rest, s1);
      var handled := HandleKeySpec(h, fs, title, selected, k, rest, s1);
      if handled.outcome == Done(Depth.Current) {
        RunKeepsHistory(h, fs, title, handled.selected, handled.rest, handled.shown);
      }
  }

  /**
   * A nested page opens on its first entry, under the parent entry's text;
   * when it hands back `Back(0)` (Esc climbs one level) the parent page
   * resumes with its cursor where it was.
   */
  lemma NestedPageRoundTrip(h: Hooks, fs: seq<Entry>, title: Option<string>, selected: nat, rest: seq<Step>, shown: seq<Shown>)
    requires WellFormed(fs) && selected < |fs| && fs[selected].kind.Parent?
    requires WellFormed(fs[selected].kind.children)
    requires rest != [] && rest[0] != DrawFails
    ensures var e := fs[selected];
            var before := shown + [Drawn(title, selected)];
            var child := RunSpec(h, e.kind.children, Some(e.msg), 0, rest, before);
            var whole := RunSpec(h, fs, title, selected, [Arrives(KeyPress(Enter))] + rest, shown);
            |whole.shown| > |shown| + 1 && whole.shown[|shown|] == Drawn(title, selected)
            && whole.shown[|shown| + 1] == Drawn(Some(e.msg), 0)
            && (child.outcome == Done(Depth.Back(0)) ==> whole == RunSpec(h, fs, title, selected, child.rest, child.shown))
  {
    var e := fs[selected];
    var before := shown + [Drawn(title, selected)];
    var input := [Arrives(KeyPress(Enter))] + rest;
    assert input[1..] == rest;
    var child := RunSpec(h, e.kind.children, Some(e.msg), 0, rest, before);
    var field := HandleFieldSpec(h, e, title, rest, before);
    assert field == Run(Relay(child.outcome), child.rest, child.shown);
    var handled := HandleKeySpec(h, fs, title, selected, Enter, rest, before);
    assert handled == KeyRun(field.outcome, selected, field.rest, field.shown);
    var whole := RunSpec(h, fs, title, selected, input, shown);
    DrawsFirst(h, e.kind.children, Some(e.msg), 0, rest, before);
    if Relay(child.outcome) == Done(Depth.Current) {
      assert whole == RunSpec(h, fs, title, selected, child.rest, child.shown);
      RunKeepsHistory(h, fs, title, selected, child.rest, child.shown);
    } else {
      assert whole == Run(field.outcome, field.rest, field.shown);
    }
    assert before + [Drawn(Some(e.msg), 0)] <= whole.shown;
    assert whole.shown[|shown|] == (before + [Drawn(Some(e.msg), 0)])[|shown|];
  }

  /**
   * A `Back(n)` entry with `n` beyond the top page does not stop at the top:
   * the top page returns and the session ends successfully.
   */
  lemma OvershootEndsSession(h: Hooks, fs: seq<Entry>, title: Option<string>, selected: nat, rest: seq<Step>)
    requires WellFormed(fs) && selected < |fs| && fs[selected].kind.Back? && fs[selected].kind.levels >= 1
    ensures var run := RunSpec(h, fs, title, selected, [Arrives(KeyPress(Enter))] + rest, []);
            run.outcome == Done(Depth.Back(fs[selected].kind.levels - 1)) && Finish(run.outcome) == Ended(Ok(()))
            && run.rest == rest
  {
    var input := [Arrives(KeyPress(Enter))] + rest;
    assert input[1..] == rest;
    var d := Depth.Back(fs[selected].kind.levels - 1);
    var s1: seq<Shown> := [] + [Drawn(title, selected)];
    assert input[0] == Arrives(KeyPress(Enter));
    assert HandleFieldSpec(h, fs[selected], title, rest, s1) == Run(Done(d), rest, s1);
    assert HandleKeySpec(h, fs, title, selected, Enter, rest, s1) == KeyRun(Done(d), selected, rest, s1);
  }

  /** An error from a key's handling ends the page at once: nothing more is read. */
  lemma FailureIsNotRetried(h: Hooks, fs: seq<Entry>, title: Option<string>, selected: nat, input: seq<Step>, shown: seq<Shown>)
    requires WellFormed(fs) && selected < |fs| && input != [] && input[0].Arrives? && input[0].event.KeyPress?
    requires HandleKeySpec(h, fs, title, selected, input[0].event.key, input[1..], shown + [Drawn(title, selected)]).outcome.Failed?
    ensures var handled := HandleKeySpec(h, fs, title, selected, input[0].event.key, input[1..], shown + [Drawn(title, selected)]);
            RunSpec(h, fs, title, selected, input, shown) == Run(handled.outcome, handled.rest, handled.shown)
  {
  }

  /** One key press that keeps the page running: the page goes on from where the key left it. */
  lemma KeyTurn(h: Hooks, fs: seq<Entry>, title: Option<string>, selected: nat, k: Key, rest: seq<Step>, shown: seq<Shown>)
    requires WellFormed(fs) && selected < |fs|
    requires HandleKeySpec(h, fs, title, selected, k, rest, shown + [Drawn(title, selected)]).outcome == Done(Depth.Current)
    ensures var handled := HandleKeySpec(h, fs, title, selected, k, rest, shown + [Drawn(title, selected)]);
            RunSpec(h, fs, title, selected, [Press(k)] + rest, shown)
            == RunSpec(h, fs, title, handled.selected, handled.rest, handled.shown)
  {
    assert ([Press(k)] + rest)[1..] == rest;
  }

  /** One key press that ends the page. */
  lemma KeyEnds(h: Hooks, fs: seq<Entry>, title: Option<string>, selected: nat, k: Key, rest: seq<Step>, shown: seq<Shown>)
    requires WellFormed(fs) && selected < |fs|
    requires HandleKeySpec(h, fs, title, selected, k, rest, shown + [Drawn(title, selected)]).outcome != Done(Depth.Current)
    ensures var handled := HandleKeySpec(h, fs, title, selected, k, rest, shown + [Drawn(title, selected)]);
            RunSpec(h, fs, title, selected, [Press(k)] + rest, shown) == Run(handled.outcome, handled.rest, handled.shown)
  {
    assert ([Press(k)] + rest)[1..] == rest;
  }

  /** On "Name", Down twice reaches "Main menu", whose `Back(2)` hands `Back(1)` up. */
  lemma NamePageClimbs(h: Hooks, rest: seq<Step>, shown: seq<Shown>)
    ensures WellFormed(NamePage)
            && RunSpec(h, NamePage, Some("Name"), 0, [Press(Down), Press(Down), Press(Enter)] + rest, shown)
               == Run(Done(Depth.Back(1)), rest,
                      shown + [Drawn(Some("Name"), 0), Drawn(Some("Name"), 1), Drawn(Some("Name"), 2)])
  {
    TreeWellFormed();
    var s1 := shown + [Drawn(Some("Name"), 0)];
    var s2 := s1 + [Drawn(Some("Name"), 1)];
    KeyEnds(h, NamePage, Some("Name"), 2, Enter, rest, s2);
    KeyTurn(h, NamePage, Some("Name"), 1, Down, [Press(Enter)] + rest, s1);
    KeyTurn(h, NamePage, Some("Name"), 0, Down, [Press(Down), Press(Enter)] + rest, shown);
    assert [Press(Down), Press(Down), Press(Enter)] + rest == [Press(Down)] + ([Press(Down), Press(Enter)] + rest);
    assert [Press(Down), Press(Enter)] + rest == [Press(Down)] + ([Press(Enter)] + rest);
    assert s2 + [Drawn(Some("Name"), 2)] == shown + [Drawn(Some("Name"), 0), Drawn(Some("Name"), 1), Drawn(Some("Name"), 2)];
  }

  /** On "Settings", Enter opens "Name"; the `Back(1)` it hands up leaves "Settings" too. */
  lemma SettingsPageClimbs(h: Hooks, rest: seq<Step>, shown: seq<Shown>)
    ensures WellFormed(SettingsPage)
            && RunSpec(h, SettingsPage, Some("Settings"), 0, [Press(Enter), Press(Down), Press(Down), Press(Enter)] + rest, shown)
               == Run(Done(Depth.Back(0)), rest,
                      shown + [Drawn(Some("Settings"), 0), Drawn(Some("Name"), 0), Drawn(Some("Name"), 1), Drawn(Some("Name"), 2)])
  {
    TreeWellFormed();
    var tail := [Press(Down), Press(Down), Press(Enter)] + rest;
    var s1 := shown + [Drawn(Some("Settings"), 0)];
    NamePageClimbs(h, rest, s1);
    KeyEnds(h, SettingsPage, Some("Settings"), 0, Enter, tail, shown);
    assert [Press(Enter), Press(Down), Press(Down), Press(Enter)] + rest == [Press(Enter)] + tail;
    assert s1 + [Drawn(Some("Name"), 0), Drawn(Some("Name"), 1), Drawn(Some("Name"), 2)]
           == shown + [Drawn(Some("Settings"), 0), Drawn(Some("Name"), 0), Drawn(Some("Name"), 1), Drawn(Some("Name"), 2)];
  }

  /**
   * On the example tree: Down, Enter opens "Settings", Enter opens "Name",
   * Down twice reaches "Main menu" (`Back(2)`), Enter climbs to the top page
   * with its cursor still on "Settings", and 'q' quits.
   */
  lemma BasicTreeTour(h: Hooks, rest: seq<Step>)
    ensures WellFormed(TopPage)
            && RunSpec(h, TopPage, None, 0,
                       [Press(Down), Press(Enter), Press(Enter), Press(Down), Press(Down), Press(Enter), Press(Char('q'))] + rest, [])
               == Run(Done(Depth.Quit), rest,
                      [Drawn(None, 0), Drawn(None, 1), Drawn(Some("Settings"), 0), Drawn(Some("Name"), 0),
                       Drawn(Some("Name"), 1), Drawn(Some("Name"), 2), Drawn(None, 1)])
  {
    TreeWellFormed();
    var inner := [Press(Enter), Press(Down), Press(Down), Press(Enter), Press(Char('q'))] + rest;
    TopPageFromSettings(h, rest);
    KeyTurn(h, TopPage, None, 0, Down, [Press(Enter)] + inner, []);
    assert [Press(Down), Press(Enter), Press(Enter), Press(Down), Press(Down), Press(Enter), Press(Char('q'))] + rest
           == [Press(Down)] + ([Press(Enter)] + inner);
    assert [Press(Enter)] + inner == [Press(Enter), Press(Enter), Press(Down), Press(Down), Press(Enter), Press(Char('q'))] + rest;
    assert [] + [Drawn(None, 0)] == [Drawn(None, 0)];
  }

  /** With the cursor on "Settings", Enter opens it, the tour of "Name" climbs back, and 'q' quits. */
  lemma TopPageFromSettings(h: Hooks, rest: seq<Step>)
    ensures WellFormed(TopPage)
            && RunSpec(h, TopPage, None, 1,
                       [Press(Enter), Press(Enter), Press(Down), Press(Down), Press(Enter), Press(Char('q'))] + rest, [Drawn(None, 0)])
               == Run(Done(Depth.Quit), rest,
                      [Drawn(None, 0), Drawn(None, 1), Drawn(Some("Settings"), 0), Drawn(Some("Name"), 0),
                       Drawn(Some("Name"), 1), Drawn(Some("Name"), 2), Drawn(None, 1)])
  {
    TreeWellFormed();
    var q := [Press(Char('q'))] + rest;
    var s1 := [Drawn(None, 0)];
    var s2 := s1 + [Drawn(None, 1)];
    var s6 := s2 + [Drawn(Some("Settings"), 0), Drawn(Some("Name"), 0), Drawn(Some("Name"), 1), Drawn(Some("Name"), 2)];
    var inner := [Press(Enter), Press(Down), Press(Down), Press(Enter)] + q;
    SettingsPageClimbs(h, q, s2);
    KeyEnds(h, TopPage, None, 1, Char('q'), rest, s6);
    KeyTurn(h, TopPage, None, 1, Enter, inner, s1);
    assert [Press(Enter), Press(Enter), Press(Down), Press(Down), Press(Enter), Press(Char('q'))] + rest
           == [Press(Enter)] + inner;
  }

}
