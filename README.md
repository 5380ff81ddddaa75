# ezmenulib, modelled in Dafny

ezmenulib builds console menus in Rust. This project models three parts of it.

- **The terminal navigators.** A menu is a tree of pages. Each entry is a callback, a child page, a climb of `n` levels (`Back(n)`) or quit. There are three navigators:
  - `tui_stack.dfy` models the event-driven one in `src/tui.rs`, which keeps an explicit stack of levels. It is a class whose methods pop and push that stack.
  - `tui_depth.dfy` models `src/tui/mod.rs`, which recurses into child pages.
  - `tui_run.dfy` models `src/menu/tui_run.rs`, which also recurses.
  - The two recursive navigators are methods with a reading loop, proved against a reference function of the key sequence. They share the tree, the keys and the wrapping cursor in `navigation.dfy`.
  - `basic_tree.dfy` runs them on the menu tree of the library's `basic_tuimenu` example.
- **The value-prompting engine.**
  - A prompted field: its message, its format, an optional default, and the loop that prompts, reads one line and parses it (`field.dfy`).
  - The `StructMenu` queue of fields (`menu.dfy`).
  - Index selection and the depth type (`utils.dfy`).
  - The `Query` control value (`query.dfy`).
  - `MenuBool` (`customs.dfy`) and `MenuVec` (`menuvec.dfy`).
  - The oldest `ask` loop (`ask.dfy`).
- **The decisions of the procedural macros.** The model keeps what the macros decide and leaves out the tokens they emit. It covers:
  - the attribute parameter parser generated by `define_attr!` (`kw.dfy`);
  - case mapping, camel-case splitting and doc lines (`macro_utils.dfy`);
  - formats (`format_macro.dfy`);
  - the `derive(Prompted)` tables for structs and enums (`prompted_macro.dfy`, `promptable_macro.dfy`, `prompted_select.dfy`);
  - the older `derive(Select)` (`select_derive.dfy`);
  - `derive(Menu)` on enums (`menu_macro.dfy`);
  - the bound and generics rewriting of `#[bound]` (`bound_macro.dfy`, `generics_macro.dfy`);
  - the `ezmenu-derive` crate (`derive_utils.dfy`, `derive_field.dfy`, `derive_impl.dfy`, `derive_lib.dfy`);
  - the first `menu-derive` crate (`menu_derive.dfy`).

Shared modules:

- `Wrappers`: Option and Result.
- `Text`: Rust's `str::trim`, `usize` parsing and printing, ASCII case mapping, and `split` on one character.
- `Streams`: a reader and writer. Reading hands out the next line of a fixed sequence of reads. A read past the end is end of file, which reads as an empty line. Writing appends to the text written so far.
- `Errors`: the library's `MenuError`.

State the source changes in place is a Dafny class: the level stack, the `StructMenu` queue, the stream, the generics and the signature. Loops are methods whose postconditions equal a reference function of the input. The properties are proved as lemmas about those functions.

A prompting loop without a default retries forever if the input never parses. Once the reads run out, every further read is the same empty line. The model therefore reports such a run as `Diverges` instead of looping.

## Model

| member | source | states |
|---|---|---|
| Query.Then | src/query.rs:20-26 | `then` runs the continuation only on `Finished`; an error is passed on and `Continue` stays `Continue` |
| Query.OrDefault | src/query.rs:30-35 | `or_default` gives the finished value, and the default for `Continue` and for an error |
| Query.FromNested | src/query.rs:40-48 | the nested result maps to `Finished` exactly when both layers are `Ok`, to `Continue` exactly when only the parse failed, and to the outer error otherwise |
| Query.FromResult | src/query.rs:50-60 | `Ok` becomes `Finished` with the same value; an error becomes `Err` of its conversion |
| Query.IntoResult | src/query.rs:62-70 | the result is `Ok` exactly for `Finished`; an error is kept and `Continue` becomes the "incorrect input" error |
| Query.ResultRoundTrip | src/query.rs:50-70 | a menu result converted to a query and back is unchanged |
| Query.QueryRoundTrip | src/query.rs:50-70 | a query other than `Continue` converted to a result and back is unchanged |
| Query.ThenUnits | src/query.rs:20-26 | `Finished` is a left and a right unit of `then` |
| Query.ThenAssociative | src/query.rs:20-26 | chaining with `then` is associative |
| Customs.ParseMenuBool | src/customs.rs:105-111 | the parse succeeds exactly when the lowercased text is in one of the two word lists, gives `true` exactly for the first list, and fails with `Input` |
| Customs.Display | src/customs.rs:91-96 | the value shows as "true" or "false", the inner bool's own display |
| Customs.WordListsDisjoint | src/customs.rs:106-108 | no word is in both lists, so every accepted answer has one meaning |
| Customs.ParseIgnoresCase | src/customs.rs:105-111 | parsing a text and parsing its lowercase give the same result |
| Customs.DisplayRoundTrip | src/customs.rs:91-111 | what `Display` shows parses back to the same value |
| Customs.RejectsNearMiss | src/customs.rs:106-109 | a text close to a listed word but not in a list ("yeppppp") is rejected |
| MenuVec.ParseAll | src/menuvec.rs:39-42 | collecting parsed pieces succeeds exactly when every piece parses, keeps one value per piece in order, and otherwise reports the first failing piece's error |
| MenuVec.ParseAllOk | src/menuvec.rs:39-42 | when each piece parses to a given value, the collected result is exactly those values |
| MenuVec.ParsedLength | src/menuvec.rs:39-42 | a successful parse has one item more than there are spaces, item `i` being piece `i` parsed |
| MenuVec.TextRoundTrip | src/menuvec.rs:39-42 | with the identity parser, joining the items with single spaces gives back the input |
| MenuVec.CommasKept | src/menuvec.rs:39-42 | only single spaces separate: "Ahmad, Hugo, Oui" gives three items that keep their commas |
| MenuVec.NumbersInOrder | src/menuvec.rs:39-42 | "43 56 34" parses to 43, 56, 34 in that order |
| MenuVec.DoubleSpaceFails | src/menuvec.rs:39-42 | a doubled space makes an empty piece, so a number list containing one fails |
| Utils.Keep | src/utils.rs:25-27 | `keep` accepts every value |
| Utils.DefaultFailed | src/utils.rs:46-52 | the panic message opens with the rejected default between backquotes |
| Utils.CheckFields | src/utils.rs:77-81 | `check_fields` panics exactly on an empty slice |
| Utils.SelectIndex | src/utils.rs:64-74 | a selected index is always below the number of values |
| Utils.SelectIndexSpec | src/utils.rs:69-72 | an index is selected exactly when the text is a `usize` from 1 to `max`, and it is that number minus one |
| Utils.SelectIndexOfDisplay | src/utils.rs:69-72 | typing the 1-based number of value `k` selects value `k` |
| Utils.ReadInput | src/utils.rs:55-59 | one line is consumed, nothing is written, and the result is the trimmed line or the read error |
| Utils.Prompt | src/utils.rs:37-43 | the text is written, then one line is consumed and returned trimmed, or the read error |
| Utils.Select | src/utils.rs:64-74 | the suffix is written, one line is consumed, and the result is the selected index of the trimmed line or the read error |
| Field.DefaultFormat | src/field.rs:40-49 | the default format has chip "* ", prefix ": ", no line break and the default shown |
| Field.FromMsg | src/field.rs:78-87 | a field made from a message has that message, the default format, no format of its own and no default |
| Field.WithFmt | src/field.rs:92-96 | `fmt` sets the format and marks it as the field's own, leaving message and default alone |
| Field.InheritFmt | src/field.rs:100-104 | `inherit_fmt` sets the format and marks it as inherited, leaving message and default alone |
| Field.WithDefault | src/field.rs:109-112 | `default` sets the default text and changes nothing else |
| Field.BuildersCommute | src/field.rs:92-112 | setting a default commutes with setting a format of either kind |
| Field.DefaultNote | src/field.rs:194-197 | the " (default: v)" note is empty exactly when there is no default or the format hides it |
| Field.PromptText | src/field.rs:183-203 | the prompt is chip, message, default note, an optional line break, then prefix |
| Field.DefaultPromptExample | src/field.rs:183-203 | with the default format, "age" with default "18" prompts "* age (default: 18): " and without a default "* age: " |
| Field.DefaultParse | src/field.rs:141-150 | parsing the default succeeds exactly when the parser accepts it, and otherwise fails with `IncorrectType` naming the default |
| Field.Attempt | src/field.rs:160-177 | with a default every attempt ends the loop; without one the loop goes on exactly when the line does not parse |
| Field.Iteration | src/field.rs:154-177 | a read failure ends the loop with that error; otherwise the trimmed line decides |
| Field.Build | src/field.rs:130-179 | the loop's outcome, the input it leaves and the text it writes are those of the step-by-step reference run |
| Field.BuildSpecStops | src/field.rs:153-178 | when one pass decides, the run ends after one prompt with that pass's outcome |
| Field.BuildSpecRetries | src/field.rs:153-178 | when one pass does not decide, the run is one prompt followed by the run on the rest of the input |
| Field.FirstParsedLineWins | src/field.rs:153-178 | without a default, the first line that parses is the value, after one prompt per line read and with no bound on retries |
| Field.DefaultEndsAtFirstAttempt | src/field.rs:167-177 | with a default the loop always ends after the first prompt and the first read |
| Field.EmptyLineTakesDefault | src/field.rs:167-169 | with a default, an empty line (or end of file) gives the parsed default, even if "" itself would parse |
| Field.ValidLineBeatsDefault | src/field.rs:172-173 | a non-empty line that parses wins over any default |
| Field.BadDefaultIsAnError | src/field.rs:175 | an unparsable default reached through an unparsable line is reported as `IncorrectType` |
| Field.ReadFailureEndsBuild | src/field.rs:158 | a read failure ends the loop at once with the I/O error after one prompt |
| Field.DivergesOnlyWithoutDefault | src/field.rs:167-177 | the loop can spin forever only without a default, with "" rejected and every line read rejected |
| Menu.Queued | src/menu.rs:125-132 | a queued field keeps its own format, and otherwise takes the menu's format of that moment; nothing else changes |
| Menu.Header | src/menu.rs:139-142 | the title line is written only before the first field is popped |
| Menu.InheritedStyleExample | src/menu.rs:125-132 | a plain field queued in a menu with format ("- ", ">> ", line break, no default) prompts "- give a second number\n>> " |
| Menu.CustomStyleKept | src/menu.rs:126-127 | a field with its own format is queued unchanged whatever the menu's format |
| Menu.StructMenu.constructor | src/menu.rs:96-105 | a new menu has an empty title, the default format, no fields, and the title not yet written |
| Menu.StructMenu.SetFmt | src/menu.rs:110-113 | `fmt` replaces the menu's format and nothing else; fields already queued keep theirs |
| Menu.StructMenu.SetTitle | src/menu.rs:117-120 | `title` replaces the title and nothing else |
| Menu.StructMenu.WithField | src/menu.rs:125-132 | the field is appended at the back of the queue with its format fixed now |
| Menu.StructMenu.GetNextField | src/menu.rs:137-144 | the title line is written once; the front field is popped, or `NoMoreField` when the queue is empty |
| Menu.StructMenu.Next | src/menu.rs:188-190 | the front field is popped and built through the menu's stream, as the reference run of `build` says |
| Menu.StructMenu.NextMap | src/menu.rs:169-174 | `next_map` applies the function to a built value only, and what the function writes follows the field's prompts in the menu's output; failures pass through unchanged and the function writes nothing; on an empty queue only the title line is written and nothing is read |
| Ask.AskSpec | menu/src/lib.rs:10-26 | the reference run of the loop: prompt, read, trim, parse; a read failure panics; a rejected line prompts again; end of file with "" rejected spins |
| Ask.PromptLoop | menu/src/lib.rs:10-26 | the loop's outcome, the input it leaves and the text it writes are those of the reference run |
| Ask.AskPrompt | menu/src/lib.rs:11 | the prompt is "- {msg}: " |
| Ask.Ask | menu/src/lib.rs:8-27 | `ask` is the loop with the prompt "- {msg}: " |
| Ask.AskSpecRetries | menu/src/lib.rs:22-25 | a rejected line costs one prompt and the loop goes on with the rest of the input |
| Ask.FirstParsedIsAnswer | menu/src/lib.rs:10-26 | the first line that parses is the answer, after one prompt per line read |
| Ask.ReadFailurePanics | menu/src/lib.rs:17-19 | a read failure panics at once after one prompt |
| Ask.SpinsOnlyAtEndOfFile | menu/src/lib.rs:10-26 | the loop spins only at end of file with "" rejected and every line read rejected |
| Navigation.ChildWellFormed | src/tui/mod.rs:419-431 | a nested page of a well-formed page (every page non-empty) is itself well formed |
| Navigation.MoveUp | src/tui/mod.rs:354-361 | Up/Left moves the cursor one entry up, wrapping from the first entry to the last, and stays in range |
| Navigation.MoveDown | src/tui/mod.rs:362-369 | Down/Right moves the cursor one entry down, wrapping from the last entry to the first, and stays in range |
| Navigation.MovesInverse | src/tui/mod.rs:354-369 | moving up then down, or down then up, returns to the same entry |
| Navigation.MoveDownTimesRing | src/tui/mod.rs:362-369 | `n` moves down land `n` entries further, modulo the page length |
| Navigation.FullTurn | src/tui/mod.rs:362-369 | as many moves down as there are entries come back to the same entry |
| BasicTree.TreeWellFormed | examples/basic_tuimenu.rs:45-61 | the example's three pages are all non-empty, so the navigators accept them |
| TuiDepth.RunSpec | src/tui/mod.rs:378-396 | the reference run of a page: draw, read, handle a key, and go on only on `Current`; it never consumes more input than it has |
| TuiDepth.HandleKeySpec | src/tui/mod.rs:342-373 | the reference handling of one key; the cursor stays on the page |
| TuiDepth.HandleFieldSpec | src/tui/mod.rs:313-339 | the reference handling of the chosen entry |
| TuiDepth.RunParams.constructor | src/tui/mod.rs:276-283 | the parameters start with the given events and callbacks and nothing shown |
| TuiDepth.RunWith | src/tui/mod.rs:378-396 | `run_with` gives the outcome, leftover events and drawing history of the reference run |
| TuiDepth.HandleKey | src/tui/mod.rs:342-373 | `handle_key` gives the outcome, cursor, leftover events and history of the reference handling |
| TuiDepth.HandleField | src/tui/mod.rs:313-339 | `handle_field` gives the outcome, leftover events and history of the reference handling |
| TuiDepth.Finish | src/tui/mod.rs:189-203 | any depth that leaves the top page ends the session with `Ok`, and an error ends it with that error |
| TuiDepth.TuiMenu.constructor | src/tui/mod.rs:83-99 | a new menu has the given fields, no block title and `once` off |
| TuiDepth.TuiMenu.WithBlock | src/tui/mod.rs:176-179 | `with_block` sets the title of the block and nothing else |
| TuiDepth.TuiMenu.RunOnce | src/tui/mod.rs:183-186 | `run_once` sets the flag and nothing else |
| TuiDepth.TuiMenu.RunWithRead | src/tui/mod.rs:189-203 | running the menu gives the ending and history of the reference session on the top page |
| TuiDepth.KeyMeanings | src/tui/mod.rs:351-371 | 'q' and Ctrl-c quit, Esc climbs one page, and other keys change nothing |
| TuiDepth.ArrowsMoveCursor | src/tui/mod.rs:354-369 | the arrow keys move the cursor with wrap-around and keep the page open |
| TuiDepth.PageNeverReturnsCurrent | src/tui/mod.rs:385-395 | a page only ever returns `Quit` or `Back`, never `Current` |
| TuiDepth.ParentRelaysChild | src/tui/mod.rs:330-334 | a nested page's `Current` or `Back(0)` keeps the parent open, `Back(i)` climbs as `Back(i-1)`, and `Quit` is passed on |
| TuiDepth.BackEntryClimbs | src/tui/mod.rs:335-336 | `back(0)` stays on the page and `back(i)` climbs as `Back(i-1)` |
| TuiDepth.CallbackOutcome | src/tui/mod.rs:321-329 | a callback error ends the run; otherwise the menu quits when `once` is set, or clears the terminal and stays |
| TuiDepth.BackClimbsExactly | src/tui/mod.rs:330-336 | passing `Back(n)` up `k` pages leaves `Back(n-k)`, and after `n+1` pages the climb stops |
| TuiDepth.QuitReachesTop | src/tui/mod.rs:332-337 | `Quit` is passed up unchanged through every page |
| TuiDepth.RunKeepsHistory | src/tui/mod.rs:378-396 | a page run only appends to what was shown |
| TuiDepth.KeyKeepsHistory | src/tui/mod.rs:342-373 | handling a key only appends to what was shown |
| TuiDepth.FieldKeepsHistory | src/tui/mod.rs:313-339 | handling an entry only appends to what was shown |
| TuiDepth.DrawsFirst | src/tui/mod.rs:385-386 | each turn draws the page before reading |
| TuiDepth.NestedPageRoundTrip | src/tui/mod.rs:330-370 | Enter on a nested page draws it with its title and cursor 0; when it returns `Back(0)` the parent goes on where it was |
| TuiDepth.OvershootEndsSession | src/tui/mod.rs:336-391 | a `back(i)` on the top page with `i >= 1` ends the whole session successfully |
| TuiDepth.FailureIsNotRetried | src/tui/mod.rs:389 | an error from a key's handling ends the page at once |
| TuiDepth.KeyTurn | src/tui/mod.rs:385-394 | a key whose handling gives `Current` leads to another turn of the same page with the new cursor |
| TuiDepth.KeyEnds | src/tui/mod.rs:389-391 | a key whose handling gives anything else ends the page with it |
| TuiDepth.NamePageClimbs | examples/basic_tuimenu.rs:45-49 | Down, Down, Enter on the "Name" page climbs out with `Back(1)` after three drawings |
| TuiDepth.SettingsPageClimbs | examples/basic_tuimenu.rs:45-55 | entering "Name" from "Settings" and choosing "Main menu" leaves "Settings" as well |
| TuiDepth.BasicTreeTour | examples/basic_tuimenu.rs:45-61 | the full tour Settings, Name, Main menu, then 'q' returns to the top page and quits, with the drawings in order |
| TuiRun.RunSpec | src/menu/tui_run.rs:184-246 | the reference run of a page: draw, read, react to the key; it never consumes more input than it has |
| TuiRun.RunParams.constructor | src/menu/tui_run.rs:176-182 | the parameters start with the given events and callbacks and nothing shown |
| TuiRun.RunWith | src/menu/tui_run.rs:184-246 | `run_with` gives the outcome, leftover events and history of the reference run |
| TuiRun.Finish | src/menu/tui_run.rs:129-142 | any climb out of the top page ends the session with `Ok`; an error ends it with that error |
| TuiRun.TuiMenu.constructor | src/menu/tui_run.rs:58-74 | a new menu has the given fields and an untitled block |
| TuiRun.TuiMenu.WithBlock | src/menu/tui_run.rs:114-117 | `with_block` sets the block's title and nothing else |
| TuiRun.TuiMenu.RunWithArea | src/menu/tui_run.rs:129-142 | running the menu gives the ending and history of the reference session on the top page |
| TuiRun.QuitKeys | src/menu/tui_run.rs:210 | 'q' and Ctrl-c close every page at once |
| TuiRun.IgnoredSteps | src/menu/tui_run.rs:208-242 | non-key events, Esc and other keys only redraw the page |
| TuiRun.MappedEntryEndsMenu | src/menu/tui_run.rs:226-229 | choosing a callback runs it and closes every page, or ends with its error |
| TuiRun.ParentProtocol | src/menu/tui_run.rs:230-236 | a nested page's `None` closes the parent, `Some(0)` keeps it running, `Some(i)` climbs on as `Some(i-1)`, and an error is passed on |
| TuiRun.BackAndQuitEntries | src/menu/tui_run.rs:237-239 | `back(0)` keeps the page, `back(i)` climbs as `Some(i-1)`, and `quit` closes every page |
| TuiRun.RestIsSuffix | src/menu/tui_run.rs:184-246 | a page only consumes events from the front of its input |
| TuiRun.AgreesWithDepthNavigator | src/menu/tui_run.rs:184-246 | on inputs without Esc or the space bar, with callbacks that end the menu, this navigator and the one of src/tui/mod.rs give the same result, leftover input and history |
| TuiRun.AgreeOnSelection | src/menu/tui_run.rs:223-240 | the two navigators agree on Enter over every kind of entry |
| TuiRun.BasicTreeTour | examples/basic_tuimenu.rs:45-61 | the example tour ends with every page closed and the same drawings as the other navigator |
| TuiStack.PopTimes | src/tui.rs:141-217 | dropping `n` levels keeps the bottom levels, and an empty stack when `n` is too large |
| TuiStack.TStepCorrected | src/tui.rs:150-156 | with the popped level pushed back on an ignored event, an ignored event leaves the stack as it was, and every other event is handled as written |
| TuiStack.ConsumeCb | src/tui.rs:24-36 | the menu reports "quit" exactly for `Quit`; a callback's error, or a failed clear after it, is an error; everything else goes on |
| TuiStack.Start | src/tui.rs:50-65 | building the menu panics exactly on an empty page, and otherwise starts with one level on the first entry |
| TuiStack.TuiMenu.constructor | src/tui.rs:50-65 | a new menu holds one level, the given page with the cursor on entry 0 |
| TuiStack.TuiMenu.PopLevels | src/tui.rs:141-146 | the loop drops the given number of levels |
| TuiStack.TuiMenu.SelectEntry | src/tui.rs:127-220 | selecting an entry changes the stack and reports as the reference step says |
| TuiStack.TuiMenu.HandleCtEvent | src/tui.rs:174-237 | the crossterm handler's result and new stack are those of the reference step, and every level stays valid |
| TuiStack.TuiMenu.HandleTEvent | src/tui.rs:107-160 | the termion handler's result and new stack are those of the reference step as written, and every level stays valid |
| TuiStack.TuiMenu.HandleCtEventWith | src/tui.rs:241-247 | the crossterm handler followed by the callback's run gives the reference result |
| TuiStack.TuiMenu.HandleTEventWith | src/tui.rs:164-170 | the corrected termion handler, followed by the callback's run, gives the reference result; an ignored event leaves the stack as it was |
| TuiStack.PopKeepsValid | src/tui.rs:141-146 | dropping levels keeps every remaining level valid |
| TuiStack.SelectKeepsValid | src/tui.rs:127-149 | selecting an entry keeps every level valid and adds at most two levels back |
| TuiStack.StepKeepsLevelsValid | src/tui.rs:174-237 | every crossterm event keeps every level valid (cursor on an entry of a non-empty page) |
| TuiStack.TStepKeepsLevelsValid | src/tui.rs:107-160 | every termion event keeps every level valid |
| TuiStack.EmptyStackQuits | src/tui.rs:111-182 | an empty stack quits on any event |
| TuiStack.ArrowsMoveTopCursor | src/tui.rs:194-197 | the arrow keys move the top cursor with wrap-around and leave the rest of the stack alone |
| TuiStack.EscClimbsOneLevel | src/tui.rs:192-193 | Esc drops the top level, and quits when it was the only one |
| TuiStack.ParentPushesLevel | src/tui.rs:205-210 | Enter on a nested page keeps the current level and pushes the nested page with the cursor at the same index, clamped to its last entry |
| TuiStack.BackDropsLevels | src/tui.rs:211-217 | Enter on `back(i)` drops `i` levels, counting the current one, and `back(0)` changes nothing |
| TuiStack.MapHandsOverCallback | src/tui.rs:201-204 | Enter on a callback leaves the stack as it was and hands the callback over |
| TuiStack.QuitsOn | src/tui.rs:188-218 | 'q', Ctrl-c, Ctrl-d and Enter on `quit` quit the menu |
| TuiStack.CtIgnoredKeepsLevels | src/tui.rs:221-229 | an event the crossterm handler ignores leaves the stack as it was |
| TuiStack.CtDepthChange | src/tui.rs:174-237 | one event adds at most one level |
| TuiStack.TermionIgnoredLosesLevel | src/tui.rs:150-152 | as written, an ignored termion key on a one-level menu empties the stack, so the next event quits |
| TuiStack.TermionCorrectedKeepsLevel | src/tui.rs:150-156 | with the level pushed back, an ignored event keeps the stack; as written, it loses the top level |
| TuiStack.CorrectedMatchesCrossterm | src/tui.rs:107-237 | apart from Ctrl-q and Ctrl-space, the corrected termion handler behaves like the crossterm handler on the same key |
| MacroUtils.GetAttr | ezmenu-macros/src/utils.rs:28-32 | there is no attribute exactly when none has a path segment equal to the identifier; otherwise the one found is such an attribute of the list |
| MacroUtils.GetAttrIsFirst | ezmenu-macros/src/utils.rs:28-32 | the attribute found is the first one that matches |
| MacroUtils.TrimLeadingSpaces | ezmenu-macros/src/utils.rs:49 | `trim_start_matches(' ')` drops exactly the leading spaces and keeps the rest |
| MacroUtils.FirstDocSpec | ezmenu-macros/src/utils.rs:45-52 | the first doc attribute gives its text without leading spaces when it is a `= "text"` attribute, and nothing otherwise |
| MacroUtils.NoDocNoLine | ezmenu-macros/src/utils.rs:45-52 | without a doc attribute there is no doc line |
| MacroUtils.MapCase | ezmenu-macros/src/utils.rs:55-74 | without a case the text is left as it is (`Inherited` is the default) |
| MacroUtils.Case.Map | ezmenu-macros/src/utils.rs:68-74 | mapping keeps the length; `Upper` leaves no lowercase letter, `Lower` no uppercase letter, `Inherited` changes nothing; all agree up to case |
| MacroUtils.ParseCase | ezmenu-macros/src/utils.rs:77-92 | an identifier is a case exactly when it is one of the eleven spellings, each list giving its own case; any other aborts with the invalid-identifier message listing them |
| MacroUtils.CaseSpellingsDisjoint | ezmenu-macros/src/utils.rs:81-83 | no spelling is in two lists |
| MacroUtils.ParseCaseExamples | ezmenu-macros/src/utils.rs:81-90 | "up", "upper_case", "low" and "inh" parse; "Upper" and "uppercased" abort |
| MacroUtils.MapsCompose | ezmenu-macros/src/utils.rs:68-74 | lowercasing after uppercasing is lowercasing, and the other way round |
| MacroUtils.SplitIdentCamelCase | ezmenu-macros/src/utils.rs:97-127 | the loop computes the reference split: a space before each capital past the start, and that capital lowercased when a lowercase letter follows |
| MacroUtils.SplitShape | ezmenu-macros/src/utils.rs:97-127 | the split adds one character per capital past the start and keeps the first character |
| MacroUtils.SplitRoundTrip | ezmenu-macros/src/utils.rs:97-127 | for an identifier without spaces, the split only inserts spaces and changes case: dropping spaces and case gives the identifier back |
| MacroUtils.SplitExamples | ezmenu-macros/src/utils.rs:97-127 | "MyName" becomes "My name" and "AB" becomes "A B" |
| MacroUtils.PrettifyCapped | ezmenu-macros/src/utils.rs:133-147 | more than five items list the first five then "... and more"; otherwise every item is listed |
| MacroUtils.NumberedLinesCount | ezmenu-macros/src/utils.rs:137-142 | one line per item listed |
| MacroUtils.PrettifyLineCount | ezmenu-macros/src/utils.rs:133-147 | `prettify` writes min(n, 5) lines for n one-line items |
| Kw.Declared | ezmenu-macros/src/kw.rs:198-217 | a parameter is declared exactly when some field of the attribute struct has its name, and the declaration found is one of them |
| Kw.DeclaredAt | ezmenu-macros/src/kw.rs:217 | the declaration found is the first one with that name |
| Kw.FirstSet | ezmenu-macros/src/kw.rs:223-229 | a conflict is found exactly when one of the excluded parameters was already given, and it is one of those |
| Kw.ParseArg | ezmenu-macros/src/kw.rs:43-189 | a parameter's value, when it parses, has the shape its keyword declares (`= value`, `(value)`, a bare flag or a custom form); `tui` and `block` abort with the feature error when the `tui` feature is off |
| Kw.ParseNested | ezmenu-macros/src/kw.rs:134-147 | the content of `fmt(..)` and `block(..)` is read as a parameter list of its own, and every parameter it sets is one that list declares |
| Kw.ParseItems | ezmenu-macros/src/kw.rs:209-245 | every parameter of the parsed attribute was already set or is declared |
| Kw.ParseAttr | ezmenu-macros/src/kw.rs:209-245 | the `while !input.is_empty()` loop computes the reference parse from an empty attribute |
| Kw.AttrArgs | ezmenu-macros/src/utils.rs:36-41 | there are no arguments exactly when no attribute has the identifier; otherwise they are the parse of the first such attribute's list |
| Kw.ParseItemsAccepts | ezmenu-macros/src/kw.rs:209-245 | the parse succeeds exactly when every item is a declared parameter with a well-formed value, not given twice and not excluded by one given before, or a comma |
| Kw.ParseItemsKeys | ezmenu-macros/src/kw.rs:209-245 | the parameters set are exactly the ones written |
| Kw.ParseItemsValues | ezmenu-macros/src/kw.rs:231-233 | each parameter written holds the value its own text parses to |
| Kw.KeptUnlessRewritten | ezmenu-macros/src/kw.rs:211-245 | a value already set and not written again is kept |
| Kw.DuplicateReported | ezmenu-macros/src/kw.rs:218-222 | a declared parameter written a second time aborts with the duplicate-parameter error naming it |
| Kw.ConflictReported | ezmenu-macros/src/kw.rs:223-228 | a parameter written after one it excludes aborts with a conflict naming both |
| Kw.CommasIgnored | ezmenu-macros/src/kw.rs:237-240 | commas, however many, do not change the parse |
| Kw.ParsedWellTyped | ezmenu-macros/src/kw.rs:43-233 | every value of a parsed attribute has its keyword's shape |
| Kw.ExclusivePair | ezmenu-macros/src/kw.rs:199-228 | two parameters that exclude each other are never both set |
| FormatMacro.AnyNone | ezmenu-macros/src/format.rs:37 | the disjunction of `is_none()` over the format fields holds exactly when one of them is missing |
| FormatMacro.Default | ezmenu-macros/src/format.rs:25-32 | the default format sets no parameter and says some are omitted |
| FormatMacro.Parse | ezmenu-macros/src/format.rs:34-40 | a format parses exactly when its attribute body does, keeps the parameters parsed, and marks `some_omitted` exactly when a parameter is missing |
| FormatMacro.OfFields | ezmenu-macros/src/format.rs:37-38 | a format built from parsed fields keeps them and computes the omission flag consistently |
| FormatMacro.SetFields | ezmenu-macros/src/format.rs:45-50 | the emitted `field: value,` pairs are exactly the parameters that are set, each with its own value |
| FormatMacro.Emit | ezmenu-macros/src/format.rs:42-55 | the emitted struct literal writes every set parameter with its value and nothing else, and ends with `..Default::default()` exactly when some are omitted |
| FormatMacro.SetFieldsOnce | ezmenu-macros/src/format.rs:45-50 | with distinct field names no field is written twice |
| FormatMacro.EmitComplete | ezmenu-macros/src/format.rs:42-55 | no field is written twice, and the default base is left out exactly when every parameter is set |
| FormatMacro.ParseThenEmit | ezmenu-macros/src/format.rs:34-55 | the literal emitted for a parsed format has the default base exactly when the attribute left some parameter out |
| FormatMacro.FormatSchemaOk | ezmenu-macros/src/format.rs:60-68 | the seven format parameters form a valid attribute declaration, in source order |
| FormatMacro.DefaultEmitsBase | ezmenu-macros/src/format.rs:25-55 | the default format is emitted as `Format { ..Default::default() }` |
| GenericsMacro.FirstCandidate | ezmenu-macros/src/generics.rs:30-35 | `find_map` picks the first type parameter with the given identifier that lacks the trait bound, or none when there is no such parameter |
| GenericsMacro.Generics.constructor | ezmenu-macros/src/generics.rs:29 | the generics start out as the given parameter list |
| GenericsMacro.Generics.CheckForBound | ezmenu-macros/src/generics.rs:29-38 | the parameters become the reference list in which the bound is pushed on the first matching parameter |
| GenericsMacro.WithBoundChangesOne | ezmenu-macros/src/generics.rs:14-38 | at most one parameter changes, and only by getting the trait appended to its bounds |
| GenericsMacro.WithBoundUnchanged | ezmenu-macros/src/generics.rs:14-35 | when every parameter with that identifier already has the trait, nothing changes |
| GenericsMacro.WithBoundIdempotent | ezmenu-macros/src/generics.rs:29-38 | after the call the parameter carries the bound, and a second call changes nothing |
| BoundMacro.CheckSig | ezmenu-macros/src/bound.rs:73-81 | an unsafe, async or method function is refused with that word, checked in that order, and any other is accepted |
| BoundMacro.HandleGen | ezmenu-macros/src/bound.rs:34-48 | the identifier found is that of the first type parameter bound by `Handle` (`Backend` for a tui menu), or none when there is none |
| BoundMacro.Signature.constructor | ezmenu-macros/src/bound.rs:131 | the signature holds the given qualifiers, inputs and generics |
| BoundMacro.Signature.GetOrPushHandleGen | ezmenu-macros/src/bound.rs:53-70 | an existing bound parameter is reused with the generics unchanged; otherwise `__Handle` (`__Backend`) is pushed and returned |
| BoundMacro.Signature.AppendHandle | ezmenu-macros/src/bound.rs:131-145 | a refused signature is reported and left unchanged; otherwise the handle generic is ensured and `__handle: &mut ..` is inserted first exactly when the first argument is not already such a reference |
| BoundMacro.HandleGenPushed | ezmenu-macros/src/bound.rs:53-70 | after the push, the search finds the parameter the call returned |
| BoundMacro.HandleGenFirst | ezmenu-macros/src/bound.rs:34-48 | the first bound parameter is the one found |
| BoundMacro.InsertedHandleSuffices | ezmenu-macros/src/bound.rs:108-144 | once the handle argument is inserted, no further insert is needed |
| BoundMacro.BindTwice | ezmenu-macros/src/bound.rs:131-153 | binding an already bound function again accepts it and changes neither its generics nor its arguments |
| PromptableMacro.ParseSelectedField | ezmenu-macros/src/prompted/promptable.rs:38-46 | an entry's content parses exactly when it is a literal, a comma and an expression |
| PromptableMacro.MarksOf | ezmenu-macros/src/prompted/promptable.rs:75-76 | one mark per entry, set exactly when that entry was written with `default` |
| PromptableMacro.ParseRawSelectedRoundTrip | ezmenu-macros/src/prompted/promptable.rs:55-69 | an optional `default` followed by a parenthesised entry reads back as that entry, leaving what follows untouched |
| PromptableMacro.ParseRawSelectedExact | ezmenu-macros/src/prompted/promptable.rs:55-69 | whatever parses is exactly the printed entry followed by the rest |
| PromptableMacro.GetDefaultFn | ezmenu-macros/src/prompted/promptable.rs:72-86 | the `for` loop over the entries computes the reference scan for the default entry |
| PromptableMacro.DefaultCountPrefix | ezmenu-macros/src/prompted/promptable.rs:75-83 | each entry adds one to the count of defaults exactly when it is marked |
| PromptableMacro.DefaultCountMono | ezmenu-macros/src/prompted/promptable.rs:75-83 | the defaults of a prefix are never more than those of the whole list |
| PromptableMacro.DefaultCountOne | ezmenu-macros/src/prompted/promptable.rs:76-78 | once one default has been seen and no other, the prefix holds exactly one |
| PromptableMacro.DefaultCountNone | ezmenu-macros/src/prompted/promptable.rs:76-78 | a prefix with no marked entry holds no default |
| PromptableMacro.DefaultScanSpec | ezmenu-macros/src/prompted/promptable.rs:72-86 | the scan aborts with the "already a default" error exactly when two or more entries are marked, finds none exactly when none is, and otherwise returns the index of the marked entry |
| PromptableMacro.TwoDefaultsAbort | ezmenu-macros/src/prompted/promptable.rs:79-81 | any two marked entries make the expansion abort |
| PromptableMacro.Strip | ezmenu-macros/src/prompted/promptable.rs:106 | the entries kept drop only the `default` marks, in order |
| PromptableMacro.SelectedNew | ezmenu-macros/src/prompted/promptable.rs:99-114 | building the `Selected` expansion computes the reference construction |
| PromptableMacro.SelectedOfSpec | ezmenu-macros/src/prompted/promptable.rs:72-114 | the construction succeeds exactly when at most one entry is a default, keeps the message, the format and every entry's literal and value in order, and its default index points to the marked entry |
| PromptedSelect.EntryOf | ezmenu-macros/src/prompted/select.rs:100-185 | a bound entry is accepted exactly when its leading identifier, if any, is `default` and its bindings are named or not as the variant's fields are; it then keeps the variant, literal, bindings and default mark |
| PromptedSelect.EntriesOfList | ezmenu-macros/src/prompted/select.rs:263-270 | a list of entries is accepted exactly when each one is, and yields one entry per item in order |
| PromptedSelect.FromVariantWith | ezmenu-macros/src/prompted/select.rs:272-328 | a unit variant yields one unbound entry for itself; a variant with fields and no `prompt` attribute aborts with the values sample; otherwise its entries are the attribute's list |
| PromptedSelect.EntryMarks | ezmenu-macros/src/prompted/select.rs:390-391 | one mark per entry, set exactly when that entry is a default |
| PromptedSelect.GetDefaultFn | ezmenu-macros/src/prompted/select.rs:387-401 | the `for` loop over the entries computes the reference scan for the default entry |
| PromptedSelect.BuildSelect | ezmenu-macros/src/prompted/select.rs:407-474 | the expansion computes the reference construction of the `Selectable` impl |
| PromptedSelect.UnitLabelChain | ezmenu-macros/src/prompted/select.rs:277-302 | a unit variant's label is `msg`, else its first doc line unless `nodoc`, else its name (raw or split at capitals), with the variant's case or else the enum's applied, and its default mark is the attribute's |
| PromptedSelect.UnitNoAttrIsEmptyAttr | ezmenu-macros/src/prompted/select.rs:303-309 | without an attribute a unit variant is labelled by its doc line or split name under the enum's case, and is not a default |
| PromptedSelect.RootMessageChain | ezmenu-macros/src/prompted/select.rs:351-380 | the enum's message follows the same chain as a unit variant's; without an attribute it is the doc line or the split name, with no case and no format |
| PromptedSelect.EntriesOfAppend | ezmenu-macros/src/prompted/select.rs:446-448 | the entries of the variants are those of each variant, concatenated in order |
| PromptedSelect.EntriesOfCount | ezmenu-macros/src/prompted/select.rs:446-452 | the count `n` equals one per unit variant plus the length of each bound list |
| PromptedSelect.DefaultOfEntries | ezmenu-macros/src/prompted/select.rs:387-401 | the default scan succeeds exactly when at most one entry is a default, finds none exactly when no entry is, and otherwise points to the default entry |
| PromptedSelect.BuildSelectSpec | ezmenu-macros/src/prompted/select.rs:407-474 | a generic enum aborts; otherwise the expansion succeeds exactly when at most one entry is a default, with `n` the number of entries and the default call pointing to the default entry |
| PromptedSelect.JoinCommaCount | ezmenu-macros/src/prompted/select.rs:232-242 | joining parts with `", "` puts one comma between each pair |
| PromptedSelect.ValuesSampleCommas | ezmenu-macros/src/prompted/select.rs:223-243 | the sample in the help note has one entry per field, separated by commas |
| PromptedMacro.TryGetNestedType | ezmenu-macros/src/prompted.rs:130-140 | the result is the type itself or, for an `Option<..>`, its first type argument |
| PromptedMacro.NestedTypeSpec | ezmenu-macros/src/prompted.rs:130-140 | `Option<T>` yields `T`, and any type that is not an `Option` yields itself |
| PromptedMacro.Kind | ezmenu-macros/src/prompted.rs:305-374 | `optional` with `or_default` reaches the `unreachable!`; `or_default` on an `Option` field aborts; `optional` or an `Option` type gives `next_optional`; `or_default` gives `next_or_default`; anything else `next` |
| PromptedMacro.CallFor | ezmenu-macros/src/prompted.rs:158-178 | the call names the kind's method with the promptable as argument, takes `?` unless it is `next_or_default`, and is typed by the field type unless it unwraps an `Option` |
| PromptedMacro.OptionFieldCall | ezmenu-macros/src/prompted.rs:130-178 | an `Option<T>` field is read by `next_optional::<T>(..)?`, and `or_default` on it aborts |
| PromptedMacro.RawsOf | ezmenu-macros/src/prompted.rs:108 | the `select` list keeps each entry's default mark, caption and value in order |
| PromptedMacro.PromptableFor | ezmenu-macros/src/prompted.rs:212-245 | `select` gives `Selected` (aborting on two defaults), else `password` gives `Password`, else a `bool` field gives `Bool`, else `sep` gives `Separated`, else `Written`; never `Until` |
| PromptedMacro.FromNotUntil | ezmenu-macros/src/prompted.rs:212-245 | the promptable is the reference one, and the `FromStr` bound is added to the field's generic type exactly on the `Separated`/`Written` path |
| PromptedMacro.FieldPromptOf | ezmenu-macros/src/prompted.rs:304-351 | both `optional` and `or_default` reach the `unreachable!`; `flatten` gives a flattened prompt; otherwise the call is the kind's method on the promptable, wrapped in `Until` when `until` is given |
| PromptedMacro.FieldPromptNew | ezmenu-macros/src/prompted.rs:304-351 | the field prompt is the reference one, and the generics gain the `Prompted` bound (flattened) or the `FromStr` bound as that prescribes |
| PromptedMacro.FieldMessage | ezmenu-macros/src/prompted.rs:377-410 | the message is `msg`, else the first doc line unless `nodoc`, else the field's name (raw or split at underscores), with the field's case or else the struct's applied; an unnamed field with none of these aborts |
| PromptedMacro.FieldCaseWins | ezmenu-macros/src/prompted.rs:407-410 | a field's own case makes the struct's case irrelevant |
| PromptedMacro.PromptsWith | ezmenu-macros/src/prompted.rs:422-498 | when every field succeeds there is one prompt per field |
| PromptedMacro.GetFieldPrompt | ezmenu-macros/src/prompted.rs:377-413 | reading a field's attribute and building its prompt computes the reference prompt and the reference generics, reading the attribute with `optional` and `or_default` excluding each other |
| PromptedMacro.BuildFieldsStruct | ezmenu-macros/src/prompted.rs:597-651 | the expansion of a struct with fields is the reference one, and the generics after it are those after each field in turn |
| PromptedMacro.PromptFields | ezmenu-macros/src/prompted.rs:492-498 | the loop over the fields computes the reference prompts, stopping at the first refusal, and the generics after each field's bound |
| PromptedMacro.TitleOf | ezmenu-macros/src/prompted.rs:553-631 | there is no title line exactly when `no_title` is given; otherwise it is `title`, else the doc line unless `nodoc`, else the struct name (raw or split), under the struct's case |
| PromptedMacro.PromptsStop | ezmenu-macros/src/prompted.rs:492-498 | the first field that fails stops the expansion with its error |
| PromptedMacro.PromptsStopLater | ezmenu-macros/src/prompted.rs:492-498 | a failure among the first fields is the failure of the whole list |
| PromptedMacro.PromptsSnoc | ezmenu-macros/src/prompted.rs:492-498 | the prompts of a list are those of all but the last field followed by the last field's |
| PromptedMacro.PromptAt | ezmenu-macros/src/prompted.rs:492-498 | the prompt at each position is the one for the field at that position |
| PromptedMacro.PromptsInOrder | ezmenu-macros/src/prompted.rs:492-498 | every field's prompt sits at that field's position |
| PromptedMacro.BoundsOnlyGrow | ezmenu-macros/src/prompted.rs:229-330 | expanding the fields never removes a generic parameter or a bound; they only gain bounds |
| PromptedMacro.ExtendsTransitive | ezmenu-macros/src/prompted.rs:229-330 | gaining bounds in two steps is gaining bounds |
| PromptedMacro.FieldParamsExtend | ezmenu-macros/src/prompted.rs:229-330 | one field's expansion only adds bounds to the generics |
| PromptedMacro.UnitFromStrSpec | ezmenu-macros/src/prompted.rs:512-543 | the generated `from_str` accepts a string exactly when it matches the struct's shown name ignoring case, so the name, its upper-case and its lower-case forms are all accepted |
| PromptedMacro.BuildPrompted | ezmenu-macros/src/prompted.rs:654-680 | a union aborts with "only supports enums and structs"; an enum builds the select expansion with the generics unchanged; a unit struct the `FromStr` expansion; any other struct the fields expansion |
| PromptedMacro.OptionalDeclared | ezmenu-macros/src/prompted.rs:99 | `optional` excludes no other parameter |
| PromptedMacro.OrDefaultDeclared | ezmenu-macros/src/prompted.rs:100 | `or_default` excludes only `optional` |
| PromptedMacro.FieldSchemaOk | ezmenu-macros/src/prompted.rs:94-125 | the field attribute's parameters form a valid declaration |
| PromptedMacro.FlagStep | ezmenu-macros/src/kw.rs:215-233 | a bare flag that is declared, not yet set and not excluded is set and parsing goes on |
| PromptedMacro.CaseIsKeyword | ezmenu-macros/src/kw.rs:128-189 | `case` is a declared keyword |
| PromptedMacro.FlagsAreKeywords | ezmenu-macros/src/kw.rs:128-189 | `nodoc`, `raw` and `flatten` are declared keywords |
| PromptedMacro.FieldParamNamesKeywords | ezmenu-macros/src/kw.rs:128-189 | every field parameter name is a declared keyword |
| PromptedMacro.FlagsAreUnitKeywords | ezmenu-macros/src/kw.rs:136-137 | `optional` and `or_default` are bare flags |
| PromptedMacro.OrDefaultThenOptionalAccepted | ezmenu-macros/src/kw.rs:223-229 | with a one-way exclusion, `or_default, optional` parses with both flags set |
| PromptedMacro.OrDefaultThenOptionalPanics | ezmenu-macros/src/prompted.rs:305-306 | the field attribute `or_default, optional` parses and then reaches the `unreachable!` |
| PromptedMacro.ExclusiveFlagsReachable | ezmenu-macros/src/prompted.rs:99-100 | when each of the two flags excludes the other, no parsed attribute reaches the `unreachable!` |
| PromptedMacro.OptionalDeclaredCorrected | ezmenu-macros/src/prompted.rs:99 | in the corrected declaration `optional` excludes `or_default` |
| PromptedMacro.OrDefaultDeclaredCorrected | ezmenu-macros/src/prompted.rs:100 | in the corrected declaration `or_default` still excludes `optional` |
| PromptedMacro.FieldSchemaCorrectedOk | ezmenu-macros/src/prompted.rs:94-125 | the corrected declaration is valid |
| PromptedMacro.CorrectedNeverUnreachable | ezmenu-macros/src/prompted.rs:305-306 | under the corrected declaration no field attribute reaches the `unreachable!` |
| SelectDerive.SplitWords | ezmenu-macros/src/select.rs:304-313 | replacing `([a-z])([A-Z])` by `$1 $2` keeps the first character, never shortens the name, and leaves no lower-case letter directly before an upper-case one |
| SelectDerive.UnspacedOneThen | ezmenu-macros/src/select.rs:312 | removing spaces passes a non-space character through |
| SelectDerive.UnspacedPairThen | ezmenu-macros/src/select.rs:312 | removing spaces drops the one inserted between two letters |
| SelectDerive.SplitWordsUnspaced | ezmenu-macros/src/select.rs:304-313 | on a name without spaces the replacement only inserts spaces: removing them gives the name back |
| SelectDerive.SplitWordsSpaces | ezmenu-macros/src/select.rs:304-313 | on a name without spaces every space of the result sits between a lower-case and an upper-case letter |
| SelectDerive.SplitWordsFixed | ezmenu-macros/src/select.rs:304-313 | a name with no lower-case letter before an upper-case one is left as it is |
| SelectDerive.SplitWordsIdempotent | ezmenu-macros/src/select.rs:304-313 | splitting twice is splitting once |
| SelectDerive.SplitWordsExample | ezmenu-macros/src/select.rs:304-313 | `aB` becomes `a B` |
| SelectDerive.ParseEach | ezmenu-macros/src/select.rs:77-122 | a comma-separated list parses exactly when every item does, keeps one value per item in order, and otherwise fails with the first item's error |
| SelectDerive.TwoSlots | ezmenu-macros/src/select.rs:95-120 | at most one value of each of the two kinds is accepted, a repeated kind aborts with "attribute already defined", and each slot is filled exactly when a value of its kind was given |
| SelectDerive.ParseUnit | ezmenu-macros/src/select.rs:34-64 | a unit value is the `default` flag exactly when it is the bare identifier `default`; any identifier other than `default` and `msg` aborts naming the valid ones |
| SelectDerive.DefaultFlags | ezmenu-macros/src/select.rs:95-120 | one flag per value, set exactly when it is `default` |
| SelectDerive.UnitAttrOf | ezmenu-macros/src/select.rs:77-122 | a unit attribute holds at most one message and one `default`, aborting on a repetition; it is a default exactly when `default` was written, and its message is the one written |
| SelectDerive.ParseRootArg | ezmenu-macros/src/select.rs:415-440 | an identifier other than `msg`/`fmt` with a value aborts naming the valid ones, one without a value is a syntax error, and the argument is a format exactly when it is `fmt = ..` |
| SelectDerive.FmtFlags | ezmenu-macros/src/select.rs:465-490 | one flag per argument, set exactly when it is a format |
| SelectDerive.RootAttrOf | ezmenu-macros/src/select.rs:449-492 | the enum attribute holds at most one message and one format, aborting on a repetition, each the one written |
| SelectDerive.RootMsgThenFmt | ezmenu-macros/src/select.rs:415-492 | `"msg", fmt = f` sets both |
| SelectDerive.RootFmtThenMsg | ezmenu-macros/src/select.rs:415-492 | `fmt = f, msg = "msg"` sets both, in either order |
| SelectDerive.RootTwoMessages | ezmenu-macros/src/select.rs:479-482 | two messages abort with "attribute already defined" |
| SelectDerive.UnitAttrExamples | ezmenu-macros/src/select.rs:77-122 | `"msg", default` is accepted, and a third value aborts |
| SelectDerive.SelectFrom | ezmenu-macros/src/select.rs:354-399 | a unit variant yields one unnamed entry for itself; a variant with fields and no `select` attribute aborts; the number of entries is the variant's count |
| SelectDerive.UnitLabelChain | ezmenu-macros/src/select.rs:356-383 | a unit variant's label is the attribute's message, else its first doc line, else its name split into words; it is a default exactly when the attribute says so |
| SelectDerive.SelectRootOf | ezmenu-macros/src/select.rs:502-514 | the enum's message is the attribute's message, else its name, and its format the attribute's |
| SelectDerive.EntriesOf | ezmenu-macros/src/select.rs:563-566 | the entries of all variants add up to the sum of each variant's count |
| SelectDerive.EntriesCount | ezmenu-macros/src/select.rs:563-566 | the entries expanded from all variants number exactly the sum of each variant's declared count |
| PromptedSelect.EntriesWithAt | ezmenu-macros/src/select.rs:563-566 | whatever expands each variant, the expansion of variant `i` sits as one block right after the expansion of the variants before it |
| SelectDerive.EntriesOfAt | ezmenu-macros/src/select.rs:563-566 | each variant's entries appear as one block, after the entries of the variants before it |
| SelectDerive.BuildSelect | ezmenu-macros/src/select.rs:520-582 | the expansion, with its `for` loop for the default entry, computes the reference construction |
| SelectDerive.BuildSelectSpec | ezmenu-macros/src/select.rs:548-582 | a non-enum aborts with "only supports unit enums"; otherwise the expansion succeeds exactly when at most one entry is a default, with `n` the number of entries and `.default(i)` pointing to the default entry |
| MenuMacro.EntryKindSpec | ezmenu-macros/src/menu.rs:253-273 | when at most one kind parameter is set, the entry's kind is the one written with its value, and `Quit` when none is |
| MenuMacro.KindValuesFitParsed | ezmenu-macros/src/kw.rs:128-189 | a parsed attribute holds, for each kind parameter, a value of the shape its keyword reads |
| MenuMacro.KindKeywords | ezmenu-macros/src/kw.rs:148-188 | `mapped`, `map`, `back`, `map_with` and `mapped_with` read a call, a function, an index, and mapped calls |
| MenuMacro.EntryMessage | ezmenu-macros/src/menu.rs:277-294 | an entry's message is `msg`, else its first doc line unless `nodoc`, else the variant name (raw or split at capitals), under the entry's case or else the enum's |
| MenuMacro.EntryCaseWins | ezmenu-macros/src/menu.rs:294 | the entry's own case makes the enum's irrelevant; with neither, the message is left as chosen |
| MenuMacro.EntryFieldOf | ezmenu-macros/src/menu.rs:220-298 | an entry is built exactly when the variant is a unit variant whose attribute parses; a variant with fields aborts with "supports only unit enums"; `flatten` gives a flattened entry for the variant, and any other entry carries its message and kind |
| MenuMacro.EntryFieldsOf | ezmenu-macros/src/menu.rs:591-595 | a successful expansion has one entry per variant |
| MenuMacro.EntryFieldsAccepts | ezmenu-macros/src/menu.rs:591-595 | the variants expand exactly when every variant's entry is built |
| MenuMacro.EntryFieldsSnoc | ezmenu-macros/src/menu.rs:591-595 | the entries are those of all variants but the last followed by the last's |
| MenuMacro.EntryFieldAt | ezmenu-macros/src/menu.rs:591-595 | the entry at each position is the one built from the variant at that position |
| MenuMacro.EntryFieldsNeedUnits | ezmenu-macros/src/menu.rs:227-240 | one variant with fields makes the whole expansion fail |
| MenuMacro.GetTitle | ezmenu-macros/src/menu.rs:360-380 | there is no title exactly when `no_title` is given; otherwise it is `title`, else the first doc line unless `nodoc`, else the name (raw or split) |
| MenuMacro.MenuRootOf | ezmenu-macros/src/menu.rs:393-453 | the root data keeps `tui`, `once`, the case and the format; a `block` without `tui` aborts and is the only failure of a well-formed attribute; a tui menu takes its block or its title as a block, any other menu its title |
| MenuMacro.MenuCallsOf | ezmenu-macros/src/menu.rs:539-574 | the menu is built with `.format(..)` exactly when a format was given, the title call exactly when a title exists, and `.once()` exactly when `once` is set on a menu that is not tui, in that order |
| MenuMacro.BuildMenuNotEnum | ezmenu-macros/src/menu.rs:584-597 | a type that is not an enum aborts with "supports only unit enums" once its attribute is read |
| MenuMacro.BuildMenuAccepts | ezmenu-macros/src/menu.rs:584-600 | the derive expands exactly when the enum's attribute reads and every variant is a unit variant whose attribute parses |
| MenuMacro.BuildMenuSpec | ezmenu-macros/src/menu.rs:584-600 | a variant with fields makes the expansion fail; unit variants with well-formed attributes make it succeed; a success holds the root's calls and, at each position, the entry of the variant there |
| MenuMacro.EntryParamNamesKeywords | ezmenu-macros/src/kw.rs:128-189 | every entry parameter name is a declared keyword |
| MenuMacro.CaseKeyword | ezmenu-macros/src/kw.rs:128-189 | `case` is a declared keyword |
| MenuMacro.MsgKeyword | ezmenu-macros/src/kw.rs:128-189 | `msg` is a declared keyword |
| MenuMacro.EntrySchemaOk | ezmenu-macros/src/menu.rs:32-51 | the entry attribute's parameters form a valid declaration |
| MenuMacro.FlattenDeclared | ezmenu-macros/src/menu.rs:40 | `flatten` is declared with the exclusions written on its line |
| MenuMacro.MappedWithDeclared | ezmenu-macros/src/menu.rs:41-42 | `mapped_with` is declared with its exclusions |
| MenuMacro.MappedDeclared | ezmenu-macros/src/menu.rs:43-44 | `mapped` is declared with its exclusions |
| MenuMacro.MapWithDeclared | ezmenu-macros/src/menu.rs:45 | `map_with` is declared with its exclusions |
| MenuMacro.MapDeclared | ezmenu-macros/src/menu.rs:46 | `map` is declared with its exclusions |
| MenuMacro.ParentDeclared | ezmenu-macros/src/menu.rs:47 | `parent` is declared with its exclusions |
| MenuMacro.BackDeclared | ezmenu-macros/src/menu.rs:48 | `back` is declared with its exclusions |
| MenuMacro.QuitDeclared | ezmenu-macros/src/menu.rs:49 | `quit` is declared with its exclusions |
| MenuMacro.KindWithout | ezmenu-macros/src/menu.rs:40-49 | each kind parameter excludes every other kind parameter |
| MenuMacro.KindsExclude | ezmenu-macros/src/menu.rs:40-49 | the kind parameters exclude one another pairwise |
| MenuMacro.ParsedAtMostOne | ezmenu-macros/src/kw.rs:223-229 | when a set of parameters exclude one another pairwise, a parsed attribute sets at most one of them |
| MenuMacro.EntryKindIsWritten | ezmenu-macros/src/menu.rs:243-273 | every parsed entry attribute sets at most one kind, so the kind chosen is the one written whatever the priority order |
| DeriveUtils.PathToString | ezmenu-derive/src/utils.rs:115-118 | a path converts exactly when it is a single identifier, giving that identifier; any other path fails |
| DeriveUtils.GetFirstNested | ezmenu-derive/src/utils.rs:43-49 | the first nested value is returned, and an empty list aborts with "value definition missing" |
| DeriveUtils.Dispatch | ezmenu-derive/src/utils.rs:20-35 | `arg(value)` is handed with its first value to the nested handler, `arg = lit` to the name-value handler, and anything else aborts |
| DeriveUtils.DispatchAll | ezmenu-derive/src/utils.rs:19-36 | an empty list leaves the description as it was |
| DeriveUtils.ParseSpec | ezmenu-derive/src/utils.rs:8-40 | an attribute that is not a list aborts with "incorrect definition" |
| DeriveUtils.Parse | ezmenu-derive/src/utils.rs:8-40 | the `for` loop over the nested items computes the reference parse |
| DeriveUtils.DispatchStops | ezmenu-derive/src/utils.rs:19-36 | once an item aborts, the items after it change nothing |
| DeriveUtils.DispatchOkShapes | ezmenu-derive/src/utils.rs:19-36 | a successful parse means every item was well shaped and every prefix parsed |
| DeriveUtils.FirstBadItemAborts | ezmenu-derive/src/utils.rs:34 | an ill-shaped item after a good prefix makes the parse abort |
| DeriveUtils.RunNvBool | ezmenu-derive/src/utils.rs:51-57 | `arg = lit` sets a boolean exactly when the literal is a boolean, and aborts with "invalid literal type" otherwise |
| DeriveUtils.RunNvStr | ezmenu-derive/src/utils.rs:59-65 | `arg = lit` sets a string exactly when the literal is a string, and aborts otherwise |
| DeriveUtils.RunNested | ezmenu-derive/src/utils.rs:67-73 | `arg(..)` takes any literal, and aborts on anything else |
| DeriveUtils.RunNestedBool | ezmenu-derive/src/utils.rs:75-81 | `arg(..)` sets a boolean exactly when it holds a boolean literal |
| DeriveUtils.RunNestedPath | ezmenu-derive/src/utils.rs:83-89 | `arg(..)` sets a path exactly when it holds a path |
| DeriveUtils.RunNestedStr | ezmenu-derive/src/utils.rs:91-97 | `arg(..)` sets a string exactly when it holds a string literal |
| DeriveUtils.NestedBoolMatchesNv | ezmenu-derive/src/utils.rs:51-97 | `arg(lit)` and `arg = lit` read a boolean or a string the same way |
| DeriveUtils.FirstMenu | ezmenu-derive/src/utils.rs:122-131 | `find_map` picks the first attribute that is a `menu` attribute, or none |
| DeriveUtils.MetaOfFirst | ezmenu-derive/src/utils.rs:122-131 | the meta is that of the first `menu` attribute, none when there is none, and an unparsable first one aborts |
| DeriveUtils.GetMetaAttr | ezmenu-derive/src/utils.rs:121-132 | an attribute whose first path segment is `menu` is found, none otherwise, and a bad one aborts with "incorrect definition" |
| DeriveUtils.GetMenuMeta | ezmenu-derive/src/lib.rs:140-147 | an attribute whose whole path is `menu` is found, none otherwise, and a bad one aborts with "incorrect definition of menu attribute" |
| DeriveUtils.LookupsAgree | ezmenu-derive/src/utils.rs:121-132 | when every attribute starting with `menu` is exactly `menu`, the two lookups agree |
| DeriveUtils.LookupsDiffer | ezmenu-derive/src/lib.rs:140-147 | on `#[menu::x]` the two lookups differ: one finds it, the other does not |
| DeriveField.DefaultFormatting | ezmenu-derive/src/struct_field.rs:21-34 | the default formatting sets no parameter, is not custom and counts everything as omitted |
| DeriveField.WithFlags | ezmenu-derive/src/struct_field.rs:212-215 | the flags are recomputed from the four parameters, which are kept |
| DeriveField.EmitFmt | ezmenu-derive/src/struct_field.rs:42-66 | `.fmt(..)` is emitted exactly when the format is custom, with the parameters as given, and `..Default::default()` exactly when some are omitted |
| DeriveField.EmittedFmtComplete | ezmenu-derive/src/struct_field.rs:42-66 | a format literal is emitted exactly when a parameter was written; it builds the written parameters over the library default, and ends with the default base exactly when one is missing |
| DeriveField.FmtExamples | ezmenu-derive/src/struct_field.rs:42-66 | with only `chip` the rest comes from the default; with all four the literal has no default base; a partial literal without it would not build |
| DeriveField.EmitDefault | ezmenu-derive/src/struct_field.rs:72-85 | a string literal is passed as it is and any other literal through `stringify!` |
| DeriveField.DefaultReadsBack | ezmenu-derive/src/struct_field.rs:72-85 | the text passed to `.default(..)` reads back as the literal: a string as itself, a boolean through the menu's boolean parser, an integer through the unsigned parser |
| DeriveField.ParseArgNested | ezmenu-derive/src/struct_field.rs:124-152 | an unknown argument aborts naming it; `then(..)` takes exactly a path; `default(..)` takes a literal; nothing else is changed and the flags are left to be recomputed |
| DeriveField.ParseArgNv | ezmenu-derive/src/struct_field.rs:159-186 | an unknown argument, and `then`, abort; `default = lit` keeps any literal; `then` is never touched |
| DeriveField.FieldDescOf | ezmenu-derive/src/struct_field.rs:191-231 | a parsed description has flags that agree with its parameters, and an attribute that is not a list aborts |
| DeriveField.ThenOnlyInListForm | ezmenu-derive/src/struct_field.rs:145-185 | `then(f)` sets the mapping function while `then = "f"` aborts as an invalid argument name |
| DeriveField.LastWriteWins | ezmenu-derive/src/struct_field.rs:143-195 | an argument written twice keeps its last value |
| DeriveField.FieldDescFor | ezmenu-derive/src/struct_field.rs:249-252 | the field's description, from its `menu` attribute or the default, has flags that agree |
| DeriveField.FieldMenuInitOf | ezmenu-derive/src/struct_field.rs:244-270 | the field builds exactly when its attribute parses; it is asked by its own name unless `msg` is given, and is mapped exactly when `then` is given |
| DeriveField.PlainField | ezmenu-derive/src/struct_field.rs:244-270 | a field without a `menu` attribute is asked with its own name, no default and the default format |
| DeriveField.FieldBuilds | ezmenu-derive/src/struct_field.rs:272-283 | the emitted `StructField::from(msg).default(..).fmt(..)` chain builds a field with that message, that default text, and the written format over the library default, custom exactly when a parameter was written |
| DeriveImpl.ParseArgNested | ezmenu-derive/src/struct_impl.rs:25-48 | an unknown argument aborts naming it; `title(..)` takes exactly a string literal and sets the title; the format flags are left to be recomputed |
| DeriveImpl.ParseArgNv | ezmenu-derive/src/struct_impl.rs:50-73 | an unknown argument aborts naming it; `title = ..` takes exactly a string literal and sets the title |
| DeriveImpl.BothFormsAgree | ezmenu-derive/src/struct_impl.rs:25-73 | `arg(lit)` and `arg = lit` give the same description |
| DeriveImpl.MenuDescOf | ezmenu-derive/src/struct_impl.rs:78-114 | a parsed struct description has flags that agree with its parameters, and an attribute that is not a list aborts |
| DeriveImpl.MenuInitNew | ezmenu-derive/src/struct_impl.rs:130-166 | without a struct attribute the menu is just the fields; otherwise it keeps the fields and adds the parsed title and format |
| DeriveImpl.WithFields | ezmenu-derive/src/struct_impl.rs:153-156 | one `.with_field(..)` per field, in order |
| DeriveImpl.ChainShape | ezmenu-derive/src/struct_impl.rs:123-157 | the builder chain holds `.title(..)` first exactly when a title was given, `.fmt(..)` exactly when a format parameter was written, and then one `.with_field(..)` per field in order |
| DeriveImpl.NoAttrJustFields | ezmenu-derive/src/struct_impl.rs:150-157 | without a struct attribute the chain is the field calls alone |
| DeriveLib.Arms | ezmenu-derive/src/lib.rs:64-77 | one match arm per variant, in order, keyed by the variant's name in lower case |
| DeriveLib.ParsedOf | ezmenu-derive/src/lib.rs:48-85 | `#[parsed]` succeeds exactly on an enum, giving a `FromStr` impl for it with one arm per variant; anything else aborts |
| DeriveLib.FirstArm | ezmenu-derive/src/lib.rs:76-77 | the arm taken is the first whose key matches, or none |
| DeriveLib.FromStr | ezmenu-derive/src/lib.rs:75-82 | a string matching no arm fails with "unrecognized input for `s`" |
| DeriveLib.FromStrSpec | ezmenu-derive/src/lib.rs:61-85 | the generated `from_str` fails exactly when no variant's name matches the input ignoring case, and otherwise returns the first variant that does |
| DeriveLib.FromStrIgnoresCase | ezmenu-derive/src/lib.rs:76 | two inputs equal up to case give the same result |
| DeriveLib.FromStrRoundTrip | ezmenu-derive/src/lib.rs:61-85 | a variant's own name parses back to it, unless an earlier variant has the same lower-case name |
| DeriveLib.FromStrUpperRoundTrip | ezmenu-derive/src/lib.rs:61-85 | so does its name in upper case |
| DeriveLib.ShadowedVariant | ezmenu-derive/src/lib.rs:76-77 | of two variants equal up to case, the second can never be parsed |
| DeriveLib.FieldInits | ezmenu-derive/src/lib.rs:153-157 | the fields build exactly when each does, one init per field in order; otherwise the first failing field's abort is reported |
| DeriveLib.Kinds | ezmenu-derive/src/lib.rs:103 | the struct literal takes one `ident: menu.next..()?` per field, in order |
| DeriveLib.BuildStruct | ezmenu-derive/src/lib.rs:149-166 | a bad struct attribute aborts first, then the first bad field |
| DeriveLib.BuildMenu | ezmenu-derive/src/lib.rs:89-100 | an enum reaches the `todo!`, a struct with named fields is built, and anything else aborts with "supports only non-tuple structs" |
| DeriveLib.BuildStructSpec | ezmenu-derive/src/lib.rs:102-166 | `from_menu` sets every field, in order, from its own prompt, and its builder chain ends with one `.with_field(..)` per field and holds a title exactly when the struct attribute gives one |
| DeriveLib.FieldAbortComesFirst | ezmenu-derive/src/lib.rs:151-159 | the struct attribute is parsed after the fields, so a bad field aborts before a bad struct argument is seen |
| MenuDerive.ParseMenuDesc | menu-derive/src/lib.rs:36-48 | an attribute body is an identifier, `=` and an optional string literal, with nothing after; the message is that literal |
| MenuDerive.LineOf | menu-derive/src/lib.rs:52-67 | an attribute contributes a line exactly when its path starts with `menu` and its body is `ident = "text"`, and the line is the text followed by a newline |
| MenuDerive.GetMsgConcat | menu-derive/src/lib.rs:50-70 | the message of a list of attributes is the messages of its parts, concatenated |
| MenuDerive.MessageCountConcat | menu-derive/src/lib.rs:50-70 | the contributing attributes of a list are those of its parts |
| MenuDerive.GetMsgLines | menu-derive/src/lib.rs:50-70 | with one-line texts, the message holds exactly one line per contributing attribute |
| MenuDerive.GetMsgExample | menu-derive/src/lib.rs:50-70 | other attributes, a non-string value and a missing value contribute nothing |
| MenuDerive.ListingLines | menu-derive/src/lib.rs:90-93 | with one-line variant names the listing holds exactly one line per variant |
| MenuDerive.WriteListing | menu-derive/src/lib.rs:90-93 | the `for` loop writes `"{i} - {name}"` for each variant, numbered from 1, and reads nothing |
| MenuDerive.Run | menu-derive/src/lib.rs:84-112 | `run` writes the main message and the listing, then prompts `>> ` until a line is a number from 1 to the number of variants, and prints "wooohooo: i" for the number chosen |
| MenuDerive.AnswerInRange | menu-derive/src/lib.rs:95-104 | the number chosen is always between 1 and the number of variants, so the `unreachable!` arm is never taken |
| MenuDerive.DigitsTrimmed | menu-derive/src/lib.rs:100 | a number written in digits is unchanged by `trim` |
| MenuDerive.ListedNumberSelects | menu-derive/src/lib.rs:95-104 | typing a listed number selects that entry on the first prompt |
| MenuDerive.NoVariantsNeverAnswer | menu-derive/src/lib.rs:95-104 | an enum with no variants keeps prompting and never chooses |
| MenuDerive.BuildMenu | menu-derive/src/lib.rs:12-28 | an enum gets the `run` with its attributes' message and its variants, a struct with named fields gets the `todo!` `run`, and anything else aborts with "works only on non-tuple structs and enums" |

## Left out

- Rendering and terminal handling are not modelled: widgets, styles, drawing, clearing, and terminal setup and restore (src/tui/crossterm.rs, src/tui/termion.rs, src/menu/tui_run/utils.rs). They are I/O through the `tui` crate. The model records only which page title would be shown.
- Backend event translation is not modelled: the `From` impls for crossterm and termion events, and `read`. Keys are a small abstract datatype instead.
- Stream plumbing is not modelled (src/menu/handle.rs, src/menu/stream.rs). Reading is the next element of a sequence, and writing appends to a string.
- Writes and flushes never fail in the model. Only reads can fail.
- Field.Build: the echo of the trimmed line that only test builds compile in (src/field.rs:161-164, under `cfg!(test)`) is not modelled, because the model describes the library as its users build it.
- End of input is modelled as an empty line, which is what Rust's `read_line` gives at end of file. A retry loop that has not finished by then would spin forever, and the model reports it as `Diverges`.
- `MenuNumber` (src/customs.rs:130-156) is not modelled, because it uses floating point and the external `meval` evaluator.
- User callbacks and `FromStr` parsers are parameters. A parser is a function from the trimmed line to an optional value. A callback is a tag whose outcome comes from an oracle passed with the input.
- Token emission is not modelled: `quote!` and `ToTokens` output, `set_dummy`, spans and error texts. The model keeps the decisions: the kind chosen, the message, the default index, the builder calls, and abort or not. This covers the `ToTokens` impls of `Written`, `Until`, `Separated` and `Bool` in ezmenu-macros/src/prompted/promptable.rs.
- ezmenu-macros/src/pretend.rs, ezmenu-macros/src/menu/tui.rs, ezmenu-macros/src/lib.rs, src/cursive.rs and src/lib.rs are not part of this model. They are warning suppression, widget defaults, entry points, a stub, and the error enum's `Debug` strings.
- `Values`, `Written`, `Selected`, `Format::merged`, `RawMenu`, `ValueMenu` and `SelectMenu` are not part of this model, because their implementations are not available.
- `split_ident_camel_case` is modelled on ASCII identifiers only. The source mixes character and byte indices, which matters only outside ASCII. `to_lowercase` and `to_uppercase` are ASCII case mapping.
- Snake-case splitting of field names (the `Case` conversion crate) is a function parameter.
- Attribute bodies the macros pass on verbatim are opaque values: paths, expressions and `map_with` arguments. Examples are the `map_with` closure input and the bindings of a select entry.
- Every page of a navigator menu must be non-empty. The source computes `len() - 1` on a nested page, and an empty nested page panics or underflows there.
- The source's `&mut` descriptors in `ezmenu-derive` (`MetaFieldDesc`, `MetaMenuDesc`) are threaded as values. Each setter returns the updated descriptor.
- The UnitAttr and RootAttr parses of ezmenu-macros/src/select.rs step an iterator while mutating locals. `Select::from` mutates `entries[0]`. The model computes the same results as functions.
- ezmenu-derive has two `get_meta_attr`: src/lib.rs:140-147 compares the whole path with `menu`, and src/utils.rs:121-132 compares its first segment. Both are modelled (`DeriveUtils.LookupsAgree`, `DeriveUtils.LookupsDiffer`). The field initialisation uses the lib.rs one, as the crate does.
- `#[parsed]` sees each variant by its name only. The source does not look at a variant's fields either.
- The run time of the generated `from_menu` is not modelled beyond its builder chain.
- `derive(Menu)` on an enum in ezmenu-derive (src/lib.rs:92) is `todo!`. The model reports it as that outcome.
- menu-derive is not modelled beyond the decisions of its `run`:
  - its debug `println!` output (menu-derive/src/lib.rs:16, 57, 66) is not modelled;
  - the `todo!` in `get_executor` is left out: the lazy iterator that would force it (line 78) is never consumed, so it is never reached;
  - `build_struct`'s `run` is `todo!()` (lines 117-125) and is not modelled;
  - the derive declares the helper attributes `main` and `field` but not `menu` (line 12), which the model does not check.
- The `unreachable!` in ezmenu-macros/src/menu.rs:423 (the tui feature) and in ezmenu-macros/src/prompted.rs:592 (`construct_ts`) are left out. Their guards rule them out.
- I/O failures in menu/src/lib.rs panic through `expect`. The model of `ask` reports them as an outcome of their own instead of aborting the process.
- TuiDepth.CallbackOutcome: clearing the terminal after a callback (src/tui/mod.rs:326) never fails in this navigator, as rendering is not modelled; a failed clear there, which the source passes on with `?`, is not captured. The stack navigator's `TuiStack.ConsumeCb` (src/tui.rs:24-36) does take a failing clear as a parameter and reports it as an I/O error.
- Kw.ParseArg: does not state the converse of its feature clause: that only `tui` and `block` raise the feature error. Proving it needs an inversion over the 44-entry keyword table.

## Findings

The rest of the model uses the corrected behaviour. `TuiStack.TuiMenu.HandleTEventWith` steps with `TStepCorrected`. `PromptedMacro.FieldAttr` reads a field attribute with the corrected declaration, `RawFieldSchemaCorrected`. The as-written handler `TuiStack.TuiMenu.HandleTEvent` and the as-written declaration `RawFieldSchema` are kept to exhibit the two problems.

| source | as written | input that shows it | evidently intended | confidence | as-written member | corrected member |
|---|---|---|---|---|---|---|
| src/tui.rs:150-152 | the termion event handler returns `Ignored` for an unlisted key after popping the top level, without pushing it back | one level, then an unlisted key: the stack is left empty and the next event quits the menu | restore the level as the crossterm handler does (src/tui.rs:221-229) | not executed | TuiStack.TermionIgnoredLosesLevel | TuiStack.TStepCorrected |
| ezmenu-macros/src/prompted.rs:99-100 | `or_default` declares that it excludes `optional`, but `optional` does not declare that it excludes `or_default`; the backward-only conflict check therefore accepts `#[prompt(or_default, optional)]` | a field attribute `or_default, optional`: it parses, and the kind table reaches `unreachable!` | the two flags exclude each other in either order | not executed | PromptedMacro.OrDefaultThenOptionalPanics | PromptedMacro.CorrectedNeverUnreachable |
