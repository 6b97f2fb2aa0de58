# Pot of Greed bet tracker — verified model of its interaction logic

The app records bet amounts and lets the user mark each bet as a win or a
loss. It shows the running losses, the profit and the net result. Most of the
repository is markup and styling. This project models the four pieces of
sequential logic inside it:

- **Bet ledger** (`ledger.dfy`, module `Ledger`). This is the `bets` list and the
  `nextId` counter of `src/App.tsx`. It covers the `addBet` and `updateBetStatus`
  commands, the loss-animation flag, the `totalLosses` / `totalProfit`
  filter-and-reduce sums, and the three-way colouring of the net figure. The
  commands are methods of the class `BetTracker`. The list transformation and
  the totals are functions, and lemmas state their properties.
- **Swipe recogniser** (`swipe.dfy`, module `Swipe`). This is the per-row state
  `translateX` / `swiped` / `startX` of `src/components/SwipeableItem.tsx`,
  driven by the touch and mouse handlers, the delete button and the reset
  overlay. The class `SwipeableItem` has one method per handler. Each method
  ties its new state to `Step`, a pure transition function. The object also
  keeps the events it has handled as ghost state. Its invariant says that the
  fields are what `Run` computes from those events, and that the `onDelete`
  count is the number of delete clicks among them. Properties over whole
  event sequences (the offset bound, rightward drags, the release outcome)
  are lemmas about `Step` and `Run`.
- **Row confirm/menu machine** (`bet_item.dfy`, module `BetRow`). This covers
  `showDeleteConfirm`, `showMenu` and the long-press timer handle of
  `src/components/BetItem.tsx`. It also covers which controls each state renders.
  It is built the same way: class `BetItem` plus `Step` / `Run` / `Controls`.
- **Number pad** (`numpad.dfy`, module `Numpad`). These are the four key
  handlers of `src/components/NumpadKeyboard.tsx`, written as pure string
  functions, plus the "at most one decimal point" invariant over any key
  sequence.

`wrappers.dfy` holds the `Option` type. `None` stands for a `parseFloat`
result that is NaN.

Conventions:
- Amounts and pointer coordinates are `real`.
- The result of `parseFloat(currentBet)` is a parameter of `AddBet`.
- Callbacks the components receive (`onDelete`, `onUpdateStatus`) are recorded
  in counters or logs on the object. The model then states how often they are
  called and with which arguments.
- Timers are discrete events: the loss-animation timeout and the long-press
  firing.

Behaviour of the code worth noting:
- `updateBetStatus` has no "not found" or "already resolved" error. An unknown
  id is a silent no-op, and called directly on a resolved bet it re-resolves
  it (`Ledger.UnknownIdIsNoOp`, `Ledger.ReResolvingMovesAmount`). The list
  renders the Loss and Win buttons only next to pending bets, so through the
  interface each bet leaves `pending` at most once
  (`Ledger.ClickResolvesAndHidesButtons`, `Ledger.ResolvedStatusIsFinal`).
- Statuses are `pending` / `win` / `loss`.
- The ledger in `src/App.tsx` has no delete command. Its ids are therefore
  exactly `1..n` in list order, and `nextId` is `n + 1`.
- The swipe release uses only the distance `startX - endX`. There is no
  velocity term.
- A move whose distance exceeds 80 px leaves the offset at its previous value.
  It does not clamp it.
- `src/App.tsx` renders its own rows and uses neither `BetItem` nor
  `SwipeableItem`. Each component is modelled on its own, with its callbacks
  as logs.

## Model

| member | source | states |
|---|---|---|
| `Ledger.Accepts` | src/App.tsx:29-30 | the `betAmount && betAmount > 0` guard accepts exactly a parsed amount that is `> 0`; NaN and 0 are rejected |
| `Ledger.AddButtonEnabled` | src/App.tsx:199-205 | the Add button is enabled iff the input is non-empty and its parse is NaN or positive |
| `Ledger.EnabledButtonAddsOrIgnoresNaN` | src/App.tsx:28-30 | when the button is enabled, `addBet` adds exactly when the text parsed to a number; a NaN click is a no-op |
| `Ledger.InitialInvariant` | src/App.tsx:24-25 | the initial `[]` with counter `1` satisfies the ledger invariant |
| `Ledger.AddKeepsInvariant` | src/App.tsx:31-39 | appending a pending bet with id `nextId` and a positive amount, then incrementing `nextId`, keeps ids `1..n`, `nextId = n + 1` and all amounts `> 0` |
| `Ledger.InvariantOrdersIds` | src/App.tsx:24-39 | under the invariant, ids strictly increase in list order, are pairwise distinct and lie in `[1, nextId)` |
| `Ledger.WithStatus` | src/App.tsx:44-47 | the `map` keeps length, every id and every amount; a bet gets the new status iff its id matches, others keep theirs |
| `Ledger.UnknownIdIsNoOp` | src/App.tsx:45-47 | an id no bet carries leaves the list unchanged |
| `Ledger.WithStatusKeepsInvariant` | src/App.tsx:45-47 | recording an outcome preserves the ledger invariant |
| `Ledger.Filter` | src/App.tsx:59-65 | every kept bet has the given status; the result is no longer than the list |
| `Ledger.FilterMembers` | src/App.tsx:59-65 | a bet is in the filtered list iff it is in the list and has the given status |
| `Ledger.FilterSnoc` | src/App.tsx:59-65 | one more bet at the end is kept at the end iff it has the status |
| `Ledger.FilterCounts` | src/App.tsx:59-65 | every copy of a bet with the status is kept, every other copy dropped |
| `Ledger.FilterConcat` | src/App.tsx:59-65 | filtering keeps list order: filtering `s + t` is filtering `s`, then `t` |
| `Ledger.SumNonNegative` | src/App.tsx:61 | the reduce over positive amounts is `>= 0` |
| `Ledger.TotalsNonNegative` | src/App.tsx:59-65 | on positive amounts, `totalLosses >= 0` and `totalProfit >= 0` |
| `Ledger.TotalOfAppend` | src/App.tsx:59-65 | appending a bet adds its amount to the total of its own status and nothing to the others |
| `Ledger.PendingContributesNothing` | src/App.tsx:36 | a new pending bet changes neither total |
| `Ledger.WithStatusShiftsTotal` | src/App.tsx:44-65 | with distinct ids, setting a bet's status moves its amount out of its old status's total and into the new one's; nothing else changes |
| `Ledger.ResolveWinAddsToProfit` | src/App.tsx:44-65 | marking a pending bet "win" adds its amount to the profit and leaves the losses |
| `Ledger.ResolveLossAddsToLosses` | src/App.tsx:44-65 | marking a pending bet "loss" adds its amount to the losses and leaves the profit |
| `Ledger.ReResolvingMovesAmount` | src/App.tsx:44-65 | with no already-resolved check, marking a won bet "loss" moves its amount from profit to losses |
| `Ledger.ClickResolvesAndHidesButtons` | src/App.tsx:233-248 | with distinct ids, clicking Win or Loss on a pending bet sets that outcome on it alone, and its buttons are no longer shown |
| `Ledger.ResolvedStatusIsFinal` | src/App.tsx:233-248 | after any run of button clicks, a bet that was resolved keeps its outcome, and ids and amounts never move |
| `Ledger.AllPendingTotalsZero` | src/App.tsx:59-65 | with no resolved bet, the win and loss totals are 0 |
| `Ledger.AllPendingBreaksEven` | src/App.tsx:90-94 | a ledger with no resolved bet shows the break-even look |
| `Ledger.Classify` | src/App.tsx:90-94 | the net falls in exactly one class: ahead iff `> 0`, behind iff `< 0`, even iff `== 0` |
| `Ledger.NetTextGreen` | src/App.tsx:126-129 | the net text is green iff the net is not in the behind class |
| `Ledger.BetTracker.constructor` | src/App.tsx:23-26 | initial state: empty input, `[]`, `nextId == 1`, no loss animation, invariant holds |
| `Ledger.BetTracker.SetCurrentBet` | src/App.tsx:191 | the input's change handler stores the new text |
| `Ledger.BetTracker.AddBet` | src/App.tsx:28-42 | if accepted: appends exactly `Bet(old nextId, amount, pending)`, earlier bets unchanged, `nextId` + 1, input cleared; otherwise nothing changes; invariant preserved |
| `Ledger.BetTracker.UpdateBetStatus` | src/App.tsx:44-57 | the list becomes `WithStatus(old list, id, status)`; the loss animation turns on iff the status is "loss" (else unchanged); invariant preserved |
| `Ledger.BetTracker.LossGifTimeout` | src/App.tsx:53-55 | the 3-second timer turns the loss animation off |
| `Swipe.Drag` | src/components/SwipeableItem.tsx:28-37 | a move only sets `translateX`; a distance `<= 0` or `> 80` leaves the state unchanged; any new offset lies in `(0, 80]` |
| `Swipe.Release` | src/components/SwipeableItem.tsx:41-58 | release arms iff `startX - endX > 50`; afterwards `swiped` iff offset is 80, and not swiped iff offset is 0 |
| `Swipe.Cleared` | src/components/SwipeableItem.tsx:60-71 | delete and reset return the row to offset 0, not swiped, keeping `startX` |
| `Swipe.StepKeepsBounds` | src/components/SwipeableItem.tsx:35-56 | every event keeps `0 <= translateX <= 80` |
| `Swipe.RunKeepsBounds` | src/components/SwipeableItem.tsx:15-101 | the bound holds after any event sequence |
| `Swipe.ReachableInBounds` | src/components/SwipeableItem.tsx:15-20 | every state reachable from the initial `0`/`false`/`0` is within the bound |
| `Swipe.RunAppend` | src/components/SwipeableItem.tsx:22-102 | handling two event sequences in turn equals handling their concatenation |
| `Swipe.PressRecordsStart` | src/components/SwipeableItem.tsx:22-26 | touch start and mouse down act alike: record `startX`, leave offset and `swiped` |
| `Swipe.MouseMatchesTouch` | src/components/SwipeableItem.tsx:79-102 | a left-button mouse move equals a touch move; mouse up equals touch end |
| `Swipe.MouseMoveNeedsLeftButton` | src/components/SwipeableItem.tsx:79-80 | a mouse move with `buttons != 1` changes nothing |
| `Swipe.DragFollowsPointer` | src/components/SwipeableItem.tsx:35-37 | a move with distance in `(0, 80]` sets the offset to that distance |
| `Swipe.RightwardMovesChangeNothing` | src/components/SwipeableItem.tsx:31-37 | any run of rightward moves leaves the whole state unchanged |
| `Swipe.RightwardGestureNeverArms` | src/components/SwipeableItem.tsx:22-56 | press, rightward moves, release to the right: the row stays at offset 0, not swiped |
| `Swipe.SwipeOutcome` | src/components/SwipeableItem.tsx:41-56 | press then release arms iff the leftward distance exceeds 50, giving offset 80, else 0 |
| `Swipe.ReleaseShowsHintOrOverlay` | src/components/SwipeableItem.tsx:134-147 | after a release, exactly one of the hint and the reset overlay is rendered |
| `Swipe.ResetIdempotent` | src/components/SwipeableItem.tsx:60-71 | reset is idempotent, matches delete's state effect, and shows the hint |
| `Swipe.DeleteCallsCountClicks` | src/components/SwipeableItem.tsx:60-65 | the count of `onDelete`-calling events is additive over event sequences, one per delete click and zero for any other event; with `SwipeableItem.Valid` it gives that the component's `onDelete` counter equals the number of delete clicks it has handled |
| `Swipe.RunSnoc` | src/components/SwipeableItem.tsx:22-102 | handling one more event after a sequence is one more step from the state that sequence reached |
| `Swipe.SwipeableItem.constructor` | src/components/SwipeableItem.tsx:15-17 | initial state `0`/`false`/`0`, no `onDelete` call, no events handled |
| `Swipe.SwipeableItem.HintVisible` | src/components/SwipeableItem.tsx:143 | the hint is shown iff not swiped and offset is 0 |
| `Swipe.SwipeableItem.HandleTouchStart` | src/components/SwipeableItem.tsx:22-26 | records `startX`, nothing else changes; the event joins the handled history and the invariant is kept |
| `Swipe.SwipeableItem.HandleTouchMove` | src/components/SwipeableItem.tsx:28-39 | offset becomes the distance iff it lies in `(0, 80]`, else unchanged; bound kept |
| `Swipe.SwipeableItem.HandleTouchEnd` | src/components/SwipeableItem.tsx:41-58 | `swiped` iff distance `> 50`; offset 80 when swiped, else 0 |
| `Swipe.SwipeableItem.HandleMouseDown` | src/components/SwipeableItem.tsx:74-77 | records `startX`, nothing else changes |
| `Swipe.SwipeableItem.HandleMouseMove` | src/components/SwipeableItem.tsx:79-89 | with the left button only, same effect as a touch move; otherwise nothing changes |
| `Swipe.SwipeableItem.HandleMouseUp` | src/components/SwipeableItem.tsx:91-102 | same outcome as touch end |
| `Swipe.SwipeableItem.HandleDelete` | src/components/SwipeableItem.tsx:60-65 | calls `onDelete` exactly once, then offset 0, not swiped |
| `Swipe.SwipeableItem.HandleReset` | src/components/SwipeableItem.tsx:67-71 | offset 0, not swiped, no `onDelete` call |
| `BetRow.DeleteClickOpensConfirm` | src/components/BetItem.tsx:26-29 | delete click: confirm shown, menu closed, only the confirm buttons rendered |
| `BetRow.ConfirmAndCancelCloseConfirm` | src/components/BetItem.tsx:31-38 | confirm and cancel both clear `showDeleteConfirm` and change nothing else |
| `BetRow.MenuToggleFlips` | src/components/BetItem.tsx:40-43 | toggle flips `showMenu`, always clears the confirm view, two toggles restore `showMenu` |
| `BetRow.OutsideClickClosesMenu` | src/components/BetItem.tsx:176-177 | the outside-click overlay closes the menu and leaves the confirm flag |
| `BetRow.ConfirmViewIsExclusive` | src/components/BetItem.tsx:64-98 | while the confirm view shows, only Cancel and Confirm are rendered: no menu, no Win/Loss |
| `BetRow.OutcomeButtonsOnlyWhenPending` | src/components/BetItem.tsx:128-143 | Win and Loss are offered iff the bet is pending and the confirm view is not shown |
| `BetRow.DeleteItemOnlyInOpenMenu` | src/components/BetItem.tsx:155-165 | the delete menu item exists iff the menu is open outside the confirm view |
| `BetRow.LongPressOpensConfirm` | src/components/BetItem.tsx:50-55 | a touch held until its timer fires opens the confirm view |
| `BetRow.ShortPressIsCancelled` | src/components/BetItem.tsx:50-62 | a touch ended before its timer fires clears the stored handle, and that timer never fires |
| `BetRow.SecondTouchStartLeavesFirstTimer` | src/components/BetItem.tsx:50-62 | a second touch start overwrites the stored handle without clearing the first timer, which stays scheduled after touch end |
| `BetRow.ConfirmNeedsDeleteOrLongPress` | src/components/BetItem.tsx:23-62 | in any event sequence without a delete click or a timer firing, the confirm view never opens |
| `BetRow.BetItem.RenderedControls` | src/components/BetItem.tsx:64-180 | in the confirm view only Cancel/Confirm are rendered; Win appears iff the bet is pending and the confirm view is not shown |
| `BetRow.BetItem.constructor` | src/components/BetItem.tsx:23-24 | both flags false, no stored timer, no callback calls |
| `BetRow.BetItem.HandleDeleteClick` | src/components/BetItem.tsx:26-29 | `showDeleteConfirm` true, `showMenu` false |
| `BetRow.BetItem.HandleConfirmDelete` | src/components/BetItem.tsx:31-34 | `onDelete` called exactly once with this bet's id; confirm view closed |
| `BetRow.BetItem.HandleCancelDelete` | src/components/BetItem.tsx:36-38 | confirm view closed, no `onDelete` call |
| `BetRow.BetItem.HandleMenuToggle` | src/components/BetItem.tsx:40-43 | `showMenu` flipped, confirm view closed |
| `BetRow.BetItem.HandleTouchStart` | src/components/BetItem.tsx:50-55 | schedules the timer and stores its handle |
| `BetRow.BetItem.HandleTouchEnd` | src/components/BetItem.tsx:57-62 | clears the stored timer if there is one, and the stored handle becomes null |
| `BetRow.BetItem.LongPressFires` | src/components/BetItem.tsx:51-53 | a scheduled timer firing sets `showDeleteConfirm` |
| `BetRow.BetItem.HandleOutcomeClick` | src/components/BetItem.tsx:130-141 | `onUpdateStatus(bet.id, status)` is called once; row state unchanged |
| `BetRow.BetItem.HandleOutsideClick` | src/components/BetItem.tsx:176-177 | `showMenu` false |
| `Numpad.DecimalClick` | src/components/NumpadKeyboard.tsx:19-23 | the result always contains a `.`; `.` is appended iff the value had none, otherwise the value is unchanged |
| `Numpad.Backspace` | src/components/NumpadKeyboard.tsx:25-27 | the result is a prefix of the value, one character shorter, or empty for an empty value |
| `Numpad.Display` | src/components/NumpadKeyboard.tsx:52 | the display is never empty and shows the value when it is non-empty |
| `Numpad.DotCountAppend` | src/components/NumpadKeyboard.tsx:15-23 | the decimal-point count is additive over concatenation |
| `Numpad.NoDotIffZero` | src/components/NumpadKeyboard.tsx:20 | `includes(".")` is false iff the point count is 0 |
| `Numpad.PressKeepsOneDot` | src/components/NumpadKeyboard.tsx:15-31 | each pad key keeps "at most one decimal point" |
| `Numpad.TypingKeepsOneDot` | src/components/NumpadKeyboard.tsx:15-31 | any sequence of pad keys, starting from a value with at most one point, keeps at most one |
| `Numpad.DecimalIdempotent` | src/components/NumpadKeyboard.tsx:19-23 | pressing `.` twice equals pressing it once |
| `Numpad.BackspaceUndoesNumber` | src/components/NumpadKeyboard.tsx:15-27 | backspace after a one-character number key restores the value |
| `Numpad.NumberClickAppends` | src/components/NumpadKeyboard.tsx:15-17 | a number key yields the old value followed by exactly its label |
| `Numpad.ClearShowsZero` | src/components/NumpadKeyboard.tsx:29-31 | clear yields `""` whatever the value, and the display then shows `"0"` |

## Left out

- Persistence through `useLocalStorage` (src/App.tsx:14, 24-25). Its source is not part of this model, and it is browser storage I/O. `bets` and `nextId` are plain state starting from `[]` and `1`, and the invariant is stated from there.
- `parseFloat` and IEEE-754 arithmetic. Amounts are exact `real`s. The parse result is a parameter (`Option<real>`, `None` = NaN), not a function of `currentBet`.
- `formatCurrency` / `Intl.NumberFormat` (src/App.tsx:67-72). This is locale formatting by a library.
- Timer durations: the 3 s loss animation and the 800 ms long press. A timer firing is a discrete event (`LossGifTimeout`, `LongPressFires`).
- Ledger.BetTracker.LossGifTimeout: the model does not track which of several pending 3-second timers fires. Any firing turns the animation off, which is what each of them does.
- Ledger.BetTracker.AddBet: React's batching and stale-closure effects are not modelled. The model treats each handler as running on the state of the latest render.
- All JSX, CSS, `console.log`, `e.preventDefault()` and the debug offset label. Only the render conditions the handlers interact with are modelled: the hint, the reset overlay and the BetItem controls.
- The Enter-key shortcut (src/App.tsx:74-78). It only calls `addBet`.
- The number pad's `onClose` and the rest of its markup.
- src/components/InstallPrompt.tsx and capacitor.config.ts. These are user-agent detection, browser storage, timers and build configuration.
- BetRow.BetItem.HandleOutcomeClick: it has no precondition that the Win/Loss buttons are rendered. Which controls exist is stated separately by `Controls` and `RenderedControls`.
