/**
 * One row of the bet list with its own delete confirmation and overflow
 * menu (src/components/BetItem.tsx): the flags `showDeleteConfirm` and
 * `showMenu`, the stored long-press timer handle, the click and touch
 * handlers that drive them, and which controls each state renders.
 */
module BetRow {
  import opened Wrappers
  import opened Ledger

  /** A `setTimeout` handle; browsers hand out positive integers, all truthy. */
  type TimerHandle = h: int | h > 0 witness 1

  /**
   * The row's state. `armed` is the set of long-press timers that were
   * scheduled and have neither fired nor been cleared: the part of the
   * browser's timer queue this row can observe.
   */
  datatype Row = Row(
    showDeleteConfirm: bool,
    showMenu: bool,
    longPressTimer: Option<TimerHandle>,
    armed: set<TimerHandle>)

  /** `useState(false)`, `useState(false)`, `useState(null)`, no timer scheduled. */
  const Initial: Row := Row(false, false, None, {})

  datatype Event =
    | DeleteClick             // "Delete" item of the menu
    | ConfirmDelete           // check button of the confirm view
    | CancelDelete            // cross button of the confirm view
    | MenuToggle              // the three-dots button
    | TouchStart(handle: TimerHandle)  // with the handle `setTimeout` returned
    | TouchEnd                // touch end and touch cancel share one handler
    | LongPressFires(handle: TimerHandle)
    | OutsideClick            // the full-screen overlay behind an open menu

  /** One event's effect on the row. A cleared timer never fires. */
  function Step(r: Row, e: Event): Row
  {
    match e
    case DeleteClick => r.(showDeleteConfirm := true, showMenu := false)
    case ConfirmDelete => r.(showDeleteConfirm := false)
    case CancelDelete => r.(showDeleteConfirm := false)
    case MenuToggle => r.(showMenu := !r.showMenu, showDeleteConfirm := false)
    case TouchStart(h) => r.(longPressTimer := Some(h), armed := r.armed + {h})
    case TouchEnd =>
      if r.longPressTimer.Some? then
        r.(armed := r.armed - {r.longPressTimer.value}, longPressTimer := None)
      else r
    case LongPressFires(h) =>
      if h in r.armed then r.(showDeleteConfirm := true, armed := r.armed - {h}) else r
    case OutsideClick => r.(showMenu := false)
  }

  function Run(r: Row, es: seq<Event>): Row
    decreases |es|
  {
    if es == [] then r else Run(Step(r, es[0]), es[1..])
  }

  /** The interactive elements a render produces. */
  datatype Control =
    | CancelButton | ConfirmButton
    | LossButton | WinButton | MenuButton | DeleteMenuItem | MenuOverlay | TouchArea

  /**
   * The confirm view replaces the whole row; otherwise the row offers the
   * menu button and its touch area, Win/Loss for a pending bet, and the
   * menu's delete item and outside-click overlay while the menu is open.
   */
  function Controls(r: Row, status: Status): set<Control>
  {
    if r.showDeleteConfirm then {CancelButton, ConfirmButton}
    else
      {MenuButton, TouchArea}
      + (if status == Pending then {LossButton, WinButton} else {})
      + (if r.showMenu then {DeleteMenuItem, MenuOverlay} else {})
  }

  // ---------------------------------------------------------------------
  // Properties
  // ---------------------------------------------------------------------

  /** The menu's delete item opens the confirm view and closes the menu. */
  lemma DeleteClickOpensConfirm(r: Row, status: Status)
    ensures Step(r, DeleteClick).showDeleteConfirm && !Step(r, DeleteClick).showMenu
    ensures Controls(Step(r, DeleteClick), status) == {CancelButton, ConfirmButton}
  {
  }

  /** Confirm and cancel both leave the confirm view and touch nothing else. */
  lemma ConfirmAndCancelCloseConfirm(r: Row)
    ensures Step(r, ConfirmDelete) == Step(r, CancelDelete) == r.(showDeleteConfirm := false)
  {
  }

  /** The toggle flips the menu, always closes the confirm view, and undoes itself. */
  lemma MenuToggleFlips(r: Row)
    ensures Step(r, MenuToggle).showMenu == !r.showMenu
    ensures !Step(r, MenuToggle).showDeleteConfirm
    ensures Step(Step(r, MenuToggle), MenuToggle).showMenu == r.showMenu
  {
  }

  /** The outside-click overlay closes the menu. */
  lemma OutsideClickClosesMenu(r: Row)
    ensures !Step(r, OutsideClick).showMenu
    ensures Step(r, OutsideClick).showDeleteConfirm == r.showDeleteConfirm
  {
  }

  /** While the confirm view is up, only its two buttons exist: no menu, no Win/Loss. */
  lemma ConfirmViewIsExclusive(r: Row, status: Status)
    requires r.showDeleteConfirm
    ensures Controls(r, status) == {CancelButton, ConfirmButton}
  {
  }

  /** Win and Loss are offered exactly for a pending bet outside the confirm view. */
  lemma OutcomeButtonsOnlyWhenPending(r: Row, status: Status)
    ensures WinButton in Controls(r, status) <==> status == Pending && !r.showDeleteConfirm
    ensures LossButton in Controls(r, status) <==> status == Pending && !r.showDeleteConfirm
  {
  }

  /** The menu's delete item is there exactly while the menu is open outside the confirm view. */
  lemma DeleteItemOnlyInOpenMenu(r: Row, status: Status)
    ensures DeleteMenuItem in Controls(r, status) <==> r.showMenu && !r.showDeleteConfirm
  {
  }

  /** A press held until its timer fires opens the confirm view. */
  lemma LongPressOpensConfirm(r: Row, h: TimerHandle)
    ensures Run(r, [TouchStart(h), LongPressFires(h)]).showDeleteConfirm
  {
    var r1 := Step(r, TouchStart(h));
    assert Run(r, [TouchStart(h), LongPressFires(h)]) == Run(r1, [LongPressFires(h)]);
    assert Run(r1, [LongPressFires(h)]) == Run(Step(r1, LongPressFires(h)), []);
  }

  /** A press released before its timer fires clears the handle, and that timer never fires. */
  lemma ShortPressIsCancelled(r: Row, h: TimerHandle)
    ensures Run(r, [TouchStart(h), TouchEnd]).longPressTimer == None
    ensures Run(r, [TouchStart(h), TouchEnd, LongPressFires(h)]) == Run(r, [TouchStart(h), TouchEnd])
    ensures Run(r, [TouchStart(h), TouchEnd, LongPressFires(h)]).showDeleteConfirm == r.showDeleteConfirm
  {
    var r1 := Step(r, TouchStart(h));
    var r2 := Step(r1, TouchEnd);
    assert Run(r, [TouchStart(h), TouchEnd]) == Run(r1, [TouchEnd]) == Run(r2, []);
    assert Run(r, [TouchStart(h), TouchEnd, LongPressFires(h)])
        == Run(r1, [TouchEnd, LongPressFires(h)])
        == Run(r2, [LongPressFires(h)])
        == Run(Step(r2, LongPressFires(h)), []);
  }

  /**
   * Touch end clears only the handle it holds: a second touch start before
   * any touch end overwrites the first handle without clearing it, so the
   * first timer stays scheduled after the touch ends.
   */
  lemma SecondTouchStartLeavesFirstTimer(r: Row, h1: TimerHandle, h2: TimerHandle)
    requires h1 != h2
    ensures h1 in Run(r, [TouchStart(h1), TouchStart(h2), TouchEnd]).armed
    ensures Run(r, [TouchStart(h1), TouchStart(h2), TouchEnd]).longPressTimer == None
  {
    var r1 := Step(r, TouchStart(h1));
    var r2 := Step(r1, TouchStart(h2));
    assert Run(r, [TouchStart(h1), TouchStart(h2), TouchEnd])
        == Run(r1, [TouchStart(h2), TouchEnd])
        == Run(r2, [TouchEnd])
        == Run(Step(r2, TouchEnd), []);
  }

  /** The events that can open the confirm view. */
  predicate OpensConfirm(e: Event)
  {
    e == DeleteClick || e.LongPressFires?
  }

  /**
   * Only the menu's delete item and a long-press timer open the confirm
   * view: no other sequence of events shows it.
   */
  lemma {:induction false} ConfirmNeedsDeleteOrLongPress(r: Row, es: seq<Event>)
    requires !r.showDeleteConfirm
    requires forall i :: 0 <= i < |es| ==> !OpensConfirm(es[i])
    ensures !Run(r, es).showDeleteConfirm
    decreases |es|
  {
    if es != [] {
      assert !Step(r, es[0]).showDeleteConfirm;
      ConfirmNeedsDeleteOrLongPress(Step(r, es[0]), es[1..]);
    }
  }

  // ---------------------------------------------------------------------
  // The component
  // ---------------------------------------------------------------------

  class BetItem {
    const bet: Bet
    var showDeleteConfirm: bool
    var showMenu: bool
    var longPressTimer: Option<TimerHandle>
    /** Long-press timers scheduled and neither fired nor cleared. */
    var armedTimers: set<TimerHandle>
    /** The arguments of every `onDelete` call, in order. */
    var deleteRequests: seq<int>
    /** The arguments of every `onUpdateStatus` call, in order. */
    var statusRequests: seq<(int, Outcome)>

    function State(): Row
      reads this
    {
      Row(showDeleteConfirm, showMenu, longPressTimer, armedTimers)
    }

    /** What the current render offers. */
    function RenderedControls(): (cs: set<Control>)
      reads this
      ensures showDeleteConfirm ==> cs == {CancelButton, ConfirmButton}
      ensures WinButton in cs <==> bet.status == Pending && !showDeleteConfirm
    {
      Controls(State(), bet.status)
    }

    constructor (bet: Bet)
      ensures this.bet == bet && State() == Initial
      ensures deleteRequests == [] && statusRequests == []
    {
      this.bet := bet;
      showDeleteConfirm, showMenu, longPressTimer, armedTimers := false, false, None, {};
      deleteRequests, statusRequests := [], [];
    }

    method HandleDeleteClick()
      modifies this`showDeleteConfirm, this`showMenu
      ensures State() == Step(old(State()), DeleteClick)
      ensures showDeleteConfirm && !showMenu
    {
      showDeleteConfirm := true;
      showMenu := false;
    }

    /** Calls `onDelete` once with this row's id and leaves the confirm view. */
    method HandleConfirmDelete()
      modifies this`showDeleteConfirm, this`deleteRequests
      ensures State() == Step(old(State()), ConfirmDelete)
      ensures !showDeleteConfirm
      ensures deleteRequests == old(deleteRequests) + [bet.id]
    {
      deleteRequests := deleteRequests + [bet.id];
      showDeleteConfirm := false;
    }

    /** Leaves the confirm view without calling `onDelete`. */
    method HandleCancelDelete()
      modifies this`showDeleteConfirm
      ensures State() == Step(old(State()), CancelDelete)
      ensures !showDeleteConfirm
    {
      showDeleteConfirm := false;
    }

    method HandleMenuToggle()
      modifies this`showMenu, this`showDeleteConfirm
      ensures State() == Step(old(State()), MenuToggle)
      ensures showMenu == !old(showMenu) && !showDeleteConfirm
    {
      showMenu := !showMenu;
      showDeleteConfirm := false;
    }

    /** Schedules the long-press timer; `handle` is what `setTimeout` returned. */
    method HandleTouchStart(handle: TimerHandle)
      requires handle !in armedTimers
      modifies this`longPressTimer, this`armedTimers
      ensures State() == Step(old(State()), TouchStart(handle))
      ensures longPressTimer == Some(handle) && armedTimers == old(armedTimers) + {handle}
    {
      armedTimers := armedTimers + {handle};
      longPressTimer := Some(handle);
    }

    /** Touch end and touch cancel: clear the stored timer, if any, and forget it. */
    method HandleTouchEnd()
      modifies this`longPressTimer, this`armedTimers
      ensures State() == Step(old(State()), TouchEnd)
      ensures longPressTimer == None
      ensures old(longPressTimer).Some? ==> armedTimers == old(armedTimers) - {old(longPressTimer).value}
      ensures old(longPressTimer).None? ==> armedTimers == old(armedTimers)
    {
      if longPressTimer.Some? {
        armedTimers := armedTimers - {longPressTimer.value};
        longPressTimer := None;
      }
    }

    /** A scheduled long-press timer fires. */
    method LongPressFires(handle: TimerHandle)
      requires handle in armedTimers
      modifies this`showDeleteConfirm, this`armedTimers
      ensures State() == Step(old(State()), Event.LongPressFires(handle))
      ensures showDeleteConfirm && armedTimers == old(armedTimers) - {handle}
    {
      armedTimers := armedTimers - {handle};
      showDeleteConfirm := true;
    }

    /** The Win or Loss button of a pending bet. */
    method HandleOutcomeClick(status: Outcome)
      modifies this`statusRequests
      ensures State() == old(State())
      ensures statusRequests == old(statusRequests) + [(bet.id, status)]
    {
      statusRequests := statusRequests + [(bet.id, status)];
    }

    method HandleOutsideClick()
      modifies this`showMenu
      ensures State() == Step(old(State()), OutsideClick)
      ensures !showMenu
    {
      showMenu := false;
    }
  }
}
