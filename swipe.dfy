/**
 * The swipe-to-delete wrapper of one row (src/components/SwipeableItem.tsx):
 * the row's leftward offset `translateX`, the `swiped` flag that keeps the
 * delete button revealed, and the press position `startX`, driven by touch
 * and mouse handlers, the delete button and the reset overlay.
 */
module Swipe {

  /** Leftward distance a release must exceed to reveal the delete button. */
  const SwipeThreshold: real := 50.0
  /** Width of the delete affordance; the largest offset a move may set. */
  const MaxTranslate: real := 80.0

  /** The three pieces of per-row state; positions are `clientX` pixels. */
  datatype Gesture = Gesture(translateX: real, swiped: bool, startX: real)

  /** `useState(0)`, `useState(false)`, `useRef(0)`. */
  const Initial: Gesture := Gesture(0.0, false, 0.0)

  /** The events a row reacts to. `buttons` is the mouse event's button mask. */
  datatype Event =
    | TouchStart(x: real)
    | TouchMove(x: real)
    | TouchEnd(x: real)
    | MouseDown(x: real)
    | MouseMove(x: real, buttons: int)
    | MouseUp(x: real)
    | DeleteClick
    | ResetClick

  /** The bound every reachable state keeps. */
  predicate InBounds(g: Gesture)
  {
    0.0 <= g.translateX <= MaxTranslate
  }

  /** Press (touch start or mouse down): remember where the drag began. */
  function Press(g: Gesture, x: real): Gesture
  {
    g.(startX := x)
  }

  /**
   * Move: the offset follows the leftward distance only while it lies in
   * `(0, MaxTranslate]`; a rightward drag or one past the affordance's
   * width leaves the previous offset in place.
   */
  function Drag(g: Gesture, x: real): (r: Gesture)
    ensures r.swiped == g.swiped && r.startX == g.startX
    ensures r.translateX == g.translateX || 0.0 < r.translateX <= MaxTranslate
    ensures g.startX - x <= 0.0 || g.startX - x > MaxTranslate ==> r == g
  {
    var diff := g.startX - x;
    if diff > 0.0 && diff <= MaxTranslate then g.(translateX := diff) else g
  }

  /**
   * Release (touch end or mouse up): a leftward distance past the
   * threshold pins the row open with the delete button revealed; anything
   * else snaps it back.
   */
  function Release(g: Gesture, x: real): (r: Gesture)
    ensures r.startX == g.startX
    ensures r.swiped <==> g.startX - x > SwipeThreshold
    ensures r.swiped <==> r.translateX == MaxTranslate
    ensures !r.swiped <==> r.translateX == 0.0
  {
    if g.startX - x > SwipeThreshold then g.(translateX := MaxTranslate, swiped := true)
    else g.(translateX := 0.0, swiped := false)
  }

  /** What both `handleDelete` and `handleReset` do to the state. */
  function Cleared(g: Gesture): (r: Gesture)
    ensures r.translateX == 0.0 && !r.swiped && r.startX == g.startX
  {
    g.(translateX := 0.0, swiped := false)
  }

  /** One event's effect on the state. */
  function Step(g: Gesture, e: Event): Gesture
  {
    match e
    case TouchStart(x) => Press(g, x)
    case TouchMove(x) => Drag(g, x)
    case TouchEnd(x) => Release(g, x)
    case MouseDown(x) => Press(g, x)
    case MouseMove(x, buttons) => if buttons == 1 then Drag(g, x) else g
    case MouseUp(x) => Release(g, x)
    case DeleteClick => Cleared(g)
    case ResetClick => Cleared(g)
  }

  /** The state after a sequence of events, in order. */
  function Run(g: Gesture, es: seq<Event>): Gesture
    decreases |es|
  {
    if es == [] then g else Run(Step(g, es[0]), es[1..])
  }

  /** Events that call `onDelete`. */
  function DeleteCalls(es: seq<Event>): nat
  {
    if es == [] then 0 else (if es[0] == DeleteClick then 1 else 0) + DeleteCalls(es[1..])
  }

  /** The "Swipe left" hint is rendered when the row is closed and at rest. */
  predicate ShowsHint(g: Gesture)
  {
    !g.swiped && g.translateX == 0.0
  }

  /** The click-to-reset overlay is rendered while the row is swiped open. */
  predicate ShowsResetOverlay(g: Gesture)
  {
    g.swiped
  }

  // ---------------------------------------------------------------------
  // Properties
  // ---------------------------------------------------------------------

  /** Every event keeps the offset within `[0, MaxTranslate]`. */
  lemma StepKeepsBounds(g: Gesture, e: Event)
    requires InBounds(g)
    ensures InBounds(Step(g, e))
  {
  }

  /** The bound holds after any sequence of events. */
  lemma {:induction false} RunKeepsBounds(g: Gesture, es: seq<Event>)
    requires InBounds(g)
    ensures InBounds(Run(g, es))
    decreases |es|
  {
    if es != [] {
      StepKeepsBounds(g, es[0]);
      RunKeepsBounds(Step(g, es[0]), es[1..]);
    }
  }

  /** Every state reachable from the initial one is within bounds. */
  lemma ReachableInBounds(es: seq<Event>)
    ensures InBounds(Run(Initial, es))
  {
    RunKeepsBounds(Initial, es);
  }

  /** Running two sequences one after the other is running their concatenation. */
  lemma {:induction false} RunAppend(g: Gesture, es: seq<Event>, fs: seq<Event>)
    ensures Run(g, es + fs) == Run(Run(g, es), fs)
    decreases |es|
  {
    if es == [] {
      assert es + fs == fs;
    } else {
      assert (es + fs)[0] == es[0] && (es + fs)[1..] == es[1..] + fs;
      RunAppend(Step(g, es[0]), es[1..], fs);
    }
  }

  /** Handling one more event after a sequence is one more `Step`. */
  lemma RunSnoc(g: Gesture, es: seq<Event>, e: Event)
    ensures Run(g, es + [e]) == Step(Run(g, es), e)
  {
    RunAppend(g, es, [e]);
    assert [e][1..] == [];
  }

  /** A press from either input records the position and moves nothing. */
  lemma PressRecordsStart(g: Gesture, x: real)
    ensures Step(g, TouchStart(x)) == Step(g, MouseDown(x))
    ensures Step(g, TouchStart(x)).startX == x
    ensures Step(g, TouchStart(x)).translateX == g.translateX
    ensures Step(g, TouchStart(x)).swiped == g.swiped
  {
  }

  /** A mouse drag with the left button held behaves as a touch drag; mouse up as touch end. */
  lemma MouseMatchesTouch(g: Gesture, x: real)
    ensures Step(g, MouseMove(x, 1)) == Step(g, TouchMove(x))
    ensures Step(g, MouseUp(x)) == Step(g, TouchEnd(x))
  {
  }

  /** A mouse move without exactly the left button held changes nothing. */
  lemma MouseMoveNeedsLeftButton(g: Gesture, x: real, buttons: int)
    requires buttons != 1
    ensures Step(g, MouseMove(x, buttons)) == g
  {
  }

  /** A move inside the window sets the offset to the leftward distance. */
  lemma DragFollowsPointer(g: Gesture, x: real)
    requires 0.0 < g.startX - x <= MaxTranslate
    ensures Step(g, TouchMove(x)).translateX == g.startX - x
  {
  }

  /** A move that is not leftward, i.e. `x >= startX`. */
  predicate RightwardMove(e: Event, startX: real)
  {
    (e.TouchMove? || e.MouseMove?) && e.x >= startX
  }

  /** Rightward moves never change any part of the state. */
  lemma {:induction false} RightwardMovesChangeNothing(g: Gesture, moves: seq<Event>)
    requires forall i :: 0 <= i < |moves| ==> RightwardMove(moves[i], g.startX)
    ensures Run(g, moves) == g
    decreases |moves|
  {
    if moves != [] {
      assert Step(g, moves[0]) == g;
      RightwardMovesChangeNothing(g, moves[1..]);
    }
  }

  /**
   * A whole rightward gesture -- press, rightward moves, release to the
   * right of the press -- leaves the row closed and at rest.
   */
  lemma RightwardGestureNeverArms(g: Gesture, x0: real, moves: seq<Event>, xEnd: real)
    requires forall i :: 0 <= i < |moves| ==> RightwardMove(moves[i], x0)
    requires xEnd >= x0
    ensures Run(g, [TouchStart(x0)] + moves + [TouchEnd(xEnd)]).translateX == 0.0
    ensures !Run(g, [TouchStart(x0)] + moves + [TouchEnd(xEnd)]).swiped
  {
    var p := Press(g, x0);
    RunAppend(g, [TouchStart(x0)] + moves, [TouchEnd(xEnd)]);
    RunAppend(g, [TouchStart(x0)], moves);
    RightwardMovesChangeNothing(p, moves);
  }

  /** A full left swipe past the threshold opens the row; one that falls short closes it. */
  lemma SwipeOutcome(g: Gesture, x0: real, xEnd: real)
    ensures Run(g, [TouchStart(x0), TouchEnd(xEnd)]).swiped <==> x0 - xEnd > SwipeThreshold
    ensures Run(g, [TouchStart(x0), TouchEnd(xEnd)]).translateX
            == if x0 - xEnd > SwipeThreshold then MaxTranslate else 0.0
  {
    var es := [TouchStart(x0), TouchEnd(xEnd)];
    var p := Press(g, x0);
    assert es[1..] == [TouchEnd(xEnd)] && es[1..][1..] == [];
    assert Run(g, es) == Run(p, [TouchEnd(xEnd)]) == Run(Release(p, xEnd), []);
  }

  /** After a release exactly one of the hint and the reset overlay is shown. */
  lemma ReleaseShowsHintOrOverlay(g: Gesture, x: real)
    ensures ShowsHint(Release(g, x)) != ShowsResetOverlay(Release(g, x))
  {
  }

  /** Reset is idempotent and differs from delete only in not calling `onDelete`. */
  lemma ResetIdempotent(g: Gesture)
    ensures Step(Step(g, ResetClick), ResetClick) == Step(g, ResetClick)
    ensures Step(g, ResetClick) == Step(g, DeleteClick)
    ensures ShowsHint(Step(g, ResetClick))
  {
  }

  /** `onDelete` is called once per delete click and never by anything else. */
  lemma {:induction false} DeleteCallsCountClicks(es: seq<Event>, fs: seq<Event>)
    ensures DeleteCalls(es + fs) == DeleteCalls(es) + DeleteCalls(fs)
    ensures DeleteCalls([DeleteClick]) == 1
    ensures forall e :: e != DeleteClick ==> DeleteCalls([e]) == 0
    decreases |es|
  {
    if es == [] {
      assert es + fs == fs;
    } else {
      assert (es + fs)[0] == es[0] && (es + fs)[1..] == es[1..] + fs;
      DeleteCallsCountClicks(es[1..], fs);
    }
  }

  // ---------------------------------------------------------------------
  // The component
  // ---------------------------------------------------------------------

  class SwipeableItem {
    var translateX: real
    var swiped: bool
    /** `startX.current`. */
    var startX: real
    /** How many times the `onDelete` callback has been invoked. */
    var deleteCalls: nat
    /** The events handled so far, oldest first. */
    ghost var history: seq<Event>

    function State(): Gesture
      reads this
    {
      Gesture(translateX, swiped, startX)
    }

    /**
     * The fields are what the handled events produce from the initial
     * state, `onDelete` has been called once per delete click among them,
     * and the offset is within its bound.
     */
    ghost predicate Valid()
      reads this
    {
      && State() == Run(Initial, history)
      && deleteCalls == DeleteCalls(history)
      && InBounds(State())
    }

    constructor ()
      ensures Valid() && State() == Initial && deleteCalls == 0 && history == []
    {
      translateX, swiped, startX, deleteCalls := 0.0, false, 0.0, 0;
      history := [];
    }

    /** Hint text "Swipe left". */
    function HintVisible(): (shown: bool)
      reads this
      ensures shown <==> !swiped && translateX == 0.0
    {
      ShowsHint(State())
    }

    /** Records `e` as handled, given that the fields already hold its effect. */
    ghost method Record(e: Event)
      requires State() == Step(Run(Initial, history), e)
      requires deleteCalls == DeleteCalls(history) + DeleteCalls([e])
      modifies this`history
      ensures history == old(history) + [e]
      ensures Valid()
    {
      RunSnoc(Initial, history, e);
      DeleteCallsCountClicks(history, [e]);
      history := history + [e];
      ReachableInBounds(history);
    }

    method HandleTouchStart(clientX: real)
      requires Valid()
      modifies this`startX, this`history
      ensures Valid() && State() == Step(old(State()), TouchStart(clientX))
      ensures startX == clientX && deleteCalls == old(deleteCalls)
      ensures history == old(history) + [TouchStart(clientX)]
    {
      startX := clientX;
      Record(TouchStart(clientX));
    }

    method HandleTouchMove(clientX: real)
      requires Valid()
      modifies this`translateX, this`history
      ensures Valid() && State() == Step(old(State()), TouchMove(clientX))
      ensures 0.0 < startX - clientX <= MaxTranslate ==> translateX == startX - clientX
      ensures !(0.0 < startX - clientX <= MaxTranslate) ==> translateX == old(translateX)
      ensures history == old(history) + [TouchMove(clientX)]
    {
      var diff := startX - clientX;
      if diff > 0.0 && diff <= MaxTranslate {
        translateX := diff;
      }
      Record(TouchMove(clientX));
    }

    method HandleTouchEnd(clientX: real)
      requires Valid()
      modifies this`translateX, this`swiped, this`history
      ensures Valid() && State() == Step(old(State()), TouchEnd(clientX))
      ensures swiped == (startX - clientX > SwipeThreshold)
      ensures translateX == if swiped then MaxTranslate else 0.0
      ensures history == old(history) + [TouchEnd(clientX)]
    {
      var totalSwipe := startX - clientX;
      if totalSwipe > SwipeThreshold {
        translateX := MaxTranslate;
        swiped := true;
      } else {
        translateX := 0.0;
        swiped := false;
      }
      Record(TouchEnd(clientX));
    }

    method HandleMouseDown(clientX: real)
      requires Valid()
      modifies this`startX, this`history
      ensures Valid() && State() == Step(old(State()), MouseDown(clientX))
      ensures startX == clientX
      ensures history == old(history) + [MouseDown(clientX)]
    {
      startX := clientX;
      Record(MouseDown(clientX));
    }

    method HandleMouseMove(clientX: real, buttons: int)
      requires Valid()
      modifies this`translateX, this`history
      ensures Valid() && State() == Step(old(State()), MouseMove(clientX, buttons))
      ensures buttons != 1 ==> translateX == old(translateX)
      ensures history == old(history) + [MouseMove(clientX, buttons)]
    {
      if buttons == 1 {
        var diff := startX - clientX;
        if diff > 0.0 && diff <= MaxTranslate {
          translateX := diff;
        }
      }
      Record(MouseMove(clientX, buttons));
    }

    method HandleMouseUp(clientX: real)
      requires Valid()
      modifies this`translateX, this`swiped, this`history
      ensures Valid() && State() == Step(old(State()), MouseUp(clientX))
      ensures swiped == (startX - clientX > SwipeThreshold)
      ensures translateX == if swiped then MaxTranslate else 0.0
      ensures history == old(history) + [MouseUp(clientX)]
    {
      var totalSwipe := startX - clientX;
      if totalSwipe > SwipeThreshold {
        translateX := MaxTranslate;
        swiped := true;
      } else {
        translateX := 0.0;
        swiped := false;
      }
      Record(MouseUp(clientX));
    }

    /** The delete button: call `onDelete` once, then close the row. */
    method HandleDelete()
      requires Valid()
      modifies this`translateX, this`swiped, this`deleteCalls, this`history
      ensures Valid() && State() == Step(old(State()), DeleteClick)
      ensures translateX == 0.0 && !swiped
      ensures deleteCalls == old(deleteCalls) + 1
      ensures history == old(history) + [DeleteClick]
    {
      deleteCalls := deleteCalls + 1;
      translateX := 0.0;
      swiped := false;
      Record(DeleteClick);
    }

    /** The overlay shown while swiped: close the row without deleting. */
    method HandleReset()
      requires Valid()
      modifies this`translateX, this`swiped, this`history
      ensures Valid() && State() == Step(old(State()), ResetClick)
      ensures translateX == 0.0 && !swiped && deleteCalls == old(deleteCalls)
      ensures history == old(history) + [ResetClick]
    {
      translateX := 0.0;
      swiped := false;
      Record(ResetClick);
    }
  }
}
