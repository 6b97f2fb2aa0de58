/**
 * The bet ledger of the app shell (src/App.tsx): a list of bets, the
 * counter that allocates their ids, the two commands that change them
 * (add a bet, record its outcome) and the totals derived from the list.
 */
module Ledger {
  import opened Wrappers

  /** The three values of a bet's `status` field. */
  datatype Status = Pending | Win | Loss

  /** What `updateBetStatus` accepts: "win" or "loss", never "pending". */
  type Outcome = s: Status | s != Pending witness Win

  datatype Bet = Bet(id: int, amount: real, status: Status)

  /** The first id handed out on a fresh ledger. */
  const FirstId: int := 1

  // ---------------------------------------------------------------------
  // Adding a bet
  // ---------------------------------------------------------------------

  /**
   * The guard of `addBet`: `betAmount && betAmount > 0`. `None` is NaN,
   * which is falsy, and so is zero; both are rejected.
   */
  function Accepts(parsed: Option<real>): (ok: bool)
    ensures ok <==> parsed.Some? && parsed.value > 0.0
  {
    parsed.Some? && parsed.value != 0.0 && parsed.value > 0.0
  }

  /**
   * The "Add Bet" button is disabled when the input is empty or when its
   * parse is `<= 0`; NaN compares false, so an unparsable non-empty input
   * leaves the button enabled (and `addBet` then does nothing).
   */
  function AddButtonEnabled(currentBet: string, parsed: Option<real>): (enabled: bool)
    ensures enabled <==> currentBet != "" && (parsed.None? || parsed.value > 0.0)
  {
    !(currentBet == "" || (parsed.Some? && parsed.value <= 0.0))
  }

  /** Every click the button lets through on a parsed positive amount adds it. */
  lemma EnabledButtonAddsOrIgnoresNaN(currentBet: string, parsed: Option<real>)
    requires AddButtonEnabled(currentBet, parsed)
    ensures Accepts(parsed) <==> parsed.Some?
  {
  }

  /**
   * The ledger's invariant from the initial `[]` / `1` onward: since the
   * ledger has no delete, the ids are exactly 1, 2, ..., n in list order,
   * `nextId` is n + 1, and every stored amount passed the `> 0` guard.
   */
  ghost predicate LedgerInvariant(bets: seq<Bet>, nextId: int)
  {
    && nextId == |bets| + FirstId
    && (forall i :: 0 <= i < |bets| ==> bets[i].id == i + FirstId)
    && (forall i :: 0 <= i < |bets| ==> bets[i].amount > 0.0)
  }

  /** Ids that differ at every pair of positions. */
  ghost predicate DistinctIds(bets: seq<Bet>)
  {
    forall i, j :: 0 <= i < j < |bets| ==> bets[i].id != bets[j].id
  }

  /** The invariant gives increasing, pairwise distinct ids, all below `nextId`. */
  lemma InvariantOrdersIds(bets: seq<Bet>, nextId: int)
    requires LedgerInvariant(bets, nextId)
    ensures forall i, j :: 0 <= i < j < |bets| ==> bets[i].id < bets[j].id
    ensures DistinctIds(bets)
    ensures forall i :: 0 <= i < |bets| ==> FirstId <= bets[i].id < nextId
  {
  }

  /** The empty ledger with counter 1 satisfies the invariant. */
  lemma InitialInvariant()
    ensures LedgerInvariant([], FirstId)
  {
  }

  /** Appending a pending bet with the current counter keeps the invariant. */
  lemma AddKeepsInvariant(bets: seq<Bet>, nextId: int, amount: real)
    requires LedgerInvariant(bets, nextId)
    requires amount > 0.0
    ensures LedgerInvariant(bets + [Bet(nextId, amount, Pending)], nextId + 1)
  {
  }

  // ---------------------------------------------------------------------
  // Recording an outcome
  // ---------------------------------------------------------------------

  /**
   * `prev.map(bet => bet.id === id ? { ...bet, status } : bet)`: every bet
   * whose id matches gets the new status, every other bet is kept as is.
   */
  function WithStatus(bets: seq<Bet>, id: int, status: Status): (r: seq<Bet>)
    ensures |r| == |bets|
    ensures forall i :: 0 <= i < |bets| ==> r[i].id == bets[i].id && r[i].amount == bets[i].amount
    ensures forall i :: 0 <= i < |bets| ==>
              r[i].status == (if bets[i].id == id then status else bets[i].status)
  {
    if bets == [] then []
    else
      var last := bets[|bets| - 1];
      WithStatus(bets[..|bets| - 1], id, status) + [if last.id == id then last.(status := status) else last]
  }

  /** An id that no bet carries leaves the list exactly as it was. */
  lemma UnknownIdIsNoOp(bets: seq<Bet>, id: int, status: Status)
    requires forall i :: 0 <= i < |bets| ==> bets[i].id != id
    ensures WithStatus(bets, id, status) == bets
  {
    var r := WithStatus(bets, id, status);
    forall i | 0 <= i < |bets| ensures r[i] == bets[i] {
      assert r[i] == Bet(bets[i].id, bets[i].amount, bets[i].status);
    }
  }

  /** Recording an outcome keeps the ledger invariant: ids and amounts do not move. */
  lemma WithStatusKeepsInvariant(bets: seq<Bet>, nextId: int, id: int, status: Status)
    requires LedgerInvariant(bets, nextId)
    ensures LedgerInvariant(WithStatus(bets, id, status), nextId)
  {
  }

  // ---------------------------------------------------------------------
  // Totals
  // ---------------------------------------------------------------------

  /** `bets.filter(bet => bet.status === status)`, in list order. */
  function Filter(bets: seq<Bet>, status: Status): (r: seq<Bet>)
    ensures |r| <= |bets|
    ensures forall i :: 0 <= i < |r| ==> r[i].status == status
  {
    if bets == [] then []
    else
      var init, last := bets[..|bets| - 1], bets[|bets| - 1];
      assert bets == init + [last];
      Filter(init, status) + (if last.status == status then [last] else [])
  }

  /** Filtering a list with one more bet at the end. */
  lemma FilterSnoc(bets: seq<Bet>, b: Bet, status: Status)
    ensures Filter(bets + [b], status) == Filter(bets, status) + (if b.status == status then [b] else [])
  {
    assert (bets + [b])[..|bets|] == bets;
  }

  /**
   * The filter keeps every copy of a bet with the status and drops every
   * copy of the others: it is exactly the matching part of the list.
   */
  lemma {:induction false} FilterCounts(bets: seq<Bet>, status: Status, b: Bet)
    ensures multiset(Filter(bets, status))[b] == if b.status == status then multiset(bets)[b] else 0
  {
    if bets != [] {
      var init, last := bets[..|bets| - 1], bets[|bets| - 1];
      assert bets == init + [last];
      FilterSnoc(init, last, status);
      FilterCounts(init, status, b);
    }
  }

  /** A bet is in the filtered list iff it is in the list and has the status. */
  lemma FilterMembers(bets: seq<Bet>, status: Status, b: Bet)
    ensures b in Filter(bets, status) <==> b in bets && b.status == status
  {
    FilterCounts(bets, status, b);
  }

  /** Splits off the last bet of a non-empty second part. */
  lemma SplitLast(s: seq<Bet>, t: seq<Bet>)
    requires t != []
    ensures t == t[..|t| - 1] + [t[|t| - 1]]
    ensures s + t == (s + t[..|t| - 1]) + [t[|t| - 1]]
  {
  }

  /** Filtering a concatenation filters each part and keeps them in order. */
  lemma {:induction false} FilterConcat(s: seq<Bet>, t: seq<Bet>, status: Status)
    ensures Filter(s + t, status) == Filter(s, status) + Filter(t, status)
    decreases |t|
  {
    if t == [] {
      assert s + t == s;
    } else {
      var init, last := t[..|t| - 1], t[|t| - 1];
      var tail := if last.status == status then [last] else [];
      SplitLast(s, t);
      FilterSnoc(s + init, last, status);
      FilterSnoc(init, last, status);
      FilterConcat(s, init, status);
      assert Filter(s + t, status) == (Filter(s, status) + Filter(init, status)) + tail;
    }
  }

  /** `.reduce((sum, bet) => sum + bet.amount, 0)`, folding from the left. */
  function Sum(bets: seq<Bet>): real
  {
    if bets == [] then 0.0 else Sum(bets[..|bets| - 1]) + bets[|bets| - 1].amount
  }

  /** The sum of amounts over the bets with the given status. */
  function TotalOf(bets: seq<Bet>, status: Status): real
  {
    Sum(Filter(bets, status))
  }

  function TotalLosses(bets: seq<Bet>): real
  {
    TotalOf(bets, Loss)
  }

  function TotalProfit(bets: seq<Bet>): real
  {
    TotalOf(bets, Win)
  }

  /** The net figure shown above the pot: `totalProfit - totalLosses`. */
  function Net(bets: seq<Bet>): real
  {
    TotalProfit(bets) - TotalLosses(bets)
  }

  /** What one bet adds to the total of one status. */
  function Contribution(b: Bet, status: Status): real
  {
    if b.status == status then b.amount else 0.0
  }

  /** A sum of positive amounts is never negative. */
  lemma {:induction false} SumNonNegative(bets: seq<Bet>)
    requires forall b :: b in bets ==> b.amount > 0.0
    ensures Sum(bets) >= 0.0
  {
    if bets != [] {
      assert forall b :: b in bets[..|bets| - 1] ==> b in bets;
      SumNonNegative(bets[..|bets| - 1]);
      assert bets[|bets| - 1] in bets;
    }
  }

  /** On a ledger whose amounts are positive, both totals are `>= 0`. */
  lemma TotalsNonNegative(bets: seq<Bet>)
    requires forall i :: 0 <= i < |bets| ==> bets[i].amount > 0.0
    ensures TotalLosses(bets) >= 0.0 && TotalProfit(bets) >= 0.0
  {
    forall status, b | b in Filter(bets, status) ensures b.amount > 0.0 {
      FilterMembers(bets, status, b);
    }
    SumNonNegative(Filter(bets, Loss));
    SumNonNegative(Filter(bets, Win));
  }

  /** Appending a bet adds its amount to the total of its own status only. */
  lemma TotalOfAppend(bets: seq<Bet>, b: Bet, status: Status)
    ensures TotalOf(bets + [b], status) == TotalOf(bets, status) + Contribution(b, status)
  {
    var s := bets + [b];
    assert s[..|s| - 1] == bets;
    var f := Filter(bets, status);
    if b.status == status {
      var g := f + [b];
      assert g[..|g| - 1] == f;
    } else {
      assert f + [] == f;
    }
  }

  /** A pending bet counts towards neither losses nor profit. */
  lemma PendingContributesNothing(bets: seq<Bet>, b: Bet)
    requires b.status == Pending
    ensures TotalLosses(bets + [b]) == TotalLosses(bets)
    ensures TotalProfit(bets + [b]) == TotalProfit(bets)
  {
    TotalOfAppend(bets, b, Loss);
    TotalOfAppend(bets, b, Win);
  }

  /** Unfolds `WithStatus` at the last position. */
  lemma WithStatusLast(bets: seq<Bet>, id: int, status: Status)
    requires bets != []
    ensures var last := bets[|bets| - 1];
            WithStatus(bets, id, status)
            == WithStatus(bets[..|bets| - 1], id, status) + [if last.id == id then last.(status := status) else last]
  {
  }

  /** Distinct ids stay distinct in every prefix. */
  lemma DistinctPrefix(bets: seq<Bet>)
    requires DistinctIds(bets) && bets != []
    ensures DistinctIds(bets[..|bets| - 1])
  {
  }

  /** Under distinct ids, no bet before the last one shares its id. */
  lemma LastIdUnique(init: seq<Bet>, last: Bet)
    requires DistinctIds(init + [last])
    ensures forall i :: 0 <= i < |init| ==> init[i].id != last.id
  {
    var bets := init + [last];
    forall i | 0 <= i < |init| ensures init[i].id != last.id {
      assert bets[i] == init[i] && bets[|init|] == last;
    }
  }

  /** The step of `WithStatusShiftsTotal` where the matching bet is the last one. */
  lemma ShiftAtLast(bets: seq<Bet>, status: Status, total: Status)
    requires DistinctIds(bets) && bets != []
    ensures var last := bets[|bets| - 1];
            TotalOf(WithStatus(bets, last.id, status), total)
            == TotalOf(bets, total) - Contribution(last, total) + Contribution(last.(status := status), total)
  {
    var init, last := bets[..|bets| - 1], bets[|bets| - 1];
    assert bets == init + [last];
    WithStatusLast(bets, last.id, status);
    LastIdUnique(init, last);
    UnknownIdIsNoOp(init, last.id, status);
    TotalOfAppend(init, last.(status := status), total);
    TotalOfAppend(init, last, total);
  }

  /**
   * Recording `status` on the bet with a unique id moves that bet's amount
   * out of the total of its old status and into the total of `status`;
   * the totals of all statuses are otherwise unchanged.
   */
  lemma {:induction false} WithStatusShiftsTotal(bets: seq<Bet>, k: int, status: Status, total: Status)
    requires DistinctIds(bets)
    requires 0 <= k < |bets|
    ensures TotalOf(WithStatus(bets, bets[k].id, status), total)
         == TotalOf(bets, total) - Contribution(bets[k], total)
            + Contribution(bets[k].(status := status), total)
  {
    var n := |bets|;
    if k == n - 1 {
      ShiftAtLast(bets, status, total);
    } else {
      var id := bets[k].id;
      var init, last := bets[..n - 1], bets[n - 1];
      assert bets == init + [last];
      assert init[k] == bets[k];
      assert last.id != id;
      WithStatusLast(bets, id, status);
      DistinctPrefix(bets);
      WithStatusShiftsTotal(init, k, status, total);
      TotalOfAppend(WithStatus(init, id, status), last, total);
      TotalOfAppend(init, last, total);
    }
  }

  /** Resolving a pending bet as a win adds its amount to the profit and leaves the losses. */
  lemma ResolveWinAddsToProfit(bets: seq<Bet>, k: int)
    requires DistinctIds(bets)
    requires 0 <= k < |bets| && bets[k].status == Pending
    ensures TotalProfit(WithStatus(bets, bets[k].id, Win)) == TotalProfit(bets) + bets[k].amount
    ensures TotalLosses(WithStatus(bets, bets[k].id, Win)) == TotalLosses(bets)
  {
    WithStatusShiftsTotal(bets, k, Win, Win);
    WithStatusShiftsTotal(bets, k, Win, Loss);
  }

  /** Resolving a pending bet as a loss adds its amount to the losses and leaves the profit. */
  lemma ResolveLossAddsToLosses(bets: seq<Bet>, k: int)
    requires DistinctIds(bets)
    requires 0 <= k < |bets| && bets[k].status == Pending
    ensures TotalLosses(WithStatus(bets, bets[k].id, Loss)) == TotalLosses(bets) + bets[k].amount
    ensures TotalProfit(WithStatus(bets, bets[k].id, Loss)) == TotalProfit(bets)
  {
    WithStatusShiftsTotal(bets, k, Loss, Loss);
    WithStatusShiftsTotal(bets, k, Loss, Win);
  }

  /**
   * There is no "already resolved" check: recording a loss on a won bet
   * moves its amount from the profit to the losses.
   */
  lemma ReResolvingMovesAmount(bets: seq<Bet>, k: int)
    requires DistinctIds(bets)
    requires 0 <= k < |bets| && bets[k].status == Win
    ensures TotalLosses(WithStatus(bets, bets[k].id, Loss)) == TotalLosses(bets) + bets[k].amount
    ensures TotalProfit(WithStatus(bets, bets[k].id, Loss)) == TotalProfit(bets) - bets[k].amount
  {
    WithStatusShiftsTotal(bets, k, Loss, Loss);
    WithStatusShiftsTotal(bets, k, Loss, Win);
  }

  /** With no resolved bet in the list, both totals are zero. */
  lemma {:induction false} AllPendingTotalsZero(bets: seq<Bet>, status: Status)
    requires forall i :: 0 <= i < |bets| ==> bets[i].status == Pending
    requires status != Pending
    ensures TotalOf(bets, status) == 0.0
  {
    if bets != [] {
      var init := bets[..|bets| - 1];
      assert bets == init + [bets[|bets| - 1]];
      TotalOfAppend(init, bets[|bets| - 1], status);
      AllPendingTotalsZero(init, status);
    }
  }

  // ---------------------------------------------------------------------
  // Outcome buttons
  // ---------------------------------------------------------------------

  /** The list shows the Loss and Win buttons for `id` only while its bet is pending. */
  predicate Offered(bets: seq<Bet>, id: int)
  {
    exists i :: 0 <= i < |bets| && bets[i].id == id && bets[i].status == Pending
  }

  /** One click on an outcome button; a bet without buttons cannot be clicked. */
  function Click(bets: seq<Bet>, id: int, outcome: Outcome): seq<Bet>
  {
    if Offered(bets, id) then WithStatus(bets, id, outcome) else bets
  }

  /** A run of outcome clicks, oldest first. */
  function Clicks(bets: seq<Bet>, clicks: seq<(int, Outcome)>): seq<Bet>
  {
    if clicks == [] then bets
    else
      var c := clicks[|clicks| - 1];
      Click(Clicks(bets, clicks[..|clicks| - 1]), c.0, c.1)
  }

  /**
   * Clicking an offered button resolves that bet, and its buttons are gone:
   * no second click can reach it.
   */
  lemma ClickResolvesAndHidesButtons(bets: seq<Bet>, k: int, outcome: Outcome)
    requires DistinctIds(bets)
    requires 0 <= k < |bets| && bets[k].status == Pending
    ensures var r := Click(bets, bets[k].id, outcome);
            && r[k] == bets[k].(status := outcome)
            && (forall i :: 0 <= i < |bets| && i != k ==> r[i] == bets[i])
            && !Offered(r, bets[k].id)
  {
    var r := Click(bets, bets[k].id, outcome);
    assert Offered(bets, bets[k].id);
    forall i | 0 <= i < |bets| && i != k ensures r[i] == bets[i] {
      assert r[i] == Bet(bets[i].id, bets[i].amount, bets[i].status);
    }
  }

  /**
   * Through the buttons, a bet leaves `pending` at most once: whatever
   * clicks follow, a resolved bet keeps its outcome, and no id or amount
   * ever moves.
   */
  lemma {:induction false} ResolvedStatusIsFinal(bets: seq<Bet>, clicks: seq<(int, Outcome)>)
    requires DistinctIds(bets)
    ensures var r := Clicks(bets, clicks);
            && |r| == |bets|
            && (forall i :: 0 <= i < |bets| ==> r[i].id == bets[i].id && r[i].amount == bets[i].amount)
            && (forall i :: 0 <= i < |bets| && bets[i].status != Pending ==> r[i].status == bets[i].status)
  {
    if clicks != [] {
      var prev := Clicks(bets, clicks[..|clicks| - 1]);
      var c := clicks[|clicks| - 1];
      ResolvedStatusIsFinal(bets, clicks[..|clicks| - 1]);
      assert DistinctIds(prev);
      if Offered(prev, c.0) {
        var k :| 0 <= k < |prev| && prev[k].id == c.0 && prev[k].status == Pending;
        ClickResolvesAndHidesButtons(prev, k, c.1);
      }
    }
  }

  // ---------------------------------------------------------------------
  // Net classification
  // ---------------------------------------------------------------------

  /** The pot's three looks: green trophy, red skull, yellow target. */
  datatype NetSign = Ahead | Behind | Even

  /** The nested conditional on `totalProfit - totalLosses` that picks the pot's look. */
  function Classify(net: real): (c: NetSign)
    ensures c == Ahead <==> net > 0.0
    ensures c == Behind <==> net < 0.0
    ensures c == Even <==> net == 0.0
  {
    if net > 0.0 then Ahead else if net < 0.0 then Behind else Even
  }

  /** The net figure's text is green when `>= 0`, red otherwise. */
  function NetTextGreen(net: real): (green: bool)
    ensures green <==> Classify(net) != Behind
  {
    net >= 0.0
  }

  /** A ledger with no resolved bet breaks even. */
  lemma AllPendingBreaksEven(bets: seq<Bet>)
    requires forall i :: 0 <= i < |bets| ==> bets[i].status == Pending
    ensures Classify(Net(bets)) == Even
  {
    AllPendingTotalsZero(bets, Win);
    AllPendingTotalsZero(bets, Loss);
  }

  // ---------------------------------------------------------------------
  // The ledger state of the app shell
  // ---------------------------------------------------------------------

  class BetTracker {
    /** The text of the bet-amount input. */
    var currentBet: string
    var bets: seq<Bet>
    var nextId: int
    /** Whether the loss animation replaces the pot image. */
    var showLossGif: bool

    ghost predicate Valid()
      reads this
    {
      LedgerInvariant(bets, nextId)
    }

    /** `useState("")`, `[]`, `1`, `useState(false)`. */
    constructor ()
      ensures Valid()
      ensures currentBet == "" && bets == [] && nextId == FirstId && !showLossGif
    {
      currentBet, bets, nextId, showLossGif := "", [], FirstId, false;
    }

    /** The input's `onChange`. */
    method SetCurrentBet(text: string)
      modifies this`currentBet
      ensures currentBet == text
    {
      currentBet := text;
    }

    /**
     * `addBet`, given `parsed`, the result of `parseFloat(currentBet)`.
     * An accepted amount is appended as a pending bet carrying the old
     * counter, the counter moves on by one and the input is cleared;
     * anything else changes nothing.
     */
    method AddBet(parsed: Option<real>)
      requires Valid()
      modifies this`bets, this`nextId, this`currentBet
      ensures Valid()
      ensures Accepts(parsed) ==>
                && bets == old(bets) + [Bet(old(nextId), parsed.value, Pending)]
                && nextId == old(nextId) + 1
                && currentBet == ""
      ensures !Accepts(parsed) ==>
                bets == old(bets) && nextId == old(nextId) && currentBet == old(currentBet)
    {
      if Accepts(parsed) {
        AddKeepsInvariant(bets, nextId, parsed.value);
        bets := bets + [Bet(nextId, parsed.value, Pending)];
        nextId := nextId + 1;
        currentBet := "";
      }
    }

    /**
     * `updateBetStatus`: rewrites the status of every bet with this id (an
     * unknown id is a silent no-op) and turns the loss animation on when
     * the new status is a loss.
     */
    method UpdateBetStatus(id: int, status: Outcome)
      requires Valid()
      modifies this`bets, this`showLossGif
      ensures Valid()
      ensures bets == WithStatus(old(bets), id, status)
      ensures showLossGif == (old(showLossGif) || status == Loss)
    {
      WithStatusKeepsInvariant(bets, nextId, id, status);
      bets := WithStatus(bets, id, status);
      if status == Loss {
        showLossGif := true;
      }
    }

    /** The 3-second timer scheduled by a loss fires and restores the pot image. */
    method LossGifTimeout()
      modifies this`showLossGif
      ensures !showLossGif
    {
      showLossGif := false;
    }
  }
}
