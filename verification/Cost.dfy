/** Charging a session in whole cents (`backend/app/features/agent/chat.py:369-430`,
    `backend/app/features/agent/pricing.py`): every row stores what the rounded running total has grown by. Prices
    are exact: cents per million tokens, so a cost is a whole number of millionths of a cent.
 */
module Cost {
  import opened Basics

  const MILLION := 1_000_000

  datatype Price = Price(input: nat, output: nat)

  /** `cost_cents_exact`, in millionths of a cent. */
  function Exact(p: Price, tokensIn: nat, tokensOut: nat): nat {
    tokensIn * p.input + tokensOut * p.output
  }

  /** `round`: to the nearest cent, ties to the even one. */
  function Round(n: nat): nat {
    var q, r := n / MILLION, n % MILLION;
    if 2 * r < MILLION || (2 * r == MILLION && q % 2 == 0) then q else q + 1
  }

  /* ---------- Rows ---------- */

  datatype Row = Row(tokensIn: Option<nat>, tokensOut: Option<nat>, cents: Option<nat>)

  /** `r.get(...) or 0`. */
  function OrZero(n: Option<nat>): nat {
    if n.Some? then n.value else 0
  }

  function SumIn(rows: seq<Row>): nat {
    if rows == [] then 0 else SumIn(rows[..|rows| - 1]) + OrZero(rows[|rows| - 1].tokensIn)
  }

  function SumOut(rows: seq<Row>): nat {
    if rows == [] then 0 else SumOut(rows[..|rows| - 1]) + OrZero(rows[|rows| - 1].tokensOut)
  }

  function SumCents(rows: seq<Row>): nat {
    if rows == [] then 0 else SumCents(rows[..|rows| - 1]) + OrZero(rows[|rows| - 1].cents)
  }

  /** `_cost_cents_for_turn`; no price, no figure. */
  function CentsForTurn(prior: seq<Row>, price: Option<Price>, tokensIn: nat, tokensOut: nat): Option<nat> {
    if price.None? then None
    else
      var total := Exact(price.value, SumIn(prior) + tokensIn, SumOut(prior) + tokensOut);
      Some(Max(0, Round(total) - SumCents(prior)))
  }

  /** A message to save: its tokens, the price of the configured model, and whether the accounting raises. */
  datatype Turn = Turn(tokensIn: Option<nat>, tokensOut: Option<nat>, price: Option<Price>, fails: bool)

  /** `if tokens_in or tokens_out`, and the accounting succeeds on a priced model. */
  predicate Accounted(t: Turn) {
    OrZero(t.tokensIn) + OrZero(t.tokensOut) > 0 && t.price.Some? && !t.fails
  }

  /** The rows once the message is saved; without accounting its cents are left empty. */
  function Saved(rows: seq<Row>, t: Turn): seq<Row> {
    rows + [Row(t.tokensIn, t.tokensOut,
      if Accounted(t) then CentsForTurn(rows, t.price, OrZero(t.tokensIn), OrZero(t.tokensOut)) else None)]
  }

  /** What saving a message leaves: every earlier row, the message with its tokens, and cents on it exactly when it
      used tokens, the model has a price and the accounting did not raise. They bring the session's sum up to the
      rounded cost of all its tokens at that price, and never down. */
  ghost predicate Keeps(rows: seq<Row>, rows': seq<Row>, t: Turn) {
    && |rows'| == |rows| + 1 && rows'[..|rows|] == rows
    && var row := rows'[|rows|];
    && row.tokensIn == t.tokensIn && row.tokensOut == t.tokensOut
    && (row.cents.Some? <==> (OrZero(t.tokensIn) > 0 || OrZero(t.tokensOut) > 0) && t.price.Some? && !t.fails)
    && (row.cents.Some? ==>
          var total := SumIn(rows') * t.price.value.input + SumOut(rows') * t.price.value.output;
          SumCents(rows') == Max(SumCents(rows), Round(total)))
    && (row.cents.None? ==> SumCents(rows') == SumCents(rows))
  }

  lemma SavedKeeps(rows: seq<Row>, t: Turn)
    ensures Keeps(rows, Saved(rows, t), t)
  {
    assert Saved(rows, t)[..|rows|] == rows;
  }

  class Session {
    var rows: seq<Row>

    constructor ()
      ensures rows == []
    {
      rows := [];
    }

    /** `_save_message`: the message is kept even when its accounting fails. */
    method SaveMessage(t: Turn)
      modifies this
      ensures rows == Saved(old(rows), t)
      ensures Keeps(old(rows), rows, t)
    {
      SavedKeeps(rows, t);
      var row := Row(t.tokensIn, t.tokensOut, None);
      if OrZero(t.tokensIn) != 0 || OrZero(t.tokensOut) != 0 {
        if !t.fails {
          row := row.(cents := CentsForTurn(rows, t.price, OrZero(t.tokensIn), OrZero(t.tokensOut)));
        }
      }
      rows := rows + [row];
    }
  }

  function Run(turns: seq<Turn>): seq<Row> {
    if turns == [] then [] else Saved(Run(turns[..|turns| - 1]), turns[|turns| - 1])
  }

  /* ---------- What the rows add up to ---------- */

  function UsedIn(turns: seq<Turn>): nat {
    if turns == [] then 0 else UsedIn(turns[..|turns| - 1]) + OrZero(turns[|turns| - 1].tokensIn)
  }

  function UsedOut(turns: seq<Turn>): nat {
    if turns == [] then 0 else UsedOut(turns[..|turns| - 1]) + OrZero(turns[|turns| - 1].tokensOut)
  }

  /** The largest rounded cumulative cost at any accounted turn so far, at the price of that turn. */
  function Peak(turns: seq<Turn>): nat {
    if turns == [] then 0
    else
      var before, last := Peak(turns[..|turns| - 1]), turns[|turns| - 1];
      if Accounted(last) then Max(before, Round(Exact(last.price.value, UsedIn(turns), UsedOut(turns)))) else before
  }

  /** After any turns, with any prices and failures, the stored cents add up to the peak. */
  lemma {:induction false} RowsSumToPeak(turns: seq<Turn>)
    ensures SumIn(Run(turns)) == UsedIn(turns) && SumOut(Run(turns)) == UsedOut(turns)
    ensures SumCents(Run(turns)) == Peak(turns)
  {
    if turns != [] {
      var front, last := turns[..|turns| - 1], turns[|turns| - 1];
      RowsSumToPeak(front);
      var rows := Run(turns);
      assert rows[..|rows| - 1] == Run(front);
    }
  }

  /** Rounding gives the nearest cent and, between two, the even one. */
  lemma RoundIsNearest(n: nat)
    ensures -MILLION <= 2 * (Round(n) * MILLION - n) <= MILLION
    ensures 2 * (Round(n) * MILLION - n) == MILLION || 2 * (n - Round(n) * MILLION) == MILLION ==> Round(n) % 2 == 0
  {
  }

  lemma RoundMonotone(a: nat, b: nat)
    requires a <= b
    ensures Round(a) <= Round(b)
  {
    RoundIsNearest(a);
    RoundIsNearest(b);
    if a / MILLION == b / MILLION {
      assert a % MILLION <= b % MILLION;
    } else {
      assert a / MILLION < b / MILLION;
    }
  }

  lemma ExactGrows(p: Price, a: nat, b: nat, a': nat, b': nat)
    requires a <= a' && b <= b'
    ensures Exact(p, a, b) <= Exact(p, a', b')
  {
    Product(a, a', p.input);
    Product(b, b', p.output);
  }

  lemma Product(a: nat, b: nat, m: nat)
    requires a <= b
    ensures a * m <= b * m
  {
    assert b * m - a * m == (b - a) * m;
  }

  /** The turns up to the last one that was accounted for. */
  function Settled(turns: seq<Turn>): seq<Turn> {
    if turns == [] || Accounted(turns[|turns| - 1]) then turns else Settled(turns[..|turns| - 1])
  }

  ghost predicate OnePrice(turns: seq<Turn>, p: Price) {
    forall i :: 0 <= i < |turns| ==> turns[i].price == Some(p)
  }

  lemma {:induction false} SettledGrows(turns: seq<Turn>)
    ensures UsedIn(Settled(turns)) <= UsedIn(turns) && UsedOut(Settled(turns)) <= UsedOut(turns)
  {
    if turns != [] && !Accounted(turns[|turns| - 1]) {
      SettledGrows(turns[..|turns| - 1]);
    }
  }

  /** With one priced model the stored cents are the rounded exact cost up to the last accounted turn: what a
      failed turn left out is made up by the next one that succeeds. */
  lemma {:induction false} OneModelIsExact(turns: seq<Turn>, p: Price)
    requires OnePrice(turns, p)
    ensures var settled := Settled(turns);
      SumCents(Run(turns)) == Round(Exact(p, UsedIn(settled), UsedOut(settled)))
  {
    RowsSumToPeak(turns);
    if turns != [] {
      var front := turns[..|turns| - 1];
      OneModelIsExact(front, p);
      RowsSumToPeak(front);
      if Accounted(turns[|turns| - 1]) {
        SettledGrows(front);
        ExactGrows(p, UsedIn(Settled(front)), UsedOut(Settled(front)), UsedIn(turns), UsedOut(turns));
        RoundMonotone(Exact(p, UsedIn(Settled(front)), UsedOut(Settled(front))),
          Exact(p, UsedIn(turns), UsedOut(turns)));
      }
    }
  }

  /** When the last turn was accounted for, the session is charged its exact cost to within half a cent, and the
      turn's own figure is the plain difference: the `max` with zero clips nothing. */
  lemma HalfACent(turns: seq<Turn>, p: Price)
    requires OnePrice(turns, p) && turns != [] && Accounted(turns[|turns| - 1])
    ensures var exact, charged := Exact(p, UsedIn(turns), UsedOut(turns)), SumCents(Run(turns));
      && charged == Round(exact)
      && -MILLION <= 2 * (charged * MILLION - exact) <= MILLION
      && Run(turns)[|Run(turns)| - 1].cents == Some(Round(exact) - SumCents(Run(turns[..|turns| - 1])))
  {
    var front := turns[..|turns| - 1];
    OneModelIsExact(turns, p);
    OneModelIsExact(front, p);
    RoundIsNearest(Exact(p, UsedIn(turns), UsedOut(turns)));
    RowsSumToPeak(front);
    SettledGrows(front);
    ExactGrows(p, UsedIn(Settled(front)), UsedOut(Settled(front)), UsedIn(turns), UsedOut(turns));
    RoundMonotone(Exact(p, UsedIn(Settled(front)), UsedOut(Settled(front))), Exact(p, UsedIn(turns), UsedOut(turns)));
  }

  /* ---------- What the session really cost ---------- */

  /** The exact cost of one message at its own price, in millionths of a cent; what `cost_cents_exact` answers for
      it, whether or not its accounting then succeeds. */
  function TurnCost(t: Turn): nat {
    if t.price.None? then 0 else Exact(t.price.value, OrZero(t.tokensIn), OrZero(t.tokensOut))
  }

  function TrueCost(turns: seq<Turn>): nat {
    if turns == [] then 0 else TrueCost(turns[..|turns| - 1]) + TurnCost(turns[|turns| - 1])
  }

  /** What the stored cents are behind the true cost, in millionths of a cent. */
  function Lag(turns: seq<Turn>): int {
    TrueCost(turns) - MILLION * SumCents(Run(turns))
  }

  /** The cents stored for a message that follows `turns`. */
  function StoredFor(turns: seq<Turn>, t: Turn): nat {
    OrZero(Saved(Run(turns), t)[|Run(turns)|].cents)
  }

  lemma LagStep(turns: seq<Turn>, t: Turn)
    ensures Lag(turns + [t]) == Lag(turns) + TurnCost(t) - MILLION * StoredFor(turns, t)
    ensures TrueCost(turns + [t]) == TrueCost(turns) + TurnCost(t)
  {
    var after := turns + [t];
    assert after[..|after| - 1] == turns;
    var rows := Saved(Run(turns), t);
    assert Run(after) == rows && rows[..|rows| - 1] == Run(turns);
    assert SumCents(rows) == SumCents(Run(turns)) + StoredFor(turns, t);
  }

  /** What repricing all earlier use at `p` adds to, or takes from, what it cost. */
  function Skew(turns: seq<Turn>, p: Price): int {
    Exact(p, UsedIn(turns), UsedOut(turns)) - TrueCost(turns)
  }

  lemma ExactSum(p: Price, a: nat, b: nat, a': nat, b': nat)
    ensures Exact(p, a + a', b + b') == Exact(p, a, b) + Exact(p, a', b')
  {
    assert (a + a') * p.input == a * p.input + a' * p.input;
    assert (b + b') * p.output == b * p.output + b' * p.output;
  }

  /** A turn is repriced with everything before it: how far off that is was settled before the turn. */
  lemma SkewIsInherited(turns: seq<Turn>)
    requires turns != [] && turns[|turns| - 1].price.Some?
    ensures var p := turns[|turns| - 1].price.value; Skew(turns, p) == Skew(turns[..|turns| - 1], p)
  {
    var front, last := turns[..|turns| - 1], turns[|turns| - 1];
    ExactSum(last.price.value, UsedIn(front), UsedOut(front), OrZero(last.tokensIn), OrZero(last.tokensOut));
  }

  /** Only accounted messages charge anything. */
  lemma {:induction false} SettledCharges(turns: seq<Turn>)
    ensures SumCents(Run(turns)) == SumCents(Run(Settled(turns)))
  {
    RowsSumToPeak(turns);
    RowsSumToPeak(Settled(turns));
    if turns != [] && !Accounted(turns[|turns| - 1]) {
      SettledCharges(turns[..|turns| - 1]);
      RowsSumToPeak(turns[..|turns| - 1]);
    }
  }

  /** After an accounted turn the stored cents are the rounded cost of the whole session at its price exactly when
      the `max` clips nothing: when no more than that was stored before. */
  lemma ClippedExactly(turns: seq<Turn>)
    requires turns != [] && Accounted(turns[|turns| - 1])
    ensures var front, p := turns[..|turns| - 1], turns[|turns| - 1].price.value;
      var repriced := Round(Exact(p, UsedIn(turns), UsedOut(turns)));
      SumCents(Run(turns)) == repriced <==> SumCents(Run(front)) <= repriced
  {
    RowsSumToPeak(turns);
    RowsSumToPeak(turns[..|turns| - 1]);
  }

  /** After an accounted turn: what the session is charged, by what it was charged and what it really cost. */
  lemma ChargedAfter(turns: seq<Turn>)
    requires turns != [] && Accounted(turns[|turns| - 1])
    ensures var front, p := turns[..|turns| - 1], turns[|turns| - 1].price.value;
      && 0 <= TrueCost(turns) + Skew(front, p)
      && SumCents(Run(turns)) == Max(SumCents(Run(front)), Round(TrueCost(turns) + Skew(front, p)))
  {
    RowsSumToPeak(turns);
    RowsSumToPeak(turns[..|turns| - 1]);
    SkewIsInherited(turns);
  }

  /* ---------- Whole sessions ---------- */

  /** The rounded cost of everything used by accounted turn `i`, at the price of that turn. */
  function Repriced(turns: seq<Turn>, i: nat): nat
    requires i < |turns| && Accounted(turns[i])
  {
    Round(Exact(turns[i].price.value, UsedIn(turns[..i + 1]), UsedOut(turns[..i + 1])))
  }

  /** What is stored is the largest of these figures, or nothing when no turn was accounted. */
  lemma {:induction false} PeakIsLargest(turns: seq<Turn>)
    ensures forall i :: 0 <= i < |turns| && Accounted(turns[i]) ==> Repriced(turns, i) <= Peak(turns)
    ensures Peak(turns) == 0 || exists i :: 0 <= i < |turns| && Accounted(turns[i]) && Repriced(turns, i) == Peak(turns)
  {
    if turns != [] {
      var n := |turns| - 1;
      var front := turns[..n];
      PeakIsLargest(front);
      assert turns[..n + 1] == turns;
      forall i | 0 <= i < n && Accounted(front[i]) ensures Repriced(turns, i) == Repriced(front, i) {
        assert front[..i + 1] == turns[..i + 1];
      }
      if Peak(turns) != 0 && Peak(turns) == Peak(front) {
        var i :| 0 <= i < n && Accounted(front[i]) && Repriced(front, i) == Peak(front);
        assert Repriced(turns, i) == Peak(turns);
      }
    }
  }

  /** Exactly when a session is charged its true cost, rounded, whatever the prices and the failures: if and only if
      no accounted turn's figure is above it and, unless it is nothing, one of them is there. */
  lemma ChargedExactly(turns: seq<Turn>)
    ensures var due := Round(TrueCost(turns));
      SumCents(Run(turns)) == due <==>
        && (forall i :: 0 <= i < |turns| && Accounted(turns[i]) ==> Repriced(turns, i) <= due)
        && (due == 0 || exists i :: 0 <= i < |turns| && Accounted(turns[i]) && Repriced(turns, i) == due)
  {
    RowsSumToPeak(turns);
    PeakIsLargest(turns);
  }

  /** Exactly when the sum stays within one cent of the true cost, as promised: at most a cent too much if and only
      if no accounted turn's figure is more than that above the true cost; at most a cent too little if and only if
      the session cost no more than a cent, or one of the figures is no more than that below it. */
  lemma WithinOneCentExactly(turns: seq<Turn>)
    ensures -MILLION <= Lag(turns) <==>
      forall i :: 0 <= i < |turns| && Accounted(turns[i]) ==> Scaled(Repriced(turns, i)) <= TrueCost(turns) + MILLION
    ensures Lag(turns) <= MILLION <==>
      || TrueCost(turns) <= MILLION
      || exists i :: 0 <= i < |turns| && Accounted(turns[i]) && TrueCost(turns) - MILLION <= Scaled(Repriced(turns, i))
  {
    var peak := Peak(turns);
    RowsSumToPeak(turns);
    PeakIsLargest(turns);
    forall i | 0 <= i < |turns| && Accounted(turns[i]) ensures Scaled(Repriced(turns, i)) <= Scaled(peak) {
      assert Scaled(Repriced(turns, i)) <= Scaled(peak);
    }
    assert Lag(turns) == TrueCost(turns) - Scaled(peak);
  }

  /** Whole cents in millionths. */
  function Scaled(cents: nat): nat {
    MILLION * cents
  }

  /** One turn whose accounting fails, and is not made up for, is not charged: 138 cents are lost. */
  lemma FailedTurnUndercharges()
    ensures var failed := Turn(Some(1_000_000), Some(1_000_000), Some(Price(59, 79)), true);
      SumCents(Run([failed])) == 0 && TrueCost([failed]) == 138 * MILLION && Lag([failed]) > MILLION
  {
    var failed := Turn(Some(1_000_000), Some(1_000_000), Some(Price(59, 79)), true);
    assert [failed][..0] == [];
    RowsSumToPeak([failed]);
    assert Peak([failed]) == 0;
  }

  /** With one price there is no skew. */
  lemma {:induction false} OnePriceHasNoSkew(turns: seq<Turn>, p: Price)
    requires OnePrice(turns, p)
    ensures Skew(turns, p) == 0
  {
    if turns != [] {
      OnePriceHasNoSkew(turns[..|turns| - 1], p);
      SkewIsInherited(turns);
    }
  }

  /** Everything used has been accounted for, at one price: failed turns have been made up for. */
  ghost predicate Settles(turns: seq<Turn>, p: Price) {
    OnePrice(turns, p) && UsedIn(Settled(turns)) == UsedIn(turns) && UsedOut(Settled(turns)) == UsedOut(turns)
  }

  lemma SettlesStep(turns: seq<Turn>, t: Turn, p: Price)
    requires Settles(turns, p) && t.price == Some(p) && !t.fails
    ensures Settles(turns + [t], p)
  {
    assert (turns + [t])[..|turns|] == turns;
  }

  lemma LagBound(turns: seq<Turn>, p: Price)
    requires Settles(turns, p)
    ensures -MILLION <= 2 * Lag(turns) <= MILLION
  {
    OneModelIsExact(turns, p);
    OnePriceHasNoSkew(turns, p);
    RoundIsNearest(TrueCost(turns));
  }

  /** After a switch to a cheaper model the whole session is repriced, the difference is clipped, and eight cents
      of use are charged nothing. */
  lemma SwitchingModelsUndercharges()
    ensures var dear := Turn(Some(1_000_000), None, Some(Price(59, 79)), false);
      var cheap := Turn(None, Some(1_000_000), Some(Price(5, 8)), false);
      SumCents(Run([dear, cheap])) == SumCents(Run([dear])) == 59 && TrueCost([dear, cheap]) == 67 * MILLION
  {
    var dear := Turn(Some(1_000_000), None, Some(Price(59, 79)), false);
    var cheap := Turn(None, Some(1_000_000), Some(Price(5, 8)), false);
    TwoTurns(dear, cheap);
  }

  /** After a switch to a dearer one it is repriced too: one more token takes the charge from 5 cents to 59. */
  lemma SwitchingModelsOvercharges()
    ensures var cheap := Turn(Some(1_000_000), None, Some(Price(5, 8)), false);
      var dear := Turn(Some(1), None, Some(Price(59, 79)), false);
      SumCents(Run([cheap])) == 5 && SumCents(Run([cheap, dear])) == 59
      && TrueCost([cheap, dear]) == 5 * MILLION + 59
  {
    var cheap := Turn(Some(1_000_000), None, Some(Price(5, 8)), false);
    var dear := Turn(Some(1), None, Some(Price(59, 79)), false);
    TwoTurns(cheap, dear);
  }

  lemma TwoTurns(a: Turn, b: Turn)
    requires Accounted(a) && Accounted(b)
    ensures var in2, out2 := OrZero(a.tokensIn) + OrZero(b.tokensIn), OrZero(a.tokensOut) + OrZero(b.tokensOut);
      && SumCents(Run([a])) == Round(TurnCost(a))
      && SumCents(Run([a, b])) == Max(Round(TurnCost(a)), Round(Exact(b.price.value, in2, out2)))
      && TrueCost([a, b]) == TurnCost(a) + TurnCost(b)
  {
    var one, two := [a], [a, b];
    assert two[..1] == one && one[..0] == [];
    RowsSumToPeak(one);
    RowsSumToPeak(two);
    assert UsedIn(one) == OrZero(a.tokensIn) && UsedOut(one) == OrZero(a.tokensOut);
    assert TrueCost(one) == TurnCost(a);
  }
}
