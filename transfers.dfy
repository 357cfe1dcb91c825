/**
 * The purchase figures the admin panel and the buyer dashboard show: the
 * width of a transfer's progress bar, counts of purchases by transfer
 * status, and the revenue total.
 */
module Transfers {
  import opened JsValues
  import opened SeqFilter
  import opened RecordStore

  /** The progress bar width, in percent, for a `transferStatus` value. */
  function Progress(transferStatus: Value): (width: nat)
    ensures width in {0, 25, 50, 75, 100}
    ensures width == 100 <==> StrictEq(transferStatus, Str("completed"))
    ensures width == 0 <==>
      !(StrictEq(transferStatus, Str("completed")) || StrictEq(transferStatus, Str("in-progress")) ||
        StrictEq(transferStatus, Str("awaiting-action")) || StrictEq(transferStatus, Str("initiated")))
  {
    if StrictEq(transferStatus, Str("completed")) then 100
    else if StrictEq(transferStatus, Str("in-progress")) then 75
    else if StrictEq(transferStatus, Str("awaiting-action")) then 50
    else if StrictEq(transferStatus, Str("initiated")) then 25
    else 0
  }

  /** The bar grows strictly along initiated, awaiting-action, in-progress, completed. */
  lemma ProgressIncreases()
    ensures 0 < Progress(Str("initiated")) < Progress(Str("awaiting-action"))
    ensures Progress(Str("awaiting-action")) < Progress(Str("in-progress")) < Progress(Str("completed"))
  {
  }

  /** `p.transferStatus === status`. */
  predicate HasTransferStatus(p: Record, status: string)
  {
    StrictEq(Get(p, "transferStatus"), Str(status))
  }

  /** `purchases.filter(p => p.transferStatus === status)`. */
  function WithTransferStatus(purchases: seq<Record>, status: string): (r: seq<Record>)
    ensures forall i | 0 <= i < |r| :: HasTransferStatus(r[i], status)
  {
    Where(purchases, p => HasTransferStatus(p, status))
  }

  /** The "Completed Transfers" and "In Progress" figures never add up to more than "Total Purchases". */
  lemma CountsBounded(purchases: seq<Record>)
    ensures |WithTransferStatus(purchases, "completed")| + |WithTransferStatus(purchases, "in-progress")| <= |purchases|
  {
    DisjointCountsBounded(purchases, p => HasTransferStatus(p, "completed"), p => HasTransferStatus(p, "in-progress"));
  }

  /** A purchase is counted under a status exactly when its transfer has that status. */
  lemma CountMembership(purchases: seq<Record>, status: string, p: Record)
    ensures p in WithTransferStatus(purchases, status) <==> p in purchases && HasTransferStatus(p, status)
  {
    WhereMembership(purchases, q => HasTransferStatus(q, status), p);
  }

  /** A count is zero exactly when no purchase has the status. */
  lemma NoneCounted(purchases: seq<Record>, status: string)
    ensures |WithTransferStatus(purchases, status)| == 0 <==>
      forall i | 0 <= i < |purchases| :: !HasTransferStatus(purchases[i], status)
  {
    if |WithTransferStatus(purchases, status)| == 0 {
      forall i | 0 <= i < |purchases| ensures !HasTransferStatus(purchases[i], status) {
        CountMembership(purchases, status, purchases[i]);
      }
    } else {
      var p := WithTransferStatus(purchases, status)[0];
      CountMembership(purchases, status, p);
    }
  }

  /**
   * `purchases.reduce((sum, p) => sum + p.amount, 0)` when every amount is an
   * integer; `None` when some amount is not.
   */
  function Revenue(purchases: seq<Record>): Option<int>
  {
    if purchases == [] then Some(0)
    else
      match (Revenue(purchases[..|purchases| - 1]), Get(purchases[|purchases| - 1], "amount"))
      case (Some(sum), Int(amount)) => Some(sum + amount)
      case _ => None
  }

  /** A purchase's amount when it is an integer, 0 otherwise. */
  function AmountOf(p: Record): int
  {
    match Get(p, "amount")
    case Int(a) => a
    case _ => 0
  }

  /** The total of the integer amounts, summed from the front. */
  function AmountTotal(purchases: seq<Record>): int
  {
    if purchases == [] then 0 else AmountOf(purchases[0]) + AmountTotal(purchases[1..])
  }

  lemma {:induction false} AmountTotalAppend(a: seq<Record>, b: seq<Record>)
    ensures AmountTotal(a + b) == AmountTotal(a) + AmountTotal(b)
  {
    if a != [] {
      assert (a + b)[0] == a[0];
      assert (a + b)[1..] == a[1..] + b;
      AmountTotalAppend(a[1..], b);
    } else {
      assert a + b == b;
    }
  }

  /**
   * The reduce yields a total exactly when every amount is an integer, and
   * then the total is the sum of the amounts.
   */
  lemma {:induction false} RevenueIsSum(purchases: seq<Record>)
    ensures Revenue(purchases).Some? <==> forall i | 0 <= i < |purchases| :: Get(purchases[i], "amount").Int?
    ensures Revenue(purchases).Some? ==> Revenue(purchases).value == AmountTotal(purchases)
  {
    if purchases != [] {
      var init := purchases[..|purchases| - 1];
      var last := purchases[|purchases| - 1];
      RevenueIsSum(init);
      AmountTotalAppend(init, [last]);
      assert init + [last] == purchases;
      assert [last][1..] == [];
      assert forall i | 0 <= i < |init| :: init[i] == purchases[i];
    }
  }

  /** With no negative amounts the revenue is never negative. */
  lemma {:induction false} RevenueNonNegative(purchases: seq<Record>)
    requires forall i | 0 <= i < |purchases| :: Get(purchases[i], "amount").Int? && Get(purchases[i], "amount").i >= 0
    ensures Revenue(purchases).Some? && Revenue(purchases).value >= 0
  {
    if purchases != [] {
      var init := purchases[..|purchases| - 1];
      assert forall i | 0 <= i < |init| :: init[i] == purchases[i];
      RevenueNonNegative(init);
    }
  }
}
