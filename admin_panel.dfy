/**
 * The admin panel's state: the domains awaiting approval, every purchase,
 * the per-domain "processing" flags and the load error; `handleApproval`
 * writes the new status through the domain service and drops the domain
 * from the pending list.  The summary figures are the counts and the
 * revenue total of the transfers module.
 */
module AdminPanel {
  import opened JsValues
  import opened SeqFilter
  import opened RecordStore
  import opened Transfers

  /** `d.status === "pending-approval"`. */
  predicate IsPending(d: Record)
  {
    StrictEq(Get(d, "status"), Str("pending-approval"))
  }

  /** `domains.filter(d => d.status === "pending-approval")`. */
  function Pending(domains: seq<Record>): (r: seq<Record>)
    ensures |r| <= |domains|
    ensures forall i | 0 <= i < |r| :: IsPending(r[i])
  {
    Where(domains, IsPending)
  }

  /** The test of `prev.filter(d => d.Id !== domainId)`. */
  function KeepOthers(domainId: Value): Record -> bool
  {
    d => !HasId(d, domainId)
  }

  /** `action === "approve" ? "approved" : "rejected"`. */
  function NewStatus(action: string): (status: string)
    ensures status == "approved" <==> action == "approve"
    ensures status == "rejected" <==> action != "approve"
  {
    if action == "approve" then "approved" else "rejected"
  }

  /** The patch `{ status: newStatus }` sent to `update`. */
  function StatusPatch(action: string): (patch: Record)
    ensures patch.Keys == {"status"} && patch["status"] == Str(NewStatus(action))
  {
    map["status" := Str(NewStatus(action))]
  }

  class AdminView {
    var pendingDomains: seq<Record>
    var allPurchases: seq<Record>
    var processing: map<Value, bool>
    var error: string

    constructor ()
      ensures pendingDomains == [] && allPurchases == [] && processing == map[] && error == ""
    {
      pendingDomains := [];
      allPurchases := [];
      processing := map[];
      error := "";
    }

    /** `loadData` succeeded with the two services' lists. */
    method LoadSucceeded(domains: seq<Record>, purchases: seq<Record>)
      modifies this
      ensures pendingDomains == Pending(domains) && allPurchases == purchases && error == ""
      ensures processing == old(processing)
    {
      error := "";
      pendingDomains := Pending(domains);
      allPurchases := purchases;
    }

    /** `loadData` failed: the message is kept and the lists stay as they were. */
    method LoadFailed(message: string)
      modifies this
      ensures error == message
      ensures pendingDomains == old(pendingDomains) && allPurchases == old(allPurchases)
      ensures processing == old(processing)
    {
      error := message;
    }

    /**
     * `handleApproval(domainId, action)`.  While the update runs the flag
     * `processing[domainId]` is true; it is false again afterwards whether
     * the update succeeded or threw.  Only a successful update removes the
     * domain from the pending list.
     */
    method HandleApproval(store: Store, domainId: Value, action: string, now: string) returns (r: Result<Record>)
      requires store.Valid() && store.entity == Domains
      modifies this, store
      ensures store.Valid()
      ensures var k := FindIndex(old(store.records), domainId);
        if k == -1 then r == Err("Domain not found") && store.records == old(store.records)
        else
          && r == Ok(Merged(old(store.records)[k], StatusPatch(action), now))
          && store.records == old(store.records)[k := r.value]
      ensures r.Ok? ==> pendingDomains == Where(old(pendingDomains), KeepOthers(domainId))
      ensures r.Err? ==> pendingDomains == old(pendingDomains)
      ensures processing == old(processing)[domainId := false]
      ensures allPurchases == old(allPurchases) && error == old(error)
    {
      FlagReset(processing, domainId);
      processing := processing[domainId := true];
      r := store.Update(domainId, StatusPatch(action), now);
      if r.Ok? {
        pendingDomains := Where(pendingDomains, KeepOthers(domainId));
      }
      processing := processing[domainId := false];
    }

    /** The "Active Transfers" figure: purchases whose transfer is in progress. */
    function ActiveTransfers(): (n: nat)
      reads this
      ensures n <= |allPurchases|
      ensures n == 0 <==> forall i | 0 <= i < |allPurchases| :: !HasTransferStatus(allPurchases[i], "in-progress")
    {
      NoneCounted(allPurchases, "in-progress");
      |WithTransferStatus(allPurchases, "in-progress")|
    }

    /** The "Total Revenue" figure; `None` when some amount is not an integer. */
    function TotalRevenue(): Option<int>
      reads this
    {
      Revenue(allPurchases)
    }
  }

  /** Raising a flag and lowering it again leaves it lowered. */
  lemma FlagReset(flags: map<Value, bool>, key: Value)
    ensures flags[key := true][key := false] == flags[key := false]
  {
  }

  /** A domain is pending exactly when it was loaded with the pending status. */
  lemma PendingMembership(domains: seq<Record>, d: Record)
    ensures d in Pending(domains) <==> d in domains && IsPending(d)
  {
    WhereMembership(domains, IsPending, d);
  }

  /** The pending list keeps the loaded order. */
  lemma PendingKeepsOrder(domains: seq<Record>)
    ensures IsSubsequence(Pending(domains), domains)
  {
    WhereIsSubsequence(domains, IsPending);
  }

  /**
   * After an approval exactly the entries with that Id leave the pending
   * list, and the rest keep their order.
   */
  lemma ApprovalRemovesOnlyThatId(pending: seq<Record>, domainId: Value, d: Record)
    ensures d in Where(pending, KeepOthers(domainId)) <==> d in pending && !HasId(d, domainId)
    ensures IsSubsequence(Where(pending, KeepOthers(domainId)), pending)
  {
    WhereMembership(pending, KeepOthers(domainId), d);
    WhereIsSubsequence(pending, KeepOthers(domainId));
  }

  /** The stored domain takes the new status and is no longer pending. */
  lemma ApprovalSetsStatus(prior: Record, action: string, now: string)
    ensures Merged(prior, StatusPatch(action), now)["status"] == Str(NewStatus(action))
    ensures !IsPending(Merged(prior, StatusPatch(action), now))
  {
    var merged := Merged(prior, StatusPatch(action), now);
    assert "status" != "updatedAt";
    assert merged["status"] == Str(NewStatus(action));
  }

  /**
   * When Ids are unique, dropping the approved domain from the pending
   * list gives the list a fresh load of the store would show.
   */
  lemma {:induction false} PendingAfterApproval(rs: seq<Record>, k: nat, domainId: Value, updated: Record)
    requires k < |rs| && HasId(rs[k], domainId) && !IsPending(updated)
    requires forall i | 0 <= i < |rs| && i != k :: !HasId(rs[i], domainId)
    ensures Pending(rs[k := updated]) == Where(Pending(rs), KeepOthers(domainId))
  {
    var keep := KeepOthers(domainId);
    var tail := rs[1..];
    if k == 0 {
      assert rs[k := updated] == [updated] + tail;
      assert forall i | 0 <= i < |tail| :: !HasId(tail[i], domainId) by {
        forall i | 0 <= i < |tail| ensures !HasId(tail[i], domainId) {
          assert tail[i] == rs[i + 1];
        }
      }
      assert forall i | 0 <= i < |Pending(tail)| :: keep(Pending(tail)[i]) by {
        forall i | 0 <= i < |Pending(tail)| ensures keep(Pending(tail)[i]) {
          WhereMembership(tail, IsPending, Pending(tail)[i]);
        }
      }
      WhereAll(Pending(tail), keep);
      WhereAppend(if IsPending(rs[0]) then [rs[0]] else [], Pending(tail), keep);
      assert ([updated] + tail)[1..] == tail;
    } else {
      assert tail == rs[1..];
      assert rs[k := updated] == [rs[0]] + tail[k - 1 := updated];
      assert ([rs[0]] + tail[k - 1 := updated])[1..] == tail[k - 1 := updated];
      forall i | 0 <= i < |tail| && i != k - 1 ensures !HasId(tail[i], domainId) {
        assert tail[i] == rs[i + 1];
      }
      PendingAfterApproval(tail, k - 1, domainId, updated);
      WhereAppend(if IsPending(rs[0]) then [rs[0]] else [], Pending(tail), keep);
    }
  }

  /**
   * With unique Ids, a successful approval keeps the panel in step with the
   * store: if the pending list was the store's pending domains, it still is.
   */
  lemma ApprovalKeepsPendingInSync(rs: seq<Record>, domainId: Value, action: string, now: string)
    requires UniqueIds(rs) && FindIndex(rs, domainId) != -1
    ensures var k := FindIndex(rs, domainId);
      Pending(rs[k := Merged(rs[k], StatusPatch(action), now)]) == Where(Pending(rs), KeepOthers(domainId))
  {
    var k := FindIndex(rs, domainId);
    forall i | 0 <= i < |rs| && i != k ensures !HasId(rs[i], domainId) {
      if i < k {
        assert !StrictEq(IdOf(rs[i]), IdOf(rs[k]));
      } else {
        assert !StrictEq(IdOf(rs[k]), IdOf(rs[i]));
      }
    }
    ApprovalSetsStatus(rs[k], action, now);
    PendingAfterApproval(rs, k, domainId, Merged(rs[k], StatusPatch(action), now));
  }

  /** The "Total Revenue" figure is the sum of the amounts when all are integers. */
  lemma TotalRevenueIsSum(purchases: seq<Record>)
    requires forall i | 0 <= i < |purchases| :: Get(purchases[i], "amount").Int?
    ensures Revenue(purchases) == Some(AmountTotal(purchases))
  {
    RevenueIsSum(purchases);
  }
}
