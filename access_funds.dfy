/**
 * The claim dialog of src/components/modals/AccessFundsModal.tsx: the list of claimable
 * items and their total, the dispatch of a claim to the matching contract call, and the
 * one-slot `processingId` state that disables every claim button while a claim is open.
 */
module AccessFundsModal {
  import opened Wrappers
  import opened Types

  /** `ClaimableItem`: a ROSCA payout for a cycle, or a collective-savings withdrawal. */
  datatype ClaimableItem =
    Payout(group: Group, amount: int, cycle: int)
    | Savings(group: Group, amount: int)

  predicate AllNonNegative(items: seq<ClaimableItem>) {
    forall i :: 0 <= i < |items| ==> items[i].amount >= 0
  }

  /** `items.reduce((sum, item) => sum + item.amount, 0)`, folded from the left. */
  function TotalAvailable(items: seq<ClaimableItem>): (total: int)
    ensures items == [] ==> total == 0
    ensures |items| == 1 ==> total == items[0].amount
    ensures AllNonNegative(items) ==> total >= 0
    ensures AllNonNegative(items) ==> forall i :: 0 <= i < |items| ==> items[i].amount <= total
  {
    if items == [] then 0
    else
      var init := items[..|items| - 1];
      assert AllNonNegative(items) ==> AllNonNegative(init) by {
        if AllNonNegative(items) {
          forall i | 0 <= i < |init| ensures init[i].amount >= 0 {
            assert init[i] == items[i];
          }
        }
      }
      TotalAvailable(init) + items[|items| - 1].amount
  }

  /** The total of a concatenation is the sum of the totals. */
  lemma {:induction false} TotalAppend(a: seq<ClaimableItem>, b: seq<ClaimableItem>)
    ensures TotalAvailable(a + b) == TotalAvailable(a) + TotalAvailable(b)
    decreases |b|
  {
    if b == [] {
      assert a + b == a;
    } else {
      var c := a + b;
      assert c[..|c| - 1] == a + b[..|b| - 1];
      TotalAppend(a, b[..|b| - 1]);
    }
  }

  /** The sum of the amounts, added from the front: a reference for the left fold. */
  function SumAmounts(items: seq<ClaimableItem>): int {
    if items == [] then 0 else items[0].amount + SumAmounts(items[1..])
  }

  /** The dialog's total is the plain sum of the item amounts. */
  lemma {:induction false} TotalIsSum(items: seq<ClaimableItem>)
    ensures TotalAvailable(items) == SumAmounts(items)
  {
    if items != [] {
      TotalIsSum(items[1..]);
      assert items == [items[0]] + items[1..];
      TotalAppend([items[0]], items[1..]);
    }
  }

  /** The two contract calls a claim can make, each naming the group. */
  datatype ContractCall = ClaimPayout(groupId: string) | WithdrawSavings(groupId: string)

  /** A payout item calls `claimPayout`, every other item calls `withdrawSavings`, on the item's group. */
  function Dispatch(item: ClaimableItem): (call: ContractCall)
    ensures call.groupId == item.group.id
    ensures call.ClaimPayout? <==> item.Payout?
  {
    if item.Payout? then ClaimPayout(item.group.id) else WithdrawSavings(item.group.id)
  }

  /** What the user sees when a claim ends: `onSuccess`, or an error toast. */
  datatype Feedback = Succeeded | ErrorToast(title: string, message: string, durationMs: int)

  const ToastDurationMs := 5000

  /** The feedback for a settled claim, chosen by the outcome and, on cancel, by the item kind. */
  function SettleFeedback(item: ClaimableItem, outcome: CallOutcome): Feedback {
    match outcome
    case Finished => Succeeded
    case Cancelled =>
      if item.Payout? then
        ErrorToast("Payout Failed", "The payout transaction was cancelled or failed.", ToastDurationMs)
      else
        ErrorToast("Withdrawal Failed", "The withdrawal transaction was cancelled or failed.", ToastDurationMs)
    case Threw =>
      ErrorToast("Error Processing Request", "An unexpected error occurred while accessing funds.", ToastDurationMs)
  }

  /**
   * Success is reported only when the wallet finishes; a cancel or a thrown error always
   * shows an error toast, titled after the item kind on cancel and generically on a throw.
   */
  lemma FeedbackRules(item: ClaimableItem, outcome: CallOutcome)
    ensures var f := SettleFeedback(item, outcome);
      && (f == Succeeded <==> outcome == Finished)
      && (outcome == Cancelled ==> f.title == if item.Payout? then "Payout Failed" else "Withdrawal Failed")
      && (outcome == Threw ==> f.title == "Error Processing Request")
      && (f.ErrorToast? ==> f.durationMs == ToastDurationMs)
  {
  }

  class ClaimDialog {
    /** `processingId`: the group id of the claim in flight, or `null`. */
    var processingId: Option<string>
    /** The item whose callbacks are still to come. */
    var inFlight: Option<ClaimableItem>

    ghost predicate Valid()
      reads this
    {
      (processingId.Some? <==> inFlight.Some?)
      && (inFlight.Some? ==> processingId.value == inFlight.value.group.id)
    }

    constructor ()
      ensures Valid() && processingId.None? && inFlight.None?
    {
      processingId := None;
      inFlight := None;
    }

    /** `disabled={!!processingId}`: an empty id is falsy and leaves the buttons enabled. */
    predicate ButtonsDisabled()
      reads this
    {
      processingId.Some? && processingId.value != ""
    }

    /** `handleClaim` up to the wallet call: mark the item's group as processing and pick the call. */
    method Click(item: ClaimableItem) returns (call: Option<ContractCall>)
      requires Valid()
      modifies this
      ensures Valid()
      ensures old(ButtonsDisabled()) ==> call.None? && processingId == old(processingId) && inFlight == old(inFlight)
      ensures !old(ButtonsDisabled()) ==>
        call == Some(Dispatch(item)) && processingId == Some(item.group.id) && inFlight == Some(item)
    {
      if ButtonsDisabled() {
        return None;
      }
      processingId := Some(item.group.id);
      inFlight := Some(item);
      call := Some(Dispatch(item));
    }

    /** A callback of the call in flight, or its thrown error: `processingId` is reset on every exit. */
    method Settle(outcome: CallOutcome) returns (feedback: Feedback)
      requires Valid() && inFlight.Some?
      modifies this
      ensures Valid()
      ensures processingId.None? && inFlight.None? && !ButtonsDisabled()
      ensures feedback == SettleFeedback(old(inFlight).value, outcome)
    {
      feedback := SettleFeedback(inFlight.value, outcome);
      processingId := None;
      inFlight := None;
    }
  }

  /** While a claim on a group with a non-empty id is open, every claim button is disabled. */
  lemma OpenClaimDisables(d: ClaimDialog)
    requires d.Valid() && d.inFlight.Some? && d.inFlight.value.group.id != ""
    ensures d.ButtonsDisabled()
  {
  }
}
