/** Where refunds come from, when they are paid, and what they do to the votes, over whole runs. */
module PaymentRefunds {
  import opened Collections
  import opened Payments
  import opened PaymentRuns
  import opened PaymentHolds

  // ---- Votes of refunded payments ----

  /** A refund that takes the votes back has been processed. */
  ghost predicate TakesVotes(p: Payment) {
    exists i :: 0 <= i < |p.refunds| && p.refunds[i].status == Processed && p.refunds[i].reverseVotes
  }

  ghost predicate Undone(p: Payment) { TakesVotes(p) ==> !AnyLive(p.rows) }

  /** Votes never credited before are credited now. */
  predicate Credits(p: Payment, step: Step) {
    && p.rows == [] && p.purpose == ForVotes
    && match step
       case Release => p.status == Success
       case Credit => p.status == Success && !p.held
       case StaleCredit => Reached(p.history, Success)
       case Gateway(_) => Good(p.amount, step) && !p.held && Heeded(p)
       case _ => false
  }

  lemma StepCredits(p: Payment, step: Step)
    requires Booked(p)
    ensures AnyLive(After(p, step).rows) ==> AnyLive(p.rows) || Credits(p, step)
    ensures Credits(p, step) ==> AnyLive(After(p, step).rows)
    ensures Credits(p, step) ==> After(p, step).refunds == p.refunds
  {
    hide Total, Onward;
    match step
    case RefundNotice(news) => RefundsCreditNothing(p, step);
    case ApproveRefund(_, _, _) => RefundsCreditNothing(p, step);
    case Gateway(m) => MessageCredits(p, m);
    case Dispute(news) => DisputeCreditsNothing(p, news);
    case Release => assert Credits(p, step) ==> After(p, step).rows[0].live;
    case Credit => assert Credits(p, step) ==> After(p, step).rows[0].live;
    case StaleCredit => assert Credits(p, step) ==> After(p, step).rows[0].live;
    case _ =>
  }

  lemma MessageCredits(p: Payment, m: Message)
    requires Booked(p)
    ensures AnyLive(AfterMessage(p, m).rows) ==> AnyLive(p.rows) || Credits(p, Gateway(m))
    ensures Credits(p, Gateway(m)) ==> AnyLive(AfterMessage(p, m).rows) && AfterMessage(p, m).refunds == p.refunds
  {
    ReverseClears(AfterTransition(p, Reversed));
    if Credits(p, Gateway(m)) {
      GoodCredits(p, m);
    }
    hide AnyLive, AfterReverse, Reached;
  }

  lemma GoodCredits(p: Payment, m: Message)
    requires Booked(p) && Credits(p, Gateway(m))
    ensures AnyLive(AfterMessage(p, m).rows) && AfterMessage(p, m).refunds == p.refunds
  {
    hide Reached;
    assert AfterMessage(p, m).rows == [Row(p.votes, true)];
    assert AfterMessage(p, m).rows[0].live;
  }

  lemma DisputeCreditsNothing(p: Payment, news: DisputeNews)
    ensures AnyLive(AfterDispute(p, news).rows) ==> AnyLive(p.rows)
  {
    ReverseClears(AfterTransition(p, Disputed));
    hide AnyLive, AfterReverse;
  }

  lemma CompletionTakesVotes(p: Payment, k: nat)
    requires k < |p.refunds|
    ensures AnyLive(AfterCompletion(p, k).rows) ==> AnyLive(p.rows)
    ensures AnyLive(AfterCompletion(p, k).rows) && TakesVotes(AfterCompletion(p, k)) ==> TakesVotes(p)
  {
    var q := AfterCompletion(p, k);
    CompletionRows(p, k);
    hide AfterCompletion, AnyLive;
    if AnyLive(q.rows) && TakesVotes(q) {
      var i :| 0 <= i < |q.refunds| && q.refunds[i].status == Processed && q.refunds[i].reverseVotes;
      assert p.refunds[i].status == Processed && p.refunds[i].reverseVotes;
    }
  }

  lemma CompletionRows(p: Payment, k: nat)
    requires k < |p.refunds|
    ensures var q := AfterCompletion(p, k);
      && q.refunds == p.refunds[k := p.refunds[k].(status := Processed)]
      && (AnyLive(q.rows) ==> AnyLive(p.rows) && (p.refunds[k].reverseVotes ==> p.refunds[k].status == Processed))
  {
    var refunded := p.refundedAmount + p.refunds[k].amount;
    ReverseClears(AfterTransition(WithRefund(p, k, Processed).(refundedAmount := refunded),
                                  if refunded >= p.amount then Refunded else PartiallyRefunded));
    hide AnyLive, AllowedFrom;
    assert p.refunds[k].status == Processed ==> p.refunds[k := p.refunds[k].(status := Processed)] == p.refunds;
  }

  lemma RefundsCreditNothing(p: Payment, step: Step)
    requires step.RefundNotice? || step.ApproveRefund?
    ensures AnyLive(After(p, step).rows) ==> AnyLive(p.rows)
    ensures AnyLive(After(p, step).rows) && TakesVotes(After(p, step)) ==> TakesVotes(p)
  {
    hide AfterCompletion, AnyLive;
    match step
    case RefundNotice(news) =>
      var latest := LatestOutstanding(p.refunds);
      if latest.Some? {
        CompletionTakesVotes(p, latest.value);
        SameTaken(p, WithRefund(p, latest.value, RefundFailed), latest.value);
      }
    case ApproveRefund(k, answer, immediate) =>
      if k < |p.refunds| {
        forall status | status != Processed ensures TakesVotes(WithRefund(p, k, status)) ==> TakesVotes(p) {
          SameTaken(p, WithRefund(p, k, status), k);
        }
        CompletionTakesVotes(WithRefund(p, k, Processing).(history := p.history + [RefundSent]), k);
      }
  }

  lemma SameTaken(p: Payment, q: Payment, k: nat)
    requires k < |p.refunds| == |q.refunds|
    requires q.refunds == p.refunds[k := q.refunds[k]] && q.refunds[k].status != Processed
    ensures TakesVotes(q) ==> TakesVotes(p)
  {
    if i :| 0 <= i < |q.refunds| && q.refunds[i].status == Processed && q.refunds[i].reverseVotes {
      assert p.refunds[i].status == Processed && p.refunds[i].reverseVotes;
    }
  }

  lemma AskingTakesNothing(p: Payment, step: Step)
    requires step.AskRefund? || step.RejectHold?
    ensures TakesVotes(After(p, step)) <==> TakesVotes(p)
  {
    var q := After(p, step);
    assert forall i :: 0 <= i < |p.refunds| ==> q.refunds[i] == p.refunds[i];
    if TakesVotes(p) {
      var i :| 0 <= i < |p.refunds| && p.refunds[i].status == Processed && p.refunds[i].reverseVotes;
      assert q.refunds[i].status == Processed;
    }
  }

  lemma OthersKeepRefunds(p: Payment, step: Step)
    requires Booked(p)
    requires !step.AskRefund? && !step.RejectHold? && !step.RefundNotice? && !step.ApproveRefund?
    ensures After(p, step).refunds == p.refunds
  {
    hide AnyLive, AllowedFrom, Reached;
  }

  lemma StepUndone(p: Payment, step: Step)
    requires Booked(p) && Undone(p)
    ensures Undone(After(p, step)) <==> !(TakesVotes(p) && Credits(p, step))
  {
    hide After, AnyLive, TakesVotes, Credits, Booked;
    StepCredits(p, step);
    if step.RefundNotice? || step.ApproveRefund? {
      RefundsCreditNothing(p, step);
      NoCreditByRefund(p, step);
    } else if step.AskRefund? || step.RejectHold? {
      AskingTakesNothing(p, step);
    } else {
      OthersKeepRefunds(p, step);
      SameRefundsSameTaken(p, After(p, step));
    }
  }

  lemma NoCreditByRefund(p: Payment, step: Step)
    requires step.RefundNotice? || step.ApproveRefund?
    ensures !Credits(p, step)
  {
  }

  lemma SameRefundsSameTaken(p: Payment, q: Payment)
    requires p.refunds == q.refunds
    ensures TakesVotes(p) <==> TakesVotes(q)
  {
  }

  /**
   Once a refund that takes the votes back is processed no votes of the payment count, throughout a run, exactly if no
   votes are credited for the first time after such a refund.
   */
  lemma RefundTakesVotesBack(purpose: Purpose, amount: int, votes: nat, held: bool, run: seq<Step>)
    ensures var p := Started(purpose, amount, votes, held);
      (forall k :: 0 <= k <= |run| ==> Undone(At(p, run, k)))
      <==> (forall k :: 0 <= k < |run| ==> !(TakesVotes(At(p, run, k)) && Credits(At(p, run, k), run[k])))
  {
    var p := Started(purpose, amount, votes, held);
    assert Undone(At(p, run, 0));
    hide Undone, TakesVotes, Credits, After, AfterAll, Booked;
    forall k | 0 <= k < |run| && Undone(At(p, run, k))
      ensures Undone(At(p, run, k + 1)) <==> !(TakesVotes(At(p, run, k)) && Credits(At(p, run, k), run[k]))
    {
      NextAt(p, run, k);
      AlwaysBooked(purpose, amount, votes, held, run[..k]);
      StepUndone(At(p, run, k), run[k]);
    }
    if forall k :: 0 <= k < |run| ==> !(TakesVotes(At(p, run, k)) && Credits(At(p, run, k), run[k])) {
      for n := 0 to |run|
        invariant forall k :: 0 <= k <= n ==> Undone(At(p, run, k))
      {
        assert Undone(At(p, run, n)) && !(TakesVotes(At(p, run, n)) && Credits(At(p, run, n), run[n]));
      }
    } else {
      var k :| 0 <= k < |run| && TakesVotes(At(p, run, k)) && Credits(At(p, run, k), run[k]);
      assert !(Undone(At(p, run, k)) && Undone(At(p, run, k + 1)));
    }
  }

  /** It can happen: a held payment is refunded in part, disputed and won, and then its hold is released. */
  lemma CreditedAfterRefund(votes: nat)
    ensures var p := Started(ForVotes, 100, votes, false);
      var paid := After(p, Gateway(Succeeded(99, true, false)));
      var refunded := After(After(paid, AskRefund(40, true)), ApproveRefund(0, Accepted, true));
      var won := After(After(refunded, Dispute(DisputeOpened)), Dispute(DisputeWon));
      TakesVotes(won) && !Undone(After(won, Release))
  {
    var p := Started(ForVotes, 100, votes, false);
    var paid := After(p, Gateway(Succeeded(99, true, false)));
    assert paid.status == Success && paid.held && paid.rows == [] && paid.refunds == [] && !paid.votesCredited;
    var asked := After(paid, AskRefund(40, true));
    assert asked.refunds == [Refund(40, Requested, true)] && asked.status == Success;
    hide AfterMessage;
    var refunded := After(asked, ApproveRefund(0, Accepted, true));
    PartOfIt(asked);
    var won := After(After(refunded, Dispute(DisputeOpened)), Dispute(DisputeWon));
    assert won.status == Success && won.rows == [] && won.refunds[0].status == Processed;
    hide AfterRefundApproval;
    assert After(won, Release).rows[0].live && After(won, Release).refunds == won.refunds;
  }

  lemma PartOfIt(p: Payment)
    requires p.refunds == [Refund(40, Requested, true)] && p.status == Success && p.amount == 100
    requires p.refundedAmount == 0 && p.rows == [] && !p.votesCredited && p.purpose == ForVotes
    ensures var q := After(p, ApproveRefund(0, Accepted, true));
      && q.status == PartiallyRefunded && q.rows == [] && !q.votesCredited && q.purpose == ForVotes
      && q.refunds == [Refund(40, Processed, true)]
  {
    hide AnyLive;
  }

  // ---- Where refunds come from, and when they are paid ----

  /** Step `k` of the run asks for this refund, and it is recorded at place `i`. */
  ghost predicate AskedAt(p: Payment, run: seq<Step>, k: int, i: nat, r: Refund) {
    && 0 <= k < |run| && |At(p, run, k).refunds| == i && Refundable(At(p, run, k), r.amount)
    && (run[k] == AskRefund(r.amount, r.reverseVotes)
        || (run[k] == RejectHold(true) && r.amount == At(p, run, k).amount && r.reverseVotes))
  }

  /**
   Step `k` pays back the refund at place `i`: its approval is accepted and carried out at once, or a notice says
   so.
   */
  ghost predicate PaidAt(p: Payment, run: seq<Step>, k: int, i: nat) {
    && 0 <= k < |run|
    && ((run[k] == ApproveRefund(i, Accepted, true) && i < |At(p, run, k).refunds|
         && At(p, run, k).refunds[i].status == Requested)
        || (run[k] == RefundNotice(RefundDone) && LatestOutstanding(At(p, run, k).refunds) == Some(i)))
  }

  ghost predicate Explained(p: Payment, run: seq<Step>, i: nat, r: Refund) {
    && (exists k :: AskedAt(p, run, k, i, r))
    && (r.status == Processed <==> exists k :: PaidAt(p, run, k, i))
  }

  lemma AtPrefix(p: Payment, run: seq<Step>, step: Step, k: nat)
    requires k <= |run|
    ensures At(p, run + [step], k) == At(p, run, k)
  {
    assert (run + [step])[..k] == run[..k];
  }

  lemma ExplainedLater(p: Payment, run: seq<Step>, step: Step, i: nat, r: Refund, later: Refund)
    requires Explained(p, run, i, r) && later.amount == r.amount && later.reverseVotes == r.reverseVotes
    requires later.status == Processed <==> r.status == Processed || PaidAt(p, run + [step], |run|, i)
    ensures Explained(p, run + [step], i, later)
  {
    hide At, LatestOutstanding;
    var more := run + [step];
    forall k | 0 <= k < |run| ensures more[k] == run[k] && At(p, more, k) == At(p, run, k) {
      AtPrefix(p, run, step, k);
    }
    var k :| AskedAt(p, run, k, i, r);
    assert AskedAt(p, more, k, i, later);
    if r.status == Processed {
      var j :| PaidAt(p, run, j, i);
      assert PaidAt(p, more, j, i);
    }
    if j :| PaidAt(p, more, j, i) {
      assert j < |run| ==> PaidAt(p, run, j, i);
    }
  }

  lemma NewlyExplained(p: Payment, run: seq<Step>, step: Step, r: Refund)
    requires AskedAt(p, run + [step], |run|, |At(p, run, |run|).refunds|, r) && r.status == Requested
    requires forall k :: 0 <= k <= |run| ==> |At(p, run, k).refunds| <= |At(p, run, |run|).refunds|
    ensures Explained(p, run + [step], |At(p, run, |run|).refunds|, r)
  {
    var (more, i) := (run + [step], |At(p, run, |run|).refunds|);
    hide At;
    forall k ensures !PaidAt(p, more, k, i) {
      if 0 <= k < |run| {
        AtPrefix(p, run, step, k);
        assert |At(p, run, k).refunds| <= i;
      }
    }
  }

  /** The refund is the same but for its status, and processed now or before. */
  predicate Moved(r: Refund, later: Refund, paid: bool) {
    && later.amount == r.amount && later.reverseVotes == r.reverseVotes
    && (later.status == Processed <==> r.status == Processed || paid)
  }

  lemma CompletionStep(p: Payment, k: nat, i: nat)
    requires k < |p.refunds| && i < |p.refunds|
    ensures |AfterCompletion(p, k).refunds| == |p.refunds|
    ensures Moved(p.refunds[i], AfterCompletion(p, k).refunds[i], i == k)
  {
    hide AnyLive, AllowedFrom;
  }

  lemma ApprovalStep(p: Payment, k: nat, answer: GatewayAnswer, immediate: bool, i: nat)
    requires i < |p.refunds|
    ensures var q := AfterRefundApproval(p, k, answer, immediate);
      && |q.refunds| == |p.refunds|
      && Moved(p.refunds[i], q.refunds[i], k == i && answer == Accepted && immediate
               && p.refunds[i].status == Requested)
  {
    if k < |p.refunds| {
      CompletionStep(WithRefund(p, k, Processing).(history := p.history + [RefundSent]), k, i);
    }
    hide AfterCompletion;
  }

  /** What a step does to a refund on record. */
  lemma RefundStep(p: Payment, step: Step, i: nat)
    requires Booked(p) && i < |p.refunds|
    ensures var q := After(p, step);
      && i < |q.refunds|
      && Moved(p.refunds[i], q.refunds[i],
               || (step == ApproveRefund(i, Accepted, true) && p.refunds[i].status == Requested)
               || (step == RefundNotice(RefundDone) && LatestOutstanding(p.refunds) == Some(i)))
  {
    hide AfterCompletion, AfterRefundApproval, Booked;
    match step
    case RefundNotice(_) =>
      var latest := LatestOutstanding(p.refunds);
      if latest.Some? { CompletionStep(p, latest.value, i); }
    case ApproveRefund(k, answer, immediate) => ApprovalStep(p, k, answer, immediate, i);
    case AskRefund(_, _) =>
    case RejectHold(_) =>
    case _ => OthersKeepRefunds(p, step); hide After;
  }

  /** New refunds come from accepted requests only. */
  lemma NewRefund(p: Payment, step: Step)
    requires Booked(p)
    ensures |p.refunds| <= |After(p, step).refunds| <= |p.refunds| + 1
    ensures |After(p, step).refunds| > |p.refunds| ==>
      var r := After(p, step).refunds[|p.refunds|];
      && r.status == Requested && Refundable(p, r.amount)
      && (step == AskRefund(r.amount, r.reverseVotes)
          || (step == RejectHold(true) && r.amount == p.amount && r.reverseVotes))
  {
    hide AnyLive, AllowedFrom, Booked;
    match step
    case RefundNotice(_) =>
    case ApproveRefund(_, _, _) =>
    case AskRefund(_, _) =>
    case RejectHold(_) =>
    case _ => OthersKeepRefunds(p, step); hide After;
  }

  lemma {:induction false} RefundsGrow(purpose: Purpose, amount: int, votes: nat, held: bool, run: seq<Step>, k: nat)
    requires k <= |run|
    ensures var p := Started(purpose, amount, votes, held);
      |At(p, run, k).refunds| <= |At(p, run, |run|).refunds|
    decreases |run| - k
  {
    hide After, Booked, AfterAll;
    if k < |run| {
      NextAt(Started(purpose, amount, votes, held), run, k);
      AlwaysBooked(purpose, amount, votes, held, run[..k]);
      NewRefund(At(Started(purpose, amount, votes, held), run, k), run[k]);
      RefundsGrow(purpose, amount, votes, held, run, k + 1);
    }
  }

  lemma StepExplains(purpose: Purpose, amount: int, votes: nat, held: bool, run: seq<Step>, step: Step, i: nat)
    requires var p := Started(purpose, amount, votes, held);
      && (forall j :: 0 <= j < |AfterAll(p, run).refunds| ==> Explained(p, run, j, AfterAll(p, run).refunds[j]))
      && i < |AfterAll(p, run + [step]).refunds|
    ensures var p := Started(purpose, amount, votes, held);
      Explained(p, run + [step], i, AfterAll(p, run + [step]).refunds[i])
  {
    hide After, Booked, AfterAll, Explained, Refundable;
    var (p, more) := (Started(purpose, amount, votes, held), run + [step]);
    AtPrefix(p, run, step, |run|);
    NextAt(p, more, |run|);
    assert more[..|more|] == more && run[..|run|] == run && more[|run|] == step;
    var (before, after) := (AfterAll(p, run), AfterAll(p, more));
    AlwaysBooked(purpose, amount, votes, held, run);
    NewRefund(before, step);
    if i < |before.refunds| {
      RefundStep(before, step, i);
      assert At(p, more, |run|) == before;
      ExplainedLater(p, run, step, i, before.refunds[i], after.refunds[i]);
    } else {
      forall k | 0 <= k <= |run| ensures |At(p, run, k).refunds| <= |before.refunds| {
        RefundsGrow(purpose, amount, votes, held, run, k);
      }
      NewlyExplained(p, run, step, after.refunds[i]);
    }
  }

  /**
   Each refund on record was asked for, with its amount and its effect on the votes, while the payment could be refunded
   by that much; and it is processed exactly if an approval was carried out at once or the gateway said so about it.
   */
  lemma {:induction false} RefundsAreExplained(purpose: Purpose, amount: int, votes: nat, held: bool, run: seq<Step>)
    ensures var p := Started(purpose, amount, votes, held);
      forall i :: 0 <= i < |AfterAll(p, run).refunds| ==> Explained(p, run, i, AfterAll(p, run).refunds[i])
  {
    hide After, Explained;
    if run != [] {
      var (front, last) := (run[..|run| - 1], run[|run| - 1]);
      RefundsAreExplained(purpose, amount, votes, held, front);
      assert front + [last] == run;
      forall i | 0 <= i < |AfterAll(Started(purpose, amount, votes, held), front + [last]).refunds|
        ensures var p := Started(purpose, amount, votes, held);
          Explained(p, front + [last], i, AfterAll(p, front + [last]).refunds[i])
      {
        StepExplains(purpose, amount, votes, held, front, last, i);
      }
    }
  }

  // ---- What becomes of a refund ----

  /** Approving moves a requested refund along with the gateway's answer, and no other one. */
  lemma ApprovalOutcome(p: Payment, k: nat, answer: GatewayAnswer, immediate: bool)
    ensures var q := After(p, ApproveRefund(k, answer, immediate));
      if k >= |p.refunds| || p.refunds[k].status != Requested then q == p
      else
        && q.refunds == p.refunds[k := p.refunds[k].(status := q.refunds[k].status)]
        && q.refunds[k].status == (
             match answer
             case NoAnswer => Agreed
             case TurnedDown => RefundFailed
             case Accepted => if immediate then Processed else Processing)
        && q.refundedAmount == p.refundedAmount + (if answer == Accepted && immediate then p.refunds[k].amount else 0)
  {
    if k < |p.refunds| {
      CompletionRows(WithRefund(p, k, Processing).(history := p.history + [RefundSent]), k);
      PaidBack(WithRefund(p, k, Processing).(history := p.history + [RefundSent]), k);
    }
    hide AfterCompletion, AnyLive;
  }

  lemma PaidBack(p: Payment, k: nat)
    requires k < |p.refunds| && p.refunds[k].status != Processed
    ensures AfterCompletion(p, k).refundedAmount == p.refundedAmount + p.refunds[k].amount
  {
    hide AnyLive, AllowedFrom;
  }

  /** A notice is about the latest refund still outstanding: it completes it, breaks it or leaves a remark. */
  lemma NoticeOutcome(p: Payment, news: RefundNews, k: nat)
    requires k < |p.refunds| && Outstanding(p.refunds[k])
    requires forall i :: k < i < |p.refunds| ==> !Outstanding(p.refunds[i])
    ensures var q := After(p, RefundNotice(news));
      match news
      case RefundDone => q.refunds == p.refunds[k := p.refunds[k].(status := Processed)]
        && q.refundedAmount == p.refundedAmount + p.refunds[k].amount
      case RefundBroke =>
        q == p.(refunds := p.refunds[k := p.refunds[k].(status := RefundFailed)], history := p.history + [RefundNote])
      case RefundUpdate => q == p.(history := p.history + [RefundNote])
  {
    assert LatestOutstanding(p.refunds) == Some(k);
    CompletionRows(p, k);
    PaidBack(p, k);
    hide AfterCompletion, AnyLive;
  }

  /**
   Refunds exist only of payments that were successful, and whoever got everything back is refunded, or was
   reversed.
   */
  ghost predicate Settled(p: Payment) {
    && (p.refunds != [] ==> !Unpaid(p.status))
    && (p.refunds == [] ==> p.refundedAmount == 0)
    && (p.refundedAmount >= p.amount > 0 ==> p.status == Refunded || p.status == Reversed)
  }

  lemma CompletionSettles(p: Payment, k: nat)
    requires k < |p.refunds| && Settled(p)
    ensures Settled(AfterCompletion(p, k))
  {
    hide AnyLive;
  }

  lemma StatusSettles(p: Payment, step: Step)
    requires Settled(p) && Booked(p)
    requires !step.AskRefund? && !step.RejectHold? && !step.RefundNotice? && !step.ApproveRefund?
    ensures Settled(After(p, step))
  {
    OthersKeepRefunds(p, step);
    if !Unpaid(p.status) {
      PaidStays(p, step);
    }
    LostStays(p, step);
    hide After, Unpaid;
  }

  lemma LostStays(p: Payment, step: Step)
    requires Booked(p)
    requires !step.AskRefund? && !step.RejectHold? && !step.RefundNotice? && !step.ApproveRefund?
    ensures p.status == Refunded || p.status == Reversed ==> After(p, step).status == p.status
    ensures After(p, step).refundedAmount == p.refundedAmount && After(p, step).amount == p.amount
  {
    hide AnyLive, Reached;
  }

  lemma StepSettles(p: Payment, step: Step)
    requires Settled(p) && Booked(p)
    ensures Settled(After(p, step))
  {
    hide AfterCompletion, AnyLive, Booked;
    match step
    case RefundNotice(_) =>
      var latest := LatestOutstanding(p.refunds);
      if latest.Some? { CompletionSettles(p, latest.value); }
      hide Unpaid;
    case ApproveRefund(k, _, _) =>
      if k < |p.refunds| { CompletionSettles(WithRefund(p, k, Processing).(history := p.history + [RefundSent]), k); }
      hide Unpaid;
    case AskRefund(_, _) =>
    case RejectHold(_) =>
    case _ => StatusSettles(p, step); hide After;
  }

  lemma {:induction false} RunSettles(purpose: Purpose, amount: int, votes: nat, held: bool, run: seq<Step>)
    ensures Settled(AfterAll(Started(purpose, amount, votes, held), run))
  {
    hide After, Booked, Settled;
    if run == [] {
      assert Settled(Started(purpose, amount, votes, held)) by { NothingRefunded(purpose, amount, votes, held); }
    } else {
      RunSettles(purpose, amount, votes, held, run[..|run| - 1]);
      AlwaysBooked(purpose, amount, votes, held, run[..|run| - 1]);
      StepSettles(AfterAll(Started(purpose, amount, votes, held), run[..|run| - 1]), run[|run| - 1]);
    }
  }

  lemma NothingRefunded(purpose: Purpose, amount: int, votes: nat, held: bool)
    ensures Settled(Started(purpose, amount, votes, held))
  {
  }

  /** A payment is refunded exactly when all of it has been given back, unless it was reversed before. */
  lemma RefundedIffPaidBack(purpose: Purpose, amount: int, votes: nat, held: bool, run: seq<Step>)
    requires amount > 0
    ensures var p := AfterAll(Started(purpose, amount, votes, held), run);
      p.status == Refunded <==> p.refundedAmount >= amount && p.status != Reversed
  {
    RunSettles(purpose, amount, votes, held, run);
    RefundsAddUp(purpose, amount, votes, held, run);
    AmountStays(purpose, amount, votes, held, run);
    hide AfterAll, Total;
  }
}
