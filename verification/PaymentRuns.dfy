/** What holds of a payment after any messages, reviews, disputes and refunds, in any order and any number. */
module PaymentRuns {
  import opened Collections
  import opened Payments

  datatype Step =
    | Gateway(message: Message)
    | Expire
    | Release
    | RejectHold(mayRefund: bool)
    | Credit
    | StaleCredit  // crediting by a worker that read the payment while it was successful, uncredited and not held
    | Dispute(dispute: DisputeNews)
    | AskRefund(amount: int, reverseVotes: bool)
    | ApproveRefund(k: nat, answer: GatewayAnswer, immediate: bool)
    | RefundNotice(refund: RefundNews)

  function After(p: Payment, step: Step): Payment {
    match step
    case Gateway(m) => AfterMessage(p, m)
    case Expire => AfterExpiry(p)
    case Release => AfterRelease(p)
    case RejectHold(mayRefund) => AfterHoldRejected(p, mayRefund)
    case Credit => AfterCredit(p)
    case StaleCredit => AfterStaleCredit(p)
    case Dispute(news) => AfterDispute(p, news)
    case AskRefund(amount, reverseVotes) => AfterRefundRequest(p, amount, reverseVotes)
    case ApproveRefund(k, answer, immediate) => AfterRefundApproval(p, k, answer, immediate)
    case RefundNotice(news) => AfterRefundNews(p, news)
  }

  predicate Reached(history: seq<Entry>, s: Status) {
    exists i :: 0 <= i < |history| && history[i].Change? && history[i].after == s
  }

  /** Only the constraint on ledger rows stands in the way of a worker with an old view of the payment. */
  function AfterStaleCredit(p: Payment): Payment {
    if !Reached(p.history, Success) || p.rows != [] || p.purpose != ForVotes then p
    else p.(rows := [Row(p.votes, true)], votesCredited := true, history := p.history + [Credited])
  }

  function AfterAll(p: Payment, run: seq<Step>): Payment {
    if run == [] then p else After(AfterAll(p, run[..|run| - 1]), run[|run| - 1])
  }

  function Started(purpose: Purpose, amount: int, votes: nat, held: bool): Payment {
    Payment(purpose, amount, votes, Initialized, held, false, 0, [], [], [Began])
  }

  // ---- The history ----

  /** The status a history ends in. */
  function Replayed(history: seq<Entry>): Status {
    if history == [] then Initialized
    else if history[|history| - 1].Change? then history[|history| - 1].after
    else Replayed(history[..|history| - 1])
  }

  /** A history that starts where payments start, and changes status only from where it stands, as allowed. */
  ghost predicate Legal(history: seq<Entry>) {
    history != [] ==>
      var (front, last) := (history[..|history| - 1], history[|history| - 1]);
      && Legal(front) && (last.Began? <==> front == [])
      && (last.Change? ==> last.before == Replayed(front) && last.after in AllowedFrom(last.before))
  }

  ghost predicate Recorded(p: Payment) { p.history != [] && Legal(p.history) && Replayed(p.history) == p.status }

  predicate Remark(entry: Entry) { !entry.Began? && !entry.Change? }

  lemma AddRemark(history: seq<Entry>, entry: Entry)
    requires history != [] && Legal(history) && Remark(entry)
    ensures Legal(history + [entry]) && Replayed(history + [entry]) == Replayed(history)
  {
    assert (history + [entry])[..|history|] == history;
  }

  lemma AddChange(history: seq<Entry>, after: Status)
    requires history != [] && Legal(history) && after in AllowedFrom(Replayed(history))
    ensures Legal(history + [Change(Replayed(history), after)])
      && Replayed(history + [Change(Replayed(history), after)]) == after
  {
    assert (history + [Change(Replayed(history), after)])[..|history|] == history;
  }

  lemma ReachedStays(history: seq<Entry>, entry: Entry, s: Status)
    ensures Reached(history + [entry], s) <==> Reached(history, s) || (entry.Change? && entry.after == s)
  {
    assert (history + [entry])[|history|] == entry;
    if i :| 0 <= i < |history| && history[i].Change? && history[i].after == s {
      assert (history + [entry])[i] == history[i];
    }
  }

  lemma {:induction false} ReplayedIsReached(history: seq<Entry>)
    requires Replayed(history) != Initialized
    ensures Reached(history, Replayed(history))
  {
    if !history[|history| - 1].Change? {
      ReplayedIsReached(history[..|history| - 1]);
      ReachedStays(history[..|history| - 1], history[|history| - 1], Replayed(history));
      assert history == history[..|history| - 1] + [history[|history| - 1]];
    }
  }

  // ---- The ledger and the history, over all runs ----

  /** At most one ledger row, exactly when votes are credited, with the votes paid for, and only after a success. */
  ghost predicate Booked(p: Payment) {
    && |p.rows| <= 1 && (p.votesCredited <==> p.rows != [])
    && (p.rows != [] ==> p.rows[0].votes == p.votes && p.purpose == ForVotes && Reached(p.history, Success))
  }

  ghost predicate Kept(p: Payment) { Recorded(p) && Booked(p) }

  /** What no step takes back: the terms of the payment, a row once written, and a row once reversed. */
  ghost predicate Onward(p: Payment, q: Payment) {
    && q.purpose == p.purpose && q.amount == p.amount && q.votes == p.votes && p.refundedAmount <= q.refundedAmount
    && |p.rows| <= |q.rows|
    && (forall i :: 0 <= i < |p.rows| ==> q.rows[i].votes == p.rows[i].votes && (q.rows[i].live ==> p.rows[i].live))
    && |p.history| <= |q.history| && q.history[..|p.history|] == p.history
  }

  lemma NoteKeeps(p: Payment, entry: Entry)
    requires Kept(p) && Remark(entry)
    ensures Kept(p.(history := p.history + [entry]))
  {
    hide Legal, Replayed;
    AddRemark(p.history, entry);
    ReachedStays(p.history, entry, Success);
    hide Reached;
  }

  lemma TransitionKeeps(p: Payment, to: Status)
    requires Kept(p)
    ensures Kept(AfterTransition(p, to))
  {
    hide Legal, Replayed, Reached;
    if p.status != to {
      if to in AllowedFrom(p.status) {
        AddChange(p.history, to);
        ReachedStays(p.history, Change(p.status, to), Success);
      } else {
        NoteKeeps(p, Ignored(p.status, to));
      }
    }
  }

  lemma CreditKeeps(p: Payment)
    requires Kept(p)
    ensures Kept(AfterCredit(p)) && Kept(AfterStaleCredit(p))
  {
    hide Legal, Replayed, Reached;
    AddRemark(p.history, Credited);
    ReachedStays(p.history, Credited, Success);
    if p.status == Success {
      ReplayedIsReached(p.history);
    }
  }

  lemma ReverseKeeps(p: Payment)
    requires Kept(p)
    ensures Kept(AfterReverse(p))
  {
    hide Legal, Replayed, Reached;
    AddRemark(p.history, VotesReversed);
    ReachedStays(p.history, VotesReversed, Success);
  }

  lemma RefundFieldsKeep(p: Payment, refunds: seq<Refund>, refunded: int)
    requires Kept(p)
    ensures Kept(p.(refunds := refunds, refundedAmount := refunded))
  {
    hide Legal, Replayed, Reached;
  }

  lemma HeldKeeps(p: Payment, held: bool)
    requires Kept(p)
    ensures Kept(p.(held := held))
  {
    hide Legal, Replayed, Reached;
  }

  lemma MessageKeeps(p: Payment, m: Message)
    requires Kept(p)
    ensures Kept(AfterMessage(p, m))
  {
    hide Kept, AfterTransition, AfterCredit, AfterReverse, Moves;
    match m
    case Succeeded(amount, sameCurrency, risky) =>
      var q := AfterTransition(p, Success);
      TransitionKeeps(p, Success);
      forall held ensures Kept(q.(held := held)) {
        HeldKeeps(q, held);
      }
      forall held ensures Kept(AfterCredit(q.(held := held))) {
        CreditKeeps(q.(held := held));
      }
    case Declined => TransitionKeeps(p, Failed);
    case GaveUp => TransitionKeeps(p, Abandoned);
    case TakenBack => TransitionKeeps(p, Reversed); ReverseKeeps(AfterTransition(p, Reversed));
    case Other => TransitionKeeps(p, Pending);
  }

  lemma CompletionKeeps(p: Payment, k: nat)
    requires Kept(p) && k < |p.refunds|
    ensures Kept(AfterCompletion(p, k))
  {
    hide Kept, AfterTransition, AfterReverse;
    var refunded := p.refundedAmount + p.refunds[k].amount;
    var q := WithRefund(p, k, Processed).(refundedAmount := refunded);
    RefundFieldsKeep(p, q.refunds, refunded);
    forall to ensures Kept(AfterTransition(q, to)) && Kept(AfterReverse(AfterTransition(q, to))) {
      TransitionKeeps(q, to);
      ReverseKeeps(AfterTransition(q, to));
    }
  }

  lemma RefundStepKeeps(p: Payment, step: Step)
    requires Kept(p) && (step.AskRefund? || step.ApproveRefund? || step.RefundNotice? || step.RejectHold?)
    ensures Kept(After(p, step))
  {
    hide Kept, AfterCompletion;
    match step
    case AskRefund(amount, reverseVotes) => AskKeeps(p, amount, reverseVotes);
    case RejectHold(mayRefund) =>
      NoteKeeps(p, HoldRejected);
      AskKeeps(p.(history := p.history + [HoldRejected]), p.amount, true);
    case ApproveRefund(k, answer, immediate) =>
      if k < |p.refunds| {
        forall status ensures Kept(WithRefund(p, k, status)) {
          RefundFieldsKeep(p, WithRefund(p, k, status).refunds, p.refundedAmount);
        }
        NoteKeeps(WithRefund(p, k, RefundFailed), RefundNote);
        NoteKeeps(WithRefund(p, k, Processing), RefundSent);
        CompletionKeeps(WithRefund(p, k, Processing).(history := p.history + [RefundSent]), k);
      }
    case RefundNotice(news) =>
      var latest := LatestOutstanding(p.refunds);
      if latest.Some? {
        CompletionKeeps(p, latest.value);
        RefundFieldsKeep(p, WithRefund(p, latest.value, RefundFailed).refunds, p.refundedAmount);
        NoteKeeps(WithRefund(p, latest.value, RefundFailed), RefundNote);
        NoteKeeps(p, RefundNote);
      }
  }

  lemma AskKeeps(p: Payment, amount: int, reverseVotes: bool)
    requires Kept(p)
    ensures Kept(AfterRefundRequest(p, amount, reverseVotes))
  {
    hide Kept;
    var refunds := p.refunds + [Refund(amount, Requested, reverseVotes)];
    RefundFieldsKeep(p, refunds, p.refundedAmount);
    NoteKeeps(p.(refunds := refunds), RefundAsked);
  }

  lemma StepKeeps(p: Payment, step: Step)
    requires Kept(p)
    ensures Kept(After(p, step))
  {
    hide Kept, AfterTransition, AfterCredit, AfterStaleCredit, AfterReverse, AfterMessage, Moves;
    match step
    case Gateway(m) => MessageKeeps(p, m);
    case Expire => TransitionKeeps(p, Abandoned);
    case Release =>
      HeldKeeps(p, false);
      NoteKeeps(p.(held := false), HoldReleased);
      CreditKeeps(p.(held := false, history := p.history + [HoldReleased]));
    case Credit => CreditKeeps(p);
    case StaleCredit => CreditKeeps(p);
    case Dispute(news) =>
      forall to ensures Kept(AfterTransition(p, to)) && Kept(AfterReverse(AfterTransition(p, to))) {
        TransitionKeeps(p, to);
        ReverseKeeps(AfterTransition(p, to));
      }
    case _ => RefundStepKeeps(p, step);
  }

  /**
   After any run: there is at most one ledger row for the payment, exactly when its votes are marked as
   credited, holding the votes paid for, and only if the payment was successful at some time; and the history
   replays, along allowed changes only, to the present status.
   */
  lemma {:induction false} VotesAreBookedOnce(purpose: Purpose, amount: int, votes: nat, held: bool, run: seq<Step>)
    ensures var p := AfterAll(Started(purpose, amount, votes, held), run);
      && |p.rows| <= 1 && (p.votesCredited <==> p.rows != [])
      && (p.rows != [] ==> p.rows[0].votes == p.votes && Reached(p.history, Success))
      && Legal(p.history) && Replayed(p.history) == p.status
  {
    AlwaysKept(purpose, amount, votes, held, run);
    hide AfterAll, Legal, Replayed, Reached;
  }

  lemma {:induction false} AlwaysKept(purpose: Purpose, amount: int, votes: nat, held: bool, run: seq<Step>)
    ensures Kept(AfterAll(Started(purpose, amount, votes, held), run))
  {
    hide Kept, After;
    if run == [] {
      StartKept(purpose, amount, votes, held);
    } else {
      AlwaysKept(purpose, amount, votes, held, run[..|run| - 1]);
      StepKeeps(AfterAll(Started(purpose, amount, votes, held), run[..|run| - 1]), run[|run| - 1]);
    }
  }

  lemma StartKept(purpose: Purpose, amount: int, votes: nat, held: bool)
    ensures Kept(Started(purpose, amount, votes, held))
  {
    assert [Began][..0] == [];
    assert Legal([]);
  }

  // ---- From one moment to a later one ----

  ghost predicate NonNegative(refunds: seq<Refund>) { forall i :: 0 <= i < |refunds| ==> refunds[i].amount >= 0 }

  lemma StepOnward(p: Payment, step: Step)
    requires Booked(p) && NonNegative(p.refunds)
    ensures Onward(p, After(p, step)) && NonNegative(After(p, step).refunds)
  {
    hide Onward, AfterTransition, AfterMessage, AfterDispute, AfterCredit, AfterStaleCredit;
    match step
    case Gateway(m) => MessageOnward(p, m);
    case Expire => TransitionOnward(p, Abandoned); OnwardSelf(p);
    case Dispute(news) => DisputeOnward(p, news);
    case Release =>
      var q := p.(held := false, history := p.history + [HoldReleased]);
      RemarkOnward(p, q);
      CreditOnward(q);
      OnwardTwice(p, q, AfterCredit(q));
    case Credit => CreditOnward(p);
    case StaleCredit => CreditOnward(p);
    case _ => RefundStepOnward(p, step);
  }

  lemma RemarkOnward(p: Payment, q: Payment)
    requires q == p.(held := q.held, refunds := q.refunds, history := q.history) && |q.history| == |p.history| + 1
    requires q.history[..|p.history|] == p.history
    ensures Onward(p, q)
  {
  }

  lemma RefundStepOnward(p: Payment, step: Step)
    requires NonNegative(p.refunds)
    requires step.AskRefund? || step.ApproveRefund? || step.RefundNotice? || step.RejectHold?
    ensures Onward(p, After(p, step)) && NonNegative(After(p, step).refunds)
  {
    hide Onward, AfterRefundRequest, AfterRefundApproval, AfterRefundNews;
    match step
    case AskRefund(amount, reverseVotes) => AskOnward(p, amount, reverseVotes);
    case RejectHold(mayRefund) =>
      var q := p.(history := p.history + [HoldRejected]);
      RemarkOnward(p, q);
      AskOnward(q, p.amount, true);
      OnwardTwice(p, q, AfterRefundRequest(q, p.amount, true));
    case ApproveRefund(k, answer, immediate) => ApprovalOnward(p, k, answer, immediate);
    case RefundNotice(news) => NoticeOnward(p, news);
  }

  lemma AskOnward(p: Payment, amount: int, reverseVotes: bool)
    requires NonNegative(p.refunds)
    ensures var q := AfterRefundRequest(p, amount, reverseVotes);
      Onward(p, q) && NonNegative(q.refunds)
  {
  }

  lemma ApprovalOnward(p: Payment, k: nat, answer: GatewayAnswer, immediate: bool)
    requires NonNegative(p.refunds)
    ensures var q := AfterRefundApproval(p, k, answer, immediate);
      Onward(p, q) && NonNegative(q.refunds)
  {
    if k < |p.refunds| {
      var sent := WithRefund(p, k, Processing).(history := p.history + [RefundSent]);
      CompletionOnward(sent, k);
      if answer == Accepted {
        RemarkOnward(p, sent);
        OnwardTwice(p, sent, AfterCompletion(sent, k));
      }
    }
    hide AfterCompletion;
  }

  lemma NoticeOnward(p: Payment, news: RefundNews)
    requires NonNegative(p.refunds)
    ensures var q := AfterRefundNews(p, news);
      Onward(p, q) && NonNegative(q.refunds)
  {
    var latest := LatestOutstanding(p.refunds);
    if latest.Some? {
      CompletionOnward(p, latest.value);
    }
    hide AfterCompletion;
  }

  lemma TransitionOnward(p: Payment, to: Status)
    ensures Onward(p, AfterTransition(p, to)) && AfterTransition(p, to).refunds == p.refunds
      && AfterTransition(p, to).rows == p.rows
  {
    hide AllowedFrom;
  }

  lemma CreditOnward(p: Payment)
    ensures Onward(p, AfterCredit(p)) && Onward(p, AfterStaleCredit(p))
    ensures AfterCredit(p).refunds == AfterStaleCredit(p).refunds == p.refunds
  {
    hide Reached;
  }

  lemma MessageOnward(p: Payment, m: Message)
    requires Booked(p)
    ensures Onward(p, AfterMessage(p, m)) && AfterMessage(p, m).refunds == p.refunds
  {
    forall to
      ensures Onward(p, AfterTransition(p, to)) && AfterTransition(p, to).refunds == p.refunds
        && AfterTransition(p, to).rows == p.rows
    {
      TransitionOnward(p, to);
    }
    hide AllowedFrom, Reached;
  }

  lemma DisputeOnward(p: Payment, news: DisputeNews)
    ensures Onward(p, AfterDispute(p, news)) && AfterDispute(p, news).refunds == p.refunds
  {
    hide AllowedFrom;
  }

  lemma CompletionOnward(p: Payment, k: nat)
    requires k < |p.refunds| && NonNegative(p.refunds)
    ensures Onward(p, AfterCompletion(p, k))
    ensures NonNegative(AfterCompletion(p, k).refunds)
  {
    hide AfterTransition, AfterReverse, Onward;
    if p.refunds[k].status == Processed {
      OnwardSelf(p);
    } else {
      var refunded := p.refundedAmount + p.refunds[k].amount;
      var q := WithRefund(p, k, Processed).(refundedAmount := refunded);
      var r := AfterTransition(q, if refunded >= p.amount then Refunded else PartiallyRefunded);
      PaidBackOnward(p, q);
      TransitionOnward(q, if refunded >= p.amount then Refunded else PartiallyRefunded);
      OnwardTwice(p, q, r);
      ReverseOnward(r);
      OnwardTwice(p, r, AfterReverse(r));
    }
  }

  lemma PaidBackOnward(p: Payment, q: Payment)
    requires q == p.(refunds := q.refunds, refundedAmount := q.refundedAmount) && q.refundedAmount >= p.refundedAmount
    ensures Onward(p, q)
  {
  }

  lemma ReverseOnward(p: Payment)
    ensures Onward(p, AfterReverse(p)) && AfterReverse(p).refunds == p.refunds
  {
  }

  lemma {:induction false} Positive(purpose: Purpose, amount: int, votes: nat, held: bool, run: seq<Step>)
    ensures var p := AfterAll(Started(purpose, amount, votes, held), run); NonNegative(p.refunds)
  {
    hide After, Booked;
    if run != [] {
      Positive(purpose, amount, votes, held, run[..|run| - 1]);
      AlwaysBooked(purpose, amount, votes, held, run[..|run| - 1]);
      StepOnward(AfterAll(Started(purpose, amount, votes, held), run[..|run| - 1]), run[|run| - 1]);
    }
  }

  lemma AlwaysBooked(purpose: Purpose, amount: int, votes: nat, held: bool, run: seq<Step>)
    ensures Booked(AfterAll(Started(purpose, amount, votes, held), run))
  {
    AlwaysKept(purpose, amount, votes, held, run);
    hide AfterAll, Recorded, Booked;
  }

  /** The payment after the first `k` steps of a run. */
  function At(p: Payment, run: seq<Step>, k: nat): Payment
    requires k <= |run|
  {
    AfterAll(p, run[..k])
  }

  lemma NextAt(p: Payment, run: seq<Step>, k: nat)
    requires k < |run|
    ensures At(p, run, k + 1) == After(At(p, run, k), run[k])
  {
    assert run[..k + 1][..k] == run[..k];
  }

  /** A row once reversed never counts again, the row is never replaced, and the history is only added to. */
  lemma {:induction false} ReversedStaysReversed(purpose: Purpose, amount: int, votes: nat, held: bool, run: seq<Step>,
                                                 i: nat, j: nat)
    requires i <= j <= |run|
    ensures Onward(At(Started(purpose, amount, votes, held), run, i), At(Started(purpose, amount, votes, held), run, j))
    decreases j
  {
    hide After, AfterAll, Onward, Booked;
    var p := Started(purpose, amount, votes, held);
    if i < j {
      ReversedStaysReversed(purpose, amount, votes, held, run, i, j - 1);
      NextAt(p, run, j - 1);
      AlwaysBooked(purpose, amount, votes, held, run[..j - 1]);
      Positive(purpose, amount, votes, held, run[..j - 1]);
      StepOnward(At(p, run, j - 1), run[j - 1]);
      OnwardTwice(At(p, run, i), At(p, run, j - 1), At(p, run, j));
    } else {
      OnwardSelf(At(p, run, i));
    }
  }

  lemma OnwardSelf(p: Payment)
    ensures Onward(p, p)
  {
  }

  lemma OnwardTwice(p: Payment, q: Payment, r: Payment)
    requires Onward(p, q) && Onward(q, r)
    ensures Onward(p, r)
  {
    assert r.history[..|p.history|] == r.history[..|q.history|][..|p.history|];
  }

  // ---- What the gateway says ----

  /**
   What a step claims about the payment, for the steps by which the gateway's word arrives or its silence is
   noted.
   */
  function Said(step: Step): Option<Status> {
    match step
    case Gateway(Succeeded(_, _, _)) => Some(Success)
    case Gateway(Declined) => Some(Failed)
    case Gateway(GaveUp) => Some(Abandoned)
    case Gateway(Other) => Some(Pending)
    case Expire => Some(Abandoned)
    case _ => None
  }

  function Rank(s: Status): nat {
    match s
    case Initialized => 0
    case Pending => 1
    case Abandoned => 2
    case Failed => 3
    case _ => 4
  }

  lemma SaidIsHighest(p: Payment, step: Step)
    requires Said(step).Some? && (p.status == Success || Rank(p.status) < 4)
    ensures After(p, step).status == if Rank(Said(step).value) > Rank(p.status) then Said(step).value else p.status
  {
  }

  /**
   As long as nothing but the gateway's word and its silence arrives, in any order and with any repetitions,
   the status is the highest of what was said, from initialized over pending, abandoned and failed to success.
   */
  lemma {:induction false} HighestStatusWins(p: Payment, run: seq<Step>)
    requires p.status == Initialized && forall i :: 0 <= i < |run| ==> Said(run[i]).Some?
    ensures var s := AfterAll(p, run).status;
      && (s == Success || Rank(s) < 4)
      && (s == Initialized || exists i :: 0 <= i < |run| && Said(run[i]) == Some(s))
      && (forall i :: 0 <= i < |run| ==> Rank(Said(run[i]).value) <= Rank(s))
  {
    hide After, Said;
    if run != [] {
      var front, last := run[..|run| - 1], run[|run| - 1];
      HighestStatusWins(p, front);
      SaidIsHighest(AfterAll(p, front), last);
      SaidRanks(last);
    }
  }

  lemma SaidRanks(step: Step)
    ensures Said(step).Some? ==> Said(step).value == Success || Rank(Said(step).value) < 4
  {
  }

  /** The same reports in another order, or repeated, end in the same status. */
  lemma OrderDoesNotMatter(p: Payment, run: seq<Step>, other: seq<Step>)
    requires p.status == Initialized
    requires forall i :: 0 <= i < |run| ==> Said(run[i]).Some?
    requires forall i :: 0 <= i < |other| ==> Said(other[i]).Some?
    requires forall step :: step in run <==> step in other
    ensures AfterAll(p, run).status == AfterAll(p, other).status
  {
    hide AfterAll, Said;
    HighestStatusWins(p, run);
    HighestStatusWins(p, other);
    var s, t := AfterAll(p, run).status, AfterAll(p, other).status;
    if s != Initialized {
      var i :| 0 <= i < |run| && Said(run[i]) == Some(s);
      assert run[i] in other;
    }
    if t != Initialized {
      var i :| 0 <= i < |other| && Said(other[i]) == Some(t);
      assert other[i] in run;
    }
  }

  /** The full amount is reported, in the right currency, and the risk check finds nothing. */
  predicate Unobjectionable(p: Payment, step: Step) {
    step.Gateway? && step.message.Succeeded? ==>
      step.message.amount == p.amount && step.message.sameCurrency && !step.message.risky
  }

  lemma CreditedIffSuccess(p: Payment, q: Payment, step: Step)
    requires Said(step).Some? && Unobjectionable(p, step)
    requires q == p.(status := q.status, rows := q.rows, votesCredited := q.votesCredited, history := q.history)
    requires p.purpose == ForVotes && !p.held && Rank(q.status) <= 4 && (Rank(q.status) == 4 ==> q.status == Success)
    requires q.rows == (if q.status == Success then [Row(p.votes, true)] else []) && (q.votesCredited <==> q.rows != [])
    ensures var r := After(q, step);
      && r == p.(status := r.status, rows := r.rows, votesCredited := r.votesCredited, history := r.history)
      && r.rows == (if r.status == Success then [Row(p.votes, true)] else []) && (r.votesCredited <==> r.rows != [])
  {
  }

  /** Then the votes are credited, exactly once, if and only if a success was reported at least once. */
  lemma {:induction false} CreditedOnceIffPaid(amount: int, votes: nat, run: seq<Step>)
    requires var p := Started(ForVotes, amount, votes, false);
      forall i :: 0 <= i < |run| ==> Said(run[i]).Some? && Unobjectionable(p, run[i])
    ensures var p := AfterAll(Started(ForVotes, amount, votes, false), run);
      && p.rows == if exists i :: 0 <= i < |run| && Said(run[i]) == Some(Success) then [Row(votes, true)] else []
  {
    var p := Started(ForVotes, amount, votes, false);
    RowsFollowStatus(amount, votes, run);
    HighestStatusWins(p, run);
    hide AfterAll, Said;
  }

  lemma {:induction false} RowsFollowStatus(amount: int, votes: nat, run: seq<Step>)
    requires var p := Started(ForVotes, amount, votes, false);
      forall i :: 0 <= i < |run| ==> Said(run[i]).Some? && Unobjectionable(p, run[i])
    ensures var p := Started(ForVotes, amount, votes, false);
      var q := AfterAll(p, run);
      && q == p.(status := q.status, rows := q.rows, votesCredited := q.votesCredited, history := q.history)
      && q.rows == (if q.status == Success then [Row(votes, true)] else []) && (q.votesCredited <==> q.rows != [])
  {
    hide After, Said, Unobjectionable;
    var p := Started(ForVotes, amount, votes, false);
    if run != [] {
      var front := run[..|run| - 1];
      RowsFollowStatus(amount, votes, front);
      HighestStatusWins(p, front);
      CreditedIffSuccess(p, AfterAll(p, front), run[|run| - 1]);
    }
  }

  // ---- Disputes and reversals ----

  /** A payment that was lost, or may be, has no votes that count. */
  ghost predicate Clean(p: Payment) { p.status == Disputed || p.status == Reversed ==> !AnyLive(p.rows) }

  /**
   A dispute is resolved against the merchant while it is not open and votes count, or a worker with an old
   view credits votes of a payment that was never credited and is disputed or lost by now.
   */
  predicate Soils(p: Payment, step: Step) {
    || (step == Dispute(DisputeLost) && (p.status == Success || p.status == PartiallyRefunded) && AnyLive(p.rows))
    || (step == StaleCredit && (p.status == Disputed || p.status == Reversed)
        && Reached(p.history, Success) && p.rows == [] && p.purpose == ForVotes)
  }

  lemma ReverseClears(p: Payment)
    ensures !AnyLive(AfterReverse(p).rows) && AfterReverse(p).status == p.status
  {
  }

  lemma CompletionKeepsClean(p: Payment, k: nat)
    requires Clean(p) && k < |p.refunds|
    ensures Clean(AfterCompletion(p, k))
  {
    var refunded := p.refundedAmount + p.refunds[k].amount;
    ReverseClears(AfterTransition(WithRefund(p, k, Processed).(refundedAmount := refunded),
                                  if refunded >= p.amount then Refunded else PartiallyRefunded));
    hide AfterReverse, AnyLive;
  }

  lemma MessageClean(p: Payment, m: Message)
    requires Clean(p)
    ensures Clean(AfterMessage(p, m))
  {
    ReverseClears(AfterTransition(p, Reversed));
    hide AfterReverse, AnyLive;
  }

  lemma DisputeClean(p: Payment, news: DisputeNews)
    requires Clean(p)
    ensures Clean(AfterDispute(p, news)) <==> !Soils(p, Dispute(news))
  {
    ReverseClears(AfterTransition(p, Disputed));
    hide AfterReverse, AnyLive;
  }

  lemma StepClean(p: Payment, step: Step)
    requires Clean(p)
    ensures Clean(After(p, step)) <==> !Soils(p, step)
  {
    hide AfterMessage, AfterDispute;
    match step
    case Gateway(m) => MessageClean(p, m); hide AnyLive;
    case Dispute(news) => DisputeClean(p, news); hide AnyLive;
    case StaleCredit =>
      assert AfterStaleCredit(p) != p ==> AfterStaleCredit(p).rows[0].live;
    case ApproveRefund(k, answer, immediate) =>
      if k < |p.refunds| {
        CompletionKeepsClean(WithRefund(p, k, Processing).(history := p.history + [RefundSent]), k);
        hide AfterCompletion, AnyLive;
      }
    case RefundNotice(news) =>
      var latest := LatestOutstanding(p.refunds);
      if latest.Some? {
        CompletionKeepsClean(p, latest.value);
      }
      hide AfterCompletion, AnyLive;
    case _ => hide AnyLive;
  }

  /**
   Disputed and reversed payments are without counting votes throughout a run exactly when no step of it is one of
   those two.
   */
  lemma {:induction false} LostPaymentsDoNotCount(purpose: Purpose, amount: int, votes: nat, held: bool, run: seq<Step>)
    ensures var p := Started(purpose, amount, votes, held);
      (forall k :: 0 <= k <= |run| ==> Clean(At(p, run, k)))
        <==> (forall k :: 0 <= k < |run| ==> !Soils(At(p, run, k), run[k]))
  {
    var p := Started(purpose, amount, votes, held);
    assert Clean(At(p, run, 0));
    hide Clean, Soils, After, AfterAll;
    forall k | 0 <= k < |run| && Clean(At(p, run, k))
      ensures Clean(At(p, run, k + 1)) <==> !Soils(At(p, run, k), run[k])
    {
      NextAt(p, run, k);
      StepClean(At(p, run, k), run[k]);
    }
    if forall k :: 0 <= k < |run| ==> !Soils(At(p, run, k), run[k]) {
      for n := 0 to |run|
        invariant forall k :: 0 <= k <= n ==> Clean(At(p, run, k))
      {
        assert Clean(At(p, run, n)) && !Soils(At(p, run, n), run[n]);
      }
    } else {
      var k :| 0 <= k < |run| && Soils(At(p, run, k), run[k]);
      assert !(Clean(At(p, run, k)) && Clean(At(p, run, k + 1)));
    }
  }

  /** The first of them can happen: a dispute lost without having been opened here leaves the votes counting. */
  lemma LostDisputeKeepsVotes(amount: int, votes: nat)
    ensures var p := AfterAll(Started(ForVotes, amount, votes, false),
                              [Gateway(Succeeded(amount, true, false)), Dispute(DisputeLost)]);
      p.status == Reversed && AnyLive(p.rows) && !Clean(p)
  {
    var run := [Gateway(Succeeded(amount, true, false)), Dispute(DisputeLost)];
    var p := Started(ForVotes, amount, votes, false);
    assert run[..1] == [run[0]] && run[..1][..0] == [];
    assert AfterAll(p, run[..1]) == After(p, run[0]);
    assert After(p, run[0]).rows == [Row(votes, true)];
    assert AfterAll(p, run).rows[0].live;
  }

  // ---- Refunds ----

  predicate Counts(r: Refund, open: bool) { if open then Outstanding(r) else r.status == Processed }

  /** The amounts of the refunds still open, or of those processed. */
  function Total(refunds: seq<Refund>, open: bool): int {
    if refunds == [] then 0
    else
      var last := refunds[|refunds| - 1];
      Total(refunds[..|refunds| - 1], open) + if Counts(last, open) then last.amount else 0
  }

  lemma {:induction false} TotalUpdated(refunds: seq<Refund>, k: nat, r: Refund, open: bool)
    requires k < |refunds|
    ensures Total(refunds[k := r], open) == Total(refunds, open)
      - (if Counts(refunds[k], open) then refunds[k].amount else 0) + (if Counts(r, open) then r.amount else 0)
    decreases |refunds|
  {
    var n := |refunds| - 1;
    if k < n {
      assert refunds[k := r][..n] == refunds[..n][k := r];
      TotalUpdated(refunds[..n], k, r, open);
    } else {
      assert refunds[k := r][..n] == refunds[..n];
    }
  }

  lemma TotalExtended(refunds: seq<Refund>, r: Refund, open: bool)
    ensures Total(refunds + [r], open) == Total(refunds, open) + if Counts(r, open) then r.amount else 0
  {
    assert (refunds + [r])[..|refunds|] == refunds;
  }

  lemma {:induction false} TotalNonNegative(refunds: seq<Refund>, open: bool)
    requires NonNegative(refunds)
    ensures Total(refunds, open) >= 0
  {
    if refunds != [] {
      TotalNonNegative(refunds[..|refunds| - 1], open);
    }
  }

  function Open(p: Payment): int { Total(p.refunds, true) }

  /** The refunded amount is what the processed refunds add up to, and a refunded payment has all of it back. */
  ghost predicate Balanced(p: Payment) {
    p.refundedAmount == Total(p.refunds, false) && (p.status == Refunded ==> p.refundedAmount >= p.amount)
  }

  lemma MessageBalanced(p: Payment, m: Message)
    requires Balanced(p)
    ensures Balanced(AfterMessage(p, m)) && Open(AfterMessage(p, m)) == Open(p)
      && AfterMessage(p, m).refundedAmount == p.refundedAmount
  {
    hide Total, AnyLive, AllowedFrom;
  }

  lemma CreditBalanced(p: Payment)
    requires Balanced(p)
    ensures forall q :: q == AfterCredit(p) || q == AfterStaleCredit(p) ==>
      Balanced(q) && Open(q) == Open(p) && q.refundedAmount == p.refundedAmount
  {
    hide Total, Reached;
  }

  lemma DisputeBalanced(p: Payment, news: DisputeNews)
    requires Balanced(p)
    ensures var q := AfterDispute(p, news); Balanced(q) && Open(q) == Open(p) && q.refundedAmount == p.refundedAmount
  {
    hide Total, AnyLive, AllowedFrom;
  }

  lemma StatusStep(p: Payment, step: Step)
    requires Balanced(p) && (step.Gateway? || step.Expire? || step.Release? || step.Credit? || step.StaleCredit?
                             || step.Dispute?)
    ensures Balanced(After(p, step)) && Open(After(p, step)) == Open(p)
      && After(p, step).refundedAmount == p.refundedAmount
  {
    hide Total, AllowedFrom, AfterMessage, AfterCredit, AfterStaleCredit, AfterDispute;
    match step
    case Gateway(m) => MessageBalanced(p, m);
    case Release => CreditBalanced(p.(held := false, history := p.history + [HoldReleased]));
    case Dispute(news) => DisputeBalanced(p, news);
    case Expire =>
    case _ => CreditBalanced(p);
  }

  lemma CompletionBalanced(p: Payment, k: nat)
    requires Balanced(p) && k < |p.refunds| && p.refunds[k].amount >= 0
    ensures Balanced(AfterCompletion(p, k))
    ensures Outstanding(p.refunds[k]) ==>
      var q := AfterCompletion(p, k);
      Open(q) == Open(p) - p.refunds[k].amount && q.refundedAmount == p.refundedAmount + p.refunds[k].amount
  {
    hide Total;
    var r := p.refunds[k].(status := Processed);
    TotalUpdated(p.refunds, k, r, true);
    TotalUpdated(p.refunds, k, r, false);
  }

  /** What a step asks to have refunded, if it does. */
  function Asked(p: Payment, step: Step): int {
    match step
    case AskRefund(amount, _) => if Refundable(p, amount) then amount else 0
    case RejectHold(mayRefund) => if p.status == Success && mayRefund && Refundable(p, p.amount) then p.amount else 0
    case _ => 0
  }

  lemma StepBalanced(p: Payment, step: Step)
    requires Balanced(p) && NonNegative(p.refunds)
    ensures Balanced(After(p, step))
    ensures Open(After(p, step)) + After(p, step).refundedAmount == Open(p) + p.refundedAmount + Asked(p, step)
  {
    hide Total, AfterCompletion;
    match step
    case AskRefund(amount, reverseVotes) => TotalsAfterAsking(p, Refund(amount, Requested, reverseVotes));
    case RejectHold(mayRefund) => TotalsAfterAsking(p, Refund(p.amount, Requested, true));
    case ApproveRefund(k, answer, immediate) => ApprovalBalanced(p, k, answer, immediate);
    case RefundNotice(news) =>
      var latest := LatestOutstanding(p.refunds);
      if latest.Some? {
        CompletionBalanced(p, latest.value);
        StatusOnly(p, latest.value, RefundFailed);
      }
    case _ => StatusStep(p, step);
  }

  lemma TotalsAfterAsking(p: Payment, r: Refund)
    requires r.status == Requested
    ensures Total(p.refunds + [r], true) == Total(p.refunds, true) + r.amount
    ensures Total(p.refunds + [r], false) == Total(p.refunds, false)
  {
    TotalExtended(p.refunds, r, true);
    TotalExtended(p.refunds, r, false);
  }

  lemma StatusOnly(p: Payment, k: nat, status: RefundStatus)
    requires k < |p.refunds| && Outstanding(p.refunds[k]) && Outstanding(p.refunds[k].(status := status))
    ensures Open(WithRefund(p, k, status)) == Open(p)
    ensures Total(WithRefund(p, k, status).refunds, false) == Total(p.refunds, false)
  {
    TotalUpdated(p.refunds, k, p.refunds[k].(status := status), true);
    TotalUpdated(p.refunds, k, p.refunds[k].(status := status), false);
    hide Total;
  }

  lemma ApprovalBalanced(p: Payment, k: nat, answer: GatewayAnswer, immediate: bool)
    requires Balanced(p) && NonNegative(p.refunds)
    ensures var q := AfterRefundApproval(p, k, answer, immediate);
      Balanced(q) && Open(q) + q.refundedAmount == Open(p) + p.refundedAmount
  {
    if k < |p.refunds| && p.refunds[k].status == Requested {
      StatusOnly(p, k, Agreed);
      StatusOnly(p, k, RefundFailed);
      StatusOnly(p, k, Processing);
      CompletionBalanced(WithRefund(p, k, Processing).(history := p.history + [RefundSent]), k);
    }
    hide Total, AfterCompletion;
  }

  /** Refund conservation, over all runs. */
  lemma {:induction false} RefundsAddUp(purpose: Purpose, amount: int, votes: nat, held: bool, run: seq<Step>)
    ensures var p := AfterAll(Started(purpose, amount, votes, held), run);
      p.refundedAmount == Total(p.refunds, false) && (p.status == Refunded ==> p.refundedAmount >= p.amount)
  {
    hide After;
    if run != [] {
      RefundsAddUp(purpose, amount, votes, held, run[..|run| - 1]);
      Positive(purpose, amount, votes, held, run[..|run| - 1]);
      StepBalanced(AfterAll(Started(purpose, amount, votes, held), run[..|run| - 1]), run[|run| - 1]);
    }
  }

  /** All open refunds could be processed without giving back more than was paid. */
  ghost predicate Covered(p: Payment) { p.refundedAmount + Open(p) <= p.amount }

  function Notices(n: nat): seq<Step> { seq(n, i => RefundNotice(RefundDone)) }

  function OpenOnes(refunds: seq<Refund>): set<int> { set i | 0 <= i < |refunds| && Outstanding(refunds[i]) }

  /** Processing everything open takes the refunded amount exactly as far. */
  lemma {:induction false} AllProcessed(p: Payment) returns (n: nat)
    requires Balanced(p) && NonNegative(p.refunds)
    ensures AfterAll(p, Notices(n)).refundedAmount == p.refundedAmount + Open(p)
    decreases |OpenOnes(p.refunds)|
  {
    var latest := LatestOutstanding(p.refunds);
    if latest.None? {
      NothingOpen(p.refunds);
      n := 0;
    } else {
      var q := After(p, RefundNotice(RefundDone));
      FewerOutstanding(p, latest.value);
      CompletionBalanced(p, latest.value);
      CompletionOnward(p, latest.value);
      hide AfterCompletion, Total, AfterAll;
      var m := AllProcessed(q);
      n := m + 1;
      NoticeFirst(p, m);
    }
  }

  lemma {:induction false} NothingOpen(refunds: seq<Refund>)
    requires forall i :: 0 <= i < |refunds| ==> !Outstanding(refunds[i])
    ensures Total(refunds, true) == 0
  {
    if refunds != [] {
      NothingOpen(refunds[..|refunds| - 1]);
    }
  }

  lemma FewerOutstanding(p: Payment, k: nat)
    requires k < |p.refunds| && Outstanding(p.refunds[k])
    ensures var q := AfterCompletion(p, k);
      |OpenOnes(q.refunds)| < |OpenOnes(p.refunds)|
  {
    var q := AfterCompletion(p, k);
    assert q.refunds == p.refunds[k := p.refunds[k].(status := Processed)];
    var all := OpenOnes(p.refunds);
    Removed(all, k);
    assert OpenOnes(q.refunds) == all - {k};
  }

  lemma {:induction false} NoticeFirst(p: Payment, m: nat)
    ensures AfterAll(p, Notices(m + 1)) == AfterAll(After(p, RefundNotice(RefundDone)), Notices(m))
  {
    assert Notices(m + 1)[..m] == Notices(m);
    if m == 0 {
      assert AfterAll(p, Notices(0)) == p;
    } else {
      assert Notices(m)[..m - 1] == Notices(m - 1);
      NoticeFirst(p, m - 1);
    }
  }

  lemma {:induction false} NoticesKeepSum(p: Payment, n: nat)
    requires Balanced(p) && NonNegative(p.refunds)
    ensures var q := AfterAll(p, Notices(n)); Balanced(q) && q.refundedAmount + Open(q) == p.refundedAmount + Open(p)
  {
    hide After;
    if n > 0 {
      NoticesKeepSum(p, n - 1);
      NoticesNonNegative(p, n - 1);
      assert Notices(n)[..n - 1] == Notices(n - 1);
      StepBalanced(AfterAll(p, Notices(n - 1)), RefundNotice(RefundDone));
    }
  }

  /** More than was paid can go back, by gateway notices alone, exactly if the open refunds are not covered. */
  lemma OverRefundIffUncovered(purpose: Purpose, amount: int, votes: nat, held: bool, run: seq<Step>)
    ensures var p := AfterAll(Started(purpose, amount, votes, held), run);
      (exists n: nat :: AfterAll(p, Notices(n)).refundedAmount > p.amount) <==> !Covered(p)
  {
    var p := AfterAll(Started(purpose, amount, votes, held), run);
    RefundsAddUp(purpose, amount, votes, held, run);
    Positive(purpose, amount, votes, held, run);
    hide AfterAll, After, Total;
    var n := AllProcessed(p);
    forall m: nat ensures AfterAll(p, Notices(m)).refundedAmount <= p.refundedAmount + Open(p) {
      NoticesKeepSum(p, m);
      NoticesNonNegative(p, m);
    }
  }

  lemma {:induction false} NoticesNonNegative(p: Payment, m: nat)
    requires NonNegative(p.refunds)
    ensures var q := AfterAll(p, Notices(m)); Open(q) >= 0 && NonNegative(q.refunds)
  {
    hide After, Total;
    if m > 0 {
      NoticesNonNegative(p, m - 1);
      assert Notices(m)[..m - 1] == Notices(m - 1);
      NoticeNonNegative(AfterAll(p, Notices(m - 1)));
    }
    TotalNonNegative(AfterAll(p, Notices(m)).refunds, true);
  }

  lemma NoticeNonNegative(p: Payment)
    requires NonNegative(p.refunds)
    ensures var q := After(p, RefundNotice(RefundDone)); NonNegative(q.refunds)
  {
    var latest := LatestOutstanding(p.refunds);
    if latest.Some? {
      CompletionOnward(p, latest.value);
    }
  }

  /** A request is accepted for more than is left once the refunds already open are counted. */
  predicate Overasks(p: Payment, step: Step) {
    Asked(p, step) > p.amount - p.refundedAmount - Open(p) && Asked(p, step) > 0
  }

  lemma StepCovered(p: Payment, step: Step)
    requires Balanced(p) && Covered(p) && Booked(p) && NonNegative(p.refunds)
    ensures Covered(After(p, step)) <==> !Overasks(p, step)
  {
    hide Total, After;
    StepBalanced(p, step);
    StepOnward(p, step);
  }

  /**
   Open refunds stay covered throughout a run exactly when no accepted request asks for more than the open refunds
   leave.
   */
  lemma {:induction false} CoveredIffNotOverasked(purpose: Purpose, amount: int, votes: nat, held: bool, run: seq<Step>)
    requires amount >= 0
    ensures var p := Started(purpose, amount, votes, held);
      (forall k :: 0 <= k <= |run| ==> Covered(At(p, run, k)))
        <==> (forall k :: 0 <= k < |run| ==> !Overasks(At(p, run, k), run[k]))
  {
    var p := Started(purpose, amount, votes, held);
    assert Covered(At(p, run, 0));
    hide Covered, Overasks, After, AfterAll, Booked, Total;
    forall k | 0 <= k < |run| && Covered(At(p, run, k))
      ensures Covered(At(p, run, k + 1)) <==> !Overasks(At(p, run, k), run[k])
    {
      NextAt(p, run, k);
      RefundsAddUp(purpose, amount, votes, held, run[..k]);
      Positive(purpose, amount, votes, held, run[..k]);
      AlwaysBooked(purpose, amount, votes, held, run[..k]);
      StepCovered(At(p, run, k), run[k]);
    }
    if forall k :: 0 <= k < |run| ==> !Overasks(At(p, run, k), run[k]) {
      for n := 0 to |run|
        invariant forall k :: 0 <= k <= n ==> Covered(At(p, run, k))
      {
        assert Covered(At(p, run, n)) && !Overasks(At(p, run, n), run[n]);
      }
    } else {
      var k :| 0 <= k < |run| && Overasks(At(p, run, k), run[k]);
      assert !(Covered(At(p, run, k)) && Covered(At(p, run, k + 1)));
    }
  }

  /** In particular: never more than was paid, if no refund is accepted while another is still open. */
  lemma NeverMoreThanPaid(purpose: Purpose, amount: int, votes: nat, held: bool, run: seq<Step>)
    requires amount >= 0
    requires var p := Started(purpose, amount, votes, held);
      forall k :: 0 <= k < |run| && Asked(At(p, run, k), run[k]) > 0 ==> Open(At(p, run, k)) == 0
    ensures AfterAll(Started(purpose, amount, votes, held), run).refundedAmount <= amount
  {
    var p := Started(purpose, amount, votes, held);
    forall k | 0 <= k < |run| ensures !Overasks(At(p, run, k), run[k]) {
      AskedIsRefundable(At(p, run, k), run[k]);
    }
    hide After, Total, Asked, Overasks, Booked, AfterAll;
    CoveredIffNotOverasked(purpose, amount, votes, held, run);
    assert run[..|run|] == run && Covered(At(p, run, |run|));
    Positive(purpose, amount, votes, held, run);
    AmountStays(purpose, amount, votes, held, run);
    TotalNonNegative(AfterAll(p, run).refunds, true);
  }

  lemma AmountStays(purpose: Purpose, amount: int, votes: nat, held: bool, run: seq<Step>)
    ensures AfterAll(Started(purpose, amount, votes, held), run).amount == amount
  {
    ReversedStaysReversed(purpose, amount, votes, held, run, 0, |run|);
    assert run[..|run|] == run;
    hide After;
  }

  lemma AskedIsRefundable(p: Payment, step: Step)
    ensures Asked(p, step) > 0 ==> Asked(p, step) <= p.amount - p.refundedAmount
  {
  }

  /** Otherwise it can: two requests for sixty out of a hundred are both accepted, and both processed. */
  lemma TwoOpenRefundsGoTooFar(votes: nat)
    ensures var run := [Gateway(Succeeded(100, true, false)), AskRefund(60, true), AskRefund(60, true)];
      var p := AfterAll(Started(ForVotes, 100, votes, false), run);
      !Covered(p) && exists n: nat :: AfterAll(p, Notices(n)).refundedAmount > p.amount
  {
    var run := [Gateway(Succeeded(100, true, false)), AskRefund(60, true), AskRefund(60, true)];
    var p := Started(ForVotes, 100, votes, false);
    hide After, AfterAll, Covered;
    NextAt(p, run, 0);
    NextAt(p, run, 1);
    NextAt(p, run, 2);
    assert run[..3] == run;
    StartsAt(p, run);
    SixtyTwice(votes);
    OverRefundIffUncovered(ForVotes, 100, votes, false, run);
  }

  lemma StartsAt(p: Payment, run: seq<Step>)
    ensures At(p, run, 0) == p
  {
  }

  lemma SixtyTwice(votes: nat)
    ensures var paid := After(Started(ForVotes, 100, votes, false), Gateway(Succeeded(100, true, false)));
      !Covered(After(After(paid, AskRefund(60, true)), AskRefund(60, true)))
  {
    var paid := After(Started(ForVotes, 100, votes, false), Gateway(Succeeded(100, true, false)));
    assert paid.status == Success && paid.amount == 100 && paid.refundedAmount == 0 && paid.refunds == [];
    hide AfterMessage;
    var refund := Refund(60, Requested, true);
    var asked := After(After(paid, AskRefund(60, true)), AskRefund(60, true));
    assert asked.refunds == [refund] + [refund] && asked.amount == 100 && asked.refundedAmount == 0;
    TotalExtended([refund], refund, true);
    TotalExtended([], refund, true);
    assert [] + [refund] == [refund];
    hide After;
  }
}
