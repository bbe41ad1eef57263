/**
 Which payments become votes: over whole runs, votes are credited exactly when the first success the gateway reports
 is for the full amount, in the right currency and without risk, as long as nobody releases a hold.
 */
module PaymentHolds {
  import opened Collections
  import opened Payments
  import opened PaymentRuns

  predicate Reports(step: Step) { step.Gateway? && step.message.Succeeded? }

  /** A success for the full amount in the right currency. */
  predicate InFull(amount: int, step: Step) {
    Reports(step) && step.message.amount == amount && step.message.sameCurrency
  }

  predicate Good(amount: int, step: Step) { InFull(amount, step) && !step.message.risky }

  /** A hold is released by hand, or a worker with an old view does not see it. */
  predicate PassesHold(step: Step) { step.Release? || step.StaleCredit? }

  /** A dispute is won over a payment that was never reported as successful; that makes it successful. */
  predicate Jumps(p: Payment, step: Step) { step == Dispute(DisputeWon) && Unpaid(p.status) }

  ghost predicate First(run: seq<Step>, j: int) {
    0 <= j < |run| && Reports(run[j]) && forall i :: 0 <= i < j ==> !Reports(run[i])
  }

  ghost predicate FirstIsGood(amount: int, run: seq<Step>) { exists j :: First(run, j) && Good(amount, run[j]) }

  ghost predicate AnySuccess(run: seq<Step>) { exists j :: 0 <= j < |run| && Reports(run[j]) }

  predicate Unpaid(s: Status) { s in {Initialized, Pending, Abandoned, Failed} }

  /** What a payment is like before the first success, after a good one, and after any other. */
  ghost predicate Follows(p: Payment, amount: int, held: bool, run: seq<Step>) {
    && p.purpose == ForVotes && p.amount == amount && (p.votesCredited <==> p.rows != [])
    && (!AnySuccess(run) ==> Unpaid(p.status) && p.rows == [] && p.held == held)
    && (AnySuccess(run) ==> !Unpaid(p.status))
    && (AnySuccess(run) && (held || !FirstIsGood(amount, run)) ==> p.rows == [] && p.held)
    && (FirstIsGood(amount, run) && !held ==> p.rows != [])
  }

  lemma OneMoreStep(amount: int, run: seq<Step>, step: Step)
    ensures AnySuccess(run + [step]) <==> AnySuccess(run) || Reports(step)
    ensures FirstIsGood(amount, run + [step]) <==>
      FirstIsGood(amount, run) || (!AnySuccess(run) && Good(amount, step))
  {
    hide Reports, Good;
    var more := run + [step];
    assert more[|run|] == step && forall i :: 0 <= i < |run| ==> more[i] == run[i];
    if j :| First(run, j) && Good(amount, run[j]) {
      assert First(more, j) && Good(amount, more[j]);
    }
    if !AnySuccess(run) && Good(amount, step) {
      GoodIsSuccess(amount, step);
      assert First(more, |run|);
    }
    if j :| First(more, j) && Good(amount, more[j]) {
      if j < |run| {
        assert First(run, j);
      } else {
        assert forall i :: 0 <= i < |run| ==> !Reports(more[i]);
      }
    }
  }

  lemma GoodIsSuccess(amount: int, step: Step)
    ensures Good(amount, step) ==> Reports(step)
  {
  }

  // ---- One step ----

  lemma UnpaidStep(p: Payment, step: Step)
    requires p.purpose == ForVotes && Unpaid(p.status) && p.rows == [] && !p.votesCredited
    requires !PassesHold(step) && !Jumps(p, step)
    ensures var q := After(p, step);
      && q.purpose == ForVotes && q.amount == p.amount && (q.votesCredited <==> q.rows != [])
      && if Reports(step) then
           && !Unpaid(q.status)
           && if p.held || !Good(p.amount, step) then q.rows == [] && q.held else q.rows != []
         else Unpaid(q.status) && q.rows == [] && q.held == p.held
  {
    hide AnyLive, Total;
    match step
    case RefundNotice(news) => UnpaidRefund(p, step);
    case ApproveRefund(_, _, _) => UnpaidRefund(p, step);
    case _ =>
  }

  lemma CompletionTouches(p: Payment, k: nat)
    requires k < |p.refunds|
    ensures var q := AfterCompletion(p, k);
      && q.purpose == p.purpose && q.amount == p.amount && q.held == p.held && q.votesCredited == p.votesCredited
      && (Unpaid(q.status) <==> Unpaid(p.status)) && (p.rows == [] ==> q.rows == [])
  {
    hide AnyLive;
  }

  lemma UnpaidRefund(p: Payment, step: Step)
    requires p.purpose == ForVotes && Unpaid(p.status) && p.rows == [] && !p.votesCredited
    requires step.RefundNotice? || step.ApproveRefund?
    ensures var q := After(p, step);
      && q.purpose == ForVotes && q.amount == p.amount && q.rows == [] && !q.votesCredited
      && Unpaid(q.status) && q.held == p.held
  {
    hide AfterCompletion, Unpaid;
    RefundTouches(p, step);
  }

  lemma RefundTouches(p: Payment, step: Step)
    requires step.RefundNotice? || step.ApproveRefund?
    ensures var q := After(p, step);
      && q.purpose == p.purpose && q.amount == p.amount && q.held == p.held && q.votesCredited == p.votesCredited
      && (Unpaid(q.status) <==> Unpaid(p.status)) && (p.rows == [] ==> q.rows == [])
  {
    hide AfterCompletion, Unpaid;
    match step
    case RefundNotice(news) =>
      var latest := LatestOutstanding(p.refunds);
      if latest.Some? { CompletionTouches(p, latest.value); }
    case ApproveRefund(k, answer, immediate) =>
      if k < |p.refunds| { CompletionTouches(WithRefund(p, k, Processing).(history := p.history + [RefundSent]), k); }
  }

  lemma TransitionStaysPaid(p: Payment, to: Status)
    requires !Unpaid(p.status)
    ensures !Unpaid(AfterTransition(p, to).status)
  {
  }

  lemma VotesKeepStatus(p: Payment)
    ensures AfterCredit(p).status == AfterStaleCredit(p).status == AfterReverse(p).status == p.status
  {
    hide Reached;
  }

  lemma MessageStaysPaid(p: Payment, m: Message)
    requires !Unpaid(p.status)
    ensures !Unpaid(AfterMessage(p, m).status)
  {
    hide AfterTransition, AfterCredit, AfterStaleCredit, AfterReverse, Unpaid;
    forall to ensures !Unpaid(AfterTransition(p, to).status) {
      TransitionStaysPaid(p, to);
    }
    forall q ensures AfterCredit(q).status == AfterReverse(q).status == q.status {
      VotesKeepStatus(q);
    }
  }

  lemma PaidStays(p: Payment, step: Step)
    requires !Unpaid(p.status)
    ensures !Unpaid(After(p, step).status)
  {
    hide AfterTransition, AfterCredit, AfterStaleCredit, AfterReverse, AfterMessage, Unpaid;
    forall to ensures !Unpaid(AfterTransition(p, to).status) {
      TransitionStaysPaid(p, to);
    }
    forall q ensures AfterCredit(q).status == AfterStaleCredit(q).status == AfterReverse(q).status == q.status {
      VotesKeepStatus(q);
    }
    match step
    case Gateway(m) => MessageStaysPaid(p, m);
    case RefundNotice(_) => RefundTouches(p, step); hide After;
    case ApproveRefund(_, _, _) => RefundTouches(p, step); hide After;
    case _ =>
  }

  lemma HeldStep(p: Payment, step: Step)
    requires p.held && p.rows == [] && !p.votesCredited && !PassesHold(step)
    ensures var q := After(p, step);
      q.held && q.rows == [] && !q.votesCredited && q.purpose == p.purpose && q.amount == p.amount
  {
    hide AllowedFrom;
    if step.RefundNotice? || step.ApproveRefund? {
      RefundTouches(p, step);
      hide After;
    }
  }

  lemma CreditedStep(p: Payment, step: Step)
    requires Kept(p) && NonNegative(p.refunds) && p.rows != [] && p.purpose == ForVotes
    ensures var q := After(p, step);
      q.rows != [] && q.votesCredited && q.purpose == ForVotes && q.amount == p.amount
  {
    hide Recorded, After;
    StepOnward(p, step);
    StepKeeps(p, step);
  }

  lemma StepFollows(p: Payment, amount: int, held: bool, run: seq<Step>, step: Step)
    requires Follows(p, amount, held, run) && Kept(p) && NonNegative(p.refunds)
    requires !PassesHold(step) && !Jumps(p, step)
    ensures Follows(After(p, step), amount, held, run + [step])
  {
    hide After, Kept, AnySuccess, FirstIsGood, PassesHold, Jumps;
    OneMoreStep(amount, run, step);
    FirstIsAny(amount, run);
    GoodIsSuccess(amount, step);
    hide Reports, Good, Unpaid;
    if !AnySuccess(run) {
      UnpaidStep(p, step);
    } else if held || !FirstIsGood(amount, run) {
      PaidStays(p, step);
      HeldStep(p, step);
    } else {
      PaidStays(p, step);
      CreditedStep(p, step);
    }
  }

  lemma FirstIsAny(amount: int, run: seq<Step>)
    ensures FirstIsGood(amount, run) ==> AnySuccess(run)
  {
  }

  /** Nobody passes a hold, and no dispute is won over an unpaid payment. */
  ghost predicate Regular(p: Payment, run: seq<Step>) {
    forall k :: 0 <= k < |run| ==> !PassesHold(run[k]) && !Jumps(At(p, run, k), run[k])
  }

  lemma RegularBefore(p: Payment, run: seq<Step>, n: nat)
    requires Regular(p, run) && n <= |run|
    ensures Regular(p, run[..n])
  {
    hide PassesHold, Jumps, AfterAll;
    forall k | 0 <= k < n ensures !PassesHold(run[..n][k]) && !Jumps(At(p, run[..n], k), run[..n][k]) {
      assert run[..n][..k] == run[..k];
    }
  }

  lemma {:induction false} RunFollows(amount: int, votes: nat, held: bool, run: seq<Step>)
    requires Regular(Started(ForVotes, amount, votes, held), run)
    ensures Follows(AfterAll(Started(ForVotes, amount, votes, held), run), amount, held, run)
  {
    hide After, Follows, Kept, PassesHold, Jumps;
    if run == [] {
      NothingYet(amount, votes, held);
    } else {
      var (p, n) := (Started(ForVotes, amount, votes, held), |run| - 1);
      RegularBefore(p, run, n);
      RunFollows(amount, votes, held, run[..n]);
      AlwaysKept(ForVotes, amount, votes, held, run[..n]);
      Positive(ForVotes, amount, votes, held, run[..n]);
      assert !PassesHold(run[n]) && !Jumps(At(p, run, n), run[n]);
      StepFollows(At(p, run, n), amount, held, run[..n], run[n]);
      assert run[..n] + [run[n]] == run;
    }
  }

  lemma NothingYet(amount: int, votes: nat, held: bool)
    ensures Follows(Started(ForVotes, amount, votes, held), amount, held, [])
  {
  }

  // ---- The results ----

  /**
   As long as no hold is released and no dispute is won over an unpaid payment, and whatever else happens, a payment
   becomes votes exactly if it does not start held and the first success reported is for the full amount, in the right
   currency and not risky; otherwise that success, and every later one, leaves it held.
   */
  lemma CreditedIffFirstSuccessGood(amount: int, votes: nat, held: bool, run: seq<Step>)
    requires Regular(Started(ForVotes, amount, votes, held), run)
    ensures var p := AfterAll(Started(ForVotes, amount, votes, held), run);
      && (p.rows != [] <==> !held && exists j :: First(run, j) && Good(amount, run[j]))
      && (p.rows != [] ==> |p.rows| == 1 && p.rows[0].votes == votes)
      && (p.rows == [] && (exists j :: First(run, j)) ==> p.held)
  {
    RunFollows(amount, votes, held, run);
    VotesAreBookedOnce(ForVotes, amount, votes, held, run);
    TermsStay(ForVotes, amount, votes, held, run);
    hide AfterAll, Reports, Good, Regular;
    if j :| First(run, j) {
      assert AnySuccess(run);
    }
    if FirstIsGood(amount, run) {
      FirstIsAny(amount, run);
    }
  }

  /** Votes are there, and would be there after crediting now, exactly if the first success was a good one. */
  ghost predicate OnlyReported(p: Payment, amount: int, run: seq<Step>) {
    && (p.rows != [] <==> FirstIsGood(amount, run))
    && (After(p, Credit).rows != [] <==> FirstIsGood(amount, run))
  }

  lemma CreditAddsNothing(p: Payment, amount: int, run: seq<Step>)
    requires Follows(p, amount, false, run)
    ensures OnlyReported(p, amount, run)
  {
    FirstIsAny(amount, run);
    hide FirstIsGood, AnySuccess;
  }

  lemma JumpOpens(p: Payment, step: Step)
    requires Jumps(p, step) && p.purpose == ForVotes && p.rows == [] && !p.votesCredited && !p.held
    ensures After(After(p, step), Credit).rows != []
  {
  }

  /** Such a run: a dispute won before anything was paid, and the votes credited after it. */
  lemma WonDisputeCredits(amount: int, votes: nat)
    ensures var p := Started(ForVotes, amount, votes, false);
      After(After(p, Dispute(DisputeWon)), Credit).rows == [Row(votes, true)]
  {
  }

  /** The condition on disputes is exact: one that is won over an unpaid payment lets votes be credited unpaid. */
  lemma OnlyReportedIffNoJump(amount: int, votes: nat, run: seq<Step>)
    requires forall k :: 0 <= k < |run| ==> !PassesHold(run[k])
    ensures var p := Started(ForVotes, amount, votes, false);
      (forall k :: 0 <= k <= |run| ==> OnlyReported(At(p, run, k), amount, run[..k]))
      <==> (forall k :: 0 <= k < |run| ==> !Jumps(At(p, run, k), run[k]))
  {
    hide After, AfterAll, PassesHold, Jumps, OnlyReported, Follows;
    var p := Started(ForVotes, amount, votes, false);
    if forall k :: 0 <= k < |run| ==> !Jumps(At(p, run, k), run[k]) {
      forall k | 0 <= k <= |run| ensures OnlyReported(At(p, run, k), amount, run[..k]) {
        RegularBefore(p, run, k);
        RunFollows(amount, votes, false, run[..k]);
        CreditAddsNothing(At(p, run, k), amount, run[..k]);
      }
    } else {
      var k :| 0 <= k < |run| && Jumps(At(p, run, k), run[k]);
      var first := FirstJump(p, run, k);
      JumpShows(amount, votes, run, first);
    }
  }

  lemma {:induction false} FirstJump(p: Payment, run: seq<Step>, k: nat) returns (first: nat)
    requires k < |run| && Jumps(At(p, run, k), run[k])
    ensures first < |run| && Jumps(At(p, run, first), run[first])
    ensures forall j :: 0 <= j < first ==> !Jumps(At(p, run, j), run[j])
  {
    hide Jumps, AfterAll;
    if j :| 0 <= j < k && Jumps(At(p, run, j), run[j]) {
      first := FirstJump(p, run, j);
    } else {
      first := k;
    }
  }

  lemma JumpShows(amount: int, votes: nat, run: seq<Step>, k: nat)
    requires k < |run| && forall j :: 0 <= j < |run| ==> !PassesHold(run[j])
    requires var p := Started(ForVotes, amount, votes, false);
      Jumps(At(p, run, k), run[k]) && forall j :: 0 <= j < k ==> !Jumps(At(p, run, j), run[j])
    ensures !OnlyReported(At(Started(ForVotes, amount, votes, false), run, k + 1), amount, run[..k + 1])
  {
    hide After, AfterAll, PassesHold;
    var p := Started(ForVotes, amount, votes, false);
    NextAt(p, run, k);
    UnpaidBefore(amount, votes, run, k);
    JumpOpens(At(p, run, k), run[k]);
    OneMoreStep(amount, run[..k], run[k]);
    assert run[..k] + [run[k]] == run[..k + 1];
    FirstIsAny(amount, run[..k]);
    hide AnySuccess, FirstIsGood;
  }

  lemma UnpaidBefore(amount: int, votes: nat, run: seq<Step>, k: nat)
    requires k < |run| && forall j :: 0 <= j < |run| ==> !PassesHold(run[j])
    requires var p := Started(ForVotes, amount, votes, false);
      Jumps(At(p, run, k), run[k]) && forall j :: 0 <= j < k ==> !Jumps(At(p, run, j), run[j])
    ensures var p := At(Started(ForVotes, amount, votes, false), run, k);
      !AnySuccess(run[..k]) && p.purpose == ForVotes && p.rows == [] && !p.votesCredited && !p.held
  {
    hide After, AfterAll, PassesHold;
    var (p, front) := (Started(ForVotes, amount, votes, false), run[..k]);
    forall j | 0 <= j < k ensures !PassesHold(front[j]) && !Jumps(At(p, front, j), front[j]) {
      assert front[..j] == run[..j];
    }
    RunFollows(amount, votes, false, front);
    hide AnySuccess, FirstIsGood;
  }

  lemma TermsStay(purpose: Purpose, amount: int, votes: nat, held: bool, run: seq<Step>)
    ensures var p := AfterAll(Started(purpose, amount, votes, held), run);
      p.amount == amount && p.votes == votes && p.purpose == purpose
  {
    ReversedStaysReversed(purpose, amount, votes, held, run, 0, |run|);
    assert run[..|run|] == run;
    hide After;
  }

  /** The success is taken note of: the payment is successful, or can become so. */
  predicate Heeded(p: Payment) { p.status == Success || Success in AllowedFrom(p.status) }

  lemma ObjectionHolds(p: Payment, step: Step)
    requires p.purpose == ForVotes && p.rows == [] && !p.votesCredited && Heeded(p)
    requires Reports(step) && !Good(p.amount, step)
    ensures var q := After(p, step); q.held && q.rows == [] && !q.votesCredited
  {
  }

  /**
   In every run: a success with a wrong amount, the wrong currency or a risk finding holds an uncredited payment, and
   nothing is credited before a hold is released.
   */
  lemma {:induction false} NothingBeforeRelease(amount: int, votes: nat, held: bool, run: seq<Step>, i: nat, j: nat)
    requires i < j <= |run| && Reports(run[i]) && !Good(amount, run[i])
    requires var p := At(Started(ForVotes, amount, votes, held), run, i); p.rows == [] && Heeded(p)
    requires forall k :: i < k < j ==> !PassesHold(run[k])
    ensures var p := At(Started(ForVotes, amount, votes, held), run, j); p.held && p.rows == [] && !p.votesCredited
    decreases j
  {
    hide After, AfterAll, Reports, Good, PassesHold, Heeded, Legal, Replayed;
    var p := Started(ForVotes, amount, votes, held);
    NextAt(p, run, j - 1);
    if i == j - 1 {
      VotesAreBookedOnce(ForVotes, amount, votes, held, run[..i]);
      TermsStay(ForVotes, amount, votes, held, run[..i]);
      ObjectionHolds(At(p, run, i), run[i]);
    } else {
      NothingBeforeRelease(amount, votes, held, run, i, j - 1);
      HeldStep(At(p, run, j - 1), run[j - 1]);
    }
  }

  /** Releasing the hold of a successful payment credits its votes; rejecting it asks for all of it back. */
  lemma HoldIsReviewed(amount: int, votes: nat, held: bool, run: seq<Step>)
    ensures var p := AfterAll(Started(ForVotes, amount, votes, held), run);
      p.status == Success && p.rows == [] ==>
        && After(p, Release).rows == [Row(votes, true)] && !After(p, Release).held
        && After(p, RejectHold(true)).rows == []
        && (amount > 0 && p.refundedAmount == 0 ==>
              After(p, RejectHold(true)).refunds == p.refunds + [Refund(amount, Requested, true)])
  {
    VotesAreBookedOnce(ForVotes, amount, votes, held, run);
    TermsStay(ForVotes, amount, votes, held, run);
    hide AfterAll, Legal, Replayed;
  }

  // ---- Losing a payment ----

  predicate Paid(s: Status) { s in {Success, PartiallyRefunded} }

  /** A payment taken back is reversed and one that is disputed waits; in both cases its votes no longer count. */
  lemma LossOutcome(p: Payment)
    ensures var q := After(p, Gateway(TakenBack));
      if Paid(p.status) || p.status == Disputed then q.status == Reversed && !AnyLive(q.rows)
      else q.status == p.status && q.rows == p.rows
    ensures var q := After(p, Dispute(DisputeOpened));
      if Paid(p.status) then q.status == Disputed && !AnyLive(q.rows) else q.status == p.status && q.rows == p.rows
  {
    ReverseClears(AfterTransition(p, Reversed));
    ReverseClears(AfterTransition(p, Disputed));
    hide AnyLive, AfterReverse;
  }

  /** A dispute lost reverses the payment and one that is won makes it successful again, without touching the votes. */
  lemma DisputeOutcome(p: Payment)
    ensures var q := After(p, Dispute(DisputeLost));
      q.rows == p.rows && q.status == if Paid(p.status) || p.status == Disputed then Reversed else p.status
    ensures var q := After(p, Dispute(DisputeWon));
      q.rows == p.rows && q.status == if Unpaid(p.status) || p.status == Disputed then Success else p.status
  {
    hide AnyLive, AfterReverse;
  }

  // ---- What the history tells about the votes ----

  ghost predicate TellsVotes(p: Payment) {
    && (Credited in p.history <==> p.rows != [])
    && (VotesReversed in p.history <==> p.rows != [] && !AnyLive(p.rows))
  }

  lemma SameVotes(p: Payment, q: Payment)
    requires TellsVotes(p) && q.rows == p.rows
    requires q.history == p.history || exists e :: e != Credited && e != VotesReversed && q.history == p.history + [e]
    ensures TellsVotes(q)
  {
    hide AnyLive;
  }

  lemma TransitionTells(p: Payment, to: Status)
    requires TellsVotes(p)
    ensures TellsVotes(AfterTransition(p, to))
  {
    hide AnyLive, AllowedFrom, TellsVotes;
    var q := AfterTransition(p, to);
    assert q.history == p.history || q.history == p.history + [Ignored(p.status, to)]
      || q.history == p.history + [Change(p.status, to)];
    SameVotes(p, q);
  }

  lemma CreditTells(p: Payment)
    requires TellsVotes(p) && Booked(p)
    ensures TellsVotes(AfterCredit(p)) && TellsVotes(AfterStaleCredit(p))
  {
    hide Reached;
    assert AfterCredit(p) != p ==> AfterCredit(p).rows[0].live;
    assert AfterStaleCredit(p) != p ==> AfterStaleCredit(p).rows[0].live;
  }

  lemma ReverseTells(p: Payment)
    requires TellsVotes(p)
    ensures TellsVotes(AfterReverse(p))
  {
    ReverseClears(p);
    if AnyLive(p.rows) {
      assert p.rows != [] && AfterReverse(p).rows != [];
      assert AfterReverse(p).history == p.history + [VotesReversed];
    }
    hide AnyLive;
  }

  lemma CompletionTells(p: Payment, k: nat)
    requires TellsVotes(p) && k < |p.refunds|
    ensures TellsVotes(AfterCompletion(p, k))
  {
    hide TellsVotes, AfterTransition, AfterReverse;
    var refunded := p.refundedAmount + p.refunds[k].amount;
    var q := WithRefund(p, k, Processed).(refundedAmount := refunded);
    SameVotes(p, q);
    forall to ensures TellsVotes(AfterTransition(q, to)) && TellsVotes(AfterReverse(AfterTransition(q, to))) {
      TransitionTells(q, to);
      ReverseTells(AfterTransition(q, to));
    }
  }

  lemma MessageTells(p: Payment, m: Message)
    requires TellsVotes(p) && Booked(p) && Recorded(p)
    ensures TellsVotes(AfterMessage(p, m))
  {
    hide TellsVotes, AfterTransition, AfterCredit, AfterReverse, Moves, Booked, Recorded;
    forall to ensures TellsVotes(AfterTransition(p, to)) && TellsVotes(AfterReverse(AfterTransition(p, to))) {
      TransitionTells(p, to);
      ReverseTells(AfterTransition(p, to));
    }
    KeptOnSuccess(p);
    var q := AfterTransition(p, Success);
    forall held ensures TellsVotes(q.(held := held)) && TellsVotes(AfterCredit(q.(held := held))) {
      SameVotes(q, q.(held := held));
      StillBooked(q, held);
      CreditTells(q.(held := held));
    }
  }

  lemma KeptOnSuccess(p: Payment)
    requires Booked(p) && Recorded(p)
    ensures Booked(AfterTransition(p, Success))
  {
    TransitionKeeps(p, Success);
    hide AfterTransition, Booked, Recorded;
  }

  lemma StillBooked(p: Payment, held: bool)
    requires Booked(p)
    ensures Booked(p.(held := held))
  {
    hide Reached;
  }

  lemma RemarkTells(p: Payment, q: Payment, e: Entry)
    requires TellsVotes(p) && q.rows == p.rows && q.history == p.history + [e] && e != Credited && e != VotesReversed
    ensures TellsVotes(q)
  {
    hide AnyLive;
  }

  lemma RefundTells(p: Payment, step: Step)
    requires TellsVotes(p) && (step.AskRefund? || step.ApproveRefund? || step.RefundNotice? || step.RejectHold?)
    ensures TellsVotes(After(p, step))
  {
    hide TellsVotes, AfterCompletion;
    match step
    case AskRefund(amount, reverseVotes) =>
      if Refundable(p, amount) { RemarkTells(p, After(p, step), RefundAsked); }
    case RejectHold(mayRefund) =>
      var q := p.(history := p.history + [HoldRejected]);
      RemarkTells(p, q, HoldRejected);
      if p.status == Success && mayRefund && Refundable(q, p.amount) { RemarkTells(q, After(p, step), RefundAsked); }
    case ApproveRefund(k, answer, immediate) =>
      if k < |p.refunds| {
        forall status ensures TellsVotes(WithRefund(p, k, status)) {
          SameVotes(p, WithRefund(p, k, status));
        }
        var sent := WithRefund(p, k, Processing).(history := p.history + [RefundSent]);
        RemarkTells(p, sent, RefundSent);
        CompletionTells(sent, k);
        RemarkTells(p, WithRefund(p, k, RefundFailed).(history := p.history + [RefundNote]), RefundNote);
      }
    case RefundNotice(news) =>
      var latest := LatestOutstanding(p.refunds);
      if latest.Some? {
        CompletionTells(p, latest.value);
        RemarkTells(p, WithRefund(p, latest.value, RefundFailed).(history := p.history + [RefundNote]), RefundNote);
        RemarkTells(p, p.(history := p.history + [RefundNote]), RefundNote);
      }
  }

  lemma StepTells(p: Payment, step: Step)
    requires TellsVotes(p) && Kept(p)
    ensures TellsVotes(After(p, step))
  {
    hide TellsVotes, AfterTransition, AfterCredit, AfterStaleCredit, AfterReverse, AfterMessage, Moves, Booked,
      Recorded;
    match step
    case Gateway(m) => MessageTells(p, m);
    case Expire => TransitionTells(p, Abandoned);
    case Release =>
      var q := p.(held := false, history := p.history + [HoldReleased]);
      RemarkTells(p, q, HoldReleased);
      assert Booked(q) by { HeldKeeps(p, false); NoteKeeps(p.(held := false), HoldReleased); }
      CreditTells(q);
    case Credit => CreditTells(p);
    case StaleCredit => CreditTells(p);
    case Dispute(news) =>
      forall to ensures TellsVotes(AfterTransition(p, to)) && TellsVotes(AfterReverse(AfterTransition(p, to))) {
        TransitionTells(p, to);
        ReverseTells(AfterTransition(p, to));
      }
    case _ => RefundTells(p, step);
  }

  /** In every run the history tells whether votes were credited, and whether they were reversed since. */
  lemma {:induction false} HistoryTellsVotes(purpose: Purpose, amount: int, votes: nat, held: bool, run: seq<Step>)
    ensures var p := AfterAll(Started(purpose, amount, votes, held), run);
      && (Credited in p.history <==> p.rows != [])
      && (VotesReversed in p.history <==> p.rows != [] && !AnyLive(p.rows))
  {
    RunTells(purpose, amount, votes, held, run);
    hide AfterAll, AnyLive;
  }

  lemma {:induction false} RunTells(purpose: Purpose, amount: int, votes: nat, held: bool, run: seq<Step>)
    ensures TellsVotes(AfterAll(Started(purpose, amount, votes, held), run))
  {
    hide After, Kept, TellsVotes;
    if run == [] {
      StartTells(purpose, amount, votes, held);
    } else {
      RunTells(purpose, amount, votes, held, run[..|run| - 1]);
      AlwaysKept(purpose, amount, votes, held, run[..|run| - 1]);
      StepTells(AfterAll(Started(purpose, amount, votes, held), run[..|run| - 1]), run[|run| - 1]);
    }
  }

  lemma StartTells(purpose: Purpose, amount: int, votes: nat, held: bool)
    ensures TellsVotes(Started(purpose, amount, votes, held))
  {
  }
}
