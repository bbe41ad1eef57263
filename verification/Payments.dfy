/**
 A payment for votes: its status, the ledger row its votes become, holds, refunds, disputes and the history
 of all of it. Amounts are in the smallest unit of the currency. One operation is one locked transaction.
 */
module Payments {
  import opened Collections

  datatype Status = Initialized | Pending | Abandoned | Failed | Success | PartiallyRefunded | Disputed | Reversed
                  | Refunded

  datatype Purpose = ForVotes | ForInvoice

  datatype Row = Row(votes: nat, live: bool)

  datatype RefundStatus = Requested | Agreed | Processing | Processed | RefundFailed | Rejected

  datatype Refund = Refund(amount: int, status: RefundStatus, reverseVotes: bool)

  /** What the history keeps: how the payment began, each change of status, and remarks. */
  datatype Entry = Began | Change(before: Status, after: Status) | Ignored(before: Status, after: Status)
                 | Credited | VotesReversed | HoldReleased | HoldRejected | RefundAsked | RefundSent | RefundNote

  datatype Payment = Payment(purpose: Purpose, amount: int, votes: nat, status: Status, held: bool, votesCredited: bool,
                             refundedAmount: int, rows: seq<Row>, refunds: seq<Refund>, history: seq<Entry>)

  function AllowedFrom(s: Status): set<Status> {
    match s
    case Initialized => {Pending, Success, Failed, Abandoned}
    case Pending => {Success, Failed, Abandoned}
    case Abandoned => {Success, Failed}
    case Failed => {Success}
    case Success => {Refunded, PartiallyRefunded, Reversed, Disputed}
    case PartiallyRefunded => {Refunded, Disputed, Reversed}
    case Disputed => {Success, Reversed, Refunded}
    case Reversed => {}
    case Refunded => {}
  }

  predicate Moves(p: Payment, to: Status) { p.status != to && to in AllowedFrom(p.status) }

  /** A change that is not allowed leaves a remark, a repeated status not even that. */
  function AfterTransition(p: Payment, to: Status): Payment {
    if p.status == to then p
    else if to !in AllowedFrom(p.status) then p.(history := p.history + [Ignored(p.status, to)])
    else p.(status := to, history := p.history + [Change(p.status, to)])
  }

  /**
   The votes become a ledger row; a second row for the payment violates a constraint, and an invoice has no
   contestant.
   */
  function AfterCredit(p: Payment): Payment {
    if p.votesCredited || p.status != Success || p.held || p.rows != [] || p.purpose != ForVotes then p
    else p.(rows := [Row(p.votes, true)], votesCredited := true, history := p.history + [Credited])
  }

  predicate AnyLive(rows: seq<Row>) { exists i :: 0 <= i < |rows| && rows[i].live }

  function AfterReverse(p: Payment): Payment {
    if !AnyLive(p.rows) then p
    else
      p.(rows := seq(|p.rows|, i requires 0 <= i < |p.rows| => p.rows[i].(live := false)),
         history := p.history + [VotesReversed])
  }

  /**
   What the gateway reports; with a success come the amount, whether the currency agrees, and the outcome of the
   risk check.
   */
  datatype Message = Succeeded(amount: int, sameCurrency: bool, risky: bool) | Declined | GaveUp | TakenBack | Other

  function AfterConfirmed(p: Payment, amount: int, sameCurrency: bool, risky: bool): Payment {
    var q := AfterTransition(p, Success);
    if q.status != Success then q
    else
      var matches := amount == p.amount && sameCurrency;
      var held := q.held || !matches || (q.purpose == ForVotes && !q.votesCredited && risky);
      var r := q.(held := held);
      if r.purpose == ForVotes && !r.held then AfterCredit(r) else r
  }

  function AfterMessage(p: Payment, m: Message): Payment {
    match m
    case Succeeded(amount, sameCurrency, risky) => AfterConfirmed(p, amount, sameCurrency, risky)
    case Declined => AfterTransition(p, Failed)
    case GaveUp => AfterTransition(p, Abandoned)
    case TakenBack =>
      if Moves(p, Reversed) then AfterReverse(AfterTransition(p, Reversed)) else AfterTransition(p, Reversed)
    case Other => AfterTransition(p, Pending)
  }

  /** Giving up on a customer who never finished. */
  function AfterExpiry(p: Payment): Payment {
    if p.status == Initialized || p.status == Pending then AfterTransition(p, Abandoned) else p
  }

  function AfterRelease(p: Payment): Payment {
    AfterCredit(p.(held := false, history := p.history + [HoldReleased]))
  }

  // ---- Disputes ----

  datatype DisputeNews = DisputeOpened | DisputeWon | DisputeLost

  function AfterDispute(p: Payment, news: DisputeNews): Payment {
    match news
    case DisputeOpened =>
      if Moves(p, Disputed) then AfterReverse(AfterTransition(p, Disputed)) else AfterTransition(p, Disputed)
    case DisputeWon => AfterTransition(p, Success)
    case DisputeLost => AfterTransition(p, Reversed)
  }

  // ---- Refunds ----

  predicate Refundable(p: Payment, amount: int) {
    && (p.status == Success || p.status == PartiallyRefunded || p.status == Disputed)
    && 0 < amount <= p.amount - p.refundedAmount
  }

  function AfterRefundRequest(p: Payment, amount: int, reverseVotes: bool): Payment {
    if !Refundable(p, amount) then p
    else p.(refunds := p.refunds + [Refund(amount, Requested, reverseVotes)], history := p.history + [RefundAsked])
  }

  function AfterHoldRejected(p: Payment, mayRefund: bool): Payment {
    var q := p.(history := p.history + [HoldRejected]);
    if p.status == Success && mayRefund then AfterRefundRequest(q, p.amount, true) else q
  }

  datatype GatewayAnswer = Accepted | TurnedDown | NoAnswer

  function WithRefund(p: Payment, k: nat, status: RefundStatus): Payment
    requires k < |p.refunds|
  {
    p.(refunds := p.refunds[k := p.refunds[k].(status := status)])
  }

  /** Approval submits the refund to the gateway; `immediate`: the gateway completes it at once. */
  function AfterRefundApproval(p: Payment, k: nat, answer: GatewayAnswer, immediate: bool): Payment {
    if k >= |p.refunds| || p.refunds[k].status != Requested then p
    else
      match answer
      case NoAnswer => WithRefund(p, k, Agreed)
      case TurnedDown => WithRefund(p, k, RefundFailed).(history := p.history + [RefundNote])
      case Accepted =>
        var q := WithRefund(p, k, Processing).(history := p.history + [RefundSent]);
        if immediate then AfterCompletion(q, k) else q
  }

  function AfterCompletion(p: Payment, k: nat): Payment
    requires k < |p.refunds|
  {
    if p.refunds[k].status == Processed then p
    else
      var refunded := p.refundedAmount + p.refunds[k].amount;
      var q := AfterTransition(WithRefund(p, k, Processed).(refundedAmount := refunded),
                               if refunded >= p.amount then Refunded else PartiallyRefunded);
      if p.refunds[k].reverseVotes then AfterReverse(q) else q
  }

  predicate Outstanding(r: Refund) { r.status != Processed && r.status != Rejected }

  /** The refund a gateway notice is taken to be about: the latest one still outstanding. */
  function LatestOutstanding(refunds: seq<Refund>): (r: Option<nat>)
    ensures r.Some? ==> r.value < |refunds| && Outstanding(refunds[r.value])
    ensures r.Some? ==> forall i :: r.value < i < |refunds| ==> !Outstanding(refunds[i])
    ensures r.None? ==> forall i :: 0 <= i < |refunds| ==> !Outstanding(refunds[i])
  {
    if refunds == [] then None
    else if Outstanding(refunds[|refunds| - 1]) then Some(|refunds| - 1)
    else LatestOutstanding(refunds[..|refunds| - 1])
  }

  datatype RefundNews = RefundDone | RefundBroke | RefundUpdate

  function AfterRefundNews(p: Payment, news: RefundNews): Payment {
    match LatestOutstanding(p.refunds)
    case None => p
    case Some(k) =>
      match news
      case RefundDone => AfterCompletion(p, k)
      case RefundBroke => WithRefund(p, k, RefundFailed).(history := p.history + [RefundNote])
      case RefundUpdate => p.(history := p.history + [RefundNote])
  }

  // ---- The operations ----

  class Account {
    const purpose: Purpose
    const amount: int
    const votes: nat
    var status: Status
    var held: bool
    var votesCredited: bool
    var refundedAmount: int
    var rows: seq<Row>
    var refunds: seq<Refund>
    var history: seq<Entry>

    function Stored(): Payment
      reads this
    {
      Payment(purpose, amount, votes, status, held, votesCredited, refundedAmount, rows, refunds, history)
    }

    constructor (purpose: Purpose, amount: int, votes: nat, held: bool)
      ensures Stored() == Payment(purpose, amount, votes, Initialized, held, false, 0, [], [], [Began])
    {
      this.purpose, this.amount, this.votes, this.held := purpose, amount, votes, held;
      status, votesCredited, refundedAmount, rows, refunds, history := Initialized, false, 0, [], [], [Began];
    }

    method Transition(to: Status) returns (changed: bool)
      modifies this
      ensures changed == Moves(old(Stored()), to)
      ensures Stored() == AfterTransition(old(Stored()), to)
    {
      if status == to {
        return false;
      }
      if to !in AllowedFrom(status) {
        history := history + [Ignored(status, to)];
        return false;
      }
      var previous := status;
      status := to;
      history := history + [Change(previous, to)];
      changed := true;
    }

    method CreditVotes() returns (credited: bool)
      modifies this
      ensures Stored() == AfterCredit(old(Stored()))
      ensures credited <==> AfterCredit(old(Stored())) != old(Stored())
    {
      if votesCredited || status != Success || held {
        return false;
      }
      if rows != [] || purpose != ForVotes {
        return false;
      }
      rows := [Row(votes, true)];
      votesCredited := true;
      history := history + [Credited];
      credited := true;
    }

    method ReverseVotes() returns (updated: bool)
      modifies this
      ensures Stored() == AfterReverse(old(Stored()))
      ensures updated <==> AnyLive(old(rows))
    {
      updated := AnyLive(rows);
      if updated {
        var booked := rows;
        rows := seq(|booked|, i requires 0 <= i < |booked| => booked[i].(live := false));
        history := history + [VotesReversed];
      }
    }

    method ApplyGatewayResult(m: Message)
      modifies this
      ensures Stored() == AfterMessage(old(Stored()), m)
    {
      match m
      case Succeeded(paid, sameCurrency, risky) =>
        var changed := Transition(Success);
        if !changed && status != Success {
          return;
        }
        if !(paid == amount && sameCurrency) {
          held := true;
        } else if purpose == ForVotes && !held && !votesCredited {
          if risky {
            held := true;
          }
        }
        if purpose == ForVotes && !held {
          var _ := CreditVotes();
        }
      case Declined => var _ := Transition(Failed);
      case GaveUp => var _ := Transition(Abandoned);
      case TakenBack =>
        var changed := Transition(Reversed);
        if changed {
          var _ := ReverseVotes();
        }
      case Other => var _ := Transition(Pending);
    }

    method Expire()
      modifies this
      ensures Stored() == AfterExpiry(old(Stored()))
    {
      if status == Initialized || status == Pending {
        var _ := Transition(Abandoned);
      }
    }

    method ReleaseHold()
      modifies this
      ensures Stored() == AfterRelease(old(Stored()))
    {
      held := false;
      history := history + [HoldReleased];
      var _ := CreditVotes();
    }

    method RejectHeld(mayRefund: bool)
      modifies this
      ensures Stored() == AfterHoldRejected(old(Stored()), mayRefund)
    {
      history := history + [HoldRejected];
      if status == Success && mayRefund {
        var _ := RequestRefund(amount, true);
      }
    }

    method Dispute(news: DisputeNews)
      modifies this
      ensures Stored() == AfterDispute(old(Stored()), news)
    {
      match news
      case DisputeOpened =>
        var changed := Transition(Disputed);
        if changed {
          var _ := ReverseVotes();
        }
      case DisputeWon => var _ := Transition(Success);
      case DisputeLost => var _ := Transition(Reversed);
    }

    method RequestRefund(sum: int, reverseVotes: bool) returns (ok: bool)
      modifies this
      ensures ok == Refundable(old(Stored()), sum)
      ensures Stored() == AfterRefundRequest(old(Stored()), sum, reverseVotes)
    {
      var refundable := amount - refundedAmount;
      if status != Success && status != PartiallyRefunded && status != Disputed {
        return false;
      }
      if sum <= 0 || sum > refundable {
        return false;
      }
      refunds := refunds + [Refund(sum, Requested, reverseVotes)];
      history := history + [RefundAsked];
      ok := true;
    }

    method CompleteRefund(k: nat)
      requires k < |refunds|
      modifies this
      ensures Stored() == AfterCompletion(old(Stored()), k)
    {
      var refund := refunds[k];
      if refund.status == Processed {
        return;
      }
      refunds := refunds[k := refund.(status := Processed)];
      refundedAmount := refundedAmount + refund.amount;
      var _ := Transition(if refundedAmount >= amount then Refunded else PartiallyRefunded);
      if refund.reverseVotes {
        var _ := ReverseVotes();
      }
    }

    method ApproveRefund(k: nat, answer: GatewayAnswer, immediate: bool)
      requires k < |refunds|
      modifies this
      ensures Stored() == AfterRefundApproval(old(Stored()), k, answer, immediate)
    {
      hide AfterCompletion;
      if refunds[k].status != Requested {
        return;
      }
      refunds := refunds[k := refunds[k].(status := Agreed)];
      match answer
      case NoAnswer =>
      case TurnedDown =>
        refunds := refunds[k := refunds[k].(status := RefundFailed)];
        history := history + [RefundNote];
      case Accepted =>
        refunds := refunds[k := refunds[k].(status := Processing)];
        history := history + [RefundSent];
        assert Stored() == WithRefund(old(Stored()), k, Processing).(history := history);
        if immediate {
          CompleteRefund(k);
        }
    }

    method RefundNotice(news: RefundNews)
      modifies this
      ensures Stored() == AfterRefundNews(old(Stored()), news)
    {
      hide AfterCompletion;
      var latest := LatestOutstanding(refunds);
      if latest.None? {
        return;
      }
      var k := latest.value;
      match news
      case RefundDone => CompleteRefund(k);
      case RefundBroke =>
        refunds := refunds[k := refunds[k].(status := RefundFailed)];
        history := history + [RefundNote];
      case RefundUpdate => history := history + [RefundNote];
    }
  }
}
