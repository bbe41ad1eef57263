/**
 Custody over whole runs of collecting, submitting and wiping after the deal: who has handed their share back, who
 can still collect one, and when the tally obtains the key, all told from the steps of the run.
 */
module TrusteeRuns {
  import opened Collections
  import opened ByteStrings
  import opened ShareText
  import opened ShamirTheorems
  import S = Shamir
  import P = Polynomials
  import opened Trustees

  /** As the rows are when the shares have just been dealt, to trustees each named once. */
  ghost predicate JustDealt(f: Foreign, rows: seq<Row>, d: Deal, users: seq<nat>) {
    && GoodDeal(f, d) && |rows| == |users| == |d.shares| && NoDup(users)
    && forall i :: 0 <= i < |rows| ==>
         rows[i] == Row(users[i], f.hash(d.shares[i]), Some(d.shares[i]), false, None, false)
  }

  /** Trustee `i` submits the share dealt to them, blanks around it or not. */
  ghost predicate Returns(d: Deal, users: seq<nat>, step: Step, i: nat)
    requires i < |users| == |d.shares|
  {
    step.SubmitStep? && step.user == users[i] && Padded(step.text, d.shares[i])
  }

  ghost predicate Returned(d: Deal, users: seq<nat>, run: seq<Step>, i: nat)
    requires i < |users| == |d.shares|
  {
    exists k :: 0 <= k < |run| && Returns(d, users, run[k], i)
  }

  /** They submitted it, and nothing has been wiped since. */
  ghost predicate StillThere(d: Deal, users: seq<nat>, run: seq<Step>, i: nat)
    requires i < |users| == |d.shares|
  {
    exists k :: 0 <= k < |run| && Returns(d, users, run[k], i) && forall j :: k < j < |run| ==> !run[j].WipeStep?
  }

  ghost predicate Collected(users: seq<nat>, run: seq<Step>, i: nat)
    requires i < |users|
  {
    exists k :: 0 <= k < |run| && run[k] == CollectStep(users[i])
  }

  /** What a row says after a run. */
  ghost predicate Tells(f: Foreign, d: Deal, users: seq<nat>, run: seq<Step>, row: Row, i: nat)
    requires i < |users| == |d.shares|
  {
    && row.user == users[i] && row.hash == f.hash(d.shares[i])
    && (row.submittedAt <==> Returned(d, users, run, i))
    && row.submitted == (if StillThere(d, users, run, i) then Some(d.shares[i]) else None)
    && row.collected == Collected(users, run, i)
    && row.pending == (if Collected(users, run, i) then None else Some(d.shares[i]))
  }

  /** Generating the key for trustees deals a share to each row. */
  lemma DealingDeals(f: Foreign, users: seq<nat>, d: Deal)
    requires GoodDeal(f, d) && NoDup(users) && |users| == |d.shares|
    ensures var rows := seq(|users|, i requires 0 <= i < |users| => Row(users[i], "", None, false, None, false));
      JustDealt(f, DealtRows(f, rows, d.shares), d, users)
  {
    hide GoodDeal;
  }

  // ---- One more step ----

  lemma OneMoreStep(d: Deal, users: seq<nat>, run: seq<Step>, step: Step, i: nat)
    requires i < |users| == |d.shares|
    ensures Returned(d, users, run + [step], i) <==> Returned(d, users, run, i) || Returns(d, users, step, i)
    ensures Collected(users, run + [step], i) <==> Collected(users, run, i) || step == CollectStep(users[i])
    ensures StillThere(d, users, run + [step], i) <==>
      Returns(d, users, step, i) || (StillThere(d, users, run, i) && !step.WipeStep?)
  {
    hide Returns;
    var more := run + [step];
    assert more[|run|] == step;
    assert forall k :: 0 <= k < |run| ==> more[k] == run[k];
    if Returned(d, users, run, i) {
      var k :| 0 <= k < |run| && Returns(d, users, run[k], i);
      assert Returns(d, users, more[k], i);
    }
    if Collected(users, run, i) {
      var k :| 0 <= k < |run| && run[k] == CollectStep(users[i]);
      assert more[k] == CollectStep(users[i]);
    }
    StillThereGrows(d, users, run, step, i);
  }

  lemma StillThereGrows(d: Deal, users: seq<nat>, run: seq<Step>, step: Step, i: nat)
    requires i < |users| == |d.shares|
    ensures StillThere(d, users, run + [step], i) <==>
      Returns(d, users, step, i) || (StillThere(d, users, run, i) && !step.WipeStep?)
  {
    var more := run + [step];
    assert more[|run|] == step;
    if StillThere(d, users, run, i) && !step.WipeStep? {
      var k :| 0 <= k < |run| && Returns(d, users, run[k], i) && forall j :: k < j < |run| ==> !run[j].WipeStep?;
      assert more[k] == run[k] && forall j :: k < j < |more| ==> !more[j].WipeStep?;
    }
    if StillThere(d, users, more, i) && !Returns(d, users, step, i) {
      var k :| 0 <= k < |more| && Returns(d, users, more[k], i) && forall j :: k < j < |more| ==> !more[j].WipeStep?;
      assert k < |run| && more[k] == run[k] && forall j :: k < j < |run| ==> !run[j].WipeStep? by {
        assert forall j :: k < j < |run| ==> more[j] == run[j];
      }
    }
  }

  lemma {:induction false} FindsOwnRow(rows: seq<Row>, users: seq<nat>, i: nat)
    requires |rows| == |users| && NoDup(users) && i < |users|
    requires forall k :: 0 <= k < |rows| ==> rows[k].user == users[k]
    ensures Find(rows, users[i]) == Some(i)
  {
    if i > 0 {
      assert users[0] != users[i];
      FindsOwnRow(rows[1..], users[1..], i - 1);
    }
  }

  lemma SharesAreTight(f: Foreign, d: Deal, i: nat)
    requires GoodDeal(f, d) && i < |d.shares|
    ensures var s := d.shares[i]; s != "" && !IsWhite(s[0]) && !IsWhite(s[|s| - 1])
  {
    hide Digits;
    var coefs := S.Coefficients(f.scheme, d.raw, d.random);
    assert d.shares[i] == S.Share(f.scheme.p, coefs, i + 1);
    PrintedIsTight(i + 1, P.Eval(coefs, i + 1) % f.scheme.p);
  }

  /** Submitting counts exactly for the trustee whose dealt share is submitted. */
  lemma SubmitsOwn(f: Foreign, d: Deal, users: seq<nat>, rows: seq<Row>, step: Step, i: nat)
    requires GoodDeal(f, d) && |rows| == |users| == |d.shares| && NoDup(users) && i < |users|
    requires forall k :: 0 <= k < |rows| ==> rows[k].user == users[k] && rows[k].hash == f.hash(d.shares[k])
    requires step.SubmitStep? && Distinguishes(f, d, Strip(step.text))
    ensures Accepts(f, rows, step.user, step.text) && Find(rows, step.user) == Some(i) <==> Returns(d, users, step, i)
    ensures Returns(d, users, step, i) ==> Strip(step.text) == d.shares[i]
  {
    hide Padded, Strip, GoodDeal;
    FindsOwnRow(rows, users, i);
    SharesAreTight(f, d, i);
    StripIsPadding(step.text, d.shares[i]);
  }

  lemma StepTells(f: Foreign, d: Deal, users: seq<nat>, run: seq<Step>, rows: seq<Row>, step: Step)
    requires GoodDeal(f, d) && |rows| == |users| == |d.shares| && NoDup(users)
    requires forall i :: 0 <= i < |rows| ==> Tells(f, d, users, run, rows[i], i)
    requires step.SubmitStep? ==> Distinguishes(f, d, Strip(step.text))
    ensures |After(f, rows, step)| == |rows|
    ensures forall i :: 0 <= i < |rows| ==> Tells(f, d, users, run + [step], After(f, rows, step)[i], i)
  {
    hide GoodDeal, Distinguishes, Strip, Returned, StillThere, Collected, Find, NoDup;
    forall i | 0 <= i < |rows| ensures Tells(f, d, users, run + [step], After(f, rows, step)[i], i) {
      OneMoreStep(d, users, run, step, i);
      FindsOwnRow(rows, users, i);
      match step
      case CollectStep(user) => CollectTells(f, d, users, run, rows, user, i);
      case SubmitStep(user, text) => SubmitsOwn(f, d, users, rows, step, i);
      case WipeStep =>
    }
  }

  lemma CollectTells(f: Foreign, d: Deal, users: seq<nat>, run: seq<Step>, rows: seq<Row>, user: nat, i: nat)
    requires |rows| == |users| == |d.shares| && NoDup(users) && i < |users|
    requires forall k :: 0 <= k < |rows| ==> Tells(f, d, users, run, rows[k], k)
    ensures AfterCollect(rows, user)[i] ==
      if user == users[i] && !Collected(users, run, i) then rows[i].(pending := None, collected := true) else rows[i]
  {
    hide Returned, StillThere, Collected, Find, NoDup;
    FindsOwnRow(rows, users, i);
    assert Tells(f, d, users, run, rows[i], i);
  }

  lemma StartTells(f: Foreign, d: Deal, users: seq<nat>, rows: seq<Row>)
    requires JustDealt(f, rows, d, users)
    ensures forall i :: 0 <= i < |rows| ==> Tells(f, d, users, [], rows[i], i)
  {
  }

  /**
   After any run each row tells from the steps of the run: who handed their dealt share back, whether it is still held,
   and who collected theirs, once.
   */
  lemma {:induction false} RowsTellTheRun(f: Foreign, d: Deal, users: seq<nat>, dealt: seq<Row>, run: seq<Step>)
    requires JustDealt(f, dealt, d, users) && NoConfusion(f, d, run)
    ensures var rows := AfterAll(f, dealt, run);
      |rows| == |users| && forall i :: 0 <= i < |rows| ==> Tells(f, d, users, run, rows[i], i)
  {
    hide Tells, GoodDeal, After, Distinguishes, Strip;
    if run == [] {
      StartTells(f, d, users, dealt);
    } else {
      var front := run[..|run| - 1];
      RowsTellTheRun(f, d, users, dealt, front);
      assert run[|run| - 1] in run;
      StepTells(f, d, users, front, AfterAll(f, dealt, front), run[|run| - 1]);
      assert front + [run[|run| - 1]] == run;
    }
  }

  // ---- The results ----

  /** A trustee gets the dealt share exactly when asking for the first time, and nobody else gets one. */
  lemma ShareIsHandedOutOnce(f: Foreign, d: Deal, users: seq<nat>, dealt: seq<Row>, run: seq<Step>, i: nat)
    requires JustDealt(f, dealt, d, users) && NoConfusion(f, d, run) && i < |users|
    ensures var rows := AfterAll(f, dealt, run);
      && Find(rows, users[i]) == Some(i)
      && (MayCollect(rows[i]) <==> !Collected(users, run, i))
      && (MayCollect(rows[i]) ==> rows[i].pending == Some(d.shares[i]))
    ensures forall user :: user !in users ==> Find(AfterAll(f, dealt, run), user) == None
  {
    RowsTellTheRun(f, d, users, dealt, run);
    hide AfterAll, Collected, JustDealt, Find, GoodDeal;
    var rows := AfterAll(f, dealt, run);
    assert forall k :: 0 <= k < |rows| ==> Tells(f, d, users, run, rows[k], k);
    FindsOwnRow(rows, users, i) by {
      assert NoDup(users) by { UsersOnce(f, dealt, d, users); }
    }
  }

  lemma UsersOnce(f: Foreign, rows: seq<Row>, d: Deal, users: seq<nat>)
    requires JustDealt(f, rows, d, users)
    ensures NoDup(users) && |users| == |d.shares| == |rows| && GoodDeal(f, d)
  {
  }

  /** The trustees who handed their share back, in the order the database returns their rows. */
  ghost function Returning(d: Deal, users: seq<nat>, run: seq<Step>, order: seq<nat>): (r: seq<nat>)
    requires |users| == |d.shares| && Within(order, |users|)
    ensures Within(r, |users|)
    ensures forall i :: i in r <==> i in order && Returned(d, users, run, i)
  {
    if order == [] then []
    else
      assert order == [order[0]] + order[1..];
      (if Returned(d, users, run, order[0]) then [order[0]] else []) + Returning(d, users, run, order[1..])
  }

  lemma {:induction false} HandedBackAreReturning(f: Foreign, d: Deal, users: seq<nat>, run: seq<Step>, rows: seq<Row>,
                                                  order: seq<nat>)
    requires |rows| == |users| == |d.shares| && Within(order, |users|)
    requires forall i :: 0 <= i < |rows| ==> Tells(f, d, users, run, rows[i], i)
    ensures HandedBack(rows, order) == Returning(d, users, run, order)
  {
    hide Returned, StillThere, Collected;
    if order != [] {
      assert Tells(f, d, users, run, rows[order[0]], order[0]);
      HandedBackAreReturning(f, d, users, run, rows, order[1..]);
    }
  }

  /**
   Custody: in every run of collecting, submitting and wiping after the deal,
     the tally is refused while too few trustees
   have submitted the shares dealt to them, and when one of the first `threshold` of these was wiped without being
   submitted again; in all other cases it obtains the generated key.
   */
  lemma TallyObtainsKey(f: Foreign, d: Deal, users: seq<nat>, dealt: seq<Row>, run: seq<Step>, order: seq<nat>)
    requires JustDealt(f, dealt, d, users) && NoConfusion(f, d, run) && RowOrder(order, |users|)
    ensures |AfterAll(f, dealt, run)| == |users|
    ensures var back := Returning(d, users, run, order);
      TallyKey(f, AfterAll(f, dealt, run), Some(SplitKey(f.derive(d.raw), d.threshold)), order) ==
        if |back| < d.threshold then Err(TooFew)
        else if forall k :: 0 <= k < d.threshold ==> StillThere(d, users, run, back[k]) then Ok(d.raw)
        else Err(ShareWiped)
  {
    hide AfterAll, TallyKey, Returned, StillThere, Collected, GoodDeal, JustDealt;
    UsersOnce(f, dealt, d, users);
    RowsTellTheRun(f, d, users, dealt, run);
    var rows := AfterAll(f, dealt, run);
    TellingIsDealt(f, d, users, run, rows);
    KeyFromRows(f, d, rows, order);
    HandedBackAreReturning(f, d, users, run, rows, order);
    HoldingAreStillThere(f, d, users, run, rows, Returning(d, users, run, order), d.threshold);
  }

  /**
   A key kept by the system is obtained as it was made, and no key that does not fit the public one is ever given
   out.
   */
  lemma KeyFitsElection(f: Foreign, rows: seq<Row>, key: Option<Key>, order: seq<nat>, raw: seq<Byte>)
    requires f.scheme.p > 1 && RowOrder(order, |rows|)
    ensures key == Some(SystemKey(f.derive(raw), raw)) ==> TallyKey(f, rows, key, order) == Ok(raw)
    ensures TallyKey(f, rows, key, order) == Ok(raw) ==> key.Some? && f.derive(raw) == key.value.publicKey
    ensures TallyKey(f, rows, None, order) == Err(NoKey)
  {
    hide S.Combined, HandedBack, Holding;
  }

  lemma TellingIsDealt(f: Foreign, d: Deal, users: seq<nat>, run: seq<Step>, rows: seq<Row>)
    requires |rows| == |users| == |d.shares|
    requires forall i :: 0 <= i < |rows| ==> Tells(f, d, users, run, rows[i], i)
    ensures Dealt(f, rows, d)
  {
    forall i | 0 <= i < |rows| ensures StillThere(d, users, run, i) ==> Returned(d, users, run, i) {
    }
    hide Returned, StillThere, Collected;
    assert forall i :: 0 <= i < |rows| ==> Tells(f, d, users, run, rows[i], i);
  }

  lemma HoldingAreStillThere(f: Foreign, d: Deal, users: seq<nat>, run: seq<Step>, rows: seq<Row>, back: seq<nat>,
                             n: nat)
    requires |rows| == |users| == |d.shares| && Within(back, |rows|)
    requires forall i :: 0 <= i < |rows| ==> Tells(f, d, users, run, rows[i], i)
    ensures n <= |back| ==>
      (Holding(rows, back[..n]) <==> forall k :: 0 <= k < n ==> StillThere(d, users, run, back[k]))
  {
    hide Returned, StillThere, Collected;
    if n <= |back| {
      assert forall k :: 0 <= k < n ==> back[..n][k] == back[k] && Tells(f, d, users, run, rows[back[k]], back[k]);
    }
  }

  /** Any trustees that make up the threshold suffice, as long as nothing has been wiped. */
  lemma EnoughSharesSuffice(f: Foreign, d: Deal, users: seq<nat>, dealt: seq<Row>, run: seq<Step>, order: seq<nat>,
                            some: set<nat>)
    requires JustDealt(f, dealt, d, users) && NoConfusion(f, d, run) && RowOrder(order, |users|)
    requires forall step :: step in run ==> !step.WipeStep?
    requires |some| >= d.threshold && forall i :: i in some ==> i < |users| && Returned(d, users, run, i)
    ensures |AfterAll(f, dealt, run)| == |users|
    ensures TallyKey(f, AfterAll(f, dealt, run), Some(SplitKey(f.derive(d.raw), d.threshold)), order) == Ok(d.raw)
  {
    hide TallyKey, GoodDeal, Returned, StillThere;
    UsersOnce(f, dealt, d, users);
    TallyObtainsKey(f, d, users, dealt, run, order);
    hide JustDealt, NoConfusion, AfterAll;
    var back := Returning(d, users, run, order);
    forall i | i in some ensures i in back {
      EveryRowInOrder(order, |users|, i);
    }
    NotFewer(some, back);
    forall k | 0 <= k < |back| ensures StillThere(d, users, run, back[k]) {
      assert back[k] in back;
      NeverWiped(d, users, run, back[k]);
    }
  }

  lemma NeverWiped(d: Deal, users: seq<nat>, run: seq<Step>, i: nat)
    requires i < |users| == |d.shares| && Returned(d, users, run, i) && forall step :: step in run ==> !step.WipeStep?
    ensures StillThere(d, users, run, i)
  {
    var k :| 0 <= k < |run| && Returns(d, users, run[k], i);
    assert forall j :: k < j < |run| ==> run[j] in run;
  }

  function Below(n: nat): (r: set<nat>)
    ensures |r| == n && forall k: nat :: k in r <==> k < n
  {
    if n == 0 then {} else Below(n - 1) + {n - 1}
  }

  lemma EveryRowInOrder(order: seq<nat>, n: nat, i: nat)
    requires RowOrder(order, n) && i < n
    ensures i in order
  {
    ListingSize(order, Elems(order));
    forall k | k in Elems(order) ensures k in Below(n) {
    }
    SameSize(Elems(order), Below(n));
    assert i in Below(n);
  }

  lemma SameSize(a: set<nat>, b: set<nat>)
    requires a <= b && |a| == |b|
    ensures a == b
  {
    assert |b - a| == 0 by { assert b == a + (b - a); }
  }

  lemma NotFewer(some: set<nat>, xs: seq<nat>)
    requires forall i :: i in some ==> i in xs
    ensures |some| <= |xs|
    decreases |xs|
  {
    if xs != [] {
      var front, last := xs[..|xs| - 1], xs[|xs| - 1];
      assert xs == front + [last];
      NotFewer(some - {last}, front);
      assert some <= (some - {last}) + {last};
      assert |some| <= |some - {last}| + 1;
    } else {
      assert some == {};
    }
  }
}
