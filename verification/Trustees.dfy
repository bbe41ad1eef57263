/**
 Trustee custody of the ballot key: the private key is dealt out as shares, each trustee collects a share
 once and hands it back for the tally, and the tally combines the first `threshold` shares handed back.
 Hashing and the derivation of the public key are parameters.
 */
module Trustees {
  import opened Collections
  import opened PrimeField
  import opened ByteStrings
  import opened ShareText
  import S = Shamir
  import opened ShamirTheorems

  datatype Row = Row(user: nat, hash: string, pending: Option<string>, collected: bool,
                     submitted: Option<string>, submittedAt: bool)

  datatype Key = SystemKey(publicKey: string, wrapped: seq<Byte>) | SplitKey(publicKey: string, threshold: nat)

  datatype Error = BadTrustees | SplitFailed(cause: S.Error) | NotTrustee | AlreadyCollected | WrongShare
                 | NoKey | TooFew | ShareWiped | CombineFailed(cause: S.Error) | WrongKey

  datatype Outcome<+T> = Ok(value: T) | Err(error: Error)

  /** The hash of a printed share and the public key of a private key. */
  datatype Foreign = Foreign(scheme: S.Scheme, hash: string -> string, derive: seq<Byte> -> string)

  function Find(rows: seq<Row>, user: nat): (r: Option<nat>)
    ensures r.Some? ==> r.value < |rows| && rows[r.value].user == user
    ensures r.None? ==> forall row :: row in rows ==> row.user != user
  {
    if rows == [] then None
    else if rows[0].user == user then Some(0)
    else
      match Find(rows[1..], user)
      case None => None
      case Some(i) => Some(i + 1)
  }

  /** What was dealt: share i went to row i. */
  datatype Deal = Deal(raw: seq<Byte>, threshold: nat, random: seq<int>, shares: seq<string>)

  ghost predicate GoodDeal(f: Foreign, d: Deal) {
    && f.scheme.p > 255 && Prime(f.scheme.p) && d.raw != []
    && 2 <= |d.shares| && 1 <= d.threshold
    && S.Draws(f.scheme.p, d.random, d.threshold)
    && S.Shares(f.scheme, d.raw, |d.shares|, d.threshold, d.random) == S.Ok(d.shares)
  }

  /** Every row holds, or once held, its own share and nothing else. */
  ghost predicate Dealt(f: Foreign, rows: seq<Row>, d: Deal) {
    && |rows| == |d.shares|
    && forall i :: 0 <= i < |rows| ==>
      && rows[i].hash == f.hash(d.shares[i])
      && (rows[i].pending.Some? ==> rows[i].pending.value == d.shares[i] && !rows[i].collected)
      && (rows[i].submitted.Some? ==> rows[i].submitted.value == d.shares[i] && rows[i].submittedAt)
  }

  /** No two different texts, one of them a dealt share, are confused by the hash. */
  ghost predicate Distinguishes(f: Foreign, d: Deal, text: string) {
    forall i :: 0 <= i < |d.shares| && f.hash(text) == f.hash(d.shares[i]) ==> text == d.shares[i]
  }

  predicate Within(order: seq<nat>, n: nat) { forall k :: 0 <= k < |order| ==> order[k] < n }

  /** Every row once, in some order. */
  predicate RowOrder(order: seq<nat>, n: nat) {
    && |order| == n && Within(order, n)
    && forall i, j :: 0 <= i < j < |order| ==> order[i] != order[j]
  }

  /** The rows handed back, in the order the database returns them. */
  function HandedBack(rows: seq<Row>, order: seq<nat>): (r: seq<nat>)
    requires Within(order, |rows|)
    ensures Within(r, |rows|)
    ensures forall k :: 0 <= k < |r| ==> r[k] in order && rows[r[k]].submittedAt
  {
    if order == [] then []
    else if rows[order[0]].submittedAt then [order[0]] + HandedBack(rows, order[1..])
    else HandedBack(rows, order[1..])
  }

  /** Those rows still hold the share that was handed back. */
  predicate Holding(rows: seq<Row>, picks: seq<nat>)
    requires Within(picks, |rows|)
  {
    forall k :: 0 <= k < |picks| ==> rows[picks[k]].submitted.Some?
  }

  class KeyStore {
    var rows: seq<Row>
    var key: Option<Key>

    constructor (users: seq<nat>)
      ensures key == None && rows == seq(|users|, i requires 0 <= i < |users| =>
                                         Row(users[i], "", None, false, None, false))
    {
      rows := seq(|users|, i requires 0 <= i < |users| => Row(users[i], "", None, false, None, false));
      key := None;
    }

    /** Generate the key once; with trustees, deal its shares out in row order. */
    method EnsureKey(f: Foreign, raw: seq<Byte>, trustees: bool, threshold: int, random: seq<int>)
        returns (r: Outcome<Key>)
      requires f.scheme.p > 1
      requires 1 <= threshold <= |rows| <= 255 ==> S.Draws(f.scheme.p, random, threshold)
      modifies this
      ensures old(key).Some? ==> r == Ok(old(key).value) && rows == old(rows) && key == old(key)
      ensures r.Err? ==> rows == old(rows) && key == old(key)
      ensures old(key).None? && !trustees ==> r == Ok(SystemKey(f.derive(raw), raw)) && rows == old(rows)
      ensures r.Ok? ==> key == Some(r.value)
      ensures old(key).None? && trustees ==>
        var dealt := S.Shares(f.scheme, raw, |old(rows)|, threshold, random);
        && (r.Ok? <==> 2 <= |old(rows)| && 1 <= threshold <= |old(rows)| && dealt.Ok?)
        && (r.Ok? ==>
              && key == Some(SplitKey(f.derive(raw), threshold))
              && rows == DealtRows(f, old(rows), dealt.value))
    {
      if key.Some? {
        return Ok(key.value);
      }
      if trustees {
        if |rows| < 2 || !(1 <= threshold <= |rows|) {
          return Err(BadTrustees);
        }
        var dealt := S.SplitSecret(f.scheme, raw, |rows|, threshold, random);
        if dealt.Err? {
          return Err(SplitFailed(dealt.error));
        }
        var shares := dealt.value;
        for i := 0 to |rows|
          invariant |rows| == |old(rows)| == |shares| && key == old(key)
          invariant forall k :: 0 <= k < i ==> rows[k] == old(rows)[k].(hash := f.hash(shares[k]),
            pending := Some(shares[k]))
          invariant forall k :: i <= k < |rows| ==> rows[k] == old(rows)[k]
        {
          rows := rows[i := rows[i].(hash := f.hash(shares[i]), pending := Some(shares[i]))];
        }
        assert rows == DealtRows(f, old(rows), shares);
        r := Ok(SplitKey(f.derive(raw), threshold));
      } else {
        r := Ok(SystemKey(f.derive(raw), raw));
      }
      key := Some(r.value);
    }

    /** Hand a trustee their share, once. */
    method Collect(user: nat) returns (r: Outcome<string>)
      modifies this`rows
      ensures rows == AfterCollect(old(rows), user)
      ensures r.Ok? <==> Find(old(rows), user).Some? && MayCollect(old(rows)[Find(old(rows), user).value])
      ensures r.Ok? ==> r == Ok(old(rows)[Find(old(rows), user).value].pending.value)
    {
      var at := Find(rows, user);
      if at.None? {
        return Err(NotTrustee);
      }
      var row := rows[at.value];
      if !MayCollect(row) {
        return Err(AlreadyCollected);
      }
      r := Ok(row.pending.value);
      rows := rows[at.value := row.(pending := None, collected := true)];
    }

    /** Accept a share back only when its hash is the one on record. */
    method Submit(f: Foreign, user: nat, text: string) returns (r: Outcome<Row>)
      modifies this`rows
      ensures rows == AfterSubmit(f, old(rows), user, text)
      ensures r.Ok? <==> Accepts(f, old(rows), user, text)
    {
      var at := Find(rows, user);
      if at.None? {
        return Err(NotTrustee);
      }
      if f.hash(Strip(text)) != rows[at.value].hash {
        return Err(WrongShare);
      }
      rows := rows[at.value := rows[at.value].(submitted := Some(Strip(text)), submittedAt := true)];
      r := Ok(rows[at.value]);
    }

    method Wipe()
      modifies this`rows
      ensures rows == AfterWipe(old(rows))
    {
      rows := AfterWipe(rows);
    }

    /** The private key for the tally; `order` is the order in which the database returns the rows. */
    method PrivateKey(f: Foreign, order: seq<nat>) returns (r: Outcome<seq<Byte>>)
      requires f.scheme.p > 1 && RowOrder(order, |rows|)
      ensures r == TallyKey(f, rows, key, order)
    {
      if key.None? {
        return Err(NoKey);
      }
      var raw: seq<Byte>;
      match key.value {
      case SystemKey(_, wrapped) => raw := wrapped;
      case SplitKey(_, threshold) =>
        var back := HandedBack(rows, order);
        if |back| < threshold {
          return Err(TooFew);
        }
        if !Holding(rows, back[..threshold]) {
          return Err(ShareWiped);
        }
        var texts := Texts(rows, back[..threshold]);
        var combined := S.CombineShares(f.scheme, texts);
        if combined.Err? {
          return Err(CombineFailed(combined.error));
        }
        raw := combined.value;
      }
      if f.derive(raw) != key.value.publicKey {
        return Err(WrongKey);
      }
      r := Ok(raw);
    }
  }

  /** Each row with its share, and the share's hash on record. */
  function DealtRows(f: Foreign, rows: seq<Row>, shares: seq<string>): seq<Row>
    requires |rows| == |shares|
  {
    seq(|rows|, i requires 0 <= i < |rows| => rows[i].(hash := f.hash(shares[i]), pending := Some(shares[i])))
  }

  predicate MayCollect(row: Row) { !row.collected && row.pending.Some? }

  predicate Accepts(f: Foreign, rows: seq<Row>, user: nat, text: string) {
    var at := Find(rows, user);
    at.Some? && f.hash(Strip(text)) == rows[at.value].hash
  }

  function AfterSubmit(f: Foreign, rows: seq<Row>, user: nat, text: string): seq<Row> {
    if Accepts(f, rows, user, text) then
      var i := Find(rows, user).value;
      rows[i := rows[i].(submitted := Some(Strip(text)), submittedAt := true)]
    else rows
  }

  function AfterCollect(rows: seq<Row>, user: nat): seq<Row> {
    var at := Find(rows, user);
    if at.None? || !MayCollect(rows[at.value]) then rows
    else rows[at.value := rows[at.value].(pending := None, collected := true)]
  }

  function AfterWipe(rows: seq<Row>): seq<Row> {
    seq(|rows|, i requires 0 <= i < |rows| => rows[i].(submitted := None))
  }

  function Texts(rows: seq<Row>, picks: seq<nat>): (r: seq<string>)
    requires Within(picks, |rows|) && Holding(rows, picks)
    ensures |r| == |picks|
  {
    seq(|picks|, k requires 0 <= k < |picks| => rows[picks[k]].submitted.value)
  }

  function TallyKey(f: Foreign, rows: seq<Row>, key: Option<Key>, order: seq<nat>): Outcome<seq<Byte>>
    requires f.scheme.p > 1 && RowOrder(order, |rows|)
  {
    match key
    case None => Err(NoKey)
    case Some(SystemKey(publicKey, wrapped)) => if f.derive(wrapped) != publicKey then Err(WrongKey) else Ok(wrapped)
    case Some(SplitKey(publicKey, threshold)) =>
      var back := HandedBack(rows, order);
      if |back| < threshold then Err(TooFew)
      else if !Holding(rows, back[..threshold]) then Err(ShareWiped)
      else
        match S.Combined(f.scheme, Texts(rows, back[..threshold]))
        case Err(e) => Err(CombineFailed(e))
        case Ok(raw) => if f.derive(raw) != publicKey then Err(WrongKey) else Ok(raw)
  }

  // ---- Runs ----

  datatype Step = CollectStep(user: nat) | SubmitStep(user: nat, text: string) | WipeStep

  function After(f: Foreign, rows: seq<Row>, step: Step): seq<Row> {
    match step
    case CollectStep(user) => AfterCollect(rows, user)
    case SubmitStep(user, text) => AfterSubmit(f, rows, user, text)
    case WipeStep => AfterWipe(rows)
  }

  function AfterAll(f: Foreign, rows: seq<Row>, run: seq<Step>): seq<Row> {
    if run == [] then rows else After(f, AfterAll(f, rows, run[..|run| - 1]), run[|run| - 1])
  }

  /** The hash confuses no text submitted in the run with another share. */
  ghost predicate NoConfusion(f: Foreign, d: Deal, run: seq<Step>) {
    forall s :: s in run && s.SubmitStep? ==> Distinguishes(f, d, Strip(s.text))
  }

  lemma StepKeepsDeal(f: Foreign, d: Deal, rows: seq<Row>, step: Step)
    requires Dealt(f, rows, d) && (step.SubmitStep? ==> Distinguishes(f, d, Strip(step.text)))
    ensures Dealt(f, After(f, rows, step), d)
  {
  }

  lemma {:induction false} RunKeepsDeal(f: Foreign, d: Deal, rows: seq<Row>, run: seq<Step>)
    requires Dealt(f, rows, d) && NoConfusion(f, d, run)
    ensures Dealt(f, AfterAll(f, rows, run), d)
  {
    if run != [] {
      RunKeepsDeal(f, d, rows, run[..|run| - 1]);
      StepKeepsDeal(f, d, AfterAll(f, rows, run[..|run| - 1]), run[|run| - 1]);
    }
  }

  lemma {:induction false} HandedBackDistinct(rows: seq<Row>, order: seq<nat>)
    requires Within(order, |rows|) && NoDup(order)
    ensures NoDup(HandedBack(rows, order))
  {
    if order != [] {
      HandedBackDistinct(rows, order[1..]);
    }
  }

  lemma FirstShares(f: Foreign, d: Deal, rows: seq<Row>, picks: seq<nat>)
    requires Dealt(f, rows, d) && GoodDeal(f, d) && NoDup(picks) && |picks| == d.threshold
    requires Within(picks, |rows|) && Holding(rows, picks)
    ensures S.Combined(f.scheme, Texts(rows, picks)) == S.Ok(d.raw)
  {
    hide S.Combined, S.Shares;
    forall i | i in picks ensures i < |d.shares| {
      var k :| 0 <= k < |picks| && picks[k] == i;
    }
    assert Texts(rows, picks) == Picked(d.shares, picks) by {
      forall k | 0 <= k < |picks| ensures Texts(rows, picks)[k] == Picked(d.shares, picks)[k] {
        assert picks[k] in picks;
      }
    }
    Reconstruction(f.scheme, d.raw, |d.shares|, d.threshold, d.random, picks);
  }

  /** What comes out of the rows: a refusal, or the generated key if enough shares are back and the first still held. */
  lemma KeyFromRows(f: Foreign, d: Deal, rows: seq<Row>, order: seq<nat>)
    requires GoodDeal(f, d) && Dealt(f, rows, d) && RowOrder(order, |rows|)
    ensures var back := HandedBack(rows, order);
      TallyKey(f, rows, Some(SplitKey(f.derive(d.raw), d.threshold)), order) ==
        if |back| < d.threshold then Err(TooFew)
        else if Holding(rows, back[..d.threshold]) then Ok(d.raw) else Err(ShareWiped)
  {
    hide S.Combined, S.Shares, Dealt, GoodDeal;
    var back := HandedBack(rows, order);
    HandedBackDistinct(rows, order);
    if |back| >= d.threshold && Holding(rows, back[..d.threshold]) {
      FirstShares(f, d, rows, back[..d.threshold]);
    }
  }
}
