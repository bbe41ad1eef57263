/**
 The audit log: entries kept in hash chains, one for each organization and one for the platform, each with a
 head that holds its length and its last hash. Hash and encoding are parameters; where it matters, the encoding
 is assumed injective, and the hash free of collisions on the finitely many texts a statement speaks about.
 */
module AuditChain {
  import opened Collections

  function Zeros(n: nat): (s: string)
    ensures |s| == n
  {
    if n == 0 then "" else Zeros(n - 1) + "0"
  }

  type Hash = s: string | |s| == 64 witness Zeros(64)

  const GENESIS: Hash := Zeros(64)

  datatype Content = Content(
    eventType: string, actor: Option<nat>, actorLabel: string, organization: Option<nat>, election: Option<nat>,
    targetType: string, targetId: string, summary: string, address: string, agent: string, correlation: string,
    changes: string, metadata: string, result: string, reason: string, createdAt: int)

  /** The hashed fields of an entry. */
  datatype Fields = Fields(chain: string, number: int, content: Content)

  datatype Entry = Entry(fields: Fields, prev: Hash, hash: Hash)

  datatype Head = Head(number: int, last: Hash)

  datatype Env = Env(h: string -> Hash, encode: Fields -> string)

  function Text(e: Env, prev: Hash, fields: Fields): string { prev + e.encode(fields) }

  function ComputeHash(e: Env, prev: Hash, fields: Fields): Hash { e.h(Text(e, prev, fields)) }

  // ---- The entries of a chain, in order ----

  function Insert(rows: seq<Entry>, row: Entry): seq<Entry> {
    if rows == [] then [row]
    else if rows[|rows| - 1].fields.number <= row.fields.number then rows + [row]
    else Insert(rows[..|rows| - 1], row) + [rows[|rows| - 1]]
  }

  /** The stored entries of one chain, ordered by their number. */
  function Rows(table: seq<Entry>, chain: string): seq<Entry> {
    if table == [] then []
    else
      var before, last := Rows(table[..|table| - 1], chain), table[|table| - 1];
      if last.fields.chain == chain then Insert(before, last) else before
  }

  function LastHash(rows: seq<Entry>): Hash { if rows == [] then GENESIS else rows[|rows| - 1].hash }

  predicate Links(e: Env, rows: seq<Entry>, i: nat)
    requires i < |rows|
  {
    && rows[i].fields.number == i + 1 && rows[i].prev == LastHash(rows[..i])
    && rows[i].hash == ComputeHash(e, rows[i].prev, rows[i].fields)
  }

  ghost predicate Linked(e: Env, rows: seq<Entry>) { forall i :: 0 <= i < |rows| ==> Links(e, rows, i) }

  predicate Matches(head: Head, rows: seq<Entry>) { head.number == |rows| && head.last == LastHash(rows) }

  ghost predicate Intact(e: Env, table: seq<Entry>, heads: map<string, Head>, chain: string) {
    && Linked(e, Rows(table, chain))
    && (chain in heads ==> Matches(heads[chain], Rows(table, chain)))
  }

  class AuditLog {
    const env: Env
    var table: seq<Entry>
    var heads: map<string, Head>

    constructor (e: Env)
      ensures env == e && table == [] && heads == map[]
    {
      env, table, heads := e, [], map[];
    }

    method Record(chain: string, content: Content) returns (entry: Entry)
      modifies this
      ensures table == AfterRecord(env, (old(table), old(heads)), chain, content).0
      ensures heads == AfterRecord(env, (old(table), old(heads)), chain, content).1
      ensures table == old(table) + [entry]
    {
      hide ComputeHash;
      if chain !in heads {
        heads := heads[chain := Head(0, GENESIS)];
      }
      var head := heads[chain];
      var fields := Fields(chain, head.number + 1, content);
      entry := Entry(fields, head.last, ComputeHash(env, head.last, fields));
      table := table + [entry];
      heads := heads[chain := Head(fields.number, entry.hash)];
    }

    /** Accepts exactly the intact chains, and otherwise counts the entries before the first fault. */
    method VerifyChain(chain: string) returns (ok: bool, count: nat, bad: Option<int>)
      ensures ok <==> Intact(env, table, heads, chain)
      ensures count <= |Rows(table, chain)| && Linked(env, Rows(table, chain)[..count])
      ensures !ok && count < |Rows(table, chain)| ==>
        !Linked(env, Rows(table, chain)[..count + 1]) && bad == Some(Rows(table, chain)[count].fields.number)
      ensures !ok && count == |Rows(table, chain)| ==> chain in heads && bad == Some(heads[chain].number)
    {
      hide Rows, ComputeHash;
      var rows := Rows(table, chain);
      var prev, expected: int := GENESIS, 1;
      count := 0;
      for i := 0 to |rows|
        invariant count == i && expected == i + 1 && prev == LastHash(rows[..i])
        invariant Linked(env, rows[..i])
      {
        LinkedUpTo(env, rows, i);
        var entry := rows[i];
        if entry.fields.number != expected || entry.prev != prev || ComputeHash(env, prev, entry.fields) != entry.hash {
          return false, count, Some(entry.fields.number);
        }
        prev := entry.hash;
        expected := expected + 1;
        count := count + 1;
      }
      assert rows[..|rows|] == rows;
      if chain in heads && (heads[chain].number != count || heads[chain].last != prev) {
        return false, count, Some(heads[chain].number);
      }
      ok, bad := true, None;
    }
  }

  lemma LinkedUpTo(e: Env, rows: seq<Entry>, i: nat)
    requires i < |rows|
    ensures Linked(e, rows[..i + 1]) <==> Linked(e, rows[..i]) && Links(e, rows, i)
    ensures Linked(e, rows) ==> Linked(e, rows[..i + 1])
  {
    hide Links;
    forall k | 0 <= k < i + 1 ensures Links(e, rows[..i + 1], k) == Links(e, rows, k) {
      LinksInPrefix(e, rows, i + 1, k);
    }
    forall k | 0 <= k < i ensures Links(e, rows[..i], k) == Links(e, rows, k) {
      LinksInPrefix(e, rows, i, k);
    }
    if Linked(e, rows[..i + 1]) {
      assert Links(e, rows[..i + 1], i);
      forall k | 0 <= k < i ensures Links(e, rows[..i], k) {
        assert Links(e, rows[..i + 1], k);
      }
    }
    var longer := rows[..i + 1];
    if Linked(e, rows[..i]) && Links(e, rows, i) {
      forall k | 0 <= k < i + 1 ensures Links(e, longer, k) {
        assert k < i ==> Links(e, rows[..i], k);
      }
    }
  }

  lemma LinksInPrefix(e: Env, rows: seq<Entry>, n: nat, k: nat)
    requires k < n <= |rows|
    ensures Links(e, rows[..n], k) == Links(e, rows, k)
  {
    assert rows[..n][..k] == rows[..k];
  }

  // ---- Recording ----

  type Log = (seq<Entry>, map<string, Head>)

  function AfterRecord(e: Env, log: Log, chain: string, content: Content): Log {
    var (table, heads) := log;
    var head := if chain in heads then heads[chain] else Head(0, GENESIS);
    var fields := Fields(chain, head.number + 1, content);
    var hash := ComputeHash(e, head.last, fields);
    (table + [Entry(fields, head.last, hash)], heads[chain := Head(head.number + 1, hash)])
  }

  function AfterAll(e: Env, run: seq<(string, Content)>): Log {
    if run == [] then ([], map[])
    else AfterRecord(e, AfterAll(e, run[..|run| - 1]), run[|run| - 1].0, run[|run| - 1].1)
  }

  /** Every chain is intact, and exactly the chains with entries have a head. */
  ghost predicate Sound(e: Env, log: Log) {
    forall chain :: Intact(e, log.0, log.1, chain) && (chain in log.1 <==> Rows(log.0, chain) != [])
  }

  lemma AppendedRow(table: seq<Entry>, entry: Entry, chain: string)
    ensures Rows(table + [entry], chain) ==
      if entry.fields.chain == chain then Insert(Rows(table, chain), entry) else Rows(table, chain)
  {
    assert (table + [entry])[..|table|] == table;
  }

  lemma LinkAdded(e: Env, rows: seq<Entry>, entry: Entry)
    requires Linked(e, rows) && entry.fields.number == |rows| + 1 && entry.prev == LastHash(rows)
    requires entry.hash == ComputeHash(e, entry.prev, entry.fields)
    ensures Insert(rows, entry) == rows + [entry] && Linked(e, rows + [entry])
  {
    hide ComputeHash;
    var all := rows + [entry];
    assert all[..|rows|] == rows && all[..|rows| + 1] == all;
    LinkedUpTo(e, all, |rows|);
    if rows != [] {
      assert Links(e, rows, |rows| - 1);
    }
  }

  lemma RecordKeepsSound(e: Env, log: Log, chain: string, content: Content)
    requires Sound(e, log)
    ensures Sound(e, AfterRecord(e, log, chain, content))
  {
    hide Rows, ComputeHash;
    var after := AfterRecord(e, log, chain, content);
    var entry := after.0[|log.0|];
    forall c ensures Intact(e, after.0, after.1, c) && (c in after.1 <==> Rows(after.0, c) != []) {
      AppendedRow(log.0, entry, c);
      assert Intact(e, log.0, log.1, c) && (c in log.1 <==> Rows(log.0, c) != []);
      if c == chain {
        LinkAdded(e, Rows(log.0, c), entry);
      }
    }
  }

  /** Whatever is recorded, in whatever chains, every chain verifies. */
  lemma {:induction false} RecordedChainsVerify(e: Env, run: seq<(string, Content)>)
    ensures Sound(e, AfterAll(e, run))
  {
    hide AfterRecord, Intact;
    if run == [] {
      EmptyIsSound(e);
    } else {
      RecordedChainsVerify(e, run[..|run| - 1]);
      RecordKeepsSound(e, AfterAll(e, run[..|run| - 1]), run[|run| - 1].0, run[|run| - 1].1);
    }
  }

  lemma EmptyIsSound(e: Env)
    ensures Sound(e, ([], map[]))
  {
  }

  /** What was recorded for a chain, in order. */
  function Recorded(run: seq<(string, Content)>, chain: string): seq<Content> {
    if run == [] then []
    else Recorded(run[..|run| - 1], chain) + if run[|run| - 1].0 == chain then [run[|run| - 1].1] else []
  }

  /** The rows of a chain, numbered from one, with these contents. */
  ghost predicate Carries(rows: seq<Entry>, chain: string, contents: seq<Content>) {
    |rows| == |contents| && forall i :: 0 <= i < |rows| ==> rows[i].fields == Fields(chain, i + 1, contents[i])
  }

  ghost predicate CarriesAll(run: seq<(string, Content)>, table: seq<Entry>) {
    && |table| == |run|
    && (forall k :: 0 <= k < |run| ==> table[k].fields.chain == run[k].0 && table[k].fields.content == run[k].1)
    && forall chain :: Carries(Rows(table, chain), chain, Recorded(run, chain))
  }

  /** The table holds one entry for each recording, in order, and each chain carries what was recorded for it. */
  lemma {:induction false} ChainsCarryContents(e: Env, run: seq<(string, Content)>)
    ensures CarriesAll(run, AfterAll(e, run).0)
  {
    hide CarriesAll, AfterRecord;
    if run == [] {
      NothingCarried();
    } else {
      var (front, last) := (run[..|run| - 1], run[|run| - 1]);
      ChainsCarryContents(e, front);
      RecordedChainsVerify(e, front);
      RecordCarries(e, front, AfterAll(e, front), last.0, last.1);
      assert front + [last] == run;
    }
  }

  lemma NothingCarried()
    ensures CarriesAll([], [])
  {
  }

  lemma RecordCarries(e: Env, run: seq<(string, Content)>, log: Log, chain: string, content: Content)
    requires Sound(e, log) && CarriesAll(run, log.0)
    ensures CarriesAll(run + [(chain, content)], AfterRecord(e, log, chain, content).0)
  {
    hide Rows, Linked, Carries, ComputeHash, Recorded;
    var entry := AfterRecord(e, log, chain, content).0[|log.0|];
    var more := run + [(chain, content)];
    forall c ensures Carries(Rows(log.0 + [entry], c), c, Recorded(more, c)) {
      AppendedRow(log.0, entry, c);
      RecordedMore(run, chain, content, c);
      assert Carries(Rows(log.0, c), c, Recorded(run, c)) && Intact(e, log.0, log.1, c);
      if c == chain {
        LinkAdded(e, Rows(log.0, c), entry);
        CarriesOneMore(Rows(log.0, c), c, Recorded(run, c), entry, content);
      }
    }
  }

  lemma RecordedMore(run: seq<(string, Content)>, chain: string, content: Content, c: string)
    ensures Recorded(run + [(chain, content)], c) ==
      if c == chain then Recorded(run, c) + [content] else Recorded(run, c)
  {
    assert (run + [(chain, content)])[..|run|] == run;
  }

  lemma CarriesOneMore(rows: seq<Entry>, chain: string, contents: seq<Content>, entry: Entry, content: Content)
    requires Carries(rows, chain, contents) && entry.fields == Fields(chain, |rows| + 1, content)
    ensures Carries(rows + [entry], chain, contents + [content])
  {
  }

  // ---- Tampering ----

  ghost predicate Injective(e: Env) { forall a, b :: e.encode(a) == e.encode(b) ==> a == b }

  function Texts(e: Env, rows: seq<Entry>): set<string> {
    set i | 0 <= i < |rows| :: Text(e, rows[i].prev, rows[i].fields)
  }

  ghost predicate CollisionFree(e: Env, texts: set<string>) {
    forall a, b :: a in texts && b in texts && e.h(a) == e.h(b) ==> a == b
  }

  lemma SameTextSameEntry(e: Env, a: Entry, b: Entry)
    requires Injective(e) && Text(e, a.prev, a.fields) == Text(e, b.prev, b.fields) && a.hash == b.hash
    ensures a == b
  {
    var s, t := Text(e, a.prev, a.fields), Text(e, b.prev, b.fields);
    assert s[..64] == a.prev && t[..64] == b.prev;
    assert s[64..] == e.encode(a.fields) && t[64..] == e.encode(b.fields);
  }

  lemma {:induction false} SameLastHashSameRows(e: Env, a: seq<Entry>, b: seq<Entry>)
    requires Linked(e, a) && Linked(e, b) && |a| == |b| && LastHash(a) == LastHash(b)
    requires Injective(e) && CollisionFree(e, Texts(e, a) + Texts(e, b))
    ensures a == b
  {
    if a != [] {
      var n := |a| - 1;
      SameLastEntry(e, a, b);
      hide Links, Injective, CollisionFree, Texts;
      if n > 0 {
        LinkedUpTo(e, a, n - 1);
        LinkedUpTo(e, b, n - 1);
      }
      FewerTexts(e, a, n);
      FewerTexts(e, b, n);
      CollisionFreeBelow(e, Texts(e, a) + Texts(e, b), Texts(e, a[..n]) + Texts(e, b[..n]));
      SameLastHashSameRows(e, a[..n], b[..n]);
      assert a == a[..n] + [a[n]] && b == b[..n] + [b[n]];
    }
  }

  lemma SameLastEntry(e: Env, a: seq<Entry>, b: seq<Entry>)
    requires Linked(e, a) && Linked(e, b) && |a| == |b| > 0 && LastHash(a) == LastHash(b)
    requires Injective(e) && CollisionFree(e, Texts(e, a) + Texts(e, b))
    ensures a[|a| - 1] == b[|a| - 1] && LastHash(a[..|a| - 1]) == LastHash(b[..|a| - 1])
  {
    var n := |a| - 1;
    assert Links(e, a, n) && Links(e, b, n);
    hide Text;
    assert Text(e, a[n].prev, a[n].fields) in Texts(e, a) && Text(e, b[n].prev, b[n].fields) in Texts(e, b);
    SameTextSameEntry(e, a[n], b[n]);
  }

  lemma CollisionFreeBelow(e: Env, texts: set<string>, fewer: set<string>)
    requires CollisionFree(e, texts) && fewer <= texts
    ensures CollisionFree(e, fewer)
  {
  }

  lemma FewerTexts(e: Env, rows: seq<Entry>, n: nat)
    requires n <= |rows|
    ensures Texts(e, rows[..n]) <= Texts(e, rows)
  {
    forall t | t in Texts(e, rows[..n]) ensures t in Texts(e, rows) {
      var i :| 0 <= i < n && t == Text(e, rows[..n][i].prev, rows[..n][i].fields);
      assert rows[..n][i] == rows[i];
    }
  }

  /** Two tables that both verify for a chain against the same head hold the same entries of that chain. */
  lemma HeadDeterminesChain(e: Env, table: seq<Entry>, other: seq<Entry>, heads: map<string, Head>, chain: string)
    requires chain in heads && Intact(e, table, heads, chain) && Intact(e, other, heads, chain)
    requires Injective(e) && CollisionFree(e, Texts(e, Rows(table, chain)) + Texts(e, Rows(other, chain)))
    ensures Rows(table, chain) == Rows(other, chain)
  {
    SameLastHashSameRows(e, Rows(table, chain), Rows(other, chain));
  }

  /**
   After any recording, a table that shows a chain differently in any way, whether an entry was edited, inserted,
   moved or deleted, is refused as long as the head is the recorded one.
   */
  lemma TamperingIsDetected(e: Env, run: seq<(string, Content)>, other: seq<Entry>, chain: string)
    requires var (table, heads) := AfterAll(e, run);
      && chain in heads && Rows(other, chain) != Rows(table, chain)
      && Injective(e) && CollisionFree(e, Texts(e, Rows(table, chain)) + Texts(e, Rows(other, chain)))
    ensures !Intact(e, other, AfterAll(e, run).1, chain)
  {
    RecordedChainsVerify(e, run);
    hide AfterAll, Intact, Rows;
    var (table, heads) := AfterAll(e, run);
    assert Intact(e, table, heads, chain);
    if Intact(e, other, heads, chain) {
      HeadDeterminesChain(e, table, other, heads, chain);
    }
  }

  /** The head tells an intact chain from all its truncations, each of which is linked as well. */
  lemma HeadGuardsTheEnd(e: Env, rows: seq<Entry>, n: nat)
    requires Linked(e, rows) && n <= |rows|
    ensures Linked(e, rows[..n])
    ensures forall head: Head :: Matches(head, rows) ==> (Matches(head, rows[..n]) <==> n == |rows|)
  {
    if n > 0 {
      LinkedUpTo(e, rows, n - 1);
    }
    assert n == |rows| ==> rows[..n] == rows;
  }

  /**
   Without the head row every linked table verifies: besides truncations of the recorded chain also any other content,
   hashed anew from the start.
   */
  lemma WithoutHeadAnythingLinked(e: Env, heads: map<string, Head>, chain: string, forged: seq<(string, Content)>)
    requires chain !in heads
    ensures forall table :: Intact(e, table, heads, chain) <==> Linked(e, Rows(table, chain))
    ensures Intact(e, AfterAll(e, forged).0, heads, chain)
  {
    RecordedChainsVerify(e, forged);
    var log := AfterAll(e, forged);
    hide AfterAll, Rows, Linked;
    assert Intact(e, log.0, log.1, chain);
  }
}
