/**
 The bundle an observer checks: the signed configuration, the signed certification, the published result and
 the bulletin board. When the bundle passes is stated exactly, and a passing bundle leaves no choice.
 */
module Verification {
  import opened Collections
  import opened ByteStrings
  import opened Merkle
  import opened Bulletin
  import opened Lifecycle
  import opened Elections
  import opened ElectionRuns

  datatype Bundle = Bundle(configuration: Option<Snapshot>, certification: Option<Certification>,
                           result: Option<ResultData>,
                           trackers: seq<seq<Byte>>, keys: seq<nat>)

  datatype Check = ConfigurationHash | ConfigurationSignature | CertificationSignature | BulletinRoot | ResultHash
                 | CertifiedConfiguration | KeyTrusted

  function BundleOf(s: Stored): Bundle {
    var current := Current(s.certifications);
    Bundle(if s.snapshots == [] then None else Some(s.snapshots[|s.snapshots| - 1]),
           if current.None? then None else Some(s.certifications[current.value]),
           if current.Some? && s.event.stage in {Published, Archived}
             && s.certifications[current.value].result < |s.results|
           then Some(s.results[s.certifications[current.value].result].data) else None,
           Listed(s.board), Trusted(s))
  }

  function ConfigurationChecks(e: Env, n: Snapshot): seq<(Check, bool)> {
    [(ConfigurationHash, e.docHash(n.config) == n.hash),
     (ConfigurationSignature, VerifySignature(n.config, n.signature, n.publicKey))]
  }

  function CertificationChecks(e: Env, c: Certification, b: Bundle): seq<(Check, bool)> {
    [(CertificationSignature, VerifySignature(c.payload, c.signature, c.publicKey)),
     (BulletinRoot, Root(e.h, b.trackers) == c.payload.root)]
    + (if b.result.Some? then [(ResultHash, e.dataHash(b.result.value.stable) == c.payload.resultHash)] else [])
    + (if b.configuration.Some?
       then [(CertifiedConfiguration, c.payload.configHash == Some(b.configuration.value.hash))] else [])
    + [(KeyTrusted, c.publicKey in b.keys)]
  }

  function Checks(e: Env, b: Bundle): seq<(Check, bool)> {
    (if b.configuration.Some? then ConfigurationChecks(e, b.configuration.value) else [])
    + if b.certification.Some? then CertificationChecks(e, b.certification.value, b) else []
  }

  /** The checks that are made, each with its outcome. */
  method VerifyBundle(e: Env, b: Bundle) returns (checks: seq<(Check, bool)>)
    ensures checks == Checks(e, b)
    ensures (forall i :: 0 <= i < |checks| ==> checks[i].1) <==> Passes(e, b)
  {
    checks := [];
    if b.configuration.Some? {
      checks := CheckConfiguration(e, b.configuration.value);
    }
    if b.certification.Some? {
      var more := CheckCertification(e, b.certification.value, b);
      checks := checks + more;
    }
    ChecksDecide(e, b);
    hide Passes, ConfigurationChecks, CertificationChecks;
  }

  method CheckConfiguration(e: Env, n: Snapshot) returns (checks: seq<(Check, bool)>)
    ensures checks == ConfigurationChecks(e, n)
  {
    checks := [(ConfigurationHash, e.docHash(n.config) == n.hash)];
    checks := checks + [(ConfigurationSignature, VerifySignature(n.config, n.signature, n.publicKey))];
  }

  method CheckCertification(e: Env, c: Certification, b: Bundle) returns (checks: seq<(Check, bool)>)
    ensures checks == CertificationChecks(e, c, b)
  {
    hide Root, VerifySignature;
    checks := [(CertificationSignature, VerifySignature(c.payload, c.signature, c.publicKey))];
    var root := MerkleRoot(e.h, b.trackers);
    checks := checks + [(BulletinRoot, root == c.payload.root)];
    if b.result.Some? {
      checks := checks + [(ResultHash, e.dataHash(b.result.value.stable) == c.payload.resultHash)];
    }
    if b.configuration.Some? {
      checks := checks + [(CertifiedConfiguration, c.payload.configHash == Some(b.configuration.value.hash))];
    }
    checks := checks + [(KeyTrusted, c.publicKey in b.keys)];
  }

  predicate AllTrue(checks: seq<(Check, bool)>) { forall i :: 0 <= i < |checks| ==> checks[i].1 }

  lemma AllTrueJoins(a: seq<(Check, bool)>, b: seq<(Check, bool)>)
    ensures AllTrue(a + b) <==> AllTrue(a) && AllTrue(b)
  {
    if AllTrue(a + b) {
      forall i | 0 <= i < |a| ensures a[i].1 {
        assert a[i] == (a + b)[i];
      }
      forall i | 0 <= i < |b| ensures b[i].1 {
        assert b[i] == (a + b)[|a| + i];
      }
    }
  }

  lemma ChecksDecide(e: Env, b: Bundle)
    ensures AllTrue(Checks(e, b)) <==> Passes(e, b)
  {
    hide Root, VerifySignature;
    AllTrueJoins(if b.configuration.Some? then ConfigurationChecks(e, b.configuration.value) else [],
                 if b.certification.Some? then CertificationChecks(e, b.certification.value, b) else []);
    if b.configuration.Some? {
      var checks := ConfigurationChecks(e, b.configuration.value);
      assert checks[0].0 == ConfigurationHash && checks[1].0 == ConfigurationSignature;
      assert AllTrue(checks) <==> SoundConfiguration(e, b.configuration.value);
    }
    if b.certification.Some? {
      CertificationDecides(e, b.certification.value, b);
    }
  }

  lemma CertificationDecides(e: Env, c: Certification, b: Bundle)
    ensures AllTrue(CertificationChecks(e, c, b)) <==> SoundCertification(e, c, b)
  {
    hide Root, VerifySignature;
    var checks := CertificationChecks(e, c, b);
    assert checks[0].0 == CertificationSignature && checks[1].0 == BulletinRoot && checks[|checks| - 1].0 == KeyTrusted;
    assert b.result.Some? ==> checks[2].0 == ResultHash;
    assert b.configuration.Some? ==> checks[|checks| - 2].0 == CertifiedConfiguration;
  }

  predicate SoundConfiguration(e: Env, n: Snapshot) {
    n.hash == e.docHash(n.config) && VerifySignature(n.config, n.signature, n.publicKey)
  }

  predicate SoundCertification(e: Env, c: Certification, b: Bundle) {
    && VerifySignature(c.payload, c.signature, c.publicKey)
    && c.payload.root == Root(e.h, b.trackers)
    && (b.result.Some? ==> c.payload.resultHash == e.dataHash(b.result.value.stable))
    && (b.configuration.Some? ==> c.payload.configHash == Some(b.configuration.value.hash))
    && c.publicKey in b.keys
  }

  predicate Passes(e: Env, b: Bundle) {
    && (b.configuration.Some? ==> SoundConfiguration(e, b.configuration.value))
    && (b.certification.Some? ==> SoundCertification(e, b.certification.value, b))
  }

  // ---- What a bundle shows ----

  /** The certification shown was signed over the latest snapshot, with a key that is still trusted. */
  predicate UpToDate(s: Stored, current: Option<nat>)
    requires current.Some? ==> current.value < |s.certifications|
  {
    current.Some? ==>
      && s.certifications[current.value].payload.configHash == LatestHash(s)
      && s.certifications[current.value].publicKey in Trusted(s)
  }

  /** The certification is signed, and states the root of the board, the hash of its result and that of a snapshot. */
  ghost predicate Truthful(e: Env, s: Stored, c: Certification) {
    && c.payload.root == Root(e.h, Listed(s.board)) && VerifySignature(c.payload, c.signature, c.publicKey)
    && c.result < |s.results| && c.payload.resultHash == e.dataHash(s.results[c.result].data.stable)
    && Describes(s, c.payload.configHash)
  }

  lemma SoundBundle(e: Env, s: Stored, working: seq<Result>)
    requires Sound(e, s, working)
    ensures forall i :: 0 <= i < |s.certifications| ==> Truthful(e, s, s.certifications[i])
    ensures Passes(e, BundleOf(s)) <==> UpToDate(s, Current(s.certifications))
  {
    hide Endorsed, Staged, Listed, Root, DocumentCore, CoreOf, VerifySignature, Describes;
    forall i | 0 <= i < |s.certifications| ensures Truthful(e, s, s.certifications[i]) {
      assert Certifies(s, s.certifications[i]);
      assert Confirmed(e, s.board, s.results[s.certifications[i].result]);
    }
    if Current(s.certifications).Some? {
      assert Truthful(e, s, s.certifications[Current(s.certifications).value]);
      DescribedBySome(s, s.certifications[Current(s.certifications).value].payload.configHash);
    }
  }

  lemma DescribedBySome(s: Stored, configHash: Option<Digest>)
    requires Describes(s, configHash)
    ensures s.snapshots != []
  {
  }

  /**
   In every run each certification is signed and states the root of the stored ballots, the hash of its result and
   the hash of a signed snapshot that still describes what was approved. All checks of the published bundle pass
   exactly if that snapshot is the latest one and the signing key is still trusted.
   */
  lemma BundlePasses(e: Env, config: Config, start: int, end: int, key: nat, run: seq<Step>)
    ensures var s := AfterAll(e, Created(config, start, end, key), run).db;
      && (forall i :: 0 <= i < |s.certifications| ==> Truthful(e, s, s.certifications[i]))
      && (Passes(e, BundleOf(s)) <==> UpToDate(s, Current(s.certifications)))
  {
    RunIsSound(e, config, start, end, key, run);
    var m := AfterAll(e, Created(config, start, end, key), run);
    SoundBundle(e, m.db, m.working);
    hide Sound, Passes, BundleOf, AfterAll, Truthful;
  }

  /** Every ballot stored before tallying has a proof that checks against the root in the certification. */
  lemma EveryBallotIsProvable(e: Env, config: Config, start: int, end: int, key: nat, run: seq<Step>, i: nat)
    requires var s := AfterAll(e, Created(config, start, end, key), run).db;
      i < |s.board| && Current(s.certifications).Some?
    ensures var s := AfterAll(e, Created(config, start, end, key), run).db;
      var root := s.certifications[Current(s.certifications).value].payload.root;
      exists k :: 0 <= k < |Listed(s.board)| && Listed(s.board)[k] == s.board[i].tracker
        && Accepts(e.h, s.board[i].tracker, Path(e.h, Leaves(Listed(s.board)), k), root)
  {
    var s := AfterAll(e, Created(config, start, end, key), run).db;
    BundlePasses(e, config, start, end, key, run);
    assert Truthful(e, s, s.certifications[Current(s.certifications).value]);
    ListedAreStored(s.board, s.board[i].tracker);
    hide AfterAll, Passes, BundleOf, Listed, Root, Accepts, Path;
    var k :| 0 <= k < |Listed(s.board)| && Listed(s.board)[k] == s.board[i].tracker;
    ProofsAreComplete(e.h, Listed(s.board), k);
  }

  /**
   And nothing else has one: a proof that the certified root accepts is for a stored ballot, unless its lengths are
   those of a leaf or a pair posing as the other.
   */
  lemma OnlyBallotsAreProvable(e: Env, config: Config, start: int, end: int, key: nat, run: seq<Step>,
                               tracker: seq<Byte>, proof: seq<Sibling>)
    requires var s := AfterAll(e, Created(config, start, end, key), run).db;
      && Current(s.certifications).Some? && !Posing(|tracker|, Lengths(proof))
      && Accepts(e.h, tracker, proof, s.certifications[Current(s.certifications).value].payload.root)
      && CollisionFree(e.h, BoardTexts(e.h, Listed(s.board)) + ProofTexts(e.h, tracker, proof))
    ensures var s := AfterAll(e, Created(config, start, end, key), run).db;
      exists i :: 0 <= i < |s.board| && s.board[i].tracker == tracker
  {
    var s := AfterAll(e, Created(config, start, end, key), run).db;
    BundlePasses(e, config, start, end, key, run);
    assert Truthful(e, s, s.certifications[Current(s.certifications).value]);
    hide AfterAll, Passes, BundleOf, Listed, Root, Accepts, Path, CollisionFree, BoardTexts, ProofTexts, Posing;
    ProofsAreSound(e.h, Listed(s.board), tracker, proof);
    ListedAreStored(s.board, tracker);
  }

  // ---- What a passing bundle leaves open ----

  /** The same certified payload, and no collision among the configurations and results shown. */
  ghost predicate Comparable(e: Env, a: Bundle, b: Bundle) {
    && Passes(e, a) && Passes(e, b) && a.certification.Some? && b.certification.Some?
    && a.certification.value.payload == b.certification.value.payload
    && CollisionFree(e.h, BoardTexts(e.h, a.trackers) + BoardTexts(e.h, b.trackers))
    && (a.configuration.Some? && b.configuration.Some?
        && e.docHash(a.configuration.value.config) == e.docHash(b.configuration.value.config)
        ==> a.configuration.value.config == b.configuration.value.config)
    && (a.result.Some? && b.result.Some? && e.dataHash(a.result.value.stable) == e.dataHash(b.result.value.stable)
        ==> a.result.value.stable == b.result.value.stable)
  }

  /**
   Two passing bundles with the same certified payload show the same configuration and the same result; and the same
   board, if neither repeats a tracker, or both have one length, and no tracker has 63 bytes.
   */
  lemma BundlesBind(e: Env, a: Bundle, b: Bundle)
    requires Comparable(e, a, b)
    ensures a.configuration.Some? && b.configuration.Some? ==>
      a.configuration.value.config == b.configuration.value.config
    ensures a.result.Some? && b.result.Some? ==> a.result.value.stable == b.result.value.stable
    ensures Plain(a.trackers) && Plain(b.trackers)
      && (|a.trackers| == |b.trackers| || (NoDup(a.trackers) && NoDup(b.trackers)))
      ==> a.trackers == b.trackers
  {
    hide Root, BoardTexts, CollisionFree, VerifySignature, NoDup, Plain;
    if Plain(a.trackers) && Plain(b.trackers) {
      RootBinds(e.h, a.trackers, b.trackers);
    }
  }

  lemma StoredBoardIsPlain(e: Env, config: Config, start: int, end: int, key: nat, run: seq<Step>)
    ensures var trackers := BundleOf(AfterAll(e, Created(config, start, end, key), run).db).trackers;
      NoDup(trackers) && Plain(trackers)
  {
    RunIsSound(e, config, start, end, key, run);
    var s := AfterAll(e, Created(config, start, end, key), run).db;
    hide AfterAll, Endorsed, Staged, AllCertify, AllConfirmed, Signed, Listed, Trackers, Plain;
    ListedDistinct(s.board);
  }

  /** So whoever shows other trackers than the stored ones, each once and each a digest, shows a bundle that fails. */
  lemma BoardIsBound(e: Env, config: Config, start: int, end: int, key: nat, run: seq<Step>, b: Bundle)
    requires Comparable(e, BundleOf(AfterAll(e, Created(config, start, end, key), run).db), b)
    requires NoDup(b.trackers) && forall tracker :: tracker in b.trackers ==> |tracker| == 32
    ensures b.trackers == Listed(AfterAll(e, Created(config, start, end, key), run).db.board)
  {
    StoredBoardIsPlain(e, config, start, end, key, run);
    BundlesBind(e, BundleOf(AfterAll(e, Created(config, start, end, key), run).db), b);
    hide AfterAll, Comparable, NoDup, Listed;
  }

  /** A repeated tracker can go unnoticed: the last of an odd board shown twice. */
  lemma RepeatedTrackerPasses(e: Env, b: Bundle)
    requires Passes(e, b) && |b.trackers| > 1 && |b.trackers| % 2 == 1
    ensures Passes(e, b.(trackers := b.trackers + [b.trackers[|b.trackers| - 1]]))
  {
    hide Root, VerifySignature;
    RepeatedLeafKeepsRoot(e.h, b.trackers);
  }

  /** And so can a long one: two trackers shown as one of 63 bytes. */
  lemma LongTrackerPasses(e: Env, b: Bundle)
    requires Passes(e, b) && |b.trackers| == 2 && e.h(LeafText(b.trackers[0]))[0] == 0
    ensures var pair := PairText(e.h(LeafText(b.trackers[0])), e.h(LeafText(b.trackers[1])));
      |pair[1..]| == 63 && Passes(e, b.(trackers := [pair[1..]]))
  {
    hide Root, VerifySignature;
    LongLeafHasPairRoot(e.h, b.trackers[0], b.trackers[1]);
    assert b.trackers == [b.trackers[0], b.trackers[1]];
  }
}
