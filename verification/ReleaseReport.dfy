/** The release list a console shows, and the two files that save the updater
    from working it out again: neither may change what the list says. */
module ReleaseReport {
  import opened Base
  import Registry
  import RunMachine
  import Versions

  // ---- configuration, releases, rows -------------------------------------

  /** Whose signatures count, and which attestations the list asks about. */
  datatype Trust = Trust(key: Option<string>, issuer: Option<string>, identity: Option<string>, types: seq<string>)

  /** SHA-256 of `policy|kind|ref`, and the 16-digit fingerprint of a trust policy. */
  datatype Hashing = Hashing(digest: string -> string,
      fingerprint: (Option<string>, Option<string>, Option<string>) -> string) {
    function Policy(t: Trust): string {
      fingerprint(t.key, t.issuer, t.identity)
    }

    function Key(q: Question): string {
      digest(q.policy + "|" + (q.kind + "|" + q.ref))
    }
  }

  /** What cosign was asked: is `ref` signed, or attested, under `policy`? */
  datatype Question = Question(policy: string, kind: string, ref: string)

  const SIGNATURE := "signature"

  function Attestation(t: string): string {
    "attestation:" + t
  }

  /** Fingerprints have 16 digits, kinds are those two, and a reference has no
      `|`; then distinct questions have distinct keys, collisions aside. */
  ghost predicate Proper(q: Question) {
    |q.policy| == 16 && '|' !in q.ref && (q.kind == SIGNATURE || (exists t :: q.kind == Attestation(t)))
  }

  ghost predicate NoCollision(h: Hashing) {
    forall x, y :: h.digest(x) == h.digest(y) ==> x == y
  }

  lemma LastBar(kind1: string, ref1: string, kind2: string, ref2: string)
    requires kind1 + "|" + ref1 == kind2 + "|" + ref2 && '|' !in ref1 && '|' !in ref2
    ensures kind1 == kind2 && ref1 == ref2
  {
    var s, t := kind1 + "|" + ref1, kind2 + "|" + ref2;
    assert s[|kind1|] == '|' && t[|kind2|] == '|';
    assert forall i :: |kind1| < i < |s| ==> s[i] == ref1[i - |kind1| - 1] && s[i] != '|';
    assert forall i :: |kind2| < i < |t| ==> t[i] == ref2[i - |kind2| - 1] && t[i] != '|';
    assert |kind1| == |kind2|;
    assert s[..|kind1|] == kind1 && t[..|kind2|] == kind2;
    assert s[|kind1| + 1..] == ref1 && t[|kind2| + 1..] == ref2;
  }

  lemma FirstBar(policy1: string, rest1: string, policy2: string, rest2: string)
    requires policy1 + "|" + rest1 == policy2 + "|" + rest2 && |policy1| == |policy2|
    ensures policy1 == policy2 && rest1 == rest2
  {
    var s, t := policy1 + "|" + rest1, policy2 + "|" + rest2;
    assert s[..|policy1|] == policy1 && t[..|policy1|] == policy2;
    assert s[|policy1| + 1..] == rest1 && t[|policy1| + 1..] == rest2;
  }

  lemma KeysAreDistinct(h: Hashing, q1: Question, q2: Question)
    requires NoCollision(h) && Proper(q1) && Proper(q2) && h.Key(q1) == h.Key(q2)
    ensures q1 == q2
  {
    FirstBar(q1.policy, q1.kind + "|" + q1.ref, q2.policy, q2.kind + "|" + q2.ref);
    LastBar(q1.kind, q1.ref, q2.kind, q2.ref);
  }

  datatype ReleaseInfo = ReleaseInfo(tag: string, name: string, publishedAt: Option<string>, notes: string,
      url: Option<string>, prerelease: bool)

  /** The releases there are, newest first, and what each tag resolves to. */
  datatype Source = Source(listing: seq<ReleaseInfo>, resolve: string -> Result<Registry.ResolvedRelease, string>)

  /** What stands beside the compatibility verdict. */
  datatype Note = Unresolved(why: string) | Window(reason: RunMachine.Reason)

  datatype Row = Row(info: ReleaseInfo, version: string, signatureVerified: Option<bool>, gatePassed: Option<bool>,
                     attested: Option<bool>, dbRevision: Option<string>, minDbRevision: Option<string>,
                     compatible: Option<bool>, compatibility: Option<Note>,
                     backendDigest: Option<string>, frontendDigest: Option<string>)

  const RESOLVE_FIRST := 3

  // ---- the list, worked out with no cache at all --------------------------

  function Refs(rel: Registry.ResolvedRelease): seq<string> {
    [rel.BackendRef(), rel.FrontendRef()]
  }

  type Verdicts = (string, string) -> bool

  predicate AllHold(v: Verdicts, kind: string, refs: seq<string>) {
    forall i :: 0 <= i < |refs| ==> v(kind, refs[i])
  }

  predicate Attested(v: Verdicts, refs: seq<string>, types: seq<string>) {
    forall j :: 0 <= j < |types| ==> AllHold(v, Attestation(types[j]), refs)
  }

  function Blank(info: ReleaseInfo): Row {
    Row(info, Versions.Norm(info.tag), None, None, None, None, None, None, None, None, None)
  }

  function Resolved(info: ReleaseInfo, rel: Registry.ResolvedRelease, health: Option<RunMachine.Health>): Row {
    var (ok, why) := RunMachine.Compatibility(rel.dbRevision, rel.minDbRevision, health);
    Row(info, if rel.version != "" then rel.version else Versions.Norm(info.tag), None, None, None,
        rel.dbRevision, rel.minDbRevision, Some(ok), Some(Window(why)), Some(rel.backendDigest),
            Some(rel.frontendDigest))
  }

  /** What cosign's verdicts add to a resolved row. */
  function Judged(row: Row, v: Verdicts, refs: seq<string>, types: seq<string>): Row {
    var signed := AllHold(v, SIGNATURE, refs);
    row.(signatureVerified := Some(signed), gatePassed := if signed then Some(true) else None,
         attested := if signed && types != [] then Some(Attested(v, refs, types)) else None)
  }

  function RowFor(src: Source, v: Verdicts, types: seq<string>, insecure: bool, i: nat,
      health: Option<RunMachine.Health>): Row
    requires i < |src.listing|
  {
    var info := src.listing[i];
    if i >= RESOLVE_FIRST then Blank(info)
    else
      match src.resolve(info.tag)
      case Err(why) => Blank(info).(compatibility := Some(Unresolved(why)))
      case Ok(rel) =>
        var row := Resolved(info, rel, health);
        if insecure then row else Judged(row, v, Refs(rel), types)
  }

  function Rows(src: Source, v: Verdicts, types: seq<string>, insecure: bool,
      health: Option<RunMachine.Health>): (rows: seq<Row>)
    ensures |rows| == |src.listing|
    ensures forall i :: 0 <= i < |rows| ==> rows[i] == RowFor(src, v, types, insecure, i, health)
  {
    seq(|src.listing|, i requires 0 <= i < |src.listing| => RowFor(src, v, types, insecure, i, health))
  }

  /** A release the list calls incompatible is refused by any upgrade run that
      sees the same health, and one it calls compatible passes that check. */
  lemma ListAndEngineAgree(src: Source, v: Verdicts, types: seq<string>, insecure: bool, i: nat,
      health: Option<RunMachine.Health>,
                           cfg: RunMachine.Config, job: RunMachine.Job, files: bool, disk: bool, passed: bool)
    requires i < |src.listing| && i < RESOLVE_FIRST && src.resolve(src.listing[i].tag).Ok?
    requires job.release == Some(src.resolve(src.listing[i].tag).value.AsRelease()) && job.health == health
    ensures var row, rel := RowFor(src, v, types, insecure, i, health), job.release.value;
      && (row.compatible == Some(false) ==> !RunMachine.PreflightPasses(cfg, job, files, disk, passed))
      && (row.compatible == Some(true) <==>
            health.Some? && InWindow(health.value.dbRevision, rel.minDbRevision, rel.dbRevision))
  {
  }

  /** Two revisions span a window; an unnamed one on either side is no obstacle. */
  predicate InWindow(observed: Option<string>, min: Option<string>, db: Option<string>) {
    RunMachine.Truthy(observed) && RunMachine.Truthy(min) ==> observed in {min, db}
  }

  /** `recheck_compatibility`, one row. */
  function Recheck(row: Row, health: Option<RunMachine.Health>): Row {
    if row.compatible.None? then row
    else
      var (ok, why) := RunMachine.Compatibility(row.dbRevision, row.minDbRevision, health);
      row.(compatible := Some(ok), compatibility := Some(Window(why)))
  }

  function RecheckAll(rows: seq<Row>, health: Option<RunMachine.Health>): (r: seq<Row>)
    ensures |r| == |rows| && forall i :: 0 <= i < |r| ==> r[i] == Recheck(rows[i], health)
  {
    seq(|rows|, i requires 0 <= i < |rows| => Recheck(rows[i], health))
  }

  /** Rechecking yesterday's list gives today's. */
  lemma RecheckIsRebuild(src: Source, v: Verdicts, types: seq<string>, insecure: bool,
                         before: Option<RunMachine.Health>, now: Option<RunMachine.Health>)
    ensures RecheckAll(Rows(src, v, types, insecure, before), now) == Rows(src, v, types, insecure, now)
  {
    var listed, today := Rows(src, v, types, insecure, before), Rows(src, v, types, insecure, now);
    forall i | 0 <= i < |src.listing| ensures Recheck(listed[i], now) == today[i] {
    }
    assert RecheckAll(listed, now) == today;
  }

  // ---- the fingerprint leaves the attestation types out -------------------

  /** The list kept from `types1` is the right one under `types2`, whatever the
      releases and verdicts are. */
  ghost predicate NeverStale(types1: seq<string>, types2: seq<string>) {
    forall src, v, insecure, h1, h2 ::
      RecheckAll(Rows(src, v, types1, insecure, h1), h2) == Rows(src, v, types2, insecure, h2)
  }

  predicate SameTypes(types1: seq<string>, types2: seq<string>) {
    (forall t :: t in types1 ==> t in types2) && (forall t :: t in types2 ==> t in types1)
  }

  lemma SameTypesAttestTheSame(v: Verdicts, refs: seq<string>, types1: seq<string>, types2: seq<string>)
    requires forall t :: t in types2 ==> t in types1
    ensures Attested(v, refs, types1) ==> Attested(v, refs, types2)
  {
    if Attested(v, refs, types1) {
      forall j | 0 <= j < |types2| ensures AllHold(v, Attestation(types2[j]), refs) {
        assert types2[j] in types1;
        var k :| 0 <= k < |types1| && types1[k] == types2[j];
      }
    }
  }

  lemma AttestationNamesType(t: string, u: string)
    ensures Attestation(t) == Attestation(u) ==> t == u
  {
    assert Attestation(t)[12..] == t && Attestation(u)[12..] == u;
  }

  /** A change of types the kept list does not notice: one type, `t`, is refused
      by cosign and asked about on one side only. */
  lemma OneTypeShows(t: string, types1: seq<string>, types2: seq<string>) returns (src: Source, v: Verdicts)
    requires t in types1 && t !in types2
    ensures Rows(src, v, types1, false, None) != Rows(src, v, types2, false, None)
    ensures |src.listing| == 1
  {
    var rel := Registry.ResolvedRelease("", "", "", "", "", "", None, None, None, None);
    var info := ReleaseInfo("", "", None, "", None, false);
    src := Source([info], (tag: string) => Ok(rel));
    v := (kind: string, ref: string) => kind != Attestation(t);
    assert Attestation(t)[0] == 'a' && SIGNATURE[0] == 's';
    assert AllHold(v, SIGNATURE, Refs(rel));
    var i :| 0 <= i < |types1| && types1[i] == t;
    assert !AllHold(v, Attestation(types1[i]), Refs(rel)) by { assert !v(Attestation(t), Refs(rel)[0]); }
    forall j | 0 <= j < |types2| ensures AllHold(v, Attestation(types2[j]), Refs(rel)) {
      AttestationNamesType(types2[j], t);
    }
    assert Attested(v, Refs(rel), types2) && !Attested(v, Refs(rel), types1);
    assert Rows(src, v, types1, false, None)[0] == RowFor(src, v, types1, false, 0, None);
    assert Rows(src, v, types2, false, None)[0] == RowFor(src, v, types2, false, 0, None);
  }

  /** Because the fingerprint does not cover the attestation types, the kept list
      can be trusted across a change of configuration exactly when the change
      leaves the set of types alone. */
  lemma NeverStaleIff(types1: seq<string>, types2: seq<string>)
    ensures NeverStale(types1, types2) <==> SameTypes(types1, types2)
  {
    if SameTypes(types1, types2) {
      forall src, v, insecure, h1, h2
        ensures RecheckAll(Rows(src, v, types1, insecure, h1), h2) == Rows(src, v, types2, insecure, h2)
      {
        RecheckIsRebuild(src, v, types1, insecure, h1, h2);
        assert types1 == [] <==> types2 == [] by {
          if types1 != [] { assert types1[0] in types2; }
          if types2 != [] { assert types2[0] in types1; }
        }
        forall refs ensures Attested(v, refs, types1) <==> Attested(v, refs, types2) {
          SameTypesAttestTheSame(v, refs, types1, types2);
          SameTypesAttestTheSame(v, refs, types2, types1);
        }
        assert Rows(src, v, types1, insecure, h2) == Rows(src, v, types2, insecure, h2);
      }
    } else {
      var t :| (t in types1 && t !in types2) || (t in types2 && t !in types1);
      var src, v;
      if t in types1 {
        src, v := OneTypeShows(t, types1, types2);
      } else {
        src, v := OneTypeShows(t, types2, types1);
      }
      RecheckIsRebuild(src, v, types1, false, None, None);
      assert RecheckAll(Rows(src, v, types1, false, None), None) != Rows(src, v, types2, false, None);
    }
  }

  // ---- cosign, and the verdict cache ----------------------------------------

  datatype Answer = Answer(question: Question, ok: bool)

  /** cosign may answer anything; this is everything it has answered. */
  class Cosign {
    var answers: seq<Answer>

    constructor ()
      ensures answers == []
    {
      answers := [];
    }

    method Verify(q: Question) returns (ok: bool)
      modifies this
      ensures answers == old(answers) + [Answer(q, ok)]
    {
      ok := *;
      answers := answers + [Answer(q, ok)];
    }
  }

  /** It once said yes to `q`. */
  ghost predicate Accepted(answers: seq<Answer>, q: Question) {
    exists i :: 0 <= i < |answers| && answers[i] == Answer(q, true)
  }

  /** It once said no to `q`. */
  ghost predicate Refused(answers: seq<Answer>, q: Question) {
    exists i :: 0 <= i < |answers| && answers[i] == Answer(q, false)
  }

  /** Whether cosign, working as it should, accepts: a digest is immutable, so
      this does not change. */
  type Truth = Question -> bool

  function Under(truth: Truth, policy: string): Verdicts {
    (kind: string, ref: string) => truth(Question(policy, kind, ref))
  }

  /** No yes was ever wrong. */
  ghost predicate Sound(answers: seq<Answer>, truth: Truth) {
    forall i :: 0 <= i < |answers| && answers[i].ok ==> truth(answers[i].question)
  }

  /** From the `start`-th answer to the `stop`-th, every one was the truth. */
  ghost predicate Clear(answers: seq<Answer>, start: nat, stop: nat, truth: Truth) {
    forall i :: start <= i < stop && i < |answers| ==> answers[i].ok == truth(answers[i].question)
  }

  lemma AcceptedStays(was: seq<Answer>, now: seq<Answer>)
    requires was <= now
    ensures forall q :: Accepted(was, q) ==> Accepted(now, q)
    ensures forall q :: Refused(was, q) ==> Refused(now, q)
  {
    forall q | Accepted(was, q) ensures Accepted(now, q) {
      var i :| 0 <= i < |was| && was[i] == Answer(q, true);
      assert now[i] == Answer(q, true);
    }
    forall q | Refused(was, q) ensures Refused(now, q) {
      var i :| 0 <= i < |was| && was[i] == Answer(q, false);
      assert now[i] == Answer(q, false);
    }
  }

  /** Every key marked true was put there for a question cosign answered yes. */
  ghost predicate Told(h: Hashing, data: map<string, bool>, answers: seq<Answer>) {
    forall k :: k in data && data[k] ==> exists q :: Accepted(answers, q) && h.Key(q) == k
  }

  ghost predicate AllProper(answers: seq<Answer>) {
    forall i :: 0 <= i < |answers| ==> Proper(answers[i].question)
  }

  /** A cached yes is a yes that was given, to this very question. */
  lemma CachedWasAccepted(h: Hashing, data: map<string, bool>, answers: seq<Answer>, q: Question)
    requires NoCollision(h) && Told(h, data, answers) && AllProper(answers) && Proper(q)
    requires h.Key(q) in data && data[h.Key(q)]
    ensures Accepted(answers, q)
  {
    var p :| Accepted(answers, p) && h.Key(p) == h.Key(q);
    KeysAreDistinct(h, p, q);
  }

  lemma ToldStays(h: Hashing, data: map<string, bool>, was: seq<Answer>, now: seq<Answer>)
    requires Told(h, data, was) && was <= now
    ensures Told(h, data, now)
  {
    AcceptedStays(was, now);
    forall k | k in data && data[k] ensures exists q :: Accepted(now, q) && h.Key(q) == k {
      var q :| Accepted(was, q) && h.Key(q) == k;
      assert Accepted(now, q);
    }
  }

  /** `VerdictCache` */
  class VerdictCache {
    const h: Hashing
    const policy: string
    const cosign: Cosign
    var data: map<string, bool>

    ghost predicate Valid()
      reads this, cosign
    {
      NoCollision(h) && |policy| == 16 && Told(h, data, cosign.answers) && AllProper(cosign.answers)
    }

    constructor (hashing: Hashing, p: string, file: Option<map<string, bool>>, c: Cosign)
      requires NoCollision(hashing) && |p| == 16 && AllProper(c.answers)
               && (file.Some? ==> Told(hashing, file.value, c.answers))
      ensures Valid() && h == hashing && policy == p && cosign == c
    {
      h, policy, cosign := hashing, p, c;
      data := if file.Some? then file.value else map[];
    }

    /** A yes to `q` is on file. */
    predicate Remembered(q: Question)
      reads this
    {
      h.Key(q) in data && data[h.Key(q)]
    }

    method Get(kind: string, ref: string) returns (hit: bool)
      requires Valid() && Proper(Question(policy, kind, ref))
      ensures hit ==> Accepted(cosign.answers, Question(policy, kind, ref))
      ensures hit <==> Remembered(Question(policy, kind, ref))
    {
      var k := h.Key(Question(policy, kind, ref));
      hit := k in data && data[k];
      if hit {
        CachedWasAccepted(h, data, cosign.answers, Question(policy, kind, ref));
      }
    }

    method Put(kind: string, ref: string)
      requires Valid() && Accepted(cosign.answers, Question(policy, kind, ref))
      modifies this`data
      ensures Valid() && data == old(data)[h.Key(Question(policy, kind, ref)) := true]
    {
      data := data[h.Key(Question(policy, kind, ref)) := true];
    }

    /** One question: from the cache, or else put to cosign. A yes was given to
        this very question, now or before, and a no just now. */
    method Check(kind: string, ref: string) returns (ok: bool)
      requires Valid() && Proper(Question(policy, kind, ref))
      modifies this, cosign
      ensures Valid() && old(cosign.answers) <= cosign.answers
      ensures ok ==> Accepted(cosign.answers, Question(policy, kind, ref))
      ensures !ok ==> cosign.answers == old(cosign.answers) + [Answer(Question(policy, kind, ref), false)]
      ensures old(Remembered(Question(policy, kind, ref))) ==> ok && cosign.answers == old(cosign.answers)
      ensures if ok then Remembered(Question(policy, kind, ref)) else data == old(data)
    {
      var q := Question(policy, kind, ref);
      var hit := Get(kind, ref);
      if hit {
        return true;
      }
      ghost var was := cosign.answers;
      ok := cosign.Verify(q);
      ToldStays(h, data, was, cosign.answers);
      assert cosign.answers[|was|] == Answer(q, ok);
      if ok {
        Put(kind, ref);
      }
    }

    /** Every reference is checked, even after one has failed. */
    method CheckAll(kind: string, refs: seq<string>, ghost truth: Truth) returns (all: bool)
      requires Valid() && forall i :: 0 <= i < |refs| ==> Proper(Question(policy, kind, refs[i]))
      modifies this, cosign
      ensures Valid() && old(cosign.answers) <= cosign.answers
      ensures all ==> forall i :: 0 <= i < |refs| ==> Accepted(cosign.answers, Question(policy, kind, refs[i]))
      ensures !all ==> exists i :: 0 <= i < |refs| && Refused(cosign.answers, Question(policy, kind, refs[i]))
      ensures Sound(cosign.answers, truth) && Clear(cosign.answers, |old(cosign.answers)|, |cosign.answers|, truth) ==>
                all == AllHold(Under(truth, policy), kind, refs)
    {
      all := true;
      for n := 0 to |refs|
        invariant Valid() && old(cosign.answers) <= cosign.answers
        invariant all ==> forall i :: 0 <= i < n ==> Accepted(cosign.answers, Question(policy, kind, refs[i]))
        invariant !all ==> exists i :: 0 <= i < n && Refused(cosign.answers, Question(policy, kind, refs[i]))
        invariant (Sound(cosign.answers, truth)
                   && Clear(cosign.answers, |old(cosign.answers)|, |cosign.answers|, truth)) ==>
          all == AllHold(Under(truth, policy), kind, refs[..n])
      {
        ghost var was := cosign.answers;
        var ok := Check(kind, refs[n]);
        AcceptedStays(was, cosign.answers);
        ClearBefore(was, cosign.answers, |old(cosign.answers)|, truth);
        CheckTellsTruth(cosign.answers, was, Question(policy, kind, refs[n]), ok, truth);
        if !ok {
          assert cosign.answers[|was|] == Answer(Question(policy, kind, refs[n]), false);
        }
        all := all && ok;
        assert refs[..n + 1] == refs[..n] + [refs[n]];
      }
      assert refs[..|refs|] == refs;
    }

    /** Every type for one image. */
    method CheckTypes(types: seq<string>, ref: string, ghost truth: Truth) returns (all: bool)
      requires Valid() && '|' !in ref
      modifies this, cosign
      ensures Valid() && old(cosign.answers) <= cosign.answers
      ensures if all then AllAttested(cosign.answers, policy, types, ref)
              else SomeRefused(cosign.answers, policy, types, ref)
      ensures (Sound(cosign.answers, truth)
               && Clear(cosign.answers, |old(cosign.answers)|, |cosign.answers|, truth)) ==>
                all == TrulyAttested(truth, policy, types, ref)
    {
      all := true;
      for n := 0 to |types|
        invariant Valid() && old(cosign.answers) <= cosign.answers
        invariant all ==>
          forall j :: 0 <= j < n ==> Accepted(cosign.answers, Question(policy, Attestation(types[j]), ref))
        invariant !all ==>
          exists j :: 0 <= j < n && Refused(cosign.answers, Question(policy, Attestation(types[j]), ref))
        invariant (Sound(cosign.answers, truth)
                   && Clear(cosign.answers, |old(cosign.answers)|, |cosign.answers|, truth)) ==>
          all == forall j :: 0 <= j < n ==> truth(Question(policy, Attestation(types[j]), ref))
      {
        ghost var was, q := cosign.answers, Question(policy, Attestation(types[n]), ref);
        var ok := Check(Attestation(types[n]), ref);
        AcceptedStays(was, cosign.answers);
        ClearBefore(was, cosign.answers, |old(cosign.answers)|, truth);
        CheckTellsTruth(cosign.answers, was, q, ok, truth);
        if !ok {
          assert cosign.answers[|was|] == Answer(q, false);
        }
        all := all && ok;
      }
    }

    /** Every type for every image, image by image. */
    method CheckAttestations(refs: seq<string>, types: seq<string>, ghost truth: Truth) returns (all: bool)
      requires Valid() && forall k :: 0 <= k < |refs| ==> '|' !in refs[k]
      modifies this, cosign
      ensures Valid() && old(cosign.answers) <= cosign.answers
      ensures all ==> forall k :: 0 <= k < |refs| ==> AllAttested(cosign.answers, policy, types, refs[k])
      ensures !all ==> exists k :: 0 <= k < |refs| && SomeRefused(cosign.answers, policy, types, refs[k])
      ensures (Sound(cosign.answers, truth)
               && Clear(cosign.answers, |old(cosign.answers)|, |cosign.answers|, truth)) ==>
                all == Attested(Under(truth, policy), refs, types)
    {
      all := true;
      for n := 0 to |refs|
        invariant Valid() && old(cosign.answers) <= cosign.answers
        invariant all ==> forall k :: 0 <= k < n ==> AllAttested(cosign.answers, policy, types, refs[k])
        invariant !all ==> exists k :: 0 <= k < n && SomeRefused(cosign.answers, policy, types, refs[k])
        invariant (Sound(cosign.answers, truth)
                   && Clear(cosign.answers, |old(cosign.answers)|, |cosign.answers|, truth)) ==>
          all == forall k :: 0 <= k < n ==> TrulyAttested(truth, policy, types, refs[k])
      {
        ghost var was := cosign.answers;
        var ok := CheckTypes(types, refs[n], truth);
        AttestedStays(was, cosign.answers, policy, types);
        ClearBefore(was, cosign.answers, |old(cosign.answers)|, truth);
        ClearSince(was, cosign.answers, |old(cosign.answers)|, truth);
        all := all && ok;
      }
      if Sound(cosign.answers, truth) && Clear(cosign.answers, |old(cosign.answers)|, |cosign.answers|, truth) {
        TrulyIsAttested(truth, policy, types, refs);
      }
    }
  }

  ghost predicate TrulyAttested(truth: Truth, policy: string, types: seq<string>, ref: string) {
    forall j :: 0 <= j < |types| ==> truth(Question(policy, Attestation(types[j]), ref))
  }

  lemma TrulyIsAttested(truth: Truth, policy: string, types: seq<string>, refs: seq<string>)
    ensures (forall k :: 0 <= k < |refs| ==> TrulyAttested(truth, policy, types, refs[k])) <==>
            Attested(Under(truth, policy), refs, types)
  {
    var v := Under(truth, policy);
    if Attested(v, refs, types) {
      forall k, j | 0 <= k < |refs| && 0 <= j < |types|
        ensures truth(Question(policy, Attestation(types[j]), refs[k]))
      {
        assert AllHold(v, Attestation(types[j]), refs);
        assert v(Attestation(types[j]), refs[k]);
      }
    }
    if forall k :: 0 <= k < |refs| ==> TrulyAttested(truth, policy, types, refs[k]) {
      forall j | 0 <= j < |types| ensures AllHold(v, Attestation(types[j]), refs) {
        forall k | 0 <= k < |refs| ensures v(Attestation(types[j]), refs[k]) {
          assert TrulyAttested(truth, policy, types, refs[k]);
        }
      }
    }
  }

  lemma AttestedStays(was: seq<Answer>, now: seq<Answer>, policy: string, types: seq<string>)
    requires was <= now
    ensures forall ref :: AllAttested(was, policy, types, ref) ==> AllAttested(now, policy, types, ref)
    ensures forall ref :: SomeRefused(was, policy, types, ref) ==> SomeRefused(now, policy, types, ref)
  {
    AcceptedStays(was, now);
    hide Accepted;
    hide Refused;
  }

  lemma ClearSince(was: seq<Answer>, now: seq<Answer>, start: nat, truth: Truth)
    requires was <= now && start <= |was|
    ensures Clear(now, start, |now|, truth) ==> Clear(now, |was|, |now|, truth)
  {
  }

  lemma ClearBefore(was: seq<Answer>, now: seq<Answer>, start: nat, truth: Truth)
    requires was <= now
    ensures Sound(now, truth) ==> Sound(was, truth)
    ensures Clear(now, start, |now|, truth) ==> Clear(was, start, |was|, truth)
  {
    assert forall i :: 0 <= i < |was| ==> was[i] == now[i];
  }

  lemma CheckTellsTruth(now: seq<Answer>, was: seq<Answer>, q: Question, ok: bool, truth: Truth)
    requires if ok then Accepted(now, q) else now == was + [Answer(q, false)]
    ensures Sound(now, truth) && Clear(now, |was|, |now|, truth) ==> ok == truth(q)
  {
    if !ok {
      assert now[|was|] == Answer(q, false);
    }
  }

  // ---- one pass, and the kept list ----------------------------------------

  datatype Kept = Kept(builtAt: real, policy: string, insecure: bool, rows: seq<Row>)

  ghost predicate ProperSource(src: Source) {
    forall tag :: src.resolve(tag).Ok? ==>
        '|' !in src.resolve(tag).value.BackendRef() && '|' !in src.resolve(tag).value.FrontendRef()
  }

  // ---- what a row says, in cosign's own answers ----------------------------

  /** cosign has accepted every attestation type of `ref` under this policy. */
  ghost predicate AllAttested(answers: seq<Answer>, policy: string, types: seq<string>, ref: string) {
    forall j :: 0 <= j < |types| ==> Accepted(answers, Question(policy, "attestation:" + types[j], ref))
  }

  ghost predicate SomeRefused(answers: seq<Answer>, policy: string, types: seq<string>, ref: string) {
    exists j :: 0 <= j < |types| && Refused(answers, Question(policy, "attestation:" + types[j], ref))
  }

  /** The signature column is true only if both images were accepted, and false
      only if one was refused; the gate column is true beside a true and empty
      otherwise; and attestations are spoken of only beside a true, as true if
      every type of both images was accepted, as false if one was refused. */
  ghost predicate VerdictsSay(policy: string, types: seq<string>, answers: seq<Answer>,
                              backend: string, frontend: string, row: Row) {
    && row.signatureVerified.Some?
    && (row.signatureVerified.value ==>
          && Accepted(answers, Question(policy, "signature", backend))
          && Accepted(answers, Question(policy, "signature", frontend)))
    && (!row.signatureVerified.value ==>
          || Refused(answers, Question(policy, "signature", backend))
          || Refused(answers, Question(policy, "signature", frontend)))
    && row.gatePassed == (if row.signatureVerified.value then Some(true) else None)
    && (row.attested.Some? <==> row.signatureVerified.value && types != [])
    && (row.attested == Some(true) ==>
          AllAttested(answers, policy, types, backend) && AllAttested(answers, policy, types, frontend))
    && (row.attested == Some(false) ==>
          SomeRefused(answers, policy, types, backend) || SomeRefused(answers, policy, types, frontend))
  }

  predicate NoVerdicts(row: Row) {
    row.signatureVerified == None && row.gatePassed == None && row.attested == None
  }

  /** The columns a resolved release fills. */
  predicate ColumnsSay(rel: Registry.ResolvedRelease, health: Option<RunMachine.Health>, row: Row) {
    && row.version == (if rel.version != "" then rel.version else Versions.Norm(row.info.tag))
    && row.dbRevision == rel.dbRevision && row.minDbRevision == rel.minDbRevision
    && row.backendDigest == Some(rel.backendDigest) && row.frontendDigest == Some(rel.frontendDigest)
    && row.compatible.Some? && row.compatibility.Some? && row.compatibility.value.Window?
    && (row.compatible.value <==> health.Some? && InWindow(health.value.dbRevision, rel.minDbRevision, rel.dbRevision))
  }

  predicate ColumnsEmpty(row: Row) {
    && row.version == Versions.Norm(row.info.tag) && row.dbRevision == None && row.minDbRevision == None
    && row.backendDigest == None && row.frontendDigest == None && row.compatible == None
  }

  /** Row `i` of a list of these releases: only the newest three are looked into,
      and nothing is said of a signature nobody checked. */
  ghost predicate RowSays(src: Source, policy: string, types: seq<string>, insecure: bool, answers: seq<Answer>,
                          health: Option<RunMachine.Health>, i: nat, row: Row)
    requires i < |src.listing|
  {
    var info := src.listing[i];
    && row.info == info
    && if i >= 3 then NoVerdicts(row) && ColumnsEmpty(row) && row.compatibility == None
       else
         match src.resolve(info.tag)
         case Err(why) => NoVerdicts(row) && ColumnsEmpty(row) && row.compatibility == Some(Unresolved(why))
         case Ok(rel) =>
           && ColumnsSay(rel, health, row)
           && if insecure then NoVerdicts(row)
              else VerdictsSay(policy, types, answers, rel.BackendRef(), rel.FrontendRef(), row)
  }

  /** A list that says of every release what is so, and nothing else. */
  ghost predicate Honest(src: Source, policy: string, types: seq<string>, insecure: bool, answers: seq<Answer>,
                         health: Option<RunMachine.Health>, rows: seq<Row>) {
    && |rows| == |src.listing|
    && forall i: nat :: i < |rows| ==> RowSays(src, policy, types, insecure, answers, health, i, rows[i])
  }

  lemma VerdictsStay(policy: string, types: seq<string>, was: seq<Answer>, now: seq<Answer>, backend: string,
                     frontend: string, row: Row)
    requires VerdictsSay(policy, types, was, backend, frontend, row) && was <= now
    ensures VerdictsSay(policy, types, now, backend, frontend, row)
  {
    AcceptedStays(was, now);
    hide Accepted;
    hide Refused;
  }

  lemma RowStays(src: Source, policy: string, types: seq<string>, insecure: bool, was: seq<Answer>, now: seq<Answer>,
                 health: Option<RunMachine.Health>, i: nat, row: Row)
    requires i < |src.listing| && RowSays(src, policy, types, insecure, was, health, i, row) && was <= now
    ensures RowSays(src, policy, types, insecure, now, health, i, row)
  {
    hide VerdictsSay;
    hide ColumnsSay;
    var resolved := src.resolve(src.listing[i].tag);
    if i < 3 && !insecure && resolved.Ok? {
      VerdictsStay(policy, types, was, now, resolved.value.BackendRef(), resolved.value.FrontendRef(), row);
    }
  }

  lemma HonestStays(src: Source, policy: string, types: seq<string>, insecure: bool, was: seq<Answer>, now: seq<Answer>,
                    health: Option<RunMachine.Health>, rows: seq<Row>)
    requires Honest(src, policy, types, insecure, was, health, rows) && was <= now
    ensures Honest(src, policy, types, insecure, now, health, rows)
  {
    forall i: nat | i < |rows| ensures RowSays(src, policy, types, insecure, now, health, i, rows[i]) {
      RowStays(src, policy, types, insecure, was, now, health, i, rows[i]);
    }
  }

  lemma RecheckSays(src: Source, policy: string, types: seq<string>, insecure: bool, answers: seq<Answer>,
                    before: Option<RunMachine.Health>, now: Option<RunMachine.Health>, i: nat, row: Row)
    requires i < |src.listing| && RowSays(src, policy, types, insecure, answers, before, i, row)
    ensures RowSays(src, policy, types, insecure, answers, now, i, Recheck(row, now))
  {
    hide Accepted;
    hide Refused;
    hide AllAttested;
    hide SomeRefused;
  }

  /** Rechecked, a list says what is so under today's health. */
  lemma RecheckIsHonest(src: Source, policy: string, types: seq<string>, insecure: bool, answers: seq<Answer>,
                        before: Option<RunMachine.Health>, now: Option<RunMachine.Health>, rows: seq<Row>)
    requires Honest(src, policy, types, insecure, answers, before, rows)
    ensures Honest(src, policy, types, insecure, answers, now, RecheckAll(rows, now))
  {
    hide RowSays;
    hide Recheck;
    forall i: nat | i < |rows|
      ensures RowSays(src, policy, types, insecure, answers, now, i, RecheckAll(rows, now)[i])
    {
      RecheckSays(src, policy, types, insecure, answers, before, now, i, rows[i]);
    }
  }

  /** The updater's view of one instance: its two files, and the cosign it asks.
      Of the kept list it also remembers the pass that built it, and where in
      cosign's answers that pass began and ended. */
  class Reports {
    const h: Hashing
    const refreshSeconds: real
    const cosign: Cosign
    var verified: Option<map<string, bool>>  // <instance>.verified.json
    var kept: Option<Kept>                   // <instance>.releases.json
    ghost const truth: Truth
    ghost var origin: Pass
    ghost var start: nat
    ghost var stop: nat

    ghost predicate Valid()
      reads this, cosign
    {
      && NoCollision(h) && (forall k, i, s :: |h.fingerprint(k, i, s)| == 16)
      && AllProper(cosign.answers) && (verified.Some? ==> Told(h, verified.value, cosign.answers))
      && (kept.Some? ==> KeptIsHonest(kept.value))
    }

    /** The kept list is of its pass and claims nothing unearned; and if cosign
        told the truth in that pass, it is what no cache would have given. */
    ghost predicate KeptIsHonest(list: Kept)
      reads this, cosign
    {
      && list.policy == h.Policy(origin.trust) && list.insecure == origin.insecure && list.builtAt == origin.now
      && Honest(origin.src, list.policy, origin.trust.types, list.insecure, cosign.answers, origin.health, list.rows)
      && start <= stop <= |cosign.answers|
      && (Sound(cosign.answers, truth) && Clear(cosign.answers, start, stop, truth) ==>
         list.rows == Uncached(h, truth, origin))
    }

    constructor (hashing: Hashing, refresh: real, c: Cosign, ghost fact: Truth)
      requires NoCollision(hashing) && c.answers == [] && forall k, i, s :: |hashing.fingerprint(k, i, s)| == 16
      ensures Valid() && h == hashing && refreshSeconds == refresh && cosign == c && truth == fact
      ensures verified == None && kept == None
    {
      h, refreshSeconds, cosign, verified, kept := hashing, refresh, c, None, None;
      truth, start, stop := fact, 0, 0;
      origin := Pass(Source([], tag => Err("")), Trust(None, None, None, []), false, None, false, 0.0);
    }

    /** Either file may be lost or unreadable at any time. */
    method Lose(a: bool, b: bool)
      requires Valid()
      modifies this`verified, this`kept
      ensures Valid() && kept == if b then None else old(kept)
    {
      if a { verified := None; }
      if b { kept := None; }
    }

    /** The signature, gate and attestation columns of one resolved row. */
    method Judge(cache: VerdictCache, row: Row, rel: Registry.ResolvedRelease, types: seq<string>) returns (judged: Row)
      requires cache.Valid() && '|' !in rel.BackendRef() && '|' !in rel.FrontendRef() && NoVerdicts(row)
      modifies cache, cache.cosign
      ensures cache.Valid() && old(cache.cosign.answers) <= cache.cosign.answers
      ensures judged == row.(signatureVerified := judged.signatureVerified, gatePassed := judged.gatePassed,
                             attested := judged.attested)
      ensures VerdictsSay(cache.policy, types, cache.cosign.answers, rel.BackendRef(), rel.FrontendRef(), judged)
      ensures TruthTold(old(cache.cosign.answers), cache.cosign.answers, truth) ==>
                judged == Judged(row, Under(truth, cache.policy), Refs(rel), types)
    {
      var refs := Refs(rel);
      assert |refs| == 2 && refs[0] == rel.BackendRef() && refs[1] == rel.FrontendRef();
      hide Refs;
      hide Accepted;
      hide Refused;
      hide AllAttested;
      hide SomeRefused;
      hide AllHold;
      hide Attested;
      ghost var v, first := Under(truth, cache.policy), cache.cosign.answers;
      var signed := cache.CheckAll(SIGNATURE, refs, truth);
      judged := row.(signatureVerified := Some(signed), gatePassed := if signed then Some(true) else None);
      if signed && types != [] {
        ghost var was := cache.cosign.answers;
        var attested := cache.CheckAttestations(refs, types, truth);
        AcceptedStays(was, cache.cosign.answers);
        ClearBefore(was, cache.cosign.answers, |first|, truth);
        judged := judged.(attested := Some(attested));
      }
    }

    /** One turn of `build`'s loop. */
    method BuildRow(cache: VerdictCache, src: Source, i: nat, types: seq<string>, insecure: bool,
        health: Option<RunMachine.Health>)
      returns (row: Row)
      requires cache.Valid() && ProperSource(src) && i < |src.listing|
      modifies cache, cache.cosign
      ensures cache.Valid() && old(cache.cosign.answers) <= cache.cosign.answers
      ensures RowSays(src, cache.policy, types, insecure, cache.cosign.answers, health, i, row)
      ensures TruthTold(old(cache.cosign.answers), cache.cosign.answers, truth) ==>
                row == RowFor(src, Under(truth, cache.policy), types, insecure, i, health)
    {
      var info := src.listing[i];
      row := Blank(info);
      if i < RESOLVE_FIRST {
        var resolved := src.resolve(info.tag);
        if resolved.Err? {
          row := row.(compatibility := Some(Unresolved(resolved.error)));
        } else {
          row := Resolved(info, resolved.value, health);
          if !insecure {
            row := Judge(cache, row, resolved.value, types);
          }
        }
      }
    }

    /** `build`: one pass over the releases. Whatever the cache holds, no row
        claims a signature cosign did not accept under this policy, and if
        cosign told the truth, the rows are those of no cache at all. */
    method Build(p: Pass) returns (rows: seq<Row>)
      requires Valid() && ProperSource(p.src)
      modifies this`verified, cosign
      ensures Valid() && old(cosign.answers) <= cosign.answers
      ensures Honest(p.src, h.Policy(p.trust), p.trust.types, p.insecure, cosign.answers, p.health, rows)
      ensures TruthTold(old(cosign.answers), cosign.answers, truth) ==> rows == Uncached(h, truth, p)
    {
      hide RowFor;
      hide RowSays;
      var policy := h.Policy(p.trust);
      var cache := new VerdictCache(h, policy, verified, cosign);
      rows := [];
      ghost var all, first := Uncached(h, truth, p), cosign.answers;
      for i := 0 to |p.src.listing|
        invariant fresh(cache) && cache.Valid() && cache.h == h && cache.policy == policy && cache.cosign == cosign
        invariant first <= cosign.answers && |rows| == i
        invariant forall k: nat :: k < i ==>
          RowSays(p.src, policy, p.trust.types, p.insecure, cosign.answers, p.health, k, rows[k])
        invariant TruthTold(first, cosign.answers, truth) ==> rows == all[..i]
        invariant verified == old(verified)
      {
        ghost var was := cosign.answers;
        var row := BuildRow(cache, p.src, i, p.trust.types, p.insecure, p.health);
        forall k: nat | k < i
          ensures RowSays(p.src, policy, p.trust.types, p.insecure, cosign.answers, p.health, k, rows[k])
        {
          RowStays(p.src, policy, p.trust.types, p.insecure, was, cosign.answers, p.health, k, rows[k]);
        }
        ClearBefore(was, cosign.answers, |first|, truth);
        rows := rows + [row];
        assert all[..i + 1] == all[..i] + [all[i]];
      }
      assert all[..|all|] == all;
      KeptStays(first);
      var saved: bool := *;
      if saved {
        verified := Some(cache.data);
      } else if verified.Some? {
        ToldStays(h, verified.value, first, cosign.answers);
      }
    }

    /** More answers take nothing away from the kept list. */
    lemma KeptStays(was: seq<Answer>)
      requires was <= cosign.answers && (kept.Some? ==> start <= stop <= |was|)
      requires kept.Some? ==>
               kept.value.policy == h.Policy(origin.trust) && kept.value.insecure == origin.insecure
               && kept.value.builtAt == origin.now
      requires kept.Some? ==>
               Honest(origin.src, kept.value.policy, origin.trust.types, kept.value.insecure, was, origin.health,
                      kept.value.rows)
      requires kept.Some? && Sound(was, truth) && Clear(was, start, stop, truth) ==>
               kept.value.rows == Uncached(h, truth, origin)
      ensures kept.Some? ==> KeptIsHonest(kept.value)
    {
      if kept.Some? {
        HonestStays(origin.src, kept.value.policy, origin.trust.types, kept.value.insecure, was, cosign.answers,
                    origin.health, kept.value.rows);
        ClearBefore(was, cosign.answers, start, truth);
        assert forall i :: 0 <= i < |was| ==> was[i] == cosign.answers[i];
      }
    }

    /** `recheck_compatibility` */
    method RecheckRows(listed: seq<Row>, health: Option<RunMachine.Health>) returns (out: seq<Row>)
      ensures out == RecheckAll(listed, health)
    {
      out := [];
      for i := 0 to |listed|
        invariant out == RecheckAll(listed, health)[..i]
      {
        out := out + [Recheck(listed[i], health)];
        assert RecheckAll(listed, health)[..i + 1] == RecheckAll(listed, health)[..i] + [RecheckAll(listed, health)[i]];
      }
      assert RecheckAll(listed, health)[..|listed|] == RecheckAll(listed, health);
    }

    predicate FreshEnough(p: Pass)
      reads this
    {
      && !p.force && kept.Some? && kept.value.policy == h.Policy(p.trust) && kept.value.insecure == p.insecure
      && p.now - kept.value.builtAt < refreshSeconds
    }

    /** `build_cached`: republished or rebuilt, the list claims nothing unearned.
        If cosign told the truth in the pass that built it, and the releases and
        types are still what they were then, it is what `build` with no caches
        would return against today's health. */
    method BuildCached(p: Pass) returns (rows: seq<Row>)
      requires Valid() && ProperSource(p.src)
      modifies this`verified, this`kept, this`origin, this`start, this`stop, cosign
      ensures Valid() && old(cosign.answers) <= cosign.answers
      ensures old(FreshEnough(p)) ==>
              unchanged(this) && unchanged(cosign) && rows == RecheckAll(kept.value.rows, p.health)
      ensures old(FreshEnough(p)) && SameInputs(origin, p) && Sound(cosign.answers, truth)
              && Clear(cosign.answers, start, stop, truth) ==>
                rows == Uncached(h, truth, p)
      ensures !old(FreshEnough(p)) && TruthTold(old(cosign.answers), cosign.answers, truth) ==>
              rows == Uncached(h, truth, p)
      ensures !old(FreshEnough(p)) ==>
                || unchanged(`kept, `origin, `start, `stop)
                || (kept == Some(Kept(p.now, h.Policy(p.trust), p.insecure, rows)) && origin == p
                    && start == |old(cosign.answers)| && stop == |cosign.answers|)
      ensures var builder := if old(FreshEnough(p)) then old(origin) else p;
              Honest(builder.src, h.Policy(p.trust), builder.trust.types, p.insecure, cosign.answers, p.health, rows)
      ensures old(FreshEnough(p)) <==>
                && !p.force && old(kept).Some? && old(kept).value.policy == h.Policy(p.trust)
                && old(kept).value.insecure == p.insecure && p.now - old(kept).value.builtAt < refreshSeconds
    {
      hide Honest;
      if FreshEnough(p) {
        rows := RecheckRows(kept.value.rows, p.health);
        RecheckIsHonest(origin.src, h.Policy(p.trust), origin.trust.types, p.insecure, cosign.answers, origin.health,
                        p.health, kept.value.rows);
        if SameInputs(origin, p) {
          RecheckIsRebuild(p.src, Under(truth, h.Policy(p.trust)), p.trust.types, p.insecure, origin.health, p.health);
        }
        return;
      }
      ghost var first := |cosign.answers|;
      rows := Build(p);
      var saved: bool := *;
      if saved {
        kept, origin, start, stop := Some(Kept(p.now, h.Policy(p.trust), p.insecure, rows)), p, first, |cosign.answers|;
      }
    }
  }

  // ---- any history of passes -----------------------------------------------

  /** One pass of `poll`, with the configuration and the releases it finds. */
  datatype Pass = Pass(src: Source, trust: Trust, insecure: bool, health: Option<RunMachine.Health>, force: bool,
      now: real)

  ghost predicate SameInputs(a: Pass, b: Pass) {
    a.src == b.src && a.trust.types == b.trust.types
  }

  /** What `build` would return with no caches, and cosign telling the truth. */
  function Uncached(h: Hashing, truth: Truth, p: Pass): seq<Row> {
    Rows(p.src, Under(truth, h.Policy(p.trust)), p.trust.types, p.insecure, p.health)
  }

  /** No yes was ever wrong, and between the two moments every answer was the truth. */
  ghost predicate TruthTold(was: seq<Answer>, now: seq<Answer>, truth: Truth) {
    Sound(now, truth) && Clear(now, |was|, |now|, truth)
  }

  /** Pass `b` is where the list of pass `k` was built: the same pass, or an
      earlier one under the same fingerprint and mode, and not too long ago. */
  ghost predicate BuiltBy(h: Hashing, refresh: real, passes: seq<Pass>, b: nat, k: nat)
    requires k < |passes|
  {
    && b <= k
    && (b < k ==> h.Policy(passes[b].trust) == h.Policy(passes[k].trust) && passes[b].insecure == passes[k].insecure
                  && !passes[k].force && passes[k].now - passes[b].now < refresh)
  }

  /** If cosign told the truth in the pass that built it, and releases and types
      are still those, the list of pass `k` is the one no cache would have given.
      `marks` says how much cosign had answered when each pass began. */
  ghost predicate CurrentIfSame(h: Hashing, truth: Truth, passes: seq<Pass>, answers: seq<Answer>, lists: seq<seq<Row>>,
                                built: seq<nat>, marks: seq<nat>, k: nat)
    requires k < |built| <= |passes| && |lists| == |built| && |marks| == |built| + 1
  {
    built[k] <= k && SameInputs(passes[built[k]], passes[k])
        && Clear(answers, marks[built[k]], marks[built[k] + 1], truth) ==>
      lists[k] == Uncached(h, truth, passes[k])
  }

  /** The list of pass `k` says what is so of the releases it was built from, by
      cosign's answers under this pass's own fingerprint and today's health. */
  ghost predicate HonestAt(h: Hashing, passes: seq<Pass>, answers: seq<Answer>, lists: seq<seq<Row>>, built: seq<nat>,
      k: nat)
    requires k < |built| <= |passes| && |lists| == |built|
  {
    && built[k] < |passes|
    && Honest(passes[built[k]].src, h.Policy(passes[k].trust), passes[built[k]].trust.types, passes[k].insecure,
              answers, passes[k].health, lists[k])
  }

  /** Any number of passes under any configurations, from an empty log directory,
      with either file lost, unreadable or not written at any time. Each list was
      built by some pass and claims no signature that was not earned; and if no
      yes of cosign's was ever wrong, every list is current whose releases and
      types are those of a pass in which cosign told the truth. */
  method PollAll(h: Hashing, refresh: real, passes: seq<Pass>, cosign: Cosign, ghost truth: Truth)
    returns (lists: seq<seq<Row>>, ghost built: seq<nat>, ghost marks: seq<nat>)
    requires NoCollision(h) && cosign.answers == [] && forall k, i, s :: |h.fingerprint(k, i, s)| == 16
    requires forall k :: 0 <= k < |passes| ==> ProperSource(passes[k].src)
    modifies cosign
    ensures |lists| == |built| == |passes| && |marks| == |passes| + 1 && marks[0] == 0
            && marks[|passes|] == |cosign.answers|
    ensures forall k :: 0 <= k < |passes| ==> marks[k] <= marks[k + 1]
    ensures forall k :: 0 <= k < |passes| ==> BuiltBy(h, refresh, passes, built[k], k)
    ensures forall k :: 0 <= k < |passes| ==> HonestAt(h, passes, cosign.answers, lists, built, k)
    ensures Sound(cosign.answers, truth) ==>
              forall k :: 0 <= k < |passes| ==> CurrentIfSame(h, truth, passes, cosign.answers, lists, built, marks, k)
  {
    hide Uncached;
    hide Honest;
    hide Told;
    hide AllProper;
    hide CurrentIfSame;
    hide HonestAt;
    hide BuiltBy;
    var reports := new Reports(h, refresh, cosign, truth);
    lists, built, marks := [], [], [0];
    ghost var who := 0;
    for n := 0 to |passes|
      invariant fresh(reports) && reports.Valid() && reports.h == h && reports.refreshSeconds == refresh
      invariant reports.cosign == cosign && reports.truth == truth
      invariant |lists| == |built| == n && |marks| == n + 1 && marks[0] == 0 && marks[n] == |cosign.answers|
      invariant forall k :: 0 <= k < n ==> marks[k] <= marks[k + 1]
      invariant forall k :: 0 <= k < n ==> BuiltBy(h, refresh, passes, built[k], k)
      invariant forall k :: 0 <= k < n ==> HonestAt(h, passes, cosign.answers, lists, built, k)
      invariant reports.kept.Some? ==>
          who < n && reports.origin == passes[who] && reports.start == marks[who] && reports.stop == marks[who + 1]
      invariant Sound(cosign.answers, truth) ==>
        forall k :: 0 <= k < n ==> CurrentIfSame(h, truth, passes, cosign.answers, lists, built, marks, k)
    {
      var lost1: bool, lost2: bool := *, *;
      reports.Lose(lost1, lost2);
      ghost var again, was := reports.FreshEnough(passes[n]), cosign.answers;
      ghost var b := if again then who else n;
      BuiltAt(reports, passes, b, n);
      var rows := reports.BuildCached(passes[n]);
      HonestAppends(h, passes, was, cosign.answers, lists, built, rows, b);
      if Sound(cosign.answers, truth) {
        ClearBefore(was, cosign.answers, 0, truth);
        PassAppends(h, truth, passes, was, cosign.answers, lists, built, marks, rows, b);
      }
      BuiltAppends(h, refresh, passes, built, b);
      lists, built, marks := lists + [rows], built + [b], marks + [|cosign.answers|];
      if !again && reports.kept.Some?
          && (reports.start, reports.stop, reports.origin) == (|was|, |cosign.answers|, passes[n]) {
        who := n;
      }
    }
  }

  lemma BuiltAt(reports: Reports, passes: seq<Pass>, b: nat, n: nat)
    requires reports.Valid() && b <= n < |passes|
    requires b == n || (reports.FreshEnough(passes[n]) && reports.origin == passes[b])
    ensures BuiltBy(reports.h, reports.refreshSeconds, passes, b, n)
  {
    hide Honest;
    hide Told;
    hide AllProper;
    hide Uncached;
  }

  lemma BuiltAppends(h: Hashing, refresh: real, passes: seq<Pass>, built: seq<nat>, b: nat)
    requires |built| < |passes| && BuiltBy(h, refresh, passes, b, |built|)
    requires forall k :: 0 <= k < |built| ==> BuiltBy(h, refresh, passes, built[k], k)
    ensures forall k :: 0 <= k < |built| + 1 ==> BuiltBy(h, refresh, passes, (built + [b])[k], k)
  {
    hide BuiltBy;
  }

  lemma HonestAppends(h: Hashing, passes: seq<Pass>, was: seq<Answer>, now: seq<Answer>, lists: seq<seq<Row>>,
                      built: seq<nat>, rows: seq<Row>, b: nat)
    requires |lists| == |built| < |passes| && was <= now && b < |passes|
    requires forall k :: 0 <= k < |built| ==> HonestAt(h, passes, was, lists, built, k)
    requires var p := passes[|built|];
      Honest(passes[b].src, h.Policy(p.trust), passes[b].trust.types, p.insecure, now, p.health, rows)
    ensures forall k :: 0 <= k < |built| + 1 ==> HonestAt(h, passes, now, lists + [rows], built + [b], k)
  {
    hide Honest;
    forall k | 0 <= k < |built| ensures HonestAt(h, passes, now, lists + [rows], built + [b], k) {
      assert HonestAt(h, passes, was, lists, built, k);
      HonestStays(passes[built[k]].src, h.Policy(passes[k].trust), passes[built[k]].trust.types, passes[k].insecure,
                  was, now, passes[k].health, lists[k]);
    }
  }

  lemma PassAppends(h: Hashing, truth: Truth, passes: seq<Pass>, was: seq<Answer>, now: seq<Answer>,
      lists: seq<seq<Row>>,
                    built: seq<nat>, marks: seq<nat>, rows: seq<Row>, b: nat)
    requires |lists| == |built| < |passes| && |marks| == |built| + 1 && marks[|built|] == |was| && was <= now
    requires forall k :: 0 <= k < |built| ==> marks[k] <= marks[k + 1]
    requires forall k :: 0 <= k < |built| ==> CurrentIfSame(h, truth, passes, was, lists, built, marks, k)
    requires b <= |built|
    requires var n := |built|; var stop := if b < n then marks[b + 1] else |now|;
      SameInputs(passes[b], passes[n]) && Clear(now, marks[b], stop, truth) ==> rows == Uncached(h, truth, passes[n])
    ensures forall k :: 0 <= k < |built| + 1 ==>
      CurrentIfSame(h, truth, passes, now, lists + [rows], built + [b], marks + [|now|], k)
  {
    hide Uncached;
    var n := |built|;
    SlicesStay(was, now, truth);
    forall k | 0 <= k < n + 1
        ensures CurrentIfSame(h, truth, passes, now, lists + [rows], built + [b], marks + [|now|], k) {
      if k < n {
        assert CurrentIfSame(h, truth, passes, was, lists, built, marks, k);
        if built[k] <= k {
          MarksAscend(marks, built[k] + 1, n);
        }
      }
    }
  }

  lemma SlicesStay(was: seq<Answer>, now: seq<Answer>, truth: Truth)
    requires was <= now
    ensures forall a: nat, b: nat :: b <= |was| && Clear(now, a, b, truth) ==> Clear(was, a, b, truth)
  {
    assert forall i :: 0 <= i < |was| ==> was[i] == now[i];
  }

  lemma {:induction false} MarksAscend(marks: seq<nat>, i: nat, j: nat)
    requires i <= j < |marks| && forall k :: 0 <= k < |marks| - 1 ==> marks[k] <= marks[k + 1]
    ensures marks[i] <= marks[j]
    decreases j
  {
    if i < j {
      MarksAscend(marks, i, j - 1);
    }
  }
}
