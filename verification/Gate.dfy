/** The branch-to-trunk gate: any number of branches submit frozen prefixes to
    one trunk; a policy-fenced compare-and-set admits them; the frontier is
    recorded by a separate step that a crash can interrupt. */
module Gate {
  import opened Common

  /** One twig contribution of one branch, or the competing authority's change. */
  datatype Change = Twig(branch: nat, twig: nat) | External

  datatype Verdict = Waiting | Passed | Failed | Unrun

  /** The identity a gate verdict attaches to. */
  datatype Certificate =
    | Cert(base: nat, trunk: seq<Change>, prefix: seq<Change>, delta: seq<Change>, epoch: nat, op: nat)
    | ExternalCert

  datatype Submission = Submission(
    op: nat, branch: nat, prefix: seq<Change>, delta: seq<Change>, base: nat, epoch: nat,
    candidate: Certificate, gate: Verdict, landed: bool)

  datatype Branch = Branch(
    authored: seq<Change>, head: seq<Change>, frontier: seq<Change>,
    epoch: nat, held: bool, submission: Option<Submission>)

  /** A durable log entry; `branch` is -1 for the competing authority. */
  datatype Admission = Admission(
    op: nat, branch: int, prefix: seq<Change>, delta: seq<Change>, base: nat, epoch: nat,
    observedEpoch: nat, observedHold: bool, gate: Verdict, candidate: Certificate)

  datatype State = State(
    branches: seq<Branch>, trunk: seq<Change>, admissions: seq<Admission>,
    nextOp: nat, externalDone: bool, up: bool)

  datatype Event =
    | Contribute(i: nat, twig: nat)
    | Hold(i: nat)
    | Release(i: nat)
    | Submit(i: nat)
    | Judge(i: nat, verdict: Verdict)
    | Supersede(i: nat)
    | Cancel(i: nat)
    | Finish(i: nat)
    | Commit(i: nat)
    | Crash
    | Recover
    | Advance

  // ---------------------------------------------------------------- steps

  function Init(n: nat): State {
    State(seq(n, _ => Branch([], [], [], 0, false, None)), [], [], 1, false, true)
  }

  function With(s: State, i: nat, b: Branch): State
    requires i < |s.branches|
  {
    s.(branches := s.branches[i := b])
  }

  predicate OpAdmitted(log: seq<Admission>, op: nat) {
    exists k :: 0 <= k < |log| && log[k].op == op
  }

  /** An unlanded submission of branch `i` that the running coordinator can act on. */
  predicate Pending(s: State, i: nat) {
    s.up && i < |s.branches| && s.branches[i].submission.Some? && !s.branches[i].submission.value.landed
  }

  predicate Enabled(s: State, e: Event) {
    match e
    case Contribute(i, twig) => i < |s.branches| && Twig(i, twig) !in s.branches[i].authored
    case Hold(i) => i < |s.branches| && !s.branches[i].held
    case Release(i) => i < |s.branches| && s.branches[i].held
    case Submit(i) =>
      s.up && i < |s.branches| && s.branches[i].submission.None? && !s.branches[i].held
      && |s.branches[i].head| > |s.branches[i].frontier|
    case Judge(i, verdict) => Pending(s, i) && s.branches[i].submission.value.gate == Waiting && verdict != Waiting
    case Supersede(i) => Pending(s, i) && s.branches[i].submission.value.gate in {Failed, Unrun}
    case Cancel(i) => Pending(s, i)
    case Finish(i) =>
      s.up && i < |s.branches| && s.branches[i].submission.Some? && s.branches[i].submission.value.landed
    case Commit(i) =>
      Pending(s, i)
      && var b := s.branches[i];
         var sub := b.submission.value;
         sub.gate == Passed && !b.held && b.epoch == sub.epoch
         && sub.base == |s.admissions| && !OpAdmitted(s.admissions, sub.op)
    case Crash => s.up
    case Recover => !s.up
    case Advance => !s.externalDone
  }

  function Propose(s: State, i: nat): Submission
    requires i < |s.branches| && |s.branches[i].frontier| <= |s.branches[i].head|
  {
    var b := s.branches[i];
    var delta := b.head[|b.frontier|..];
    var base := |s.admissions|;
    Submission(s.nextOp, i, b.head, delta, base, b.epoch,
               Cert(base, s.trunk, b.head, delta, b.epoch, s.nextOp), Waiting, false)
  }

  function Entry(s: State, i: nat): Admission
    requires i < |s.branches| && s.branches[i].submission.Some?
  {
    var b := s.branches[i];
    var sub := b.submission.value;
    Admission(sub.op, i, sub.prefix, sub.delta, sub.base, sub.epoch, b.epoch, b.held, sub.gate, sub.candidate)
  }

  function ExternalEntry(base: nat): Admission {
    Admission(0, -1, [], [External], base, 0, 0, false, Passed, ExternalCert)
  }

  /** What recovery does to one branch: a submission found in the log is finished. */
  function Recovered(b: Branch, log: seq<Admission>): Branch {
    if b.submission.Some? && OpAdmitted(log, b.submission.value.op)
    then b.(frontier := b.submission.value.prefix, submission := None)
    else b
  }

  function Apply(s: State, e: Event): State
    requires Enabled(s, e)
  {
    match e
    case Contribute(i, twig) =>
      var b := s.branches[i];
      With(s, i, b.(authored := b.authored + [Twig(i, twig)], head := b.authored + [Twig(i, twig)]))
    case Hold(i) => With(s, i, s.branches[i].(held := true, epoch := s.branches[i].epoch + 1))
    case Release(i) => With(s, i, s.branches[i].(held := false, epoch := s.branches[i].epoch + 1))
    case Submit(i) =>
      With(s, i, s.branches[i].(submission := Some(Propose(s, i)))).(nextOp := s.nextOp + 1)
    case Judge(i, verdict) =>
      With(s, i, s.branches[i].(submission := Some(s.branches[i].submission.value.(gate := verdict))))
    case Supersede(i) => With(s, i, s.branches[i].(submission := None))
    case Cancel(i) => With(s, i, s.branches[i].(submission := None))
    case Finish(i) =>
      With(s, i, s.branches[i].(frontier := s.branches[i].submission.value.prefix, submission := None))
    case Commit(i) =>
      var sub := s.branches[i].submission.value;
      With(s, i, s.branches[i].(submission := Some(sub.(landed := true))))
        .(trunk := s.trunk + sub.delta, admissions := s.admissions + [Entry(s, i)])
    case Crash => s.(up := false)
    case Recover =>
      s.(up := true,
        branches := seq(|s.branches|, i requires 0 <= i < |s.branches| => Recovered(s.branches[i], s.admissions)))
    case Advance =>
      s.(trunk := s.trunk + [External], admissions := s.admissions + [ExternalEntry(|s.admissions|)],
        externalDone := true)
  }

  /** `es` can be taken from `s`, one enabled event after the other. */
  predicate Runs(s: State, es: seq<Event>)
    decreases |es|
  {
    es == [] || (Enabled(s, es[0]) && Runs(Apply(s, es[0]), es[1..]))
  }

  function After(s: State, es: seq<Event>): State
    requires Runs(s, es)
    decreases |es|
  {
    if es == [] then s else After(Apply(s, es[0]), es[1..])
  }

  lemma {:induction false} RunsJoin(s: State, a: seq<Event>, b: seq<Event>)
    requires Runs(s, a) && Runs(After(s, a), b)
    ensures Runs(s, a + b) && After(s, a + b) == After(After(s, a), b)
    decreases |a|
  {
    hide Apply, Enabled;
    if a == [] {
      assert a + b == b;
    } else {
      RunsJoin(Apply(s, a[0]), a[1..], b);
      assert (a + b)[1..] == a[1..] + b;
    }
  }

  // ------------------------------------------------------------ reference

  /** The changes of a log, in log order. */
  function Deltas(log: seq<Admission>): seq<Change> {
    if log == [] then [] else Deltas(log[..|log| - 1]) + log[|log| - 1].delta
  }

  function Owner(c: Change): int {
    if c.Twig? then c.branch else -1
  }

  /** The changes of one owner, in trunk order. */
  function Part(trunk: seq<Change>, owner: int): seq<Change> {
    if trunk == [] then []
    else
      var rest := Part(trunk[..|trunk| - 1], owner);
      var last := trunk[|trunk| - 1];
      if Owner(last) == owner then rest + [last] else rest
  }

  /** What branch `b` has on trunk: its frontier, or the landed prefix not yet recorded. */
  function Landed(b: Branch): seq<Change> {
    if b.submission.Some? && b.submission.value.landed then b.submission.value.prefix else b.frontier
  }

  lemma {:induction false} PartConcat(a: seq<Change>, b: seq<Change>, owner: int)
    ensures Part(a + b, owner) == Part(a, owner) + Part(b, owner)
    decreases |b|
  {
    if b == [] {
      assert a + b == a;
    } else {
      assert (a + b)[..|a + b| - 1] == a + b[..|b| - 1];
      PartConcat(a, b[..|b| - 1], owner);
    }
  }

  lemma {:induction false} PartOfOwned(t: seq<Change>, owner: int, other: int)
    requires forall c :: c in t ==> Owner(c) == owner
    ensures Part(t, other) == if other == owner then t else []
  {
    if t != [] {
      PartOfOwned(t[..|t| - 1], owner, other);
    }
  }

  lemma {:induction false} PartHas(t: seq<Change>, c: Change)
    requires c in t
    ensures c in Part(t, Owner(c))
  {
    if c != t[|t| - 1] {
      PartHas(t[..|t| - 1], c);
    }
  }

  /** Nothing repeats on a trunk whose per-owner parts do not repeat. */
  lemma {:induction false} NoDupFromParts(t: seq<Change>)
    requires forall o :: NoDup(Part(t, o))
    ensures NoDup(t)
  {
    if t != [] {
      var s, last := t[..|t| - 1], t[|t| - 1];
      forall o ensures NoDup(Part(s, o)) {
        NoDupPrefix(Part(s, o), Part(t, o));
      }
      NoDupFromParts(s);
      var mine := Part(s, Owner(last));
      assert Part(t, Owner(last))[|mine|] == last && forall k :: 0 <= k < |mine| ==> mine[k] == Part(t, Owner(last))[k];
      forall k | 0 <= k < |s| ensures t[k] != last {
        assert t[k] in s;
        PartHas(s, t[k]);
      }
    }
  }

  // ------------------------------------------------------------ invariant

  ghost predicate EntryOk(s: State, k: nat)
    requires k < |s.admissions|
  {
    var e := s.admissions[k];
    e.base == k && e.op < s.nextOp
    && (if e.branch < 0
        then e.op == 0 && e.delta == [External] && s.externalDone
        else e.op > 0 && e.branch < |s.branches| && e.gate == Passed && !e.observedHold && e.epoch == e.observedEpoch
             && e.candidate == Cert(k, Deltas(s.admissions[..k]), e.prefix, e.delta, e.epoch, e.op))
  }

  ghost predicate LogOk(s: State) {
    s.nextOp > 0 && s.trunk == Deltas(s.admissions)
    && (forall k :: 0 <= k < |s.admissions| ==> EntryOk(s, k))
    && (forall j, k :: 0 <= j < k < |s.admissions| ==> s.admissions[j].op != s.admissions[k].op)
    && Part(s.trunk, -1) == (if s.externalDone then [External] else [])
    && (forall c :: c in s.trunk ==> Owner(c) < |s.branches|)
  }

  ghost predicate SubmissionOk(s: State, i: nat, b: Branch, sub: Submission) {
    sub.branch == i && 0 < sub.op < s.nextOp && sub.prefix <= b.head && b.frontier + sub.delta == sub.prefix
      && sub.delta != []
    && sub.base <= |s.admissions| && sub.epoch <= b.epoch
    && sub.candidate == Cert(sub.base, Deltas(s.admissions[..sub.base]), sub.prefix, sub.delta, sub.epoch, sub.op)
    && (sub.landed <==> OpAdmitted(s.admissions, sub.op))
  }

  ghost predicate BranchOk(s: State, i: nat)
    requires i < |s.branches|
  {
    var b := s.branches[i];
    b.head == b.authored && NoDup(b.authored) && (forall c :: c in b.authored ==> Owner(c) == i)
    && b.frontier <= b.head && Part(s.trunk, i) == Landed(b)
    && (b.submission.Some? ==> SubmissionOk(s, i, b, b.submission.value))
  }

  ghost predicate OpsApart(s: State) {
    forall i, j :: 0 <= i < j < |s.branches| && s.branches[i].submission.Some? && s.branches[j].submission.Some?
      ==> s.branches[i].submission.value.op != s.branches[j].submission.value.op
  }

  ghost predicate Inv(s: State) {
    LogOk(s) && OpsApart(s) && forall i :: 0 <= i < |s.branches| ==> BranchOk(s, i)
  }

  lemma InitInv(n: nat)
    ensures Inv(Init(n))
  {
  }

  /** A step that leaves the trunk, the log and all branches but `i` alone. */
  ghost predicate Local(s: State, t: State, i: nat) {
    |t.branches| == |s.branches| && i < |s.branches|
    && t == s.(branches := s.branches[i := t.branches[i]], nextOp := t.nextOp, up := t.up)
    && t.nextOp >= s.nextOp
  }

  lemma LocalInv(s: State, t: State, i: nat)
    requires Inv(s) && Local(s, t, i) && BranchOk(t, i)
    requires t.branches[i].submission.Some? ==>
               var op := t.branches[i].submission.value.op;
               op >= s.nextOp || (s.branches[i].submission.Some? && s.branches[i].submission.value.op == op)
    ensures Inv(t)
  {
    forall k | 0 <= k < |t.admissions| ensures EntryOk(t, k) {
      assert EntryOk(s, k);
    }
    forall j | 0 <= j < |t.branches| ensures BranchOk(t, j) {
      if j != i { assert BranchOk(s, j); }
    }
    forall a, b | 0 <= a < b < |t.branches| && t.branches[a].submission.Some? && t.branches[b].submission.Some?
      ensures t.branches[a].submission.value.op != t.branches[b].submission.value.op
    {
      assert BranchOk(s, a) && BranchOk(s, b);
    }
  }

  /** The certificate of a submission names the trunk it was built on. */
  lemma SubmitOk(s: State, i: nat)
    requires Inv(s) && Enabled(s, Submit(i))
    ensures Inv(Apply(s, Submit(i)))
  {
    var t := Apply(s, Submit(i));
    var b := s.branches[i];
    assert BranchOk(s, i);
    assert s.admissions[..|s.admissions|] == s.admissions;
    forall k | 0 <= k < |s.admissions| ensures s.admissions[k].op != s.nextOp {
      assert EntryOk(s, k);
    }
    LocalInv(s, t, i);
  }

  lemma BranchLocalInv(s: State, e: Event)
    requires Inv(s) && Enabled(s, e)
    requires e.Contribute? || e.Hold? || e.Release? || e.Judge? || e.Supersede? || e.Cancel? || e.Finish?
    ensures Inv(Apply(s, e))
  {
    hide LogOk, OpsApart, SubmissionOk;
    var t := Apply(s, e);
    assert BranchOk(s, e.i);
    if e.Contribute? { ContributeOk(s, e.i, e.twig); }
    else if e.Finish? { FinishOk(s, e.i); }
    else { MarkOk(s, e); }
    hide BranchOk, Enabled, Apply;
    LocalInv(s, t, e.i);
  }

  /** `t` differs from `s` in branch `i` only, which is in order and has no new operation. */
  ghost predicate LocalOk(s: State, t: State, i: nat) {
    Local(s, t, i) && BranchOk(t, i)
    && (t.branches[i].submission.Some? ==>
          s.branches[i].submission.Some? && s.branches[i].submission.value.op == t.branches[i].submission.value.op)
  }

  lemma ContributeOk(s: State, i: nat, twig: nat)
    requires Enabled(s, Contribute(i, twig)) && BranchOk(s, i)
    ensures LocalOk(s, Apply(s, Contribute(i, twig)), i)
  {
    hide Deltas, Part;
  }

  lemma FinishOk(s: State, i: nat)
    requires Enabled(s, Finish(i)) && BranchOk(s, i)
    ensures LocalOk(s, Apply(s, Finish(i)), i)
  {
    hide Deltas, Part;
  }

  lemma MarkOk(s: State, e: Event)
    requires Enabled(s, e) && (e.Hold? || e.Release? || e.Judge? || e.Supersede? || e.Cancel?) && BranchOk(s, e.i)
    ensures LocalOk(s, Apply(s, e), e.i)
  {
    hide Deltas, Part;
  }

  /** Appending an entry that is in order keeps the log in order. */
  lemma LogGrows(s: State, t: State, entry: Admission)
    requires LogOk(s) && |t.branches| == |s.branches| && t.nextOp == s.nextOp
    requires t.admissions == s.admissions + [entry] && t.trunk == s.trunk + entry.delta
    requires s.externalDone ==> t.externalDone
    requires EntryOk(t, |s.admissions|) && !OpAdmitted(s.admissions, entry.op)
    requires forall c :: c in entry.delta ==> Owner(c) < |s.branches|
    requires Part(t.trunk, -1) == (if t.externalDone then [External] else [])
    ensures LogOk(t)
  {
    hide Part, EntryOk, Deltas;
    DeltasSnoc(s.admissions, entry);
    OpsStayApart(s.admissions, entry);
    OwnersStayBelow(s.trunk, entry.delta, |s.branches|);
    forall k | 0 <= k < |t.admissions| ensures EntryOk(t, k) {
      if k < |s.admissions| { EntryKept(s, t, entry, k); }
    }
  }

  lemma DeltasSnoc(log: seq<Admission>, entry: Admission)
    ensures Deltas(log + [entry]) == Deltas(log) + entry.delta
  {
    assert (log + [entry])[..|log|] == log;
  }

  lemma OpsStayApart(log: seq<Admission>, entry: Admission)
    requires forall j, k :: 0 <= j < k < |log| ==> log[j].op != log[k].op
    requires !OpAdmitted(log, entry.op)
    ensures var more := log + [entry]; forall j, k :: 0 <= j < k < |more| ==> more[j].op != more[k].op
  {
    var more := log + [entry];
    forall j, k | 0 <= j < k < |more| ensures more[j].op != more[k].op { assert more[j] == log[j]; }
  }

  lemma OwnersStayBelow(trunk: seq<Change>, delta: seq<Change>, n: nat)
    requires (forall c :: c in trunk ==> Owner(c) < n) && forall c :: c in delta ==> Owner(c) < n
    ensures forall c :: c in trunk + delta ==> Owner(c) < n
  {
  }

  lemma EntryKept(s: State, t: State, entry: Admission, k: nat)
    requires k < |s.admissions| && EntryOk(s, k) && |t.branches| == |s.branches| && t.nextOp == s.nextOp
    requires t.admissions == s.admissions + [entry] && (s.externalDone ==> t.externalDone)
    ensures EntryOk(t, k)
  {
    assert t.admissions[..k] == s.admissions[..k];
  }

  lemma OtherBranchKept(s: State, t: State, entry: Admission, j: nat)
    requires LogOk(s) && j < |s.branches| && |t.branches| == |s.branches| && BranchOk(s, j)
    requires t.branches[j] == s.branches[j] && t.nextOp == s.nextOp
    requires t.admissions == s.admissions + [entry] && t.trunk == s.trunk + entry.delta
    requires forall c :: c in entry.delta ==> Owner(c) != j
    requires s.branches[j].submission.Some? ==> s.branches[j].submission.value.op != entry.op
    ensures BranchOk(t, j)
  {
    PartConcat(s.trunk, entry.delta, j);
    PartForeign(entry.delta, j);
    hide LogOk, Part, SubmissionOk;
    var b := s.branches[j];
    if b.submission.Some? { OtherSubmissionKept(s, t, entry, j, b, b.submission.value); }
  }

  lemma OtherSubmissionKept(s: State, t: State, entry: Admission, j: nat, b: Branch, sub: Submission)
    requires SubmissionOk(s, j, b, sub) && sub.op != entry.op && t.nextOp == s.nextOp
    requires t.admissions == s.admissions + [entry] && t.trunk == s.trunk + entry.delta
    ensures SubmissionOk(t, j, b, sub)
  {
    assert t.admissions[..sub.base] == s.admissions[..sub.base];
    if OpAdmitted(s.admissions, sub.op) {
      var k :| 0 <= k < |s.admissions| && s.admissions[k].op == sub.op;
      assert t.admissions[k].op == sub.op;
    }
  }

  lemma {:induction false} PartForeign(t: seq<Change>, owner: int)
    requires forall c :: c in t ==> Owner(c) != owner
    ensures Part(t, owner) == []
  {
    if t != [] { PartForeign(t[..|t| - 1], owner); }
  }

  lemma CommitLog(s: State, i: nat)
    requires Inv(s) && Enabled(s, Commit(i))
    ensures LogOk(Apply(s, Commit(i)))
  {
    var t := Apply(s, Commit(i));
    var sub := s.branches[i].submission.value;
    DeltaOwned(s, i);
    CommitEntry(s, i);
    PartConcat(s.trunk, sub.delta, -1);
    PartForeign(sub.delta, -1);
    assert Part(s.trunk, -1) == (if s.externalDone then [External] else []);
    hide Part, Deltas, LogOk, EntryOk, SubmissionOk, BranchOk, OpsApart;
    LogGrows(s, t, Entry(s, i));
  }

  lemma CommitEntry(s: State, i: nat)
    requires Inv(s) && Enabled(s, Commit(i))
    ensures var t := Apply(s, Commit(i));
      |t.admissions| == |s.admissions| + 1 && EntryOk(t, |s.admissions|)
  {
    assert BranchOk(s, i);
    var t := Apply(s, Commit(i));
    hide Part, Deltas, LogOk, OpsApart;
    assert t.admissions[..|s.admissions|] == s.admissions[..|s.admissions|];
  }

  /** What a branch submits are its own contributions. */
  lemma DeltaOwned(s: State, i: nat)
    requires i < |s.branches| && BranchOk(s, i) && s.branches[i].submission.Some?
    ensures forall c :: c in s.branches[i].submission.value.delta ==> Owner(c) == i
  {
    var b := s.branches[i];
    var sub := b.submission.value;
    forall k | 0 <= k < |sub.delta| ensures sub.delta[k] in b.authored {
      assert sub.delta[k] == (b.frontier + sub.delta)[|b.frontier| + k] == b.head[|b.frontier| + k];
    }
  }

  lemma CommitBranch(s: State, i: nat)
    requires Inv(s) && Enabled(s, Commit(i))
    ensures BranchOk(Apply(s, Commit(i)), i)
  {
    var t := Apply(s, Commit(i));
    var sub := s.branches[i].submission.value;
    assert BranchOk(s, i);
    DeltaOwned(s, i);
    hide LogOk, OpsApart, Part, Deltas;
    PartConcat(s.trunk, sub.delta, i);
    PartOfOwned(sub.delta, i, i);
    assert t.admissions[..sub.base] == s.admissions[..sub.base];
    assert t.admissions[|s.admissions|].op == sub.op;
  }

  lemma CommitInv(s: State, i: nat)
    requires Inv(s) && Enabled(s, Commit(i))
    ensures Inv(Apply(s, Commit(i)))
  {
    var t := Apply(s, Commit(i));
    CommitLog(s, i);
    CommitApart(s, i);
    assert |t.branches| == |s.branches|;
    hide LogOk, BranchOk, OpsApart, Enabled, Apply;
    forall j | 0 <= j < |t.branches| ensures BranchOk(t, j) {
      if j == i { CommitBranch(s, i); } else { CommitOther(s, i, j); }
    }
  }

  lemma CommitApart(s: State, i: nat)
    requires Inv(s) && Enabled(s, Commit(i))
    ensures OpsApart(Apply(s, Commit(i)))
  {
    hide LogOk, BranchOk;
    var t := Apply(s, Commit(i));
    forall j | 0 <= j < |t.branches|
      ensures t.branches[j].submission.Some? ==>
                s.branches[j].submission.Some? && t.branches[j].submission.value.op == s.branches[j].submission.value.op
    {
    }
  }

  lemma CommitOther(s: State, i: nat, j: nat)
    requires Inv(s) && Enabled(s, Commit(i)) && j < |s.branches| && j != i
    ensures |Apply(s, Commit(i)).branches| == |s.branches| && BranchOk(Apply(s, Commit(i)), j)
  {
    assert BranchOk(s, i) && BranchOk(s, j);
    DeltaOwned(s, i);
    hide LogOk, BranchOk;
    OtherBranchKept(s, Apply(s, Commit(i)), Entry(s, i), j);
  }

  lemma AdvanceLog(s: State)
    requires LogOk(s) && !s.externalDone
    ensures LogOk(Apply(s, Advance))
  {
    var t := Apply(s, Advance);
    var entry := ExternalEntry(|s.admissions|);
    AdvancePart(s);
    AdvanceEntry(s);
    hide Part, Deltas, LogOk, EntryOk, OpAdmitted;
    LogGrows(s, t, entry);
  }

  lemma AdvancePart(s: State)
    requires LogOk(s) && !s.externalDone
    ensures Part(Apply(s, Advance).trunk, -1) == [External]
  {
    PartExternal();
    assert Part(s.trunk, -1) == [] && Apply(s, Advance).trunk == s.trunk + [External];
    hide EntryOk, Deltas, LogOk, Part, Enabled, Apply;
    PartConcat(s.trunk, [External], -1);
  }

  lemma PartExternal()
    ensures Part([External], -1) == [External]
  {
    assert [External][..0] == [];
  }

  lemma AdvanceEntry(s: State)
    requires LogOk(s) && !s.externalDone
    ensures |Apply(s, Advance).admissions| == |s.admissions| + 1 && EntryOk(Apply(s, Advance), |s.admissions|)
    ensures !OpAdmitted(s.admissions, 0)
  {
    hide Part, Deltas;
    forall k | 0 <= k < |s.admissions| ensures s.admissions[k].op != 0 { assert EntryOk(s, k); }
  }

  lemma AdvanceInv(s: State)
    requires Inv(s) && Enabled(s, Advance)
    ensures Inv(Apply(s, Advance))
  {
    var t := Apply(s, Advance);
    AdvanceLog(s);
    assert t.branches == s.branches;
    hide LogOk, BranchOk;
    forall j | 0 <= j < |t.branches| ensures BranchOk(t, j) { AdvanceOther(s, j); }
  }

  lemma AdvanceOther(s: State, j: nat)
    requires Inv(s) && Enabled(s, Advance) && j < |s.branches|
    ensures |Apply(s, Advance).branches| == |s.branches| && BranchOk(Apply(s, Advance), j)
  {
    assert BranchOk(s, j);
    hide LogOk, OpsApart, Part, Deltas;
    OtherBranchKept(s, Apply(s, Advance), ExternalEntry(|s.admissions|), j);
  }

  lemma RecoverInv(s: State)
    requires Inv(s) && Enabled(s, Recover)
    ensures Inv(Apply(s, Recover))
  {
    var t := Apply(s, Recover);
    forall k | 0 <= k < |t.admissions| ensures EntryOk(t, k) {
      assert EntryOk(s, k);
    }
    forall j | 0 <= j < |t.branches| ensures BranchOk(t, j) {
      assert BranchOk(s, j);
    }
  }

  lemma CrashInv(s: State)
    requires Inv(s) && Enabled(s, Crash)
    ensures Inv(Apply(s, Crash))
  {
    var t := Apply(s, Crash);
    forall k | 0 <= k < |t.admissions| ensures EntryOk(t, k) {
      assert EntryOk(s, k);
    }
    forall j | 0 <= j < |t.branches| ensures BranchOk(t, j) {
      assert BranchOk(s, j);
    }
  }

  lemma StepInv(s: State, e: Event)
    requires Inv(s) && Enabled(s, e)
    ensures Inv(Apply(s, e))
  {
    match e
    case Submit(i) => SubmitOk(s, i);
    case Commit(i) => CommitInv(s, i);
    case Crash => CrashInv(s);
    case Recover => RecoverInv(s);
    case Advance => AdvanceInv(s);
    case _ => BranchLocalInv(s, e);
  }

  lemma {:induction false} RunInv(s: State, es: seq<Event>)
    requires Inv(s) && Runs(s, es)
    ensures Inv(After(s, es))
    decreases |es|
  {
    if es != [] {
      StepInv(s, es[0]);
      RunInv(Apply(s, es[0]), es[1..]);
    }
  }

  // -------------------------------------------------------------- results

  /** Every check of the explorer, as one statement about a state. */
  ghost predicate Clean(s: State) {
    (forall i :: 0 <= i < |s.branches| ==>
      s.branches[i].head == s.branches[i].authored && s.branches[i].frontier <= s.branches[i].head)
    && (forall k :: 0 <= k < |s.admissions| ==> CleanEntry(s.admissions, k))
    && (forall j, k :: 0 <= j < k < |s.admissions| ==> s.admissions[j].op != s.admissions[k].op)
    && NoDup(Deltas(s.admissions))
    && s.trunk == Deltas(s.admissions)
  }

  ghost predicate CleanEntry(log: seq<Admission>, k: nat)
    requires k < |log|
  {
    var e := log[k];
    e.base == k
    && (e.branch >= 0 ==>
      e.gate == Passed && !e.observedHold && e.epoch == e.observedEpoch
      && e.candidate == Cert(e.base, Deltas(log[..k]), e.prefix, e.delta, e.epoch, e.op))
  }

  lemma InvTrunkNoDup(s: State)
    requires Inv(s)
    ensures NoDup(s.trunk)
  {
    forall o ensures NoDup(Part(s.trunk, o)) {
      if 0 <= o < |s.branches| {
        assert BranchOk(s, o);
        NoDupPrefix(Landed(s.branches[o]), s.branches[o].head);
      } else if o != -1 {
        PartForeign(s.trunk, o);
      }
    }
    NoDupFromParts(s.trunk);
  }

  /** Safety of every run, of any length and with any number of branches: the
      explorer's checks hold, each branch has on trunk exactly its landed part,
      and that part is an initial piece of what it authored, in authored order. */
  lemma GateSafety(n: nat, es: seq<Event>)
    requires Runs(Init(n), es)
    ensures Clean(After(Init(n), es))
    ensures forall i :: 0 <= i < n ==>
      var s := After(Init(n), es);
      |s.branches| == n && Part(s.trunk, i) == Landed(s.branches[i]) && Landed(s.branches[i]) <= s.branches[i].authored
  {
    InitInv(n);
    RunInv(Init(n), es);
    var s := After(Init(n), es);
    InvTrunkNoDup(s);
    forall k | 0 <= k < |s.admissions| ensures CleanEntry(s.admissions, k) {
      assert EntryOk(s, k);
    }
    BranchCount(Init(n), es);
    forall i | 0 <= i < n
      ensures s.branches[i].head == s.branches[i].authored && s.branches[i].frontier <= s.branches[i].head
      ensures Part(s.trunk, i) == Landed(s.branches[i]) && Landed(s.branches[i]) <= s.branches[i].authored
    {
      assert BranchOk(s, i);
    }
  }

  lemma {:induction false} BranchCount(s: State, es: seq<Event>)
    requires Runs(s, es)
    ensures |After(s, es).branches| == |s.branches|
    decreases |es|
  {
    if es != [] { BranchCount(Apply(s, es[0]), es[1..]); }
  }

  /** The log and trunk only grow and no head loses a contribution. */
  ghost predicate Grown(s: State, t: State) {
    s.admissions <= t.admissions && s.trunk <= t.trunk && |t.branches| == |s.branches|
    && forall i :: 0 <= i < |s.branches| ==> s.branches[i].head <= t.branches[i].head
  }

  predicate MovesTrunk(e: Event) {
    e.Commit? || e.Advance?
  }

  lemma StepGrows(s: State, e: Event)
    requires Inv(s) && Enabled(s, e)
    ensures Grown(s, Apply(s, e))
    ensures !MovesTrunk(e) ==> Apply(s, e).trunk == s.trunk && Apply(s, e).admissions == s.admissions
  {
    assert |Apply(s, e).branches| == |s.branches|;
    forall i | 0 <= i < |s.branches| ensures s.branches[i].head <= Apply(s, e).branches[i].head {
      assert BranchOk(s, i);
      HeadGrows(s, e, i);
    }
  }

  lemma HeadGrows(s: State, e: Event, i: nat)
    requires Enabled(s, e) && i < |s.branches| && s.branches[i].head == s.branches[i].authored
    ensures i < |Apply(s, e).branches| && s.branches[i].head <= Apply(s, e).branches[i].head
  {
  }

  /** Over whole runs: nothing but `Commit` and `Advance` moves trunk (recovery
      does not), the log only grows, and no contribution leaves a head. */
  lemma {:induction false} RunGrows(s: State, es: seq<Event>)
    requires Inv(s) && Runs(s, es)
    ensures Grown(s, After(s, es))
    ensures LeavesTrunk(es) ==> After(s, es).trunk == s.trunk && After(s, es).admissions == s.admissions
    decreases |es|
  {
    if es != [] {
      var t, rest := Apply(s, es[0]), es[1..];
      StepInv(s, es[0]);
      StepGrows(s, es[0]);
      hide Inv, Enabled, Apply, Grown;
      RunGrows(t, rest);
      GrownTrans(s, t, After(t, rest));
      assert LeavesTrunk(es) ==> !MovesTrunk(es[0]) && LeavesTrunk(rest);
    }
  }

  predicate LeavesTrunk(es: seq<Event>) {
    forall k :: 0 <= k < |es| ==> !MovesTrunk(es[k])
  }

  lemma GrownTrans(s: State, t: State, u: State)
    requires Grown(s, t) && Grown(t, u)
    ensures Grown(s, u)
  {
    forall i | 0 <= i < |s.branches| ensures s.branches[i].head <= u.branches[i].head {
      assert s.branches[i].head <= t.branches[i].head <= u.branches[i].head;
    }
  }

  /** The entry a commit writes names the trunk, base, prefix, delta, policy epoch
      and operation in force at that commit, and lands exactly the next changes. */
  lemma CommitNamesState(s: State, i: nat)
    requires Inv(s) && Enabled(s, Commit(i))
    ensures
      var b := s.branches[i];
      var t := Apply(s, Commit(i));
      var e := t.admissions[|s.admissions|];
      t.admissions == s.admissions + [e] && t.trunk == s.trunk + e.delta
      && e.candidate == Cert(|s.admissions|, s.trunk, b.submission.value.prefix, e.delta, b.epoch, e.op)
      && e.prefix == Part(s.trunk, i) + e.delta && e.prefix <= b.head && e.delta != []
      && !OpAdmitted(s.admissions, e.op)
  {
    assert BranchOk(s, i);
    assert s.admissions[..|s.admissions|] == s.admissions;
  }

  predicate PolicyEvent(e: Event, i: nat) {
    e == Hold(i) || e == Release(i)
  }

  function PolicyEvents(es: seq<Event>, i: nat): nat {
    if es == [] then 0 else (if PolicyEvent(es[0], i) then 1 else 0) + PolicyEvents(es[1..], i)
  }

  lemma {:induction false} NoPolicyEvents(es: seq<Event>, i: nat)
    requires PolicyEvents(es, i) == 0
    ensures forall k :: 0 <= k < |es| ==> !PolicyEvent(es[k], i)
  {
    if es != [] {
      NoPolicyEvents(es[1..], i);
      assert forall k :: 1 <= k < |es| ==> es[k] == es[1..][k - 1];
    }
  }

  lemma SubmissionStep(s: State, e: Event, i: nat)
    requires Enabled(s, e) && i < |s.branches|
    ensures
      var t := Apply(s, e);
      |t.branches| == |s.branches|
      && t.branches[i].epoch == s.branches[i].epoch + (if PolicyEvent(e, i) then 1 else 0)
      && t.nextOp >= s.nextOp
      && (t.branches[i].submission.Some? ==>
            var sub := t.branches[i].submission.value;
            sub.op >= s.nextOp
            || (s.branches[i].submission.Some?
              && s.branches[i].submission.value.(gate := sub.gate, landed := sub.landed) == sub))
  {
    if e.Submit? || e.Commit? || e.Judge? { SubmissionMoves(s, e, i); } else { SubmissionStays(s, e, i); }
  }

  lemma SubmissionMoves(s: State, e: Event, i: nat)
    requires Enabled(s, e) && i < |s.branches| && (e.Submit? || e.Commit? || e.Judge?)
    ensures
      var t := Apply(s, e);
      |t.branches| == |s.branches| && t.branches[i].epoch == s.branches[i].epoch && t.nextOp >= s.nextOp
      && (t.branches[i].submission.Some? ==>
            var sub := t.branches[i].submission.value;
            sub.op >= s.nextOp
            || (s.branches[i].submission.Some?
              && s.branches[i].submission.value.(gate := sub.gate, landed := sub.landed) == sub))
  {
  }

  lemma SubmissionStays(s: State, e: Event, i: nat)
    requires Enabled(s, e) && i < |s.branches| && !(e.Submit? || e.Commit? || e.Judge?)
    ensures
      var t := Apply(s, e);
      |t.branches| == |s.branches| && t.nextOp == s.nextOp
      && t.branches[i].epoch == s.branches[i].epoch + (if PolicyEvent(e, i) then 1 else 0)
      && (t.branches[i].submission.Some? ==> t.branches[i].submission == s.branches[i].submission)
  {
  }

  /** A submission keeps its identity for as long as it lives, and the branch's
      policy epoch counts exactly the holds and releases since. */
  lemma {:induction false} SubmissionRun(s: State, es: seq<Event>, i: nat, op: nat, epoch: nat)
    requires Inv(s) && Runs(s, es) && i < |s.branches| && op < s.nextOp
    requires s.branches[i].submission.Some? && s.branches[i].submission.value.op == op ==>
      s.branches[i].submission.value.epoch == epoch
    ensures
      var t := After(s, es);
      |t.branches| == |s.branches|
      && t.branches[i].epoch == s.branches[i].epoch + PolicyEvents(es, i)
      && (t.branches[i].submission.Some? && t.branches[i].submission.value.op == op ==>
        t.branches[i].submission.value.epoch == epoch)
    decreases |es|
  {
    if es != [] {
      SubmissionStep(s, es[0], i);
      StepInv(s, es[0]);
      SubmissionRun(Apply(s, es[0]), es[1..], i, op, epoch);
    }
  }

  /** Between the submission of an operation and a state that can commit it no hold
      or release of that branch happened, not even a hold that was released again. */
  lemma CommitSawNoPolicyChange(s: State, es: seq<Event>, i: nat)
    requires Inv(s) && Enabled(s, Submit(i)) && Runs(Apply(s, Submit(i)), es)
    requires Enabled(After(Apply(s, Submit(i)), es), Commit(i))
    requires After(Apply(s, Submit(i)), es).branches[i].submission.value.op == s.nextOp
    ensures forall k :: 0 <= k < |es| ==> !PolicyEvent(es[k], i)
  {
    StepInv(s, Submit(i));
    SubmissionRun(Apply(s, Submit(i)), es, i, s.nextOp, s.branches[i].epoch);
    NoPolicyEvents(es, i);
  }

  // ------------------------------------------------- every branch can settle

  /** One more event at the end of a run. */
  lemma RunsSnoc(s: State, es: seq<Event>, e: Event)
    requires Runs(s, es) && Enabled(After(s, es), e)
    ensures Runs(s, es + [e]) && After(s, es + [e]) == Apply(After(s, es), e)
  {
    assert Runs(After(s, es), [e]);
    RunsJoin(s, es, [e]);
  }

  ghost predicate OnlyBranch(s: State, t: State, i: nat) {
    |t.branches| == |s.branches| && t.up == s.up
    && forall j :: 0 <= j < |s.branches| && j != i ==> t.branches[j] == s.branches[j]
  }

  /** Whatever state a branch is in, its submission and hold can be cleared. */
  lemma ClearBranch(s: State, i: nat) returns (es: seq<Event>)
    requires Inv(s) && s.up && i < |s.branches|
    ensures Runs(s, es) && OnlyBranch(s, After(s, es), i) && Inv(After(s, es))
    ensures var b := After(s, es).branches[i]; b.submission.None? && !b.held && b.head == s.branches[i].head
  {
    var t := s;
    es := [];
    if s.branches[i].submission.Some? {
      var e := if s.branches[i].submission.value.landed then Finish(i) else Cancel(i);
      StepInv(t, e);
      RunsSnoc(s, es, e);
      es, t := es + [e], Apply(t, e);
    }
    if t.branches[i].held {
      StepInv(t, Release(i));
      RunsSnoc(s, es, Release(i));
      es, t := es + [Release(i)], Apply(t, Release(i));
    }
  }

  /** Two enabled events in a row. */
  lemma RunsTwo(s: State, a: Event, b: Event)
    requires Enabled(s, a) && Enabled(Apply(s, a), b)
    ensures Runs(s, [a, b]) && After(s, [a, b]) == Apply(Apply(s, a), b)
  {
    RunsSnoc(s, [], a);
    RunsSnoc(s, [a], b);
    assert [a, b] == [a] + [b];
  }

  lemma SubmitAndPass(s: State, i: nat)
    requires Inv(s) && Enabled(s, Submit(i))
    ensures Runs(s, [Submit(i), Judge(i, Passed)])
    ensures var t := After(s, [Submit(i), Judge(i, Passed)]);
      Inv(t) && OnlyBranch(s, t, i) && Enabled(t, Commit(i)) && t.branches[i].head == s.branches[i].head
      && t.branches[i].submission.value.prefix == s.branches[i].head
  {
    var t := Apply(s, Submit(i));
    StepInv(s, Submit(i));
    StepInv(t, Judge(i, Passed));
    RunsTwo(s, Submit(i), Judge(i, Passed));
    assert BranchOk(Apply(t, Judge(i, Passed)), i);
  }

  lemma CommitAndFinish(s: State, i: nat)
    requires Inv(s) && Enabled(s, Commit(i))
    ensures Runs(s, [Commit(i), Finish(i)])
    ensures var t := After(s, [Commit(i), Finish(i)]);
      Inv(t) && OnlyBranch(s, t, i) && t.branches[i].submission.None? && t.branches[i].head == s.branches[i].head
      && t.branches[i].frontier == s.branches[i].submission.value.prefix
  {
    StepInv(s, Commit(i));
    StepInv(Apply(s, Commit(i)), Finish(i));
    RunsTwo(s, Commit(i), Finish(i));
  }

  /** A cleared branch can land its whole head: submit, pass, commit, finish. */
  lemma LandBranch(s: State, i: nat) returns (es: seq<Event>)
    requires Inv(s) && s.up && i < |s.branches|
    requires s.branches[i].submission.None? && !s.branches[i].held
    ensures Runs(s, es) && OnlyBranch(s, After(s, es), i) && Inv(After(s, es))
    ensures var b := After(s, es).branches[i]; b.submission.None? && b.head == s.branches[i].head == b.frontier
  {
    es := [];
    assert BranchOk(s, i);
    if |s.branches[i].head| > |s.branches[i].frontier| {
      SubmitAndPass(s, i);
      var t := After(s, [Submit(i), Judge(i, Passed)]);
      CommitAndFinish(t, i);
      RunsJoin(s, [Submit(i), Judge(i, Passed)], [Commit(i), Finish(i)]);
      es := [Submit(i), Judge(i, Passed)] + [Commit(i), Finish(i)];
    }
  }

  /** The first `n` branches are settled with the heads they had in `s`. */
  ghost predicate Settled(s: State, t: State, n: nat) {
    |t.branches| == |s.branches| && n <= |s.branches|
    && (forall i :: 0 <= i < |s.branches| ==> t.branches[i].head == s.branches[i].head)
    && (forall i :: 0 <= i < n ==> t.branches[i].frontier == s.branches[i].head && t.branches[i].submission.None?)
  }

  lemma SettleNext(s: State, t: State, u: State, v: State, i: nat)
    requires i < |s.branches| && Settled(s, t, i) && OnlyBranch(t, u, i) && OnlyBranch(u, v, i)
    requires u.branches[i].head == t.branches[i].head
    requires v.branches[i].submission.None? && v.branches[i].head == u.branches[i].head == v.branches[i].frontier
    ensures Settled(s, v, i + 1)
  {
  }

  lemma SettleOne(s: State, t: State, i: nat) returns (es: seq<Event>)
    requires i < |s.branches| && Settled(s, t, i) && Inv(t) && t.up
    ensures Runs(t, es) && Inv(After(t, es)) && After(t, es).up && Settled(s, After(t, es), i + 1)
  {
    hide Inv, Enabled, Apply, Runs, After;
    var clear := ClearBranch(t, i);
    var u := After(t, clear);
    var land := LandBranch(u, i);
    RunsJoin(t, clear, land);
    es := clear + land;
    SettleNext(s, t, u, After(u, land), i);
  }

  lemma {:induction false} SettleFirst(s: State, n: nat) returns (es: seq<Event>)
    requires Inv(s) && s.up && n <= |s.branches|
    ensures Runs(s, es) && Inv(After(s, es)) && After(s, es).up && Settled(s, After(s, es), n)
  {
    if n == 0 {
      es := [];
    } else {
      hide Inv, Enabled, Apply, Runs, After, Settled;
      var first := SettleFirst(s, n - 1);
      var last := SettleOne(s, After(s, first), n - 1);
      RunsJoin(s, first, last);
      es := first + last;
    }
  }

  lemma ComeUp(s: State) returns (es: seq<Event>)
    requires Inv(s)
    ensures Runs(s, es) && Inv(After(s, es)) && After(s, es).up && Settled(s, After(s, es), 0)
  {
    es := [];
    if !s.up {
      StepInv(s, Recover);
      es := [Recover];
      var t := Apply(s, Recover);
      assert After(t, []) == t && es[1..] == [];
      assert After(s, es) == t;
      hide Inv;
      forall i | 0 <= i < |s.branches| ensures t.branches[i].head == s.branches[i].head {}
    }
  }

  /** From every reachable state, crashed, held, stale or landed-but-unfinished, a
      finite continuation without new contributions brings every head to trunk. */
  lemma EveryBranchCanSettle(n: nat, past: seq<Event>) returns (es: seq<Event>)
    requires Runs(Init(n), past)
    ensures var s := After(Init(n), past);
      Runs(s, es)
      && var t := After(s, es);
         Settled(s, t, |s.branches|)
         && forall i :: 0 <= i < |s.branches| ==> Part(t.trunk, i) == s.branches[i].head
  {
    InitInv(n);
    RunInv(Init(n), past);
    var s := After(Init(n), past);
    var start := ComeUp(s);
    var rest := SettleFirst(After(s, start), |s.branches|);
    RunsJoin(s, start, rest);
    es := start + rest;
    var t := After(s, es);
    hide Enabled, Apply, Runs, After;
    forall i | 0 <= i < |s.branches| ensures Part(t.trunk, i) == s.branches[i].head {
      assert BranchOk(t, i);
    }
  }

  // ------------------------------------------------------- the loops as written

  /** The recovery loop finishes exactly the submissions found in the log. */
  method RecoverAll(s: State) returns (r: State)
    requires Enabled(s, Recover)
    ensures r == Apply(s, Recover)
    ensures r.trunk == s.trunk && r.admissions == s.admissions
  {
    r := s.(up := true);
    for i := 0 to |s.branches|
      invariant r == s.(up := true, branches := r.branches) && |r.branches| == |s.branches|
      invariant forall j :: 0 <= j < |s.branches| ==>
        r.branches[j] == if j < i then Recovered(s.branches[j], s.admissions) else s.branches[j]
    {
      var b := r.branches[i];
      if b.submission.Some? && OpAdmitted(r.admissions, b.submission.value.op) {
        r := With(r, i, b.(frontier := b.submission.value.prefix, submission := None));
      }
    }
    assert r.branches == Apply(s, Recover).branches;
  }

  /** The explorer's scan accepts a state exactly when `Clean` holds. */
  method NoViolation(s: State) returns (ok: bool)
    ensures ok <==> Clean(s)
  {
    hide Deltas, NoDup;
    var kept := HeadsKept(s.branches);
    if !kept {
      return false;
    }
    var operations: set<nat> := {};
    var trunk: seq<Change> := [];
    DeltasStart(s.admissions);
    for k := 0 to |s.admissions|
      invariant forall j :: 0 <= j < k ==> CleanEntry(s.admissions, j)
      invariant forall j, l :: 0 <= j < l < k ==> s.admissions[j].op != s.admissions[l].op
      invariant operations == set j | 0 <= j < k :: s.admissions[j].op
      invariant trunk == Deltas(s.admissions[..k]) && NoDup(trunk)
    {
      var e := s.admissions[k];
      if e.op in operations {
        ghost var j :| 0 <= j < k && s.admissions[j].op == e.op;
        return false;
      }
      var inOrder := EntryInOrder(s.admissions, k, trunk);
      if !inOrder {
        return false;
      }
      operations := operations + {e.op};
      var isNew, more := AppendFresh(trunk, e.delta);
      DeltasStep(s.admissions, k);
      if !isNew {
        return false;
      }
      trunk := more;
    }
    assert s.admissions[..|s.admissions|] == s.admissions;
    ok := trunk == s.trunk;
  }

  method EntryInOrder(log: seq<Admission>, k: nat, trunk: seq<Change>) returns (ok: bool)
    requires k < |log| && trunk == Deltas(log[..k])
    ensures ok <==> CleanEntry(log, k)
  {
    var e := log[k];
    ok := e.base == k
          && (e.branch >= 0 ==>
                e.gate == Passed && !e.observedHold && e.epoch == e.observedEpoch
                && e.candidate == Cert(e.base, trunk, e.prefix, e.delta, e.epoch, e.op));
  }

  lemma DeltasStart(log: seq<Admission>)
    ensures Deltas(log[..0]) == [] && NoDup(Deltas(log[..0]))
  {
  }

  lemma DeltasStep(log: seq<Admission>, k: nat)
    requires k < |log|
    ensures Deltas(log[..k + 1]) == Deltas(log[..k]) + log[k].delta
    ensures NoDup(Deltas(log)) ==> NoDup(Deltas(log[..k + 1]))
  {
    assert log[..k + 1][..k] == log[..k];
    DeltasPrefix(log, k + 1);
    if NoDup(Deltas(log)) { NoDupPrefix(Deltas(log[..k + 1]), Deltas(log)); }
  }

  lemma {:induction false} DeltasPrefix(log: seq<Admission>, k: nat)
    requires k <= |log|
    ensures Deltas(log[..k]) <= Deltas(log)
    decreases |log|
  {
    if k < |log| {
      var shorter := log[..|log| - 1];
      DeltasPrefix(shorter, k);
      assert shorter[..k] == log[..k];
    } else {
      assert log[..k] == log;
    }
  }

  /** Appends changes one by one as long as none is there yet. */
  method AppendFresh(trunk: seq<Change>, delta: seq<Change>) returns (ok: bool, more: seq<Change>)
    requires NoDup(trunk)
    ensures ok <==> NoDup(trunk + delta)
    ensures ok ==> more == trunk + delta
  {
    more := trunk;
    assert trunk + delta[..0] == trunk;
    for d := 0 to |delta|
      invariant more == trunk + delta[..d] && NoDup(more)
    {
      if delta[d] in more {
        Repeats(trunk, delta, d);
        return false, more;
      }
      assert trunk + delta[..d + 1] == more + [delta[d]];
      more := more + [delta[d]];
    }
    assert delta[..|delta|] == delta;
    return true, more;
  }

  lemma Repeats(trunk: seq<Change>, delta: seq<Change>, d: nat)
    requires d < |delta| && delta[d] in trunk + delta[..d]
    ensures !NoDup(trunk + delta)
  {
    var all := trunk + delta;
    var k :| 0 <= k < |trunk + delta[..d]| && (trunk + delta[..d])[k] == delta[d];
    assert all[k] == delta[d] && all[|trunk| + d] == delta[d];
  }

  method HeadsKept(branches: seq<Branch>) returns (ok: bool)
    ensures ok <==> forall i :: 0 <= i < |branches| ==>
      branches[i].head == branches[i].authored && branches[i].frontier <= branches[i].head
  {
    for i := 0 to |branches|
      invariant forall j :: 0 <= j < i ==>
        branches[j].head == branches[j].authored && branches[j].frontier <= branches[j].head
    {
      if branches[i].head != branches[i].authored || !(branches[i].frontier <= branches[i].head) {
        return false;
      }
    }
    return true;
  }
}
