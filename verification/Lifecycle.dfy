/** Contribution conservation across the branch lifecycle: two units, the second
    depending on the first, that are written, shared, revised, submitted, admitted,
    accounted or parked, while the branch may be held, crash and close. */
module Lifecycle {
  import opened Common

  /** `U1` depends on `U0`. */
  datatype Unit = U0 | U1

  datatype Pair<T> = Pair(u0: T, u1: T) {
    function Get(u: Unit): T { if u.U0? then u0 else u1 }
    function Set(u: Unit, x: T): Pair<T> { if u.U0? then Pair(x, u1) else Pair(u0, x) }
  }

  /** Who answers for a unit. */
  datatype Holder = Nobody | OnTwig | TwigReady | OnBranch | Revising | Accounted | Parked

  datatype Verdict = Waiting | Passed | Failed | Unrun

  datatype Attempt = Attempt(
    op: nat, selected: set<Unit>, epoch: nat, version0: nat, basis1: int, base: nat,
    verdict: Verdict, committed: bool)

  datatype Admission = Admission(
    op: nat, selected: set<Unit>, submittedEpoch: nat, commitEpoch: nat,
    submittedVersion0: nat, commitVersion0: nat, commitBasis1: int,
    prior: set<Unit>, holders: Pair<Holder>, held: bool, refEnabled: bool)

  datatype Closure = Open | Closing | Closed

  datatype Settlement = NotAsked | WithBranch | WithRelease | Settled

  datatype State = State(
    holders: Pair<Holder>, memberActive: Pair<bool>, written: Pair<bool>,
    version0: nat, basis1: int, epoch: nat, held: bool, refEnabled: bool, close: Closure,
    attempt: Option<Attempt>, admissions: seq<Admission>, nextOp: nat, external: Settlement, crashed: bool)

  datatype Event =
    | Crash
    | Restart
    | Write(u: Unit)
    | Ready(u: Unit)
    | Share(u: Unit)
    | Rebase
    | Revise
    | FinishRepair
    | Hold
    | Release
    | Submit(selected: set<Unit>)
    | Judge(verdict: Verdict)
    | Cancel
    | Commit
    | Account
    | RequestClose
    | RequestExternal
    | TransferExternal
    | SettleExternal
    | Disable
    | ParkMember(u: Unit)
    | ParkUnit(u: Unit)
    | AckClose

  const Init := State(
    Pair(Nobody, Nobody), Pair(true, true), Pair(false, false), 0, 0, 0, false, true, Open, None, [], 1, NotAsked,
      false)

  // ---------------------------------------------------------------- steps

  function With(s: State, u: Unit, h: Holder): State {
    s.(holders := s.holders.Set(u, h))
  }

  predicate Selectable(s: State, selected: set<Unit>) {
    if s.holders.u0 == OnBranch
    then selected == {U0} || (selected == {U0, U1} && s.holders.u1 == OnBranch && s.basis1 == s.version0)
    else s.holders.u0 == Accounted && selected == {U1} && s.holders.u1 == OnBranch && s.basis1 == s.version0
  }

  predicate CommitOk(s: State, a: Attempt) {
    a.verdict == Passed && !a.committed && s.refEnabled && !s.held
    && a.epoch == s.epoch && a.base == |s.admissions|
    && (forall u :: u in a.selected ==> s.holders.Get(u) == OnBranch)
    && (U0 in a.selected ==> a.version0 == s.version0)
    && (U1 in a.selected ==> s.basis1 == s.version0)
    && (U1 in a.selected ==> U0 in a.selected || s.holders.u0 == Accounted)
  }

  predicate IsAdmitted(s: State, u: Unit) {
    exists k :: 0 <= k < |s.admissions| && u in s.admissions[k].selected
  }

  predicate Resting(h: Holder) {
    h == Nobody || h == Accounted || h == Parked
  }

  predicate Parking(s: State) {
    s.close == Closing && !s.refEnabled
  }

  predicate Enabled(s: State, e: Event) {
    if s.crashed then e == Restart
    else
      match e
      case Crash => true
      case Restart => false
      case Write(u) => s.close == Open && s.holders.Get(u) == Nobody && (u == U0 || s.written.u0)
      case Ready(u) => s.close == Open && s.holders.Get(u) == OnTwig
      case Share(u) =>
        s.close == Open && s.holders.Get(u) == TwigReady
        && (u == U0 || ((s.holders.u0 == OnBranch || s.holders.u0 == Accounted) && s.basis1 == s.version0))
      case Rebase =>
        s.holders.u1 in {OnTwig, TwigReady, OnBranch} && s.holders.u0 in {OnBranch, Accounted} && s.basis1 != s.version0
      case Revise => s.holders.u0 == OnBranch
      case FinishRepair => s.holders.u0 == Revising
      case Hold => s.close == Open
      case Release => s.held && s.close == Open
      case Submit(selected) => s.attempt.None? && s.refEnabled && !s.held && Selectable(s, selected)
      case Judge(verdict) =>
        s.attempt.Some? && !s.attempt.value.committed && s.attempt.value.verdict == Waiting && verdict != Waiting
      case Cancel => s.attempt.Some? && !s.attempt.value.committed
      case Commit => s.attempt.Some? && CommitOk(s, s.attempt.value)
      case Account => s.attempt.Some? && s.attempt.value.committed
      case RequestClose => s.close == Open
      case RequestExternal => s.admissions != [] && s.external == NotAsked
      case TransferExternal => s.external == WithBranch
      case SettleExternal => s.external == WithBranch
      case Disable => s.close == Closing && s.refEnabled
      case ParkMember(u) => Parking(s) && s.memberActive.Get(u)
      case ParkUnit(u) => Parking(s) && s.holders.Get(u) in {OnBranch, Revising} && !IsAdmitted(s, u)
      case AckClose =>
        Parking(s) && !s.memberActive.u0 && !s.memberActive.u1 && Resting(s.holders.u0) && Resting(s.holders.u1)
        && s.attempt.None? && s.external != WithBranch
  }

  function Entry(s: State, a: Attempt): Admission {
    Admission(a.op, a.selected, a.epoch, s.epoch, a.version0, s.version0, s.basis1,
              (set u | u in {U0, U1} && s.holders.Get(u) == Accounted), s.holders, s.held, s.refEnabled)
  }

  function Apply(s: State, e: Event): State
    requires Enabled(s, e)
  {
    match e
    case Crash => s.(crashed := true)
    case Restart => s.(crashed := false)
    case Write(u) =>
      var w := With(s, u, OnTwig).(written := s.written.Set(u, true));
      if u == U0 then w
      else w.(basis1 := if s.holders.u0 == Revising then s.version0 - 1 else s.version0)
    case Ready(u) => With(s, u, TwigReady)
    case Share(u) => With(s, u, OnBranch)
    case Rebase => s.(basis1 := s.version0, epoch := s.epoch + if s.holders.u1 == OnBranch then 1 else 0)
    case Revise => With(s, U0, Revising).(version0 := s.version0 + 1, epoch := s.epoch + 1)
    case FinishRepair => With(s, U0, OnBranch)
    case Hold => s.(held := true, epoch := s.epoch + 1)
    case Release => s.(held := false, epoch := s.epoch + 1)
    case Submit(selected) =>
      s.(attempt := Some(Attempt(s.nextOp, selected, s.epoch, s.version0, s.basis1, |s.admissions|, Waiting, false)),
         nextOp := s.nextOp + 1)
    case Judge(verdict) => s.(attempt := Some(s.attempt.value.(verdict := verdict)))
    case Cancel => s.(attempt := None)
    case Commit =>
      s.(admissions := s.admissions + [Entry(s, s.attempt.value)], attempt := Some(s.attempt.value.(committed := true)))
    case Account =>
      var selected := s.attempt.value.selected;
      s.(attempt := None,
         holders := Pair(
           if U0 in selected then Accounted else s.holders.u0, if U1 in selected then Accounted else s.holders.u1))
    case RequestClose => s.(close := Closing)
    case RequestExternal => s.(external := if s.close == Closed then WithRelease else WithBranch)
    case TransferExternal => s.(external := WithRelease)
    case SettleExternal => s.(external := Settled)
    case Disable => s.(refEnabled := false, epoch := s.epoch + 1)
    case ParkMember(u) =>
      var p := s.(memberActive := s.memberActive.Set(u, false));
      if s.holders.Get(u) in {OnTwig, TwigReady} then With(p, u, Parked) else p
    case ParkUnit(u) => With(s, u, Parked)
    case AckClose => s.(close := Closed)
  }

  predicate Runs(s: State, es: seq<Event>)
    decreases |es|
  {
    es == [] || (Enabled(s, es[0]) && Runs(Apply(s, es[0]), es[1..]))
  }

  function After(s: State, es: seq<Event>): State
    requires Runs(s, es)
    decreases |es|
  {
    if es == [] then s else After(Apply(s, es[0]), es[1..])
  }

  // ------------------------------------------------------------ invariant

  /** The units of the first `k` admissions. */
  function Prior(log: seq<Admission>, k: nat): set<Unit>
    requires k <= |log|
  {
    if k == 0 then {} else Prior(log, k - 1) + log[k - 1].selected
  }

  /** One admission, judged against the ones before it. */
  ghost predicate CleanEntry(log: seq<Admission>, k: nat)
    requires k < |log|
  {
    var e := log[k];
    e.selected !! Prior(log, k)
    && !e.held && e.refEnabled && e.submittedEpoch == e.commitEpoch
    && (forall u :: u in e.selected ==> e.holders.Get(u) == OnBranch)
    && (U0 in e.selected ==> e.submittedVersion0 == e.commitVersion0)
    && (U1 in e.selected ==> e.commitBasis1 == e.commitVersion0)
    && (U1 in e.selected ==> U0 in e.selected || U0 in Prior(log, k))
  }

  ghost predicate CleanLog(log: seq<Admission>) {
    (forall k :: 0 <= k < |log| ==> CleanEntry(log, k))
    && (forall j, k :: 0 <= j < k < |log| ==> log[j].op != log[k].op)
  }

  /** A unit is in the log exactly if it is accounted or its committed attempt is still open. */
  ghost predicate UnitOk(s: State, u: Unit) {
    var h := s.holders.Get(u);
    (s.written.Get(u) <==> h != Nobody)
    && (u in Prior(s.admissions, |s.admissions|) <==>
         h == Accounted || (s.attempt.Some? && s.attempt.value.committed && u in s.attempt.value.selected))
    && (s.attempt.Some? && s.attempt.value.committed && u in s.attempt.value.selected ==>
      h == OnBranch || h == Revising)
    && (!s.memberActive.Get(u) ==> s.close != Open && h != OnTwig && h != TwigReady)
  }

  ghost predicate Inv(s: State) {
    CleanLog(s.admissions) && UnitOk(s, U0) && UnitOk(s, U1)
    && (forall k :: 0 <= k < |s.admissions| ==> s.admissions[k].op < s.nextOp)
    && (s.attempt.Some? ==>
         s.attempt.value.op < s.nextOp && s.attempt.value.epoch <= s.epoch
         && (!s.attempt.value.committed ==> forall k :: 0 <= k < |s.admissions| ==>
           s.admissions[k].op != s.attempt.value.op))
    && (s.close == Open ==> s.refEnabled)
    && (s.close == Closed ==>
         !s.refEnabled && s.attempt.None? && !s.memberActive.u0 && !s.memberActive.u1
         && Resting(s.holders.u0) && Resting(s.holders.u1) && s.external != WithBranch)
  }

  lemma {:induction false} PriorAppend(log: seq<Admission>, e: Admission, k: nat)
    requires k <= |log|
    ensures Prior(log + [e], k) == Prior(log, k)
  {
    if k > 0 { PriorAppend(log, e, k - 1); }
  }

  lemma {:induction false} PriorIsAdmitted(s: State, u: Unit, k: nat)
    requires k <= |s.admissions|
    ensures u in Prior(s.admissions, k) <==> exists j :: 0 <= j < k && u in s.admissions[j].selected
  {
    if k > 0 { PriorIsAdmitted(s, u, k - 1); }
  }

  lemma CommitInv(s: State)
    requires Inv(s) && Enabled(s, Commit)
    ensures Inv(Apply(s, Commit))
  {
    var t := Apply(s, Commit);
    var n := |s.admissions|;
    var e := t.admissions[n];
    forall k | 0 <= k <= n ensures Prior(t.admissions, k) == Prior(s.admissions, k) {
      PriorAppend(s.admissions, e, k);
    }
    forall k | 0 <= k < |t.admissions| ensures CleanEntry(t.admissions, k) {
      if k < n { assert CleanEntry(s.admissions, k); }
    }
  }

  predicate IsUnitStep(e: Event) {
    e.Write? || e.Ready? || e.Share? || e.Rebase? || e.Revise? || e.FinishRepair?
  }

  predicate IsAttemptStep(e: Event) {
    e.Submit? || e.Judge? || e.Cancel? || e.Account?
  }

  lemma UnitStepInv(s: State, e: Event)
    requires Inv(s) && Enabled(s, e) && IsUnitStep(e)
    ensures Inv(Apply(s, e))
  {
    hide CleanLog, Prior, Selectable, CommitOk;
  }

  lemma AttemptStepInv(s: State, e: Event)
    requires Inv(s) && Enabled(s, e) && IsAttemptStep(e)
    ensures Inv(Apply(s, e))
  {
    hide CleanLog, Prior;
  }

  lemma ParkMemberInv(s: State, u: Unit)
    requires Inv(s) && Enabled(s, ParkMember(u))
    ensures Inv(Apply(s, ParkMember(u)))
  {
    hide CleanLog, Prior, UnitOk, Selectable, CommitOk, IsAdmitted;
    ParkMemberUnit(s, u, U0);
    ParkMemberUnit(s, u, U1);
  }

  lemma MemberParked(s: State, t: State, u: Unit, v: Unit)
    requires UnitOk(s, v) && s.close == Closing && s.memberActive.Get(u)
    requires t == s.(memberActive := s.memberActive.Set(u, false), holders := t.holders)
    requires t.holders == if s.holders.Get(u) in {OnTwig, TwigReady} then s.holders.Set(u, Parked) else s.holders
    ensures UnitOk(t, v)
  {
    hide Prior;
  }

  lemma ParkMemberUnit(s: State, u: Unit, v: Unit)
    requires Inv(s) && Enabled(s, ParkMember(u))
    ensures UnitOk(Apply(s, ParkMember(u)), v)
  {
    hide CleanLog, Prior, Selectable, CommitOk, IsAdmitted, UnitOk;
    assert UnitOk(s, v) by { assert UnitOk(s, U0) && UnitOk(s, U1); }
    var t := Apply(s, ParkMember(u));
    assert s.close == Closing;
    MemberParked(s, t, u, v);
  }

  lemma ParkUnitInv(s: State, u: Unit)
    requires Inv(s) && Enabled(s, ParkUnit(u))
    ensures Inv(Apply(s, ParkUnit(u)))
  {
    PriorIsAdmitted(s, u, |s.admissions|);
    assert u !in Prior(s.admissions, |s.admissions|);
    hide CleanLog, Prior, Selectable, CommitOk, IsAdmitted;
  }

  lemma StepInv(s: State, e: Event)
    requires Inv(s) && Enabled(s, e)
    ensures Inv(Apply(s, e))
  {
    hide CleanLog, Prior, Selectable, CommitOk, IsAdmitted;
    if IsUnitStep(e) {
      UnitStepInv(s, e);
    } else if IsAttemptStep(e) {
      AttemptStepInv(s, e);
    } else if e.ParkMember? {
      ParkMemberInv(s, e.u);
    } else if e.ParkUnit? {
      ParkUnitInv(s, e.u);
    } else if e.Commit? {
      CommitInv(s);
    } else {
      LaneInv(s, e);
    }
  }

  lemma LaneInv(s: State, e: Event)
    requires Inv(s) && Enabled(s, e) && !IsUnitStep(e) && !IsAttemptStep(e) && !e.ParkMember? && !e.ParkUnit?
      && !e.Commit?
    ensures Inv(Apply(s, e))
  {
    hide CleanLog, Prior, Selectable, CommitOk, IsAdmitted;
  }

  lemma {:induction false} RunInv(s: State, es: seq<Event>)
    requires Inv(s) && Runs(s, es)
    ensures Inv(After(s, es))
    decreases |es|
  {
    if es != [] {
      StepInv(s, es[0]);
      RunInv(Apply(s, es[0]), es[1..]);
    }
  }

  // -------------------------------------------------------------- results

  /** Every check of the explorer, as one statement about a state. */
  ghost predicate Clean(s: State) {
    (forall u :: s.written.Get(u) ==> s.holders.Get(u) != Nobody)
    && (forall u :: s.holders.Get(u) == Accounted ==> IsAdmitted(s, u))
    && CleanLog(s.admissions)
    && (s.close == Closed ==>
         !s.refEnabled && s.attempt.None? && !s.memberActive.u0 && !s.memberActive.u1
         && Resting(s.holders.u0) && Resting(s.holders.u1) && s.external != WithBranch)
  }

  /** Safety of every run: no written unit is lost, no unit or operation is admitted
      twice, no admission crosses a fence, and the dependent unit lands only with or
      after its predecessor and on the version current at that commit. */
  lemma LifecycleSafety(es: seq<Event>)
    requires Runs(Init, es)
    ensures Clean(After(Init, es))
  {
    RunInv(Init, es);
    var s := After(Init, es);
    forall u ensures s.written.Get(u) ==> s.holders.Get(u) != Nobody
             ensures s.holders.Get(u) == Accounted ==> IsAdmitted(s, u)
    {
      assert u == U0 || u == U1;
      PriorIsAdmitted(s, u, |s.admissions|);
    }
  }

  /** What no step undoes: writing, accounting, parking, closing and the log. */
  ghost predicate Kept(s: State, t: State) {
    s.admissions <= t.admissions
    && (forall u :: s.written.Get(u) ==> t.written.Get(u))
    && (forall u :: s.holders.Get(u) == Accounted || s.holders.Get(u) == Parked ==>
      t.holders.Get(u) == s.holders.Get(u))
    && (s.close == Closed ==> t.close == Closed && t.admissions == s.admissions && t.holders == s.holders)
    && (!s.refEnabled ==> !t.refEnabled && t.admissions == s.admissions)
  }

  lemma StepKeeps(s: State, e: Event)
    requires Inv(s) && Enabled(s, e)
    ensures Kept(s, Apply(s, e))
  {
    hide CleanLog, Prior, Selectable, CommitOk, IsAdmitted;
    if IsUnitStep(e) { UnitKeeps(s, e); }
    else if IsAttemptStep(e) || e.Commit? { AttemptKeeps(s, e); }
    else { LaneKeeps(s, e); }
  }

  lemma UnitKeeps(s: State, e: Event)
    requires Inv(s) && Enabled(s, e) && IsUnitStep(e)
    ensures Kept(s, Apply(s, e))
  {
    hide CleanLog, Prior, Selectable, CommitOk, IsAdmitted;
  }

  lemma AttemptKeeps(s: State, e: Event)
    requires Inv(s) && Enabled(s, e) && (IsAttemptStep(e) || e.Commit?)
    ensures Kept(s, Apply(s, e))
  {
    hide CleanLog, Prior, Selectable, IsAdmitted;
  }

  lemma LaneKeeps(s: State, e: Event)
    requires Inv(s) && Enabled(s, e) && !IsUnitStep(e) && !IsAttemptStep(e) && !e.Commit?
    ensures Kept(s, Apply(s, e))
  {
    hide CleanLog, Prior, Selectable, CommitOk, IsAdmitted;
  }

  /** Along every run accounted and parked units stay so, the log only grows, and
      after admission is disabled, so in particular after acknowledged closure, the
      log does not change again. */
  lemma {:induction false} RunKeeps(s: State, es: seq<Event>)
    requires Inv(s) && Runs(s, es)
    ensures Kept(s, After(s, es))
    decreases |es|
  {
    if es != [] {
      StepInv(s, es[0]);
      StepKeeps(s, es[0]);
      hide Inv;
      RunKeeps(Apply(s, es[0]), es[1..]);
    }
  }

  /** Acknowledged closure leaves every written unit accounted or parked. */
  lemma ClosedIsConserved(es: seq<Event>, u: Unit)
    requires Runs(Init, es) && After(Init, es).close == Closed && After(Init, es).written.Get(u)
    ensures After(Init, es).holders.Get(u) == Accounted || After(Init, es).holders.Get(u) == Parked
  {
    RunInv(Init, es);
  }

  /** The commit step in the terms of its state: versions, dependency and freshness. */
  lemma CommitNamesState(s: State)
    requires Inv(s) && Enabled(s, Commit)
    ensures
      var a := s.attempt.value;
      var t := Apply(s, Commit);
      var e := t.admissions[|s.admissions|];
      t.admissions == s.admissions + [e] && e.op == a.op && e.selected == a.selected
      && (forall u :: u in e.selected ==> !IsAdmitted(s, u))
      && (U0 in e.selected ==> e.submittedVersion0 == s.version0)
      && (U1 in e.selected ==> s.basis1 == s.version0 && (U0 in e.selected || IsAdmitted(s, U0)))
  {
    forall u ensures u in Prior(s.admissions, |s.admissions|) <==> IsAdmitted(s, u) {
      PriorIsAdmitted(s, u, |s.admissions|);
    }
  }

  predicate IsRevise(e: Event) {
    e == Revise
  }

  function Revisions(es: seq<Event>): nat {
    if es == [] then 0 else (if IsRevise(es[0]) then 1 else 0) + Revisions(es[1..])
  }

  lemma {:induction false} VersionCounts(s: State, es: seq<Event>)
    requires Runs(s, es)
    ensures After(s, es).version0 == s.version0 + Revisions(es)
    decreases |es|
  {
    if es != [] { VersionCounts(Apply(s, es[0]), es[1..]); }
  }

  lemma {:induction false} RevisionsZero(es: seq<Event>)
    ensures Revisions(es) == 0 <==> Revise !in es
  {
    if es != [] {
      RevisionsZero(es[1..]);
      assert es == [es[0]] + es[1..];
    }
  }

  /** The version at which `U0` was admitted is still current exactly if no revision
      followed the commit. */
  lemma AdmittedVersionCurrent(s: State, es: seq<Event>)
    requires Inv(s) && Enabled(s, Commit) && U0 in s.attempt.value.selected && Runs(Apply(s, Commit), es)
    ensures |Apply(s, Commit).admissions| == |s.admissions| + 1
    ensures Apply(s, Commit).admissions[|s.admissions|].commitVersion0 == After(Apply(s, Commit), es).version0 <==>
      Revise !in es
  {
    VersionCounts(Apply(s, Commit), es);
    RevisionsZero(es);
  }

  /** It need not be: a revision between commit and accounting is possible, and the
      unit is then accounted at a version that was never admitted. */
  lemma AccountedAtUnadmittedVersion() returns (es: seq<Event>)
    ensures Runs(Init, es)
    ensures After(Init, es).holders.u0 == Accounted && |After(Init, es).admissions| == 1
    ensures After(Init, es).admissions[0].commitVersion0 != After(Init, es).version0
  {
    ShareRun();
    LandRun();
    ReviseRun();
    RunsJoin(Init, [Write(U0), Ready(U0), Share(U0)], [Submit({U0}), Judge(Passed), Commit]);
    es := [Write(U0), Ready(U0), Share(U0)] + [Submit({U0}), Judge(Passed), Commit];
    RunsJoin(Init, es, [Revise, Account]);
    es := es + [Revise, Account];
  }

  /** The dependent unit is admitted on the version of its predecessor that was admitted
      exactly if there was no revision between the two commits. */
  lemma DependentBasisAdmittedIff(s: State, es: seq<Event>)
    requires Inv(s) && Enabled(s, Commit) && U0 in s.attempt.value.selected && Runs(Apply(s, Commit), es)
    requires var t := After(Apply(s, Commit), es); Enabled(t, Commit) && U1 in t.attempt.value.selected
    ensures |Apply(s, Commit).admissions| == |s.admissions| + 1
    ensures var t := After(Apply(s, Commit), es);
      var dependent := Apply(t, Commit).admissions[|t.admissions|];
      dependent.commitBasis1 == Apply(s, Commit).admissions[|s.admissions|].commitVersion0 <==> Revise !in es
  {
    AdmittedVersionCurrent(s, es);
    hide Inv, Runs, After;
  }

  /** It need not be: after a revision before accounting the dependent unit lands on a
      version of its predecessor that never did. */
  lemma DependentOnUnadmittedVersion() returns (es: seq<Event>)
    ensures Runs(Init, es)
    ensures var log := After(Init, es).admissions;
      |log| == 2 && log[0].selected == {U0} && log[1].selected == {U1} && log[1].commitBasis1 != log[0].commitVersion0
  {
    ShareRun();
    LandRun();
    ReviseRun();
    DependentShareRun();
    DependentLandRun();
    hide Enabled, Apply, Runs, After;
    RunsJoin(Init, [Write(U0), Ready(U0), Share(U0)], [Submit({U0}), Judge(Passed), Commit]);
    es := [Write(U0), Ready(U0), Share(U0)] + [Submit({U0}), Judge(Passed), Commit];
    RunsJoin(Init, es, [Revise, Account]);
    es := es + [Revise, Account];
    RunsJoin(Init, es, [Write(U1), Ready(U1), Share(U1)]);
    es := es + [Write(U1), Ready(U1), Share(U1)];
    RunsJoin(Init, es, [Submit({U1}), Judge(Passed), Commit]);
    es := es + [Submit({U1}), Judge(Passed), Commit];
  }

  const Revised: State := Landed.(holders := Pair(Accounted, Nobody), version0 := 1, epoch := 1, attempt := None)

  const SharedNext: State := Revised.(holders := Pair(Accounted, OnBranch), written := Pair(true, true), basis1 := 1)

  lemma DependentShareRun()
    ensures Runs(Revised, [Write(U1), Ready(U1), Share(U1)])
    ensures After(Revised, [Write(U1), Ready(U1), Share(U1)]) == SharedNext
  {
    ThreeSteps(Revised, Write(U1), Ready(U1), Share(U1));
  }

  lemma ThreeSteps(s: State, a: Event, b: Event, c: Event)
    requires Enabled(s, a) && Enabled(Apply(s, a), b) && Enabled(Apply(Apply(s, a), b), c)
    ensures Runs(s, [a, b, c]) && After(s, [a, b, c]) == Apply(Apply(Apply(s, a), b), c)
  {
    hide Enabled, Apply;
    var t := Apply(s, a);
    var u := Apply(t, b);
    RunsCons(u, c, []);
    RunsCons(t, b, [c]);
    RunsCons(s, a, [b, c]);
    assert [b] + [c] == [b, c] && [a] + [b, c] == [a, b, c] && [c] + [] == [c];
  }

  lemma RunsCons(s: State, e: Event, es: seq<Event>)
    requires Enabled(s, e) && Runs(Apply(s, e), es)
    ensures Runs(s, [e] + es) && After(s, [e] + es) == After(Apply(s, e), es)
  {
    hide Enabled, Apply;
    assert ([e] + es)[1..] == es;
  }

  const Candidate: State := SharedNext.(nextOp := 3, attempt := Some(Attempt(2, {U1}, 1, 1, 1, 1, Passed, false)))

  lemma DependentCandidate()
    ensures Enabled(SharedNext, Submit({U1})) && Enabled(Apply(SharedNext, Submit({U1})), Judge(Passed))
    ensures Apply(Apply(SharedNext, Submit({U1})), Judge(Passed)) == Candidate
  {
  }

  lemma DependentCommit()
    ensures Enabled(Candidate, Commit)
    ensures var log := Apply(Candidate, Commit).admissions;
      |log| == 2 && log[0] == Landed.admissions[0] && log[1].selected == {U1} && log[1].commitBasis1 == 1
  {
  }

  lemma DependentLandRun()
    ensures Runs(SharedNext, [Submit({U1}), Judge(Passed), Commit])
    ensures var log := After(SharedNext, [Submit({U1}), Judge(Passed), Commit]).admissions;
      |log| == 2 && log[0] == Landed.admissions[0] && log[1].selected == {U1} && log[1].commitBasis1 == 1
  {
    DependentCandidate();
    DependentCommit();
    hide Enabled, Apply, Runs, After;
    ThreeSteps(SharedNext, Submit({U1}), Judge(Passed), Commit);
  }

  const Shared: State := Init.(holders := Pair(OnBranch, Nobody), written := Pair(true, false))

  const Landed: State := Shared.(
    nextOp := 2,
    attempt := Some(Attempt(1, {U0}, 0, 0, 0, 0, Passed, true)),
    admissions := [Entry(Shared, Attempt(1, {U0}, 0, 0, 0, 0, Passed, false))])

  lemma ShareRun()
    ensures Runs(Init, [Write(U0), Ready(U0), Share(U0)])
    ensures After(Init, [Write(U0), Ready(U0), Share(U0)]) == Shared
  {
    ThreeSteps(Init, Write(U0), Ready(U0), Share(U0));
  }

  lemma LandRun()
    ensures Runs(Shared, [Submit({U0}), Judge(Passed), Commit])
    ensures After(Shared, [Submit({U0}), Judge(Passed), Commit]) == Landed
  {
    ThreeSteps(Shared, Submit({U0}), Judge(Passed), Commit);
  }

  lemma ReviseRun()
    ensures Runs(Landed, [Revise, Account])
    ensures After(Landed, [Revise, Account]) == Revised
  {
    assert Runs(Apply(Landed, Revise), [Account]);
  }

  lemma {:induction false} RunsJoin(s: State, a: seq<Event>, b: seq<Event>)
    requires Runs(s, a) && Runs(After(s, a), b)
    ensures Runs(s, a + b) && After(s, a + b) == After(After(s, a), b)
    decreases |a|
  {
    if a == [] {
      assert a + b == b;
    } else {
      hide Enabled, Apply;
      RunsJoin(Apply(s, a[0]), a[1..], b);
      assert (a + b)[1..] == a[1..] + b;
    }
  }

  // ------------------------------------------------ fences between submit and commit

  /** The steps that invalidate a candidate; rebasing the dependent unit is one of them
      once it is shared. */
  predicate Fencing(s: State, e: Event) {
    e == Hold || e == Release || e == Revise || e == Disable || (e == Rebase && s.holders.u1 == OnBranch)
  }

  function Fences(s: State, es: seq<Event>): nat
    requires Runs(s, es)
    decreases |es|
  {
    if es == [] then 0 else (if Fencing(s, es[0]) then 1 else 0) + Fences(Apply(s, es[0]), es[1..])
  }

  /** The same attempt, judged and committed or not. */
  predicate SameCandidate(a: Attempt, b: Attempt) {
    a.(verdict := b.verdict, committed := b.committed) == b
  }

  lemma AttemptStep(s: State, e: Event)
    requires Inv(s) && Enabled(s, e)
    ensures
      var t := Apply(s, e);
      t.epoch == s.epoch + (if Fencing(s, e) then 1 else 0) && t.nextOp >= s.nextOp
      && (t.attempt.Some? ==>
            t.attempt.value.op >= s.nextOp
            || (s.attempt.Some? && SameCandidate(s.attempt.value, t.attempt.value)))
  {
    hide CleanLog, Prior, UnitOk, Selectable, CommitOk, IsAdmitted;
    if IsAttemptStep(e) || e.Commit? { AttemptMoves(s, e); }
    else { AttemptStays(s, e); }
  }

  lemma AttemptMoves(s: State, e: Event)
    requires Enabled(s, e) && (IsAttemptStep(e) || e.Commit?)
    ensures
      var t := Apply(s, e);
      t.epoch == s.epoch && t.nextOp >= s.nextOp
      && (t.attempt.Some? ==>
            t.attempt.value.op >= s.nextOp
            || (s.attempt.Some? && SameCandidate(s.attempt.value, t.attempt.value)))
  {
    hide Selectable, CommitOk, IsAdmitted;
  }

  lemma AttemptStays(s: State, e: Event)
    requires Enabled(s, e) && !IsAttemptStep(e) && !e.Commit?
    ensures
      var t := Apply(s, e);
      t.attempt == s.attempt && t.nextOp == s.nextOp && t.epoch == s.epoch + if Fencing(s, e) then 1 else 0
  {
    hide Selectable, CommitOk, IsAdmitted;
  }

  lemma {:induction false} AttemptRun(s: State, es: seq<Event>, op: nat, epoch: nat)
    requires Inv(s) && Runs(s, es) && op < s.nextOp
    requires s.attempt.Some? && s.attempt.value.op == op ==> s.attempt.value.epoch == epoch
    ensures After(s, es).epoch == s.epoch + Fences(s, es)
    ensures After(s, es).attempt.Some? && After(s, es).attempt.value.op == op ==>
      After(s, es).attempt.value.epoch == epoch
    decreases |es|
  {
    if es != [] {
      AttemptStep(s, es[0]);
      StepInv(s, es[0]);
      hide Inv, Enabled, Apply;
      AttemptRun(Apply(s, es[0]), es[1..], op, epoch);
    }
  }

  /** Between the submission of an operation and a state that can commit it there was
      no hold, release, revision, disabling or rebasing of a shared dependent, even one
      undone in between. */
  lemma CommitSawNoFence(s: State, selected: set<Unit>, es: seq<Event>)
    requires Inv(s) && Enabled(s, Submit(selected)) && Runs(Apply(s, Submit(selected)), es)
    requires Enabled(After(Apply(s, Submit(selected)), es), Commit)
    requires After(Apply(s, Submit(selected)), es).attempt.value.op == s.nextOp
    ensures Fences(Apply(s, Submit(selected)), es) == 0
  {
    StepInv(s, Submit(selected));
    AttemptRun(Apply(s, Submit(selected)), es, s.nextOp, s.epoch);
  }

  // -------------------------------------------------------- every branch can close

  lemma RunsOne(s: State, e: Event)
    requires Inv(s) && Enabled(s, e)
    ensures Runs(s, [e]) && After(s, [e]) == Apply(s, e) && Inv(Apply(s, e))
  {
    StepInv(s, e);
    assert [e][1..] == [];
  }

  /** Nothing in flight. */
  ghost predicate Quiet(s: State) {
    Inv(s) && !s.crashed && s.attempt.None?
  }

  lemma Recover(s: State) returns (es: seq<Event>)
    requires Inv(s)
    ensures Runs(s, es) && Inv(After(s, es)) && !After(s, es).crashed
  {
    es := if s.crashed then [Restart] else [];
    if s.crashed { RunsOne(s, Restart); }
  }

  lemma Settle(s: State) returns (es: seq<Event>)
    requires Inv(s) && !s.crashed
    ensures Runs(s, es) && Quiet(After(s, es))
  {
    if s.attempt.None? {
      es := [];
    } else {
      es := [if s.attempt.value.committed then Account else Cancel];
      RunsOne(s, es[0]);
    }
  }

  lemma BeginClose(s: State) returns (es: seq<Event>)
    requires Quiet(s) && s.close != Closed
    ensures Runs(s, es) && Quiet(After(s, es)) && After(s, es).close == Closing
  {
    es := if s.close == Open then [RequestClose] else [];
    if s.close == Open { RunsOne(s, RequestClose); }
  }

  lemma Seal(s: State) returns (es: seq<Event>)
    requires Quiet(s) && s.close == Closing
    ensures Runs(s, es) && Quiet(After(s, es)) && Parking(After(s, es))
  {
    es := if s.refEnabled then [Disable] else [];
    if s.refEnabled { RunsOne(s, Disable); }
  }

  lemma HandOver(s: State) returns (es: seq<Event>)
    requires Quiet(s) && Parking(s)
    ensures Runs(s, es) && Quiet(After(s, es)) && Parking(After(s, es)) && After(s, es).external != WithBranch
  {
    es := if s.external == WithBranch then [TransferExternal] else [];
    if s.external == WithBranch { RunsOne(s, TransferExternal); }
  }

  /** Ready to be parked away, unit by unit. */
  ghost predicate Winding(s: State) {
    Quiet(s) && Parking(s) && s.external != WithBranch
  }

  ghost predicate Gone(s: State, u: Unit) {
    !s.memberActive.Get(u) && Resting(s.holders.Get(u))
  }

  lemma ParkTwig(s: State, u: Unit) returns (es: seq<Event>)
    requires Winding(s)
    ensures Runs(s, es) && Winding(After(s, es)) && !After(s, es).memberActive.Get(u)
    ensures forall v :: v != u && Gone(s, v) ==> Gone(After(s, es), v)
  {
    es := if s.memberActive.Get(u) then [ParkMember(u)] else [];
    if s.memberActive.Get(u) { RunsOne(s, ParkMember(u)); }
  }

  lemma ParkRest(s: State, u: Unit) returns (es: seq<Event>)
    requires Winding(s) && !s.memberActive.Get(u)
    ensures Runs(s, es) && Winding(After(s, es)) && Gone(After(s, es), u)
    ensures forall v :: v != u && Gone(s, v) ==> Gone(After(s, es), v)
  {
    if Resting(s.holders.Get(u)) {
      es := [];
    } else {
      PriorIsAdmitted(s, u, |s.admissions|);
      es := [ParkUnit(u)];
      RunsOne(s, ParkUnit(u));
    }
  }

  lemma ParkAway(s: State, u: Unit) returns (es: seq<Event>)
    requires Winding(s)
    ensures Runs(s, es) && Winding(After(s, es)) && Gone(After(s, es), u)
    ensures forall v :: v != u && Gone(s, v) ==> Gone(After(s, es), v)
  {
    var twig := ParkTwig(s, u);
    var rest := ParkRest(After(s, twig), u);
    RunsJoin(s, twig, rest);
    es := twig + rest;
  }

  lemma WindDown(s: State) returns (es: seq<Event>)
    requires Quiet(s) && s.close != Closed
    ensures Runs(s, es) && Winding(After(s, es))
  {
    hide Enabled, Apply, Inv;
    var begin := BeginClose(s);
    var seal := Seal(After(s, begin));
    RunsJoin(s, begin, seal);
    var hand := HandOver(After(s, begin + seal));
    RunsJoin(s, begin + seal, hand);
    es := begin + seal + hand;
  }

  lemma Finish(s: State) returns (es: seq<Event>)
    requires Winding(s)
    ensures Runs(s, es) && After(s, es).close == Closed
  {
    var p0 := ParkAway(s, U0);
    var p1 := ParkAway(After(s, p0), U1);
    RunsJoin(s, p0, p1);
    var t := After(s, p0 + p1);
    assert Gone(t, U0) && Gone(t, U1);
    RunsOne(t, AckClose);
    RunsJoin(s, p0 + p1, [AckClose]);
    es := p0 + p1 + [AckClose];
  }

  /** From every reachable state a finite run reaches acknowledged closure. */
  lemma EveryBranchCanClose(past: seq<Event>) returns (es: seq<Event>)
    requires Runs(Init, past)
    ensures Runs(After(Init, past), es) && After(After(Init, past), es).close == Closed
  {
    RunInv(Init, past);
    var s := After(Init, past);
    if s.close == Closed {
      es := [];
    } else {
      hide Enabled, Apply, Inv;
      var recover := Recover(s);
      RunKeeps(s, recover);
      var settle := Settle(After(s, recover));
      RunsJoin(s, recover, settle);
      var quiet := After(s, recover + settle);
      es := recover + settle;
      if quiet.close != Closed {
        var wind := WindDown(quiet);
        RunsJoin(s, es, wind);
        var finish := Finish(After(s, es + wind));
        RunsJoin(s, es + wind, finish);
        es := es + wind + finish;
      }
    }
  }

  // ------------------------------------------------------- the loop as written

  /** The explorer's scan of the log accepts exactly the clean logs. */
  method NoViolationInLog(log: seq<Admission>) returns (ok: bool)
    ensures ok <==> CleanLog(log)
  {
    var prior: set<Unit> := {};
    var seenOps: set<nat> := {};
    for k := 0 to |log|
      invariant forall j :: 0 <= j < k ==> CleanEntry(log, j)
      invariant forall i, j :: 0 <= i < j < k ==> log[i].op != log[j].op
      invariant prior == Prior(log, k) && seenOps == set j | 0 <= j < k :: log[j].op
    {
      var e := log[k];
      if e.op in seenOps {
        ghost var j :| 0 <= j < k && log[j].op == e.op;
        return false;
      }
      if !(e.selected !! prior)
         || e.held || !e.refEnabled || e.submittedEpoch != e.commitEpoch
         || (exists u :: u in e.selected && e.holders.Get(u) != OnBranch)
         || (U0 in e.selected && e.submittedVersion0 != e.commitVersion0)
         || (U1 in e.selected && e.commitBasis1 != e.commitVersion0)
         || (U1 in e.selected && U0 !in e.selected && U0 !in prior)
      {
        assert !CleanEntry(log, k);
        return false;
      }
      seenOps := seenOps + {e.op};
      prior := prior + e.selected;
    }
    return true;
  }
}
