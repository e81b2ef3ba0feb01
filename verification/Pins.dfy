/** Attempt pins and the collector: any number of coordinators check the same owed
    unit, each with its own candidate cut, while operators crash, the ref authority
    has outages, and a collector reclaims every cut that nobody pins. */
module Pins {
  import opened Common

  datatype Status = Idle | Checking | Failed | Cancelled | Superseded | Admitted

  datatype Attempt = Attempt(status: Status, available: bool, sourcePin: bool, candidatePin: bool, operatorUp: bool)

  datatype State = State(
    owed: bool, holderPin: bool, sourceAvailable: bool, attempts: seq<Attempt>, admittedBy: Option<nat>,
    refSourcePin: bool, refCandidatePin: bool, receipt: bool, frontier: bool, refUp: bool)

  datatype Event =
    | Prepare(i: nat)
    | Crash(i: nat)
    | Recover(i: nat)
    | Fail(i: nat)
    | Cancel(i: nat)
    | Cas(i: nat)
    | ObserveWinner(i: nat)
    | ReleaseAttempt(i: nat)
    | CollectCandidate(i: nat)
    | RecoverReceipt
    | ReconcileFrontier
    | ReleaseRefPins
    | ReleaseHolder
    | CollectSource
    | RefOutage
    | RefRestore

  function Init(n: nat): State {
    State(true, true, true, seq(n, _ => Attempt(Idle, false, false, false, true)), None, false, false, false, false,
      true)
  }

  predicate Recovered(s: State) {
    s.receipt && s.frontier
  }

  predicate HasPins(a: Attempt) {
    a.sourcePin || a.candidatePin
  }

  predicate AnySourcePin(s: State) {
    exists i :: 0 <= i < |s.attempts| && s.attempts[i].sourcePin
  }

  predicate Enabled(s: State, e: Event) {
    match e
    case Prepare(i) => i < |s.attempts| && s.attempts[i].status == Idle && s.owed && s.sourceAvailable
    case Crash(i) => i < |s.attempts| && s.attempts[i].operatorUp
    case Recover(i) => i < |s.attempts| && !s.attempts[i].operatorUp
    case Fail(i) => i < |s.attempts| && s.attempts[i].status == Checking && s.attempts[i].operatorUp
    case Cancel(i) =>
      i < |s.attempts| && s.attempts[i].status == Checking && s.attempts[i].operatorUp && s.refUp && s.admittedBy.None?
    case Cas(i) =>
      i < |s.attempts| && s.attempts[i].status == Checking && s.attempts[i].operatorUp && s.refUp && s.owed
    case ObserveWinner(i) =>
      i < |s.attempts| && s.attempts[i].status == Checking && s.admittedBy.Some? && s.admittedBy.value != i && s.refUp
    case ReleaseAttempt(i) =>
      i < |s.attempts| && HasPins(s.attempts[i])
      && (s.attempts[i].status in {Failed, Cancelled, Superseded} || (s.attempts[i].status == Admitted && Recovered(s)))
    case CollectCandidate(i) =>
      i < |s.attempts| && s.attempts[i].available && !s.attempts[i].candidatePin
      && !(s.admittedBy == Some(i) && s.refCandidatePin)
    case RecoverReceipt => s.admittedBy.Some? && !s.receipt && s.refUp
    case ReconcileFrontier => s.admittedBy.Some? && !s.frontier && s.refUp
    case ReleaseRefPins => s.admittedBy.Some? && Recovered(s) && (s.refSourcePin || s.refCandidatePin)
    case ReleaseHolder => s.holderPin && !s.owed
    case CollectSource => s.sourceAvailable && !s.holderPin && !s.refSourcePin && !AnySourcePin(s)
    case RefOutage => s.refUp
    case RefRestore => !s.refUp
  }

  function With(s: State, i: nat, a: Attempt): State
    requires i < |s.attempts|
  {
    s.(attempts := s.attempts[i := a])
  }

  function Apply(s: State, e: Event): State
    requires Enabled(s, e)
  {
    match e
    case Prepare(i) =>
      With(s, i, s.attempts[i].(status := Checking, available := true, sourcePin := true, candidatePin := true))
    case Crash(i) => With(s, i, s.attempts[i].(operatorUp := false))
    case Recover(i) => With(s, i, s.attempts[i].(operatorUp := true))
    case Fail(i) => With(s, i, s.attempts[i].(status := Failed))
    case Cancel(i) => With(s, i, s.attempts[i].(status := Cancelled))
    case Cas(i) =>
      With(s, i, s.attempts[i].(status := Admitted))
        .(owed := false, holderPin := false, admittedBy := Some(i), refSourcePin := true, refCandidatePin := true)
    case ObserveWinner(i) => With(s, i, s.attempts[i].(status := Superseded))
    case ReleaseAttempt(i) => With(s, i, s.attempts[i].(sourcePin := false, candidatePin := false))
    case CollectCandidate(i) => With(s, i, s.attempts[i].(available := false))
    case RecoverReceipt => s.(receipt := true)
    case ReconcileFrontier => s.(frontier := true)
    case ReleaseRefPins => s.(refSourcePin := false, refCandidatePin := false)
    case ReleaseHolder => s.(holderPin := false)
    case CollectSource => s.(sourceAvailable := false)
    case RefOutage => s.(refUp := false)
    case RefRestore => s.(refUp := true)
  }

  predicate Runs(s: State, es: seq<Event>)
    decreases |es|
  {
    es == [] || (Enabled(s, es[0]) && Runs(Apply(s, es[0]), es[1..]))
  }

  function After(s: State, es: seq<Event>): State
    requires Runs(s, es)
    decreases |es|
  {
    if es == [] then s else After(Apply(s, es[0]), es[1..])
  }

  // ------------------------------------------------------------ invariant

  ghost predicate AttemptOk(s: State, i: nat)
    requires i < |s.attempts|
  {
    var a := s.attempts[i];
    (a.status == Admitted <==> s.admittedBy == Some(i))
    && (a.status == Checking ==> a.available && a.sourcePin && a.candidatePin)
    && (a.status == Idle ==> !a.available && !a.sourcePin && !a.candidatePin)
    && (a.status == Admitted && !Recovered(s) ==> a.available && s.refCandidatePin && s.refSourcePin)
    && (a.sourcePin ==> s.sourceAvailable)
    && (a.candidatePin || (s.admittedBy == Some(i) && s.refCandidatePin) ==> a.available)
  }

  ghost predicate Inv(s: State) {
    (forall i :: 0 <= i < |s.attempts| ==> AttemptOk(s, i)) && SharedOk(s)
  }

  ghost predicate SharedOk(s: State) {
    (s.owed <==> s.admittedBy.None?)
    && (s.owed ==> s.holderPin && s.sourceAvailable && !s.refSourcePin && !s.refCandidatePin)
    && (!s.owed ==> !s.holderPin)
    && (s.refSourcePin ==> s.sourceAvailable)
    && (s.admittedBy.Some? ==> s.admittedBy.value < |s.attempts|)
    && (s.admittedBy.None? ==> !s.receipt && !s.frontier)
  }

  predicate IsShared(e: Event) {
    e.RecoverReceipt? || e.ReconcileFrontier? || e.ReleaseRefPins? || e.ReleaseHolder? || e.CollectSource?
    || e.RefOutage? || e.RefRestore?
  }

  /** `t` keeps what `s` had in order. */
  ghost predicate Keeps(s: State, t: State) {
    SharedOk(t) && t.admittedBy == s.admittedBy && |t.attempts| == |s.attempts|
    && forall i :: 0 <= i < |s.attempts| && AttemptOk(s, i) ==> AttemptOk(t, i)
  }

  lemma SharedStep(s: State, e: Event)
    requires SharedOk(s) && Enabled(s, e) && IsShared(e)
    ensures Keeps(s, Apply(s, e))
  {
    hide SharedOk, Keeps, Enabled, Apply;
    HolderNeverReleased(s);
    if e == RecoverReceipt { KeepsRecoverReceipt(s); }
    else if e == ReconcileFrontier { KeepsReconcileFrontier(s); }
    else if e == ReleaseRefPins { KeepsReleaseRefPins(s); }
    else if e == CollectSource { KeepsCollectSource(s); }
    else if e == RefOutage { KeepsRefOutage(s); }
    else { KeepsRefRestore(s); }
  }

  lemma KeepsRecoverReceipt(s: State)
    requires SharedOk(s) && Enabled(s, RecoverReceipt)
    ensures Keeps(s, Apply(s, RecoverReceipt))
  {
  }

  lemma KeepsReconcileFrontier(s: State)
    requires SharedOk(s) && Enabled(s, ReconcileFrontier)
    ensures Keeps(s, Apply(s, ReconcileFrontier))
  {
  }

  lemma KeepsReleaseRefPins(s: State)
    requires SharedOk(s) && Enabled(s, ReleaseRefPins)
    ensures Keeps(s, Apply(s, ReleaseRefPins))
  {
  }

  /** The admission drops the holder's pin itself, so it is never released separately. */
  lemma HolderNeverReleased(s: State)
    requires SharedOk(s)
    ensures !Enabled(s, ReleaseHolder)
  {
  }

  lemma KeepsCollectSource(s: State)
    requires SharedOk(s) && Enabled(s, CollectSource)
    ensures Keeps(s, Apply(s, CollectSource))
  {
    assert forall i :: 0 <= i < |s.attempts| ==> !s.attempts[i].sourcePin;
  }

  lemma KeepsRefOutage(s: State)
    requires SharedOk(s) && Enabled(s, RefOutage)
    ensures Keeps(s, Apply(s, RefOutage))
  {
  }

  lemma KeepsRefRestore(s: State)
    requires SharedOk(s) && Enabled(s, RefRestore)
    ensures Keeps(s, Apply(s, RefRestore))
  {
  }

  lemma OwnStep(s: State, e: Event)
    requires Enabled(s, e) && !IsShared(e) && AttemptOk(s, e.i) && SharedOk(s)
    ensures e.i < |Apply(s, e).attempts| && AttemptOk(Apply(s, e), e.i)
  {
    if e.Cas? { OwnCas(s, e.i); }
    else if e.Prepare? || e.CollectCandidate? || e.ReleaseAttempt? { OwnCuts(s, e); }
    else { OwnStatus(s, e); }
  }

  lemma OwnCas(s: State, i: nat)
    requires Enabled(s, Cas(i)) && AttemptOk(s, i) && SharedOk(s)
    ensures i < |Apply(s, Cas(i)).attempts| && AttemptOk(Apply(s, Cas(i)), i)
  {
  }

  lemma OwnCuts(s: State, e: Event)
    requires Enabled(s, e) && (e.Prepare? || e.CollectCandidate? || e.ReleaseAttempt?) && AttemptOk(s, e.i)
      && SharedOk(s)
    ensures e.i < |Apply(s, e).attempts| && AttemptOk(Apply(s, e), e.i)
  {
  }

  lemma OwnStatus(s: State, e: Event)
    requires Enabled(s, e) && (e.Crash? || e.Recover? || e.Fail? || e.Cancel? || e.ObserveWinner?)
    requires AttemptOk(s, e.i) && SharedOk(s)
    ensures e.i < |Apply(s, e).attempts| && AttemptOk(Apply(s, e), e.i)
  {
  }

  lemma ForeignStep(s: State, e: Event, i: nat)
    requires Enabled(s, e) && !IsShared(e) && i < |s.attempts| && i != e.i && AttemptOk(s, i) && SharedOk(s)
    ensures i < |Apply(s, e).attempts| && AttemptOk(Apply(s, e), i)
  {
    var t := Apply(s, e);
    LocalStep(s, e, i);
    hide Enabled, Apply;
    if e.Cas? { ForeignCas(s, t, e.i, i); }
  }

  lemma LocalStep(s: State, e: Event, i: nat)
    requires Enabled(s, e) && !IsShared(e) && i < |s.attempts| && i != e.i
    ensures var t := Apply(s, e);
      |t.attempts| == |s.attempts| && t.attempts[i] == s.attempts[i]
      && t == if e.Cas? then WinnerIs(s, e.i).(attempts := t.attempts) else s.(attempts := t.attempts)
    ensures e.Cas? ==> s.owed
  {
    if e.Cas? { LocalCas(s, e.i, i); }
    else if e.Prepare? || e.CollectCandidate? || e.ReleaseAttempt? { LocalCuts(s, e, i); }
    else { LocalStatus(s, e, i); }
  }

  lemma LocalCas(s: State, winner: nat, i: nat)
    requires Enabled(s, Cas(winner)) && i < |s.attempts| && i != winner
    ensures var t := Apply(s, Cas(winner));
      s.owed && |t.attempts| == |s.attempts| && t.attempts[i] == s.attempts[i]
      && t == WinnerIs(s, winner).(attempts := t.attempts)
  {
  }

  lemma LocalCuts(s: State, e: Event, i: nat)
    requires Enabled(s, e) && (e.Prepare? || e.CollectCandidate? || e.ReleaseAttempt?) && i < |s.attempts| && i != e.i
    ensures var t := Apply(s, e);
      |t.attempts| == |s.attempts| && t.attempts[i] == s.attempts[i] && t == s.(attempts := t.attempts)
  {
  }

  lemma LocalStatus(s: State, e: Event, i: nat)
    requires Enabled(s, e) && (e.Crash? || e.Recover? || e.Fail? || e.Cancel? || e.ObserveWinner?)
    requires i < |s.attempts| && i != e.i
    ensures var t := Apply(s, e);
      |t.attempts| == |s.attempts| && t.attempts[i] == s.attempts[i] && t == s.(attempts := t.attempts)
  {
  }

  function WinnerIs(s: State, i: nat): State {
    s.(owed := false, holderPin := false, admittedBy := Some(i), refSourcePin := true, refCandidatePin := true)
  }

  lemma ForeignCas(s: State, t: State, winner: nat, i: nat)
    requires i < |s.attempts| && AttemptOk(s, i) && SharedOk(s) && s.owed && i != winner
    requires |t.attempts| == |s.attempts| && t.attempts[i] == s.attempts[i]
      && t == WinnerIs(s, winner).(attempts := t.attempts)
    ensures AttemptOk(t, i)
  {
  }

  lemma SharedKept(s: State, e: Event)
    requires Inv(s) && Enabled(s, e)
    ensures |Apply(s, e).attempts| == |s.attempts| && SharedOk(Apply(s, e))
  {
    if IsShared(e) {
      SharedStep(s, e);
    } else if e.Cas? {
      CasShared(s, e.i);
    } else {
      OwnShared(s, e);
    }
  }

  lemma CasShared(s: State, i: nat)
    requires Inv(s) && Enabled(s, Cas(i))
    ensures |Apply(s, Cas(i)).attempts| == |s.attempts| && SharedOk(Apply(s, Cas(i)))
  {
    assert AttemptOk(s, i);
  }

  lemma OwnShared(s: State, e: Event)
    requires SharedOk(s) && Enabled(s, e) && !IsShared(e) && !e.Cas?
    ensures |Apply(s, e).attempts| == |s.attempts| && SharedOk(Apply(s, e)) && Apply(s, e).admittedBy == s.admittedBy
  {
    var t := Apply(s, e);
    assert t == s.(attempts := t.attempts);
  }

  lemma StepInv(s: State, e: Event)
    requires Inv(s) && Enabled(s, e)
    ensures Inv(Apply(s, e))
  {
    var t := Apply(s, e);
    SharedKept(s, e);
    hide AttemptOk, SharedOk, Enabled, Apply;
    forall i | 0 <= i < |t.attempts| ensures AttemptOk(t, i) {
      if IsShared(e) {
        SharedStep(s, e);
      } else if i == e.i {
        OwnStep(s, e);
      } else {
        ForeignStep(s, e, i);
      }
    }
  }

  lemma {:induction false} RunInv(s: State, es: seq<Event>)
    requires Inv(s) && Runs(s, es)
    ensures Inv(After(s, es))
    decreases |es|
  {
    if es != [] {
      StepInv(s, es[0]);
      RunInv(Apply(s, es[0]), es[1..]);
    }
  }

  // -------------------------------------------------------------- results

  /** Every check of the explorer. */
  ghost predicate Clean(s: State) {
    (s.owed ==> s.sourceAvailable)
    && (forall i :: 0 <= i < |s.attempts| && s.attempts[i].status == Checking ==> s.attempts[i].available)
    && (s.admittedBy.Some? && !Recovered(s) ==>
         s.sourceAvailable && s.admittedBy.value < |s.attempts| && s.attempts[s.admittedBy.value].available)
    && s.owed == s.admittedBy.None?
  }

  /** In every run, with any number of attempts, no cut is collected while an owed
      unit, a checking attempt (its source and its candidate) or an unrecovered admission
      needs it, and at most one attempt is ever admitted. */
  lemma PinSafety(n: nat, es: seq<Event>)
    requires Runs(Init(n), es)
    ensures Clean(After(Init(n), es))
    ensures var s := After(Init(n), es);
      forall i :: 0 <= i < |s.attempts| && s.attempts[i].status == Checking ==>
        s.attempts[i].available && s.sourceAvailable
    ensures var s := After(Init(n), es);
      forall i, j ::
        0 <= i < j < |s.attempts| ==> !(s.attempts[i].status == Admitted && s.attempts[j].status == Admitted)
  {
    RunInv(Init(n), es);
    var s := After(Init(n), es);
    forall i | 0 <= i < |s.attempts|
      ensures s.attempts[i].status == Checking ==> s.attempts[i].available && s.sourceAvailable
      ensures s.attempts[i].status == Admitted <==> s.admittedBy == Some(i)
    {
      assert AttemptOk(s, i);
    }
    if s.admittedBy.Some? { assert AttemptOk(s, s.admittedBy.value); }
  }

  lemma NoSecondCas(s: State, e: Event)
    requires SharedOk(s) && s.admittedBy.Some?
    ensures e.Cas? ==> !Enabled(s, e)
  {
  }

  lemma StepFinal(s: State, e: Event)
    requires Inv(s) && Enabled(s, e) && s.admittedBy.Some?
    ensures Apply(s, e).admittedBy == s.admittedBy
  {
    NoSecondCas(s, e);
    assert SharedOk(s);
    hide Inv, SharedOk, Enabled, Apply;
    if IsShared(e) { SharedStep(s, e); } else { OwnShared(s, e); }
  }

  /** An admission is never replaced or undone. */
  lemma {:induction false} AdmissionIsFinal(s: State, es: seq<Event>)
    requires Inv(s) && Runs(s, es) && s.admittedBy.Some?
    ensures After(s, es).admittedBy == s.admittedBy
    decreases |es|
  {
    if es != [] {
      StepInv(s, es[0]);
      StepFinal(s, es[0]);
      hide Inv, Enabled, Apply;
      AdmissionIsFinal(Apply(s, es[0]), es[1..]);
    }
  }

  // ------------------------------------- after admission everything can be reclaimed

  lemma {:induction false} RunsJoin(s: State, a: seq<Event>, b: seq<Event>)
    requires Runs(s, a) && Runs(After(s, a), b)
    ensures Runs(s, a + b) && After(s, a + b) == After(After(s, a), b)
    decreases |a|
  {
    hide Apply, Enabled;
    if a == [] {
      assert a + b == b;
    } else {
      RunsJoin(Apply(s, a[0]), a[1..], b);
      assert (a + b)[1..] == a[1..] + b;
    }
  }

  lemma RunsOne(s: State, e: Event)
    requires Enabled(s, e)
    ensures Runs(s, [e]) && After(s, [e]) == Apply(s, e)
  {
    assert [e][1..] == [];
  }

  /** Take `e` if it is enabled. */
  function Try(s: State, e: Event): seq<Event> {
    if Enabled(s, e) then [e] else []
  }

  function Tried(s: State, e: Event): State {
    if Enabled(s, e) then Apply(s, e) else s
  }

  lemma TryRuns(s: State, past: seq<Event>, e: Event)
    requires Runs(s, past) && Inv(After(s, past))
    ensures var t := After(s, past);
      Runs(s, past + Try(t, e)) && After(s, past + Try(t, e)) == Tried(t, e) && Inv(Tried(t, e))
  {
    var t := After(s, past);
    if Enabled(t, e) {
      StepInv(t, e);
      RunsOne(t, e);
    }
    RunsJoin(s, past, Try(t, e));
  }

  /** The ref authority is up and has recovered the admission. */
  ghost predicate Landed(s: State) {
    Inv(s) && s.admittedBy.Some? && Recovered(s) && s.refUp && !s.refSourcePin && !s.refCandidatePin
  }

  ghost predicate Clear(a: Attempt) {
    !a.available && !a.sourcePin && !a.candidatePin
  }

  /** Restore the ref authority, recover receipt and frontier, drop the ref's pins. */
  lemma RecoverRef(s: State) returns (es: seq<Event>)
    requires Inv(s) && s.admittedBy.Some?
    ensures Runs(s, es) && Landed(After(s, es)) && |After(s, es).attempts| == |s.attempts|
  {
    var first := ReachRef(s);
    var second := SettleRef(After(s, first));
    hide Inv, Runs, After, Enabled, Apply;
    RunsJoin(s, first, second);
    es := first + second;
  }

  lemma ReachRef(s: State) returns (es: seq<Event>)
    requires Inv(s) && s.admittedBy.Some?
    ensures Runs(s, es) && Inv(After(s, es)) && |After(s, es).attempts| == |s.attempts|
    ensures After(s, es).admittedBy.Some? && After(s, es).refUp && After(s, es).receipt
  {
    es := [];
    assert Runs(s, es) && After(s, es) == s;
    hide Runs, After, Inv;
    TryRuns(s, es, RefRestore);
    es := es + Try(s, RefRestore);
    TryRuns(s, es, RecoverReceipt);
    es := es + Try(After(s, es), RecoverReceipt);
  }

  lemma SettleRef(s: State) returns (es: seq<Event>)
    requires Inv(s) && s.admittedBy.Some? && s.refUp && s.receipt
    ensures Runs(s, es) && Landed(After(s, es)) && |After(s, es).attempts| == |s.attempts|
  {
    es := [];
    assert Runs(s, es) && After(s, es) == s;
    hide Runs, After, Inv;
    TryRuns(s, es, ReconcileFrontier);
    es := es + Try(s, ReconcileFrontier);
    TryRuns(s, es, ReleaseRefPins);
    es := es + Try(After(s, es), ReleaseRefPins);
  }

  /** Everything but attempt `i` is as it was. */
  ghost predicate OnlyAttempt(s: State, t: State, i: nat) {
    Landed(t) && |t.attempts| == |s.attempts| && forall j :: 0 <= j < |s.attempts| && j != i ==>
      t.attempts[j] == s.attempts[j]
  }

  /** Brings attempt `i` to an end, drops its pins and collects its candidate. */
  lemma ReclaimAttempt(s: State, i: nat) returns (es: seq<Event>)
    requires Landed(s) && i < |s.attempts|
    ensures Runs(s, es) && Landed(After(s, es)) && |After(s, es).attempts| == |s.attempts|
    ensures Clear(After(s, es).attempts[i])
    ensures forall j :: 0 <= j < |s.attempts| && j != i ==> After(s, es).attempts[j] == s.attempts[j]
  {
    var first := ReleaseOne(s, i);
    var t := After(s, first);
    var second := CollectOne(t, i);
    hide Inv, Runs, After, Enabled, Apply;
    RunsJoin(s, first, second);
    es := first + second;
  }

  lemma ReleaseOne(s: State, i: nat) returns (es: seq<Event>)
    requires Landed(s) && i < |s.attempts|
    ensures Runs(s, es) && OnlyAttempt(s, After(s, es), i) && !HasPins(After(s, es).attempts[i])
  {
    assert AttemptOk(s, i);
    es := [];
    assert Runs(s, es) && After(s, es) == s;
    hide Runs, After;
    TryRuns(s, es, ObserveWinner(i));
    es := es + Try(s, ObserveWinner(i));
    var t := After(s, es);
    assert AttemptOk(t, i);
    hide Inv, AttemptOk;
    TryRuns(s, es, ReleaseAttempt(i));
    es := es + Try(t, ReleaseAttempt(i));
  }

  lemma CollectOne(s: State, i: nat) returns (es: seq<Event>)
    requires Landed(s) && i < |s.attempts| && !HasPins(s.attempts[i])
    ensures Runs(s, es) && OnlyAttempt(s, After(s, es), i) && Clear(After(s, es).attempts[i])
  {
    es := [];
    assert Runs(s, es) && After(s, es) == s;
    assert AttemptOk(s, i);
    hide Runs, After, Inv;
    TryRuns(s, es, CollectCandidate(i));
    es := es + Try(s, CollectCandidate(i));
  }

  lemma {:induction false} ReclaimFirst(s: State, n: nat) returns (es: seq<Event>)
    requires Landed(s) && n <= |s.attempts|
    ensures Runs(s, es) && Landed(After(s, es)) && |After(s, es).attempts| == |s.attempts|
    ensures forall j :: 0 <= j < n ==> Clear(After(s, es).attempts[j])
  {
    if n == 0 {
      es := [];
    } else {
      hide Enabled, Apply, Inv;
      var first := ReclaimFirst(s, n - 1);
      var rest := ReclaimAttempt(After(s, first), n - 1);
      RunsJoin(s, first, rest);
      es := first + rest;
    }
  }

  /** Once the unit is admitted, a finite continuation releases every pin and
      collects every cut, whatever has crashed and whatever is still checking. */
  lemma EverythingReclaimable(n: nat, past: seq<Event>) returns (es: seq<Event>)
    requires Runs(Init(n), past) && After(Init(n), past).admittedBy.Some?
    ensures var s := After(Init(n), past);
      Runs(s, es)
      && var t := After(s, es);
         !t.sourceAvailable && !t.holderPin && !t.refSourcePin && !t.refCandidatePin
         && |t.attempts| == |s.attempts| && forall i :: 0 <= i < |t.attempts| ==> Clear(t.attempts[i])
  {
    RunInv(Init(n), past);
    var s := After(Init(n), past);
    var recover := RecoverRef(s);
    var reclaim := ReclaimFirst(After(s, recover), |s.attempts|);
    RunsJoin(s, recover, reclaim);
    es := recover + reclaim;
    var t := After(s, es);
    TryRuns(s, es, CollectSource);
    es := es + Try(t, CollectSource);
  }
}
