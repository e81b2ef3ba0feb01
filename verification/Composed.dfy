/** The composed admission: the norm ledger's write exclusion is taken, its premises
    are captured again under it, and the trunk CAS runs while it is still held,
    guarded by the branch hold and the owner fence. Operators crash, take over and
    release in any order; the principal of the submission never changes. */
module Composed {
  import opened Common

  /** The premises observed at the commit itself. */
  datatype Admission = Admission(
    normRevision: nat, granted: bool, held: bool, branchEpoch: nat, locked: bool, actor: nat, byOwner: bool)

  datatype State = State(
    gatePassed: bool, normRevision: nat, principalGranted: bool, lockedBy: Option<nat>,
    prechecked: Option<(nat, bool)>,
    validatedRevision: Option<nat>, validatedBy: Option<nat>, validatedPrincipal: bool,
    branchEpoch: nat, held: bool, owner: nat, ownerFence: nat, fences: seq<Option<nat>>,
    trunk: nat, admission: Option<Admission>, receipt: bool, up: seq<bool>)

  datatype Event =
    | GatePass
    | RevokeGrant
    | Hold
    | Takeover(a: nat)
    | Crash(a: nat)
    | Restart(a: nat)
    | RecoverReceipt
    | Precheck
    | LockAndValidate(a: nat)
    | ReleaseLedger(a: nat)
    | Cas(a: nat)

  function Init(n: nat): State
    requires n > 0
  {
    State(false, 0, true, None, None, None, None, false, 0, false, 0, 0,
          seq(n, a => if a == 0 then Some(0) else None), 0, None, false, seq(n, _ => true))
  }

  /** A live operator that owns or has taken over the submission, before it lands. */
  predicate Custodian(s: State, a: nat) {
    s.gatePassed && s.trunk == 0 && a < |s.up| && s.up[a] && a < |s.fences| && s.fences[a].Some?
  }

  predicate Enabled(s: State, e: Event) {
    match e
    case GatePass => !s.gatePassed
    case RevokeGrant => s.lockedBy.None?
    case Hold => true
    case Takeover(a) => a < |s.fences|
    case Crash(a) => a < |s.up| && s.up[a]
    case Restart(a) => a < |s.up| && !s.up[a]
    case RecoverReceipt => s.admission.Some? && !s.receipt
    case Precheck => s.gatePassed && s.trunk == 0 && s.prechecked.None?
    case LockAndValidate(a) => Custodian(s, a) && s.lockedBy.None? && s.normRevision == 0 && s.principalGranted
    case ReleaseLedger(a) => Custodian(s, a) && s.lockedBy == Some(a)
    case Cas(a) =>
      Custodian(s, a) && s.lockedBy == Some(a)
      && s.validatedBy == Some(a) && s.validatedRevision == Some(0) && s.validatedPrincipal
      && !s.held && s.branchEpoch == 0 && s.owner == a && s.fences[a] == Some(s.ownerFence)
  }

  function Apply(s: State, e: Event): State
    requires Enabled(s, e)
  {
    match e
    case GatePass => s.(gatePassed := true)
    case RevokeGrant => s.(normRevision := s.normRevision + 1, principalGranted := false)
    case Hold => s.(held := true, branchEpoch := s.branchEpoch + 1)
    case Takeover(a) => s.(owner := a, ownerFence := s.ownerFence + 1, fences := s.fences[a := Some(s.ownerFence + 1)])
    case Crash(a) =>
      s.(up := s.up[a := false],
         lockedBy := if s.lockedBy == Some(a) then None else s.lockedBy,
         validatedRevision := if s.validatedBy == Some(a) then None else s.validatedRevision,
         validatedBy := if s.validatedBy == Some(a) then None else s.validatedBy)
    case Restart(a) => s.(up := s.up[a := true])
    case RecoverReceipt => s.(receipt := true)
    case Precheck => s.(prechecked := Some((s.normRevision, s.principalGranted)))
    case LockAndValidate(a) =>
      s.(lockedBy := Some(a), validatedRevision := Some(s.normRevision), validatedBy := Some(a),
         validatedPrincipal := s.principalGranted)
    case ReleaseLedger(a) => s.(lockedBy := None)
    case Cas(a) =>
      s.(trunk := 1, lockedBy := None,
         admission := Some(Admission(s.normRevision, s.principalGranted, s.held, s.branchEpoch,
                                     s.lockedBy == Some(a), a, s.owner == a)))
  }

  predicate Runs(s: State, es: seq<Event>)
    decreases |es|, 0
  {
    es == [] || (Runs(s, es[..|es| - 1]) && Enabled(After(s, es[..|es| - 1]), es[|es| - 1]))
  }

  function After(s: State, es: seq<Event>): State
    requires Runs(s, es)
    decreases |es|, 1
  {
    if es == [] then s else Apply(After(s, es[..|es| - 1]), es[|es| - 1])
  }

  /** Whoever holds the ledger validated it under that hold, and nothing it
      validated has moved since. */
  ghost predicate Inv(s: State) {
    (s.lockedBy.Some? ==>
       s.validatedBy == s.lockedBy && s.validatedRevision == Some(s.normRevision) == Some(0) && s.validatedPrincipal
         && s.principalGranted)
    && Clean(s)
  }

  /** The explorer's checks. */
  predicate Clean(s: State) {
    s.trunk == (if s.admission.Some? then 1 else 0) && (s.receipt ==> s.admission.Some?)
    && (s.admission.Some? ==>
         var adm := s.admission.value;
         adm.normRevision == 0 && adm.granted && adm.locked && !adm.held && adm.branchEpoch == 0 && adm.byOwner)
  }

  lemma StepInv(s: State, e: Event)
    requires Inv(s) && Enabled(s, e)
    ensures Inv(Apply(s, e))
  {
    if e.Crash? { CrashInv(s, e.a); }
    else if e.LockAndValidate? || e.ReleaseLedger? || e.Cas? { LedgerInv(s, e); }
    else if e.RevokeGrant? || e.Hold? || e.Takeover? { PremiseInv(s, e); }
    else { PlainInv(s, e); }
  }

  lemma CrashInv(s: State, a: nat)
    requires Inv(s) && Enabled(s, Crash(a))
    ensures Inv(Apply(s, Crash(a)))
  {
  }

  lemma LedgerInv(s: State, e: Event)
    requires Inv(s) && Enabled(s, e) && (e.LockAndValidate? || e.ReleaseLedger? || e.Cas?)
    ensures Inv(Apply(s, e))
  {
  }

  lemma PremiseInv(s: State, e: Event)
    requires Inv(s) && Enabled(s, e) && (e.RevokeGrant? || e.Hold? || e.Takeover?)
    ensures Inv(Apply(s, e))
  {
  }

  lemma PlainInv(s: State, e: Event)
    requires Inv(s) && Enabled(s, e) && (e.GatePass? || e.Restart? || e.RecoverReceipt? || e.Precheck?)
    ensures Inv(Apply(s, e))
  {
  }

  /** The ledger is taken only by `LockAndValidate`. */
  lemma StepLock(s: State, e: Event, a: nat)
    requires Enabled(s, e) && Apply(s, e).lockedBy == Some(a)
    ensures e == LockAndValidate(a) || s.lockedBy == Some(a)
  {
  }

  /** In every run the explorer's checks hold, and a held ledger is freshly validated. */
  lemma {:induction false} ComposedSafety(n: nat, es: seq<Event>)
    requires n > 0 && Runs(Init(n), es)
    ensures Inv(After(Init(n), es))
  {
    if es != [] {
      ComposedSafety(n, es[..|es| - 1]);
      StepInv(After(Init(n), es[..|es| - 1]), es[|es| - 1]);
    }
  }

  lemma {:induction false} RunsPrefix(s: State, es: seq<Event>, k: nat)
    requires Runs(s, es) && k <= |es|
    ensures Runs(s, es[..k])
  {
    if k < |es| {
      RunsPrefix(s, es[..|es| - 1], k);
      assert es[..|es| - 1][..k] == es[..k];
    } else {
      assert es[..k] == es;
    }
  }

  /** After the first `k` events, as seen from the whole run. */
  ghost function At(s: State, es: seq<Event>, k: nat): State
    requires Runs(s, es) && k <= |es|
  {
    RunsPrefix(s, es, k);
    After(s, es[..k])
  }

  /** From event `j` to the end of the run: `a` took and validated the ledger, held it
      throughout, and the norm revision and the original grant stood still. */
  ghost predicate HeldSince(s: State, es: seq<Event>, j: nat, a: nat)
    requires Runs(s, es)
  {
    j < |es| && es[j] == LockAndValidate(a)
    && forall k :: j < k <= |es| ==>
         var t := At(s, es, k);
         t.lockedBy == Some(a) && t.normRevision == At(s, es, j).normRevision == 0
         && t.principalGranted && At(s, es, j).principalGranted
  }

  lemma AtPrefix(s: State, es: seq<Event>, k: nat)
    requires Runs(s, es) && es != [] && k < |es|
    ensures Runs(s, es[..|es| - 1]) && At(s, es, k) == At(s, es[..|es| - 1], k)
  {
    assert es[..|es| - 1][..k] == es[..k];
  }

  lemma HeldStart(s: State, es: seq<Event>, a: nat)
    requires Runs(s, es) && es != [] && es[|es| - 1] == LockAndValidate(a)
    ensures HeldSince(s, es, |es| - 1, a)
  {
    var m := |es| - 1;
    assert es[..|es|] == es;
    assert At(s, es, |es|) == Apply(At(s, es, m), LockAndValidate(a));
  }

  lemma HeldExtend(s: State, es: seq<Event>, j: nat, a: nat)
    requires Runs(s, es) && es != [] && Runs(s, es[..|es| - 1]) && HeldSince(s, es[..|es| - 1], j, a)
    requires After(s, es).lockedBy == Some(a) && After(s, es).normRevision == 0 && After(s, es).principalGranted
    ensures HeldSince(s, es, j, a)
  {
    hide Enabled, Apply;
    var m := |es| - 1;
    AtPrefix(s, es, j);
    forall k | j < k <= |es|
      ensures At(s, es, k).lockedBy == Some(a) && At(s, es, k).normRevision == 0 && At(s, es, k).principalGranted
    {
      if k < |es| {
        AtPrefix(s, es, k);
        assert At(s, es[..m], k).lockedBy == Some(a);
      } else {
        assert es[..k] == es;
      }
    }
    assert At(s, es[..m], j + 1).lockedBy == Some(a);
    assert es[j] == es[..m][j];
  }

  lemma {:induction false} LockHeldSince(n: nat, es: seq<Event>, a: nat) returns (j: nat)
    requires n > 0 && Runs(Init(n), es) && After(Init(n), es).lockedBy == Some(a)
    ensures HeldSince(Init(n), es, j, a)
  {
    var m := |es| - 1;
    ComposedSafety(n, es);
    if es[m] == LockAndValidate(a) {
      j := m;
      HeldStart(Init(n), es, a);
    } else {
      StepLock(After(Init(n), es[..m]), es[m], a);
      j := LockHeldSince(n, es[..m], a);
      HeldExtend(Init(n), es, j, a);
    }
  }

  /** However crashes, takeovers, releases and revocations interleave, a CAS fires only
      under one unbroken hold of the ledger since its validation, with the norm
      revision and the original principal's grant as validated, no branch hold or
      revocation ever, and by the current owner with the owner's fence. */
  lemma CasUnderUnbrokenLock(n: nat, es: seq<Event>, a: nat) returns (j: nat)
    requires n > 0 && Runs(Init(n), es) && Enabled(After(Init(n), es), Cas(a))
    ensures HeldSince(Init(n), es, j, a)
    ensures Hold !in es && RevokeGrant !in es && (forall b :: Cas(b) !in es)
    ensures After(Init(n), es).owner == a && After(Init(n), es).fences[a] == Some(After(Init(n), es).ownerFence)
  {
    j := LockHeldSince(n, es, a);
    ComposedSafety(n, es);
    History(n, es);
  }

  /** What a state shows of holds, revocations and admissions so far. */
  predicate Marked(s: State, held: bool, revoked: bool, landed: bool) {
    s.held == held == (s.branchEpoch > 0) && revoked == (s.normRevision > 0) && s.principalGranted == !revoked
    && (landed ==> s.trunk == 1)
  }

  lemma StepMarked(s: State, e: Event, held: bool, revoked: bool, landed: bool)
    requires Enabled(s, e) && Marked(s, held, revoked, landed)
    ensures Marked(Apply(s, e), held || e == Hold, revoked || e == RevokeGrant, landed || e.Cas?)
  {
    if e.RevokeGrant? || e.Hold? || e.Cas? { MarkedPremise(s, e, held, revoked, landed); }
    else { MarkedPlain(s, e); }
  }

  lemma MarkedPremise(s: State, e: Event, held: bool, revoked: bool, landed: bool)
    requires Enabled(s, e) && Marked(s, held, revoked, landed) && (e.RevokeGrant? || e.Hold? || e.Cas?)
    ensures Marked(Apply(s, e), held || e == Hold, revoked || e == RevokeGrant, landed || e.Cas?)
  {
  }

  lemma MarkedPlain(s: State, e: Event)
    requires Enabled(s, e) && !(e.RevokeGrant? || e.Hold? || e.Cas?)
    ensures var t := Apply(s, e);
      t.held == s.held && t.branchEpoch == s.branchEpoch && t.normRevision == s.normRevision
      && t.principalGranted == s.principalGranted && t.trunk == s.trunk
  {
  }

  ghost predicate AnyCas(es: seq<Event>) { exists k :: 0 <= k < |es| && es[k].Cas? }

  lemma AnyCasSnoc(es: seq<Event>, e: Event)
    ensures AnyCas(es + [e]) <==> AnyCas(es) || e.Cas?
  {
    if e.Cas? { assert (es + [e])[|es|].Cas?; }
    if k :| 0 <= k < |es| && es[k].Cas? { assert (es + [e])[k].Cas?; }
  }

  /** A hold, a revocation or an admission leaves its mark in every later state. */
  lemma {:induction false} History(n: nat, es: seq<Event>)
    requires n > 0 && Runs(Init(n), es)
    ensures Marked(After(Init(n), es), Hold in es, RevokeGrant in es, AnyCas(es))
  {
    if es != [] {
      var before, e := es[..|es| - 1], es[|es| - 1];
      History(n, before);
      StepMarked(After(Init(n), before), e, Hold in before, RevokeGrant in before, AnyCas(before));
      hide Marked, Enabled, Apply;
      assert es == before + [e];
      AnyCasSnoc(before, e);
    }
  }

  // ------------------------------------------------------- what can still land

  /** The tables cover the operators, and the ledger is held by a live one. */
  predicate Sized(s: State, n: nat) {
    |s.up| == |s.fences| == n && (s.lockedBy.Some? ==> s.lockedBy.value < n && s.up[s.lockedBy.value])
  }

  lemma StepSized(s: State, e: Event, n: nat)
    requires Enabled(s, e) && Sized(s, n)
    ensures Sized(Apply(s, e), n)
  {
    if e.Crash? || e.Restart? || e.Takeover? { SizedTables(s, e, n); }
    else if e.LockAndValidate? || e.ReleaseLedger? || e.Cas? { SizedLedger(s, e, n); }
    else { SizedPlain(s, e); }
  }

  lemma SizedTables(s: State, e: Event, n: nat)
    requires Enabled(s, e) && Sized(s, n) && (e.Crash? || e.Restart? || e.Takeover?)
    ensures Sized(Apply(s, e), n)
  {
  }

  lemma SizedLedger(s: State, e: Event, n: nat)
    requires Enabled(s, e) && Sized(s, n) && (e.LockAndValidate? || e.ReleaseLedger? || e.Cas?)
    ensures Sized(Apply(s, e), n)
  {
  }

  lemma SizedPlain(s: State, e: Event)
    requires Enabled(s, e)
    requires e.GatePass? || e.RevokeGrant? || e.Hold? || e.RecoverReceipt? || e.Precheck?
    ensures var t := Apply(s, e); t.up == s.up && t.fences == s.fences && t.lockedBy == s.lockedBy
  {
  }

  lemma {:induction false} Standing(n: nat, es: seq<Event>)
    requires n > 0 && Runs(Init(n), es)
    ensures Sized(After(Init(n), es), n)
  {
    if es != [] {
      Standing(n, es[..|es| - 1]);
      StepSized(After(Init(n), es[..|es| - 1]), es[|es| - 1], n);
    }
  }

  lemma Extend(s: State, es: seq<Event>, e: Event)
    requires Runs(s, es) && Enabled(After(s, es), e)
    ensures Runs(s, es + [e]) && After(s, es + [e]) == Apply(After(s, es), e)
  {
    assert (es + [e])[..|es|] == es;
  }

  /** Continues with `e` if it is needed. */
  lemma ExtendIf(s: State, es: seq<Event>, needed: bool, e: Event) returns (more: seq<Event>)
    requires Runs(s, es) && (needed ==> Enabled(After(s, es), e))
    ensures es <= more && Runs(s, more) && After(s, more) == if needed then Apply(After(s, es), e) else After(s, es)
  {
    more := es;
    if needed {
      Extend(s, es, e);
      more := es + [e];
    }
  }

  /** Passes the gate, breaks a stale lock and brings operator 0 up. */
  lemma MakeReady(n: nat, past: seq<Event>) returns (es: seq<Event>)
    requires n > 0 && Runs(Init(n), past) && After(Init(n), past).trunk == 0
    requires Hold !in past && RevokeGrant !in past
    ensures past <= es && Runs(Init(n), es)
    ensures var s := After(Init(n), es);
      Marked(s, false, false, false) && Sized(s, n) && s.gatePassed && s.lockedBy.None? && s.up[0] && s.trunk == 0
  {
    hide Runs, After, Init;
    History(n, past);
    Standing(n, past);
    var s := After(Init(n), past);
    es := ExtendIf(Init(n), past, !s.gatePassed, GatePass);
    es := ExtendIf(Init(n), es, s.lockedBy.Some?, Crash(if s.lockedBy.Some? then s.lockedBy.value else 0));
    es := ExtendIf(Init(n), es, !After(Init(n), es).up[0], Restart(0));
  }

  lemma Land(n: nat, past: seq<Event>) returns (es: seq<Event>)
    requires n > 0 && Runs(Init(n), past) && After(Init(n), past).trunk == 0
    requires Hold !in past && RevokeGrant !in past
    ensures past <= es && Runs(Init(n), es) && After(Init(n), es).trunk == 1
  {
    es := MakeReady(n, past);
    hide Runs, After, Init;
    es := ExtendIf(Init(n), es, true, Takeover(0));
    es := ExtendIf(Init(n), es, true, LockAndValidate(0));
    es := ExtendIf(Init(n), es, true, Cas(0));
  }

  lemma {:induction false} LandedBy(n: nat, es: seq<Event>) returns (k: nat)
    requires n > 0 && Runs(Init(n), es) && After(Init(n), es).trunk == 1
    ensures k < |es| && es[k].Cas? && Enabled(At(Init(n), es, k), es[k])
  {
    var m := |es| - 1;
    if es[m].Cas? {
      k := m;
    } else {
      k := LandedBy(n, es[..m]);
      AtPrefix(Init(n), es, k);
    }
  }

  ghost predicate Lands(n: nat, past: seq<Event>, es: seq<Event>)
    requires n > 0
  {
    past <= es && Runs(Init(n), es) && After(Init(n), es).trunk == 1
  }

  /** From every reachable state before the admission, crashed and taken over as it may
      be, some continuation lands the candidate exactly if the branch was never held
      and the grant never revoked. */
  lemma CanLandIff(n: nat, past: seq<Event>)
    requires n > 0 && Runs(Init(n), past) && After(Init(n), past).trunk == 0
    ensures (exists es :: Lands(n, past, es)) <==> Hold !in past && RevokeGrant !in past
  {
    if Hold !in past && RevokeGrant !in past {
      var es := Land(n, past);
      assert Lands(n, past, es);
    }
    forall es | Lands(n, past, es) ensures Hold !in past && RevokeGrant !in past {
      LandingIsUnfenced(n, past, es);
    }
  }

  lemma LandingIsUnfenced(n: nat, past: seq<Event>, es: seq<Event>)
    requires n > 0 && Runs(Init(n), past) && After(Init(n), past).trunk == 0 && Lands(n, past, es)
    ensures Hold !in past && RevokeGrant !in past
  {
    var k := LandedBy(n, es);
    RunsPrefix(Init(n), es, k);
    var j := CasUnderUnbrokenLock(n, es[..k], es[k].a);
    History(n, past);
    assert !AnyCas(past);
    assert forall i :: 0 <= i < |past| ==> past[i] == es[i];
    assert forall x :: x in past ==> x in es[..k] by {
      forall i | 0 <= i < |past| ensures past[i] in es[..k] { assert past[i] == es[..k][i]; }
    }
  }
}
