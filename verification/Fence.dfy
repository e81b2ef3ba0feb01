/** Two admission fences for one prepared candidate. In `Policy`, the hold, the
    owner fence and the trunk ref live in one authority. In `Reservation`, the
    topology authority owns holds and reservations, the ref authority owns the
    trunk and a token fence, and tokens travel late and outlive crashes. Every
    run of the second is, step for step, a run of the first. */
module Fence {
  import opened Common

  // --------------------------------------------------- one authority

  /** Who moved trunk, and the policy epoch, owner epoch and hold it was checked against. */
  datatype Admission = Admission(actor: nat, epoch: nat, ownerEpoch: nat, held: bool)

  /** `fences[a]` is the owner fence actor `a` holds, if any, and `takers[f]` the actor
      that fence `f` was minted for. */
  datatype Policy = Policy(
    epoch: nat, held: bool, owner: nat, ownerEpoch: nat, fences: seq<Option<nat>>, takers: seq<nat>,
    gatePassed: bool, trunk: nat, admission: Option<Admission>, receipt: bool, up: seq<bool>)

  datatype PolicyEvent =
    | PGatePass
    | PHold
    | PRelease
    | PTakeover(actor: nat)
    | PCrash(actor: nat)
    | PRestart(actor: nat)
    | PRecoverReceipt
    | PCas(actor: nat)

  function PolicyInit(n: nat): Policy
    requires n > 0
  {
    Policy(0, false, 0, 0, seq(n, a => if a == 0 then Some(0) else None), [0], false, 0, None, false, seq(n, _ => true))
  }

  predicate PolicyEnabled(s: Policy, e: PolicyEvent) {
    match e
    case PGatePass => !s.gatePassed
    case PHold => true
    case PRelease => s.held
    case PTakeover(a) => a < |s.fences|
    case PCrash(a) => a < |s.up| && s.up[a]
    case PRestart(a) => a < |s.up| && !s.up[a]
    case PRecoverReceipt => s.admission.Some? && !s.receipt
    case PCas(a) =>
      s.gatePassed && s.trunk == 0 && a < |s.up| && s.up[a]
      && !s.held && s.epoch == 0
      && s.owner == a && a < |s.fences| && s.fences[a] == Some(s.ownerEpoch)
  }

  function PolicyApply(s: Policy, e: PolicyEvent): Policy
    requires PolicyEnabled(s, e)
  {
    match e
    case PGatePass => s.(gatePassed := true)
    case PHold => s.(held := true, epoch := s.epoch + 1)
    case PRelease => s.(held := false, epoch := s.epoch + 1)
    case PTakeover(a) =>
      s.(owner := a, ownerEpoch := s.ownerEpoch + 1, fences := s.fences[a := Some(s.ownerEpoch + 1)],
        takers := s.takers + [a])
    case PCrash(a) => s.(up := s.up[a := false])
    case PRestart(a) => s.(up := s.up[a := true])
    case PRecoverReceipt => s.(receipt := true)
    case PCas(a) => s.(trunk := 1, admission := Some(Admission(a, s.epoch, s.ownerEpoch, s.held)))
  }

  predicate PolicyRuns(s: Policy, es: seq<PolicyEvent>)
    decreases |es|
  {
    es == [] || (PolicyEnabled(s, es[0]) && PolicyRuns(PolicyApply(s, es[0]), es[1..]))
  }

  function PolicyAfter(s: Policy, es: seq<PolicyEvent>): Policy
    requires PolicyRuns(s, es)
    decreases |es|
  {
    if es == [] then s else PolicyAfter(PolicyApply(s, es[0]), es[1..])
  }

  // -------------------------------------------------- two authorities

  /** Token 0 stands for "no token"; `topOwner` is -1 without a reservation. */
  datatype Reservation = Reservation(
    topToken: nat, topOwner: int, held: bool, holdRequested: bool, takeoverRequested: bool,
    refActive: nat, refFence: nat, trunk: nat, acceptedToken: nat,
    acceptedAfterHold: bool, acceptedByFormerOwner: bool, gatePassed: bool, receipt: bool,
    tokens: seq<nat>, up: seq<bool>)

  datatype Event =
    | GatePass
    | Reserve
    | RequestHold
    | RequestTakeover
    | Crash(actor: nat)
    | Restart(actor: nat)
    | RecoverReceipt
    | Grant(actor: nat)
    | Cas(actor: nat)
    | Revoke
    | AckHold
    | AckTakeover(actor: nat)

  function Init(n: nat): Reservation
    requires n > 0
  {
    Reservation(0, -1, false, false, false, 0, 0, 0, 0, false, false, false, false, seq(n, _ => 0), seq(n, _ => true))
  }

  /** A live actor that holds a token; tokens survive crashes. */
  predicate Bearer(s: Reservation, a: nat) {
    a < |s.tokens| && a < |s.up| && s.up[a] && s.tokens[a] != 0
  }

  predicate Enabled(s: Reservation, e: Event) {
    match e
    case GatePass => !s.gatePassed
    case Reserve => s.topToken == 0 && !s.held && s.acceptedToken == 0 && |s.tokens| > 0
    case RequestHold => s.topToken != 0 && !s.holdRequested && !s.held
    case RequestTakeover => s.topToken != 0 && !s.takeoverRequested
    case Crash(a) => a < |s.up| && s.up[a]
    case Restart(a) => a < |s.up| && !s.up[a]
    case RecoverReceipt => s.acceptedToken != 0 && !s.receipt
    case Grant(a) => Bearer(s, a) && s.refActive == 0 && s.acceptedToken == 0 && s.tokens[a] > s.refFence
    case Cas(a) => Bearer(s, a) && s.gatePassed && s.refActive == s.tokens[a] && s.trunk == 0
    case Revoke =>
      s.topToken != 0 && (s.holdRequested || s.takeoverRequested) && s.refFence < s.topToken && s.acceptedToken == 0
    case AckHold => s.holdRequested && !s.held && s.refFence >= s.topToken
    case AckTakeover(a) =>
      s.takeoverRequested && !s.held && s.refFence >= s.topToken && s.acceptedToken == 0 && a < |s.tokens|
  }

  function Apply(s: Reservation, e: Event): Reservation
    requires Enabled(s, e)
  {
    match e
    case GatePass => s.(gatePassed := true)
    case Reserve => s.(topToken := 1, topOwner := 0, tokens := s.tokens[0 := 1])
    case RequestHold => s.(holdRequested := true)
    case RequestTakeover => s.(takeoverRequested := true)
    case Crash(a) => s.(up := s.up[a := false])
    case Restart(a) => s.(up := s.up[a := true])
    case RecoverReceipt => s.(receipt := true)
    case Grant(a) => s.(refActive := s.tokens[a])
    case Cas(a) =>
      s.(trunk := 1, acceptedToken := s.tokens[a], refActive := 0,
         refFence := if s.refFence > s.tokens[a] then s.refFence else s.tokens[a],
         acceptedAfterHold := s.held, acceptedByFormerOwner := a != s.topOwner)
    case Revoke =>
      s.(refActive := if s.refActive == s.topToken then 0 else s.refActive, refFence := s.topToken)
    case AckHold =>
      s.(held := true, topToken := 0, topOwner := -1, holdRequested := false, takeoverRequested := false)
    case AckTakeover(a) =>
      s.(topToken := s.topToken + 1, topOwner := a, takeoverRequested := false, tokens := s.tokens[a := s.topToken + 1])
  }

  predicate Runs(s: Reservation, es: seq<Event>)
    decreases |es|
  {
    es == [] || (Enabled(s, es[0]) && Runs(Apply(s, es[0]), es[1..]))
  }

  function After(s: Reservation, es: seq<Event>): Reservation
    requires Runs(s, es)
    decreases |es|
  {
    if es == [] then s else After(Apply(s, es[0]), es[1..])
  }

  // ------------------------------------------------------- refinement

  /** The single-authority steps a reservation step stands for: requests, grants,
      revocations and the reservation itself are invisible. */
  function Abstract(e: Event): seq<PolicyEvent> {
    match e
    case GatePass => [PGatePass]
    case Crash(a) => [PCrash(a)]
    case Restart(a) => [PRestart(a)]
    case RecoverReceipt => [PRecoverReceipt]
    case Cas(a) => [PCas(a)]
    case AckHold => [PHold]
    case AckTakeover(a) => [PTakeover(a)]
    case _ => []
  }

  function AbstractRun(es: seq<Event>): seq<PolicyEvent> {
    if es == [] then [] else Abstract(es[0]) + AbstractRun(es[1..])
  }

  /** Every token below the reservation's own is fenced off at the ref authority,
      and after a hold all of them are. */
  ghost predicate Fenced(s: Reservation) {
    (forall a :: 0 <= a < |s.tokens| && s.tokens[a] != 0 && (s.held || s.tokens[a] != s.topToken) ==>
      s.tokens[a] <= s.refFence)
    && (s.refActive != 0 ==> s.refActive > s.refFence && s.refActive == s.topToken)
    && (s.acceptedToken != 0 ==> s.refActive == 0)
    && (s.held ==> s.topToken == 0 && s.refActive == 0)
    && (s.topToken != 0 ==> s.refFence <= s.topToken)
    && (s.topToken == 0 ==> !s.holdRequested && !s.takeoverRequested)
    && (s.topToken == 0 && !s.held ==>
         s.acceptedToken == 0 && s.refFence == 0 && forall a :: 0 <= a < |s.tokens| ==> s.tokens[a] == 0)
  }

  /** The reservation's owner, and only it, bears the reservation's token. */
  ghost predicate Owned(s: Reservation) {
    s.topToken != 0 ==>
      0 <= s.topOwner < |s.tokens| && s.tokens[s.topOwner] == s.topToken
      && forall a :: 0 <= a < |s.tokens| && a != s.topOwner ==> s.tokens[a] < s.topToken
  }

  ghost predicate Sound(s: Reservation) {
    |s.tokens| == |s.up| > 0 && Fenced(s) && Owned(s)
    && (s.trunk == 1 <==> s.acceptedToken != 0) && s.trunk <= 1
  }

  lemma SoundStep(s: Reservation, e: Event)
    requires Sound(s) && Enabled(s, e)
    ensures Sound(Apply(s, e))
  {
    hide Sound, Enabled, Apply;
    match e
    case Reserve => SoundReserve(s);
    case Grant(a) => SoundGrant(s, a);
    case Cas(a) => SoundCas(s, a);
    case Revoke => SoundRevoke(s);
    case AckHold => SoundAckHold(s);
    case AckTakeover(a) => SoundAckTakeover(s, a);
    case _ => SoundPlain(s, e);
  }

  /** The steps that move no token. */
  predicate IsPlain(e: Event) {
    e.GatePass? || e.RequestHold? || e.RequestTakeover? || e.Crash? || e.Restart? || e.RecoverReceipt?
  }

  lemma SoundPlain(s: Reservation, e: Event)
    requires Sound(s) && Enabled(s, e) && IsPlain(e)
    ensures Sound(Apply(s, e))
  {
  }

  lemma SoundReserve(s: Reservation)
    requires Sound(s) && Enabled(s, Reserve)
    ensures Sound(Apply(s, Reserve))
  {
  }

  lemma SoundGrant(s: Reservation, a: nat)
    requires Sound(s) && Enabled(s, Grant(a))
    ensures Sound(Apply(s, Grant(a)))
  {
  }

  lemma SoundCas(s: Reservation, a: nat)
    requires Sound(s) && Enabled(s, Cas(a))
    ensures Sound(Apply(s, Cas(a)))
  {
  }

  lemma SoundRevoke(s: Reservation)
    requires Sound(s) && Enabled(s, Revoke)
    ensures Sound(Apply(s, Revoke))
  {
  }

  lemma SoundAckHold(s: Reservation)
    requires Sound(s) && Enabled(s, AckHold)
    ensures Sound(Apply(s, AckHold))
  {
  }

  lemma SoundAckTakeover(s: Reservation, a: nat)
    requires Sound(s) && Enabled(s, AckTakeover(a))
    ensures Sound(Apply(s, AckTakeover(a)))
  {
  }

  /** The single-authority state a reservation state implements. */
  ghost predicate Implements(s: Reservation, p: Policy) { Sound(s) && Matches(s, p) }

  ghost predicate Matches(s: Reservation, p: Policy) {
    |p.fences| == |s.tokens| && p.up == s.up
    && p.gatePassed == s.gatePassed && p.trunk == s.trunk && p.receipt == s.receipt
    && p.held == s.held && p.epoch == (if s.held then 1 else 0)
    && (p.admission.Some? <==> s.acceptedToken != 0)
    && (p.admission.Some? ==>
         var adm := p.admission.value;
         adm.actor < |s.tokens| && s.tokens[adm.actor] == s.acceptedToken == adm.ownerEpoch + 1
         && adm.held == s.acceptedAfterHold)
    && !s.acceptedByFormerOwner && (s.acceptedAfterHold ==> p.admission.Some?)
    && (s.topToken != 0 ==>
          p.owner == s.topOwner && p.ownerEpoch + 1 == s.topToken && p.owner < |p.fences|
            && p.fences[p.owner] == Some(p.ownerEpoch))
    && (s.topToken == 0 && !s.held ==> p.owner == 0 && p.ownerEpoch == 0 && 0 < |p.fences| && p.fences[0] == Some(0))
  }

  lemma InitImplements(n: nat)
    requires n > 0
    ensures Implements(Init(n), PolicyInit(n))
  {
  }

  /** Each reservation step is matched by the single-authority steps it stands for. */
  lemma Simulation(s: Reservation, p: Policy, e: Event)
    requires Implements(s, p) && Enabled(s, e)
    ensures PolicyRuns(p, Abstract(e)) && Implements(Apply(s, e), PolicyAfter(p, Abstract(e)))
  {
    hide Sound, Matches, Enabled, Apply, PolicyEnabled, PolicyApply, PolicyRuns, PolicyAfter;
    SoundStep(s, e);
    match e
    case GatePass => SimPlain(s, p, e, PGatePass); PolicyOne(p, PGatePass);
    case Crash(a) => SimPlain(s, p, e, PCrash(a)); PolicyOne(p, PCrash(a));
    case Restart(a) => SimPlain(s, p, e, PRestart(a)); PolicyOne(p, PRestart(a));
    case RecoverReceipt => SimPlain(s, p, e, PRecoverReceipt); PolicyOne(p, PRecoverReceipt);
    case Cas(a) => SimCas(s, p, a); PolicyOne(p, PCas(a));
    case AckHold => SimAckHold(s, p); PolicyOne(p, PHold);
    case AckTakeover(a) => SimAckTakeover(s, p, a); PolicyOne(p, PTakeover(a));
    case _ => SimSilent(s, p, e); PolicyNone(p);
  }

  lemma PolicyNone(p: Policy)
    ensures PolicyRuns(p, []) && PolicyAfter(p, []) == p
  {
  }

  lemma PolicyOne(p: Policy, e: PolicyEvent)
    requires PolicyEnabled(p, e)
    ensures PolicyRuns(p, [e]) && PolicyAfter(p, [e]) == PolicyApply(p, e)
  {
    hide PolicyEnabled, PolicyApply;
    assert [e][1..] == [];
  }

  lemma SimPlain(s: Reservation, p: Policy, e: Event, pe: PolicyEvent)
    requires Sound(s) && Matches(s, p) && Enabled(s, e) && Abstract(e) == [pe]
    requires e.GatePass? || e.Crash? || e.Restart? || e.RecoverReceipt?
    ensures PolicyEnabled(p, pe) && Matches(Apply(s, e), PolicyApply(p, pe))
  {
    assert pe == [pe][0];
    hide Fenced, Owned;
  }

  lemma SimCas(s: Reservation, p: Policy, a: nat)
    requires Sound(s) && Matches(s, p) && Enabled(s, Cas(a))
    ensures PolicyEnabled(p, PCas(a)) && Matches(Apply(s, Cas(a)), PolicyApply(p, PCas(a)))
  {
    assert s.topToken != 0 && s.topOwner == a;
  }

  lemma SimAckHold(s: Reservation, p: Policy)
    requires Sound(s) && Matches(s, p) && Enabled(s, AckHold)
    ensures PolicyEnabled(p, PHold) && Matches(Apply(s, AckHold), PolicyApply(p, PHold))
  {
  }

  lemma SimAckTakeover(s: Reservation, p: Policy, a: nat)
    requires Sound(s) && Matches(s, p) && Enabled(s, AckTakeover(a))
    ensures PolicyEnabled(p, PTakeover(a)) && Matches(Apply(s, AckTakeover(a)), PolicyApply(p, PTakeover(a)))
  {
  }

  lemma SimSilent(s: Reservation, p: Policy, e: Event)
    requires Sound(s) && Matches(s, p) && Enabled(s, e) && Abstract(e) == []
    ensures Matches(Apply(s, e), p)
  {
  }

  lemma {:induction false} PolicyRunsJoin(p: Policy, a: seq<PolicyEvent>, b: seq<PolicyEvent>)
    requires PolicyRuns(p, a) && PolicyRuns(PolicyAfter(p, a), b)
    ensures PolicyRuns(p, a + b) && PolicyAfter(p, a + b) == PolicyAfter(PolicyAfter(p, a), b)
    decreases |a|
  {
    if a == [] {
      assert a + b == b;
    } else {
      PolicyRunsJoin(PolicyApply(p, a[0]), a[1..], b);
      assert (a + b)[1..] == a[1..] + b;
    }
  }

  lemma {:induction false} RunSimulation(s: Reservation, p: Policy, es: seq<Event>)
    requires Implements(s, p) && Runs(s, es)
    ensures PolicyRuns(p, AbstractRun(es)) && Implements(After(s, es), PolicyAfter(p, AbstractRun(es)))
    decreases |es|
  {
    hide Implements, Apply, Enabled, PolicyApply, PolicyEnabled, Abstract;
    if es != [] {
      Simulation(s, p, es[0]);
      var q := PolicyAfter(p, Abstract(es[0]));
      RunSimulation(Apply(s, es[0]), q, es[1..]);
      PolicyRunsJoin(p, Abstract(es[0]), AbstractRun(es[1..]));
    }
  }

  // ---------------------------------------------------------- results

  /** The checks of both explorers. The fence of an admission must have been minted for
      the actor that admitted, and the current one for the current owner. */
  predicate PolicyClean(p: Policy) {
    p.trunk == (if p.admission.Some? then 1 else 0)
    && (p.admission.Some? ==>
          var adm := p.admission.value;
          !adm.held && adm.epoch == 0 && adm.ownerEpoch < |p.takers| && p.takers[adm.ownerEpoch] == adm.actor)
    && (p.receipt ==> p.admission.Some?)
    && |p.takers| == p.ownerEpoch + 1 && p.takers[p.ownerEpoch] == p.owner
  }

  predicate ReservationClean(s: Reservation) {
    s.trunk == (if s.acceptedToken != 0 then 1 else 0)
    && !s.acceptedAfterHold && !s.acceptedByFormerOwner
    && (s.receipt ==> s.acceptedToken != 0)
  }

  lemma {:induction false} PolicySafety(p: Policy, es: seq<PolicyEvent>)
    requires PolicyClean(p) && PolicyRuns(p, es)
    ensures PolicyClean(PolicyAfter(p, es))
    decreases |es|
  {
    if es != [] {
      PolicyStepClean(p, es[0]);
      hide PolicyClean, PolicyEnabled, PolicyApply;
      PolicySafety(PolicyApply(p, es[0]), es[1..]);
    }
  }

  lemma PolicyStepClean(p: Policy, e: PolicyEvent)
    requires PolicyClean(p) && PolicyEnabled(p, e)
    ensures PolicyClean(PolicyApply(p, e))
  {
  }

  /** Refinement: mapping acknowledgements to the policy steps and erasing the
      rest turns every reservation run into a single-authority run that ends in
      the state it implements; so the reservation run is clean as well. */
  lemma ReservationRefinesPolicy(n: nat, es: seq<Event>)
    requires n > 0 && Runs(Init(n), es)
    ensures PolicyRuns(PolicyInit(n), AbstractRun(es))
    ensures Implements(After(Init(n), es), PolicyAfter(PolicyInit(n), AbstractRun(es)))
    ensures ReservationClean(After(Init(n), es))
  {
    InitImplements(n);
    RunSimulation(Init(n), PolicyInit(n), es);
    PolicySafety(PolicyInit(n), AbstractRun(es));
  }

  /** The owner after a history that started with owner `o`. */
  function OwnerAfter(o: nat, es: seq<PolicyEvent>): nat
    decreases |es|
  {
    if es == [] then o else OwnerAfter(if es[0].PTakeover? then es[0].actor else o, es[1..])
  }

  /** A history is in the state: the owner is the last taker, any hold or release
      moved the policy epoch for good, and only a CAS moves trunk. */
  lemma {:induction false} PolicyHistory(p: Policy, es: seq<PolicyEvent>)
    requires PolicyRuns(p, es)
    ensures PolicyAfter(p, es).owner == OwnerAfter(p.owner, es)
    ensures PolicyAfter(p, es).epoch >= p.epoch && PolicyAfter(p, es).trunk >= p.trunk
    ensures PHold in es || PRelease in es ==> PolicyAfter(p, es).epoch > p.epoch
    ensures (exists a :: PCas(a) in es) <==> PolicyAfter(p, es).trunk > p.trunk
    decreases |es|
  {
    if es != [] {
      PolicyHistory(PolicyApply(p, es[0]), es[1..]);
      assert es == [es[0]] + es[1..];
    }
  }

  /** What admits a candidate: no hold or release ever before, no earlier admission,
      and the actor that last took over (or the first owner). */
  lemma PolicyCasHistory(n: nat, es: seq<PolicyEvent>, a: nat)
    requires n > 0 && PolicyRuns(PolicyInit(n), es) && PolicyEnabled(PolicyAfter(PolicyInit(n), es), PCas(a))
    ensures PHold !in es && PRelease !in es && a == OwnerAfter(0, es) && forall b :: PCas(b) !in es
  {
    PolicyHistory(PolicyInit(n), es);
  }

  lemma {:induction false} AbstractHas(es: seq<Event>, e: Event)
    requires e in es
    ensures forall pe :: pe in Abstract(e) ==> pe in AbstractRun(es)
  {
    if es[0] != e { AbstractHas(es[1..], e); }
  }

  lemma {:induction false} RunsSplit(s: Reservation, a: seq<Event>, b: seq<Event>)
    requires Runs(s, a + b)
    ensures Runs(s, a) && Runs(After(s, a), b)
    decreases |a|
  {
    if a == [] {
      assert a + b == b;
    } else {
      assert (a + b)[1..] == a[1..] + b;
      RunsSplit(Apply(s, a[0]), a[1..], b);
    }
  }

  /** In a reservation run, however delayed its grants and however often its actors
      crash and restart: trunk moves at most once, never after an acknowledged
      hold, and only by the actor of the last acknowledged takeover. */
  lemma CasHistory(n: nat, es: seq<Event>, a: nat)
    requires n > 0 && Runs(Init(n), es + [Cas(a)])
    ensures AckHold !in es && (forall b :: Cas(b) !in es) && a == OwnerAfter(0, AbstractRun(es))
  {
    RunsSplit(Init(n), es, [Cas(a)]);
    ReservationRefinesPolicy(n, es);
    Simulation(After(Init(n), es), PolicyAfter(PolicyInit(n), AbstractRun(es)), Cas(a));
    PolicyCasHistory(n, AbstractRun(es), a);
    if AckHold in es { AbstractHas(es, AckHold); }
    forall b | Cas(b) in es ensures false { AbstractHas(es, Cas(b)); }
  }

  lemma {:induction false} RunsSnoc(s: Reservation, es: seq<Event>, e: Event)
    requires Runs(s, es) && Enabled(After(s, es), e)
    ensures Runs(s, es + [e]) && After(s, es + [e]) == Apply(After(s, es), e)
    decreases |es|
  {
    if es != [] {
      RunsSnoc(Apply(s, es[0]), es[1..], e);
      assert (es + [e])[1..] == es[1..] + [e];
    }
  }

  /** An unfenced reservation that has not landed. */
  ghost predicate Current(s: Reservation) {
    Sound(s) && s.trunk == 0 && s.topToken != 0 && s.refFence < s.topToken
  }

  lemma RunsOne(s: Reservation, e: Event)
    requires Sound(s) && Enabled(s, e)
    ensures Runs(s, [e]) && After(s, [e]) == Apply(s, e) && Sound(Apply(s, e))
  {
    SoundStep(s, e);
    RunsSnoc(s, [], e);
    assert [] + [e] == [e];
  }

  /** A reservation whose token the ref authority has not fenced: the first one,
      or a new one taken over from a fenced one. */
  lemma Renew(s: Reservation) returns (es: seq<Event>)
    requires Sound(s) && !s.held && s.trunk == 0
    ensures Runs(s, es) && Current(After(s, es))
  {
    if s.topToken == 0 {
      es := [Reserve];
      RunsOne(s, Reserve);
    } else if s.refFence < s.topToken {
      es := [];
    } else {
      var ask: seq<Event> := if s.takeoverRequested then [] else [RequestTakeover];
      if !s.takeoverRequested { RunsOne(s, RequestTakeover); }
      var t := After(s, ask);
      RunsOne(t, AckTakeover(s.topOwner));
      RunsJoin(s, ask, [AckTakeover(s.topOwner)]);
      es := ask + [AckTakeover(s.topOwner)];
    }
  }

  lemma RouseOwner(s: Reservation) returns (es: seq<Event>)
    requires Current(s)
    ensures Runs(s, es) && Current(After(s, es)) && After(s, es).up[After(s, es).topOwner]
  {
    es := if s.up[s.topOwner] then [] else [Restart(s.topOwner)];
    if !s.up[s.topOwner] { RunsOne(s, Restart(s.topOwner)); }
  }

  lemma PassGate(s: Reservation) returns (es: seq<Event>)
    requires Current(s) && s.up[s.topOwner]
    ensures Runs(s, es) && Current(After(s, es)) && After(s, es).up[After(s, es).topOwner] && After(s, es).gatePassed
  {
    es := if s.gatePassed then [] else [GatePass];
    if !s.gatePassed { RunsOne(s, GatePass); }
  }

  /** A live owner of an unfenced reservation can land the candidate. */
  lemma Land(s: Reservation) returns (es: seq<Event>)
    requires Current(s) && s.gatePassed && s.up[s.topOwner]
    ensures Runs(s, es) && After(s, es).trunk == 1
  {
    var owner: nat := s.topOwner;
    if s.refActive == 0 {
      RunsSnoc(s, [], Grant(owner));
      RunsSnoc(s, [Grant(owner)], Cas(owner));
      es := [Grant(owner)] + [Cas(owner)];
    } else {
      RunsSnoc(s, [], Cas(owner));
      es := [] + [Cas(owner)];
    }
  }

  lemma {:induction false} RunsJoin(s: Reservation, a: seq<Event>, b: seq<Event>)
    requires Runs(s, a) && Runs(After(s, a), b)
    ensures Runs(s, a + b) && After(s, a + b) == After(After(s, a), b)
    decreases |a|
  {
    hide Apply, Enabled;
    if a == [] {
      assert a + b == b;
    } else {
      RunsJoin(Apply(s, a[0]), a[1..], b);
      assert (a + b)[1..] == a[1..] + b;
    }
  }

  /** Revocation never strands the candidate: from every reachable state without an
      acknowledged hold, some continuation lands it. */
  lemma CandidateCanLand(n: nat, past: seq<Event>) returns (es: seq<Event>)
    requires n > 0 && Runs(Init(n), past) && !After(Init(n), past).held
    ensures Runs(After(Init(n), past), es) && After(After(Init(n), past), es).trunk == 1
  {
    ReservationRefinesPolicy(n, past);
    var s := After(Init(n), past);
    es := [];
    if s.trunk == 0 {
      var renew := Renew(s);
      var rouse := RouseOwner(After(s, renew));
      RunsJoin(s, renew, rouse);
      var pass := PassGate(After(s, renew + rouse));
      RunsJoin(s, renew + rouse, pass);
      var land := Land(After(s, renew + rouse + pass));
      RunsJoin(s, renew + rouse + pass, land);
      es := renew + rouse + pass + land;
    }
  }

  lemma StepHeld(s: Reservation, e: Event)
    requires Sound(s) && Enabled(s, e) && s.held && s.trunk == 0
    ensures Apply(s, e).held && Apply(s, e).trunk == 0
  {
  }

  lemma {:induction false} HeldNeverLands(s: Reservation, es: seq<Event>)
    requires Sound(s) && Runs(s, es) && s.held && s.trunk == 0
    ensures After(s, es).trunk == 0
    decreases |es|
  {
    if es != [] {
      StepHeld(s, es[0]);
      SoundStep(s, es[0]);
      HeldNeverLands(Apply(s, es[0]), es[1..]);
    }
  }

  ghost predicate Lands(s: Reservation, es: seq<Event>) { Runs(s, es) && After(s, es).trunk == 1 }

  /** An acknowledged hold is the only thing that keeps an unlanded candidate out. */
  lemma CanLandIff(n: nat, past: seq<Event>)
    requires n > 0 && Runs(Init(n), past) && After(Init(n), past).trunk == 0
    ensures (exists es :: Lands(After(Init(n), past), es)) <==> !After(Init(n), past).held
  {
    var s := After(Init(n), past);
    if !s.held {
      var es := CandidateCanLand(n, past);
      assert Lands(s, es);
    } else {
      ReservationRefinesPolicy(n, past);
      forall es ensures !Lands(s, es) {
        if Runs(s, es) { HeldNeverLands(s, es); }
      }
    }
  }
}
