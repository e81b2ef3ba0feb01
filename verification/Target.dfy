/** The owner of the file under mutation: it overwrites only its own last write,
    defers signals that arrive during a write, and keeps a recovery copy until the
    original bytes are back. */
module Target {
  import opened Common

  type Bytes = seq<int>

  datatype Exn = FileExists | FileMissing | ChangedOutside | DiskError | SystemExit(code: int)

  /** Where the `with` statement is. `__exit__` does not follow a failed `__enter__`. */
  datatype Phase = Fresh | Refused(because: Exn) | Active | Unwinding(why: Exn) | Exited(raised: Option<Exn>)

  /** What happens on a signal: what happened before, `interrupt`, or nothing. */
  datatype Handlers = Default | Ours | Ignored

  /** The two files and the owner's fields. */
  datatype World = World(
    target: Option<Bytes>, backup: Option<Bytes>, original: Bytes, written: Bytes,
    pending: Option<int>, handlers: Handlers, phase: Phase)

  /** What the operating system makes of a write: all of it, or an error that leaves
      some bytes behind. */
  datatype Disk = Wrote | Broke(left: Bytes)

  datatype Event =
    | Enter(opens: bool, disk: Disk, caught: Option<int>)
    | OutsideEdit(bytes: Option<Bytes>)
    | Signal(signum: int)
    | Write(content: Bytes, disk: Disk, during: seq<int>, after: Option<int>)
    | Exit(late: Option<int>, disk: Disk, unlinks: bool)

  // ---------------------------------------------------------------- steps

  /** `__enter__`: an existing recovery file is left alone; a signal can come in once
      the handlers are installed. */
  function EnterStep(w: World, opens: bool, disk: Disk, caught: Option<int>): World {
    if w.backup.Some? then w.(phase := Refused(FileExists))
    else if !opens then w.(phase := Refused(DiskError))
    else if disk.Broke? then w.(backup := Some(disk.left), phase := Refused(DiskError))
    else
      var x := w.(backup := Some(w.original));
      if caught.Some? then x.(handlers := Ignored, phase := Refused(SystemExit(128 + caught.value)))
      else x.(handlers := Ours, phase := Active)
  }

  /** Signals that arrive while the owner is writing: only the last one is kept. */
  function Defer(w: World, during: seq<int>): World {
    if !w.handlers.Ours? || during == [] then w else w.(pending := Some(during[|during| - 1]))
  }

  /** `write_bytes`, and the exception it raises. Signals can come in `during` the
      write, where they are deferred, and `after` it, before the deferred one is
      delivered. */
  function WriteStep(w: World, content: Bytes, disk: Disk, during: seq<int>, after: Option<int>): (World, Option<Exn>) {
    if w.target.None? then (w, Some(FileMissing))
    else if w.target.value != w.written then (w, Some(ChangedOutside))
    else if content == w.written then (w, None)
    else
      var d := Defer(w, during);
      var x := if disk.Broke? then d.(target := Some(disk.left)) else d.(target := Some(content), written := content);
      if after.Some? && w.handlers.Ours? then (x.(handlers := Ignored), Some(SystemExit(128 + after.value)))
      else if disk.Broke? then (x, Some(DiskError))
      else if x.pending.None? then (x, None)
      else (x.(pending := None, handlers := Ignored), Some(SystemExit(128 + x.pending.value)))
  }

  /** `__exit__`: a signal can still come in before they are ignored, and the earlier
      handlers are back afterwards. */
  function ExitStep(w: World, late: Option<int>, disk: Disk, unlinks: bool): World {
    if late.Some? && w.handlers.Ours? then w.(handlers := Default, phase := Exited(Some(SystemExit(128 + late.value))))
    else
      var (x, raised) := WriteStep(w.(handlers := Ignored), w.original, disk, [], None);
      if raised.Some? then x.(handlers := Default, phase := Exited(raised))
      else if !unlinks then x.(handlers := Default, phase := Exited(Some(DiskError)))
      else x.(backup := None, handlers := Default, phase := Exited(None))
  }

  predicate Enabled(w: World, e: Event) {
    match e
    case Enter(_, _, _) => w.phase == Fresh
    case OutsideEdit(_) => !w.phase.Exited?
    case Signal(_) => w.phase == Active || w.phase.Unwinding?
    case Write(_, _, _, _) => w.phase == Active
    case Exit(_, _, _) => w.phase == Active || w.phase.Unwinding?
  }

  function Apply(w: World, e: Event): World
    requires Enabled(w, e)
  {
    match e
    case Enter(opens, disk, caught) => EnterStep(w, opens, disk, caught)
    case OutsideEdit(bytes) => w.(target := bytes)
    case Signal(signum) =>
      if !w.handlers.Ours? then w else w.(handlers := Ignored, phase := Unwinding(SystemExit(128 + signum)))
    case Write(content, disk, during, after) =>
      var (x, raised) := WriteStep(w, content, disk, during, after);
      if raised.Some? then x.(phase := Unwinding(raised.value)) else x
    case Exit(late, disk, unlinks) => ExitStep(w, late, disk, unlinks)
  }

  predicate Runs(w: World, es: seq<Event>)
    decreases |es|, 0
  {
    es == [] || (Runs(w, es[..|es| - 1]) && Enabled(After(w, es[..|es| - 1]), es[|es| - 1]))
  }

  function After(w: World, es: seq<Event>): World
    requires Runs(w, es)
    decreases |es|, 1
  {
    if es == [] then w else Apply(After(w, es[..|es| - 1]), es[|es| - 1])
  }

  lemma Extend(w: World, es: seq<Event>, e: Event)
    requires Runs(w, es) && Enabled(After(w, es), e)
    ensures Runs(w, es + [e]) && After(w, es + [e]) == Apply(After(w, es), e)
  {
    assert (es + [e])[..|es|] == es;
  }

  /** Before `__enter__`: the target has just been read. */
  function Opened(target: Bytes, backup: Option<Bytes>): World {
    World(Some(target), backup, target, target, None, Default, Fresh)
  }

  // ----------------------------------------------- what the history of the file says

  /** The last event that changed the target was an edit by someone else. */
  predicate LastChangeOutside(w: World, es: seq<Event>)
    requires Runs(w, es)
    decreases |es|
  {
    es != []
    && var n := |es| - 1;
       if After(w, es).target == After(w, es[..n]).target then LastChangeOutside(w, es[..n]) else es[n].OutsideEdit?
  }

  /** The bytes of the owner's last write that went through, or those it started with. */
  function OwnBytes(w: World, es: seq<Event>): Bytes
    requires Runs(w, es)
    decreases |es|
  {
    if es == [] then w.written
    else
      var n := |es| - 1;
      var x := After(w, es);
      if x.target.Some? && x.target != After(w, es[..n]).target && (es[n].Write? || es[n].Exit?) && es[n].disk.Wrote?
      then x.target.value else OwnBytes(w, es[..n])
  }

  /** The target holds someone else's bytes. */
  predicate Foreign(w: World, es: seq<Event>)
    requires Runs(w, es)
  {
    LastChangeOutside(w, es) && After(w, es).target != Some(OwnBytes(w, es))
  }

  function LastEdit(es: seq<Event>, original: Bytes): Option<Bytes> {
    if es == [] then Some(original)
    else if es[|es| - 1].OutsideEdit? then es[|es| - 1].bytes else LastEdit(es[..|es| - 1], original)
  }

  lemma WriteRecords(w: World, content: Bytes, disk: Disk, during: seq<int>, after: Option<int>)
    ensures var (x, raised) := WriteStep(w, content, disk, during, after);
      x.original == w.original
      && x.written == (if x.target.Some? && x.target != w.target && disk.Wrote? then x.target.value else w.written)
      && (x.target != w.target ==> w.target == Some(w.written))
  {
  }

  lemma StepRecords(w: World, e: Event)
    requires Enabled(w, e)
    ensures Apply(w, e).original == w.original
    ensures var x := Apply(w, e);
      x.written ==
        if x.target.Some? && x.target != w.target && (e.Write? || e.Exit?) && e.disk.Wrote?
        then x.target.value else w.written
    ensures Apply(w, e).target != w.target && !e.OutsideEdit? ==> w.target == Some(w.written)
  {
    if e.Write? { WriteRecords(w, e.content, e.disk, e.during, e.after); }
    else if e.Exit? { WriteRecords(w.(handlers := Ignored), w.original, e.disk, [], None); }
  }

  /** The owner's record of its last write is right. */
  lemma {:induction false} RecordIsHistory(original: Bytes, backup: Option<Bytes>, es: seq<Event>)
    requires Runs(Opened(original, backup), es)
    ensures After(Opened(original, backup), es).written == OwnBytes(Opened(original, backup), es)
    ensures After(Opened(original, backup), es).original == original
  {
    if es != [] {
      var n := |es| - 1;
      RecordIsHistory(original, backup, es[..n]);
      StepRecords(After(Opened(original, backup), es[..n]), es[n]);
    }
  }

  /** In every run the owner changes the target only while it holds the bytes of the
      owner's own last write, or still those it started with. */
  lemma OnlyOwnBytesOverwritten(original: Bytes, backup: Option<Bytes>, es: seq<Event>, e: Event)
    requires var w := Opened(original, backup); Runs(w, es) && Enabled(After(w, es), e)
    requires !e.OutsideEdit?
    ensures var w := Opened(original, backup);
      Apply(After(w, es), e).target != After(w, es).target ==> After(w, es).target == Some(OwnBytes(w, es))
  {
    RecordIsHistory(original, backup, es);
    StepRecords(After(Opened(original, backup), es), e);
  }

  // ------------------------------------------------------------------ recovery

  /** The bytes read at the start can be recovered: before and without an entry the
      owner has touched nothing but a recovery file of its own, and after it the
      original is in one of the two files. */
  ghost predicate Conserved(w: World, start: World, es: seq<Event>) {
    w.original == start.original
    && match w.phase
       case Fresh => w.backup == start.backup && w.target == LastEdit(es, start.original)
       case Refused(because) =>
         w.target == LastEdit(es, start.original)
         && (because == FileExists <==> start.backup.Some?)
         && (because == FileExists ==> w.backup == start.backup)
         && (because.SystemExit? ==> w.backup == Some(w.original))
       case Active => start.backup.None? && w.backup == Some(w.original) && w.handlers.Ours?
       case Unwinding(_) => start.backup.None? && w.backup == Some(w.original) && !w.handlers.Default?
       case Exited(raised) =>
         start.backup.None? && w.handlers.Default?
         && if raised.Some? then w.backup == Some(w.original) else w.backup.None? && w.target == Some(w.original)
  }

  lemma StepConserved(w: World, start: World, es: seq<Event>, e: Event)
    requires Enabled(w, e) && Conserved(w, start, es)
    ensures Conserved(Apply(w, e), start, es + [e])
  {
    assert (es + [e])[..|es|] == es;
  }

  /** In every run, through outside edits, signals and failing writes, the original
      bytes are never lost, and an existing recovery file is never touched. */
  lemma {:induction false} OriginalNeverLost(original: Bytes, backup: Option<Bytes>, es: seq<Event>)
    requires Runs(Opened(original, backup), es)
    ensures Conserved(After(Opened(original, backup), es), Opened(original, backup), es)
    ensures backup.Some? ==> After(Opened(original, backup), es).backup == backup
  {
    var start := Opened(original, backup);
    if es != [] {
      var n := |es| - 1;
      OriginalNeverLost(original, backup, es[..n]);
      StepConserved(After(start, es[..n]), start, es[..n], es[n]);
      assert es[..n] + [es[n]] == es;
    }
  }

  // ------------------------------------------------------- someone else's bytes

  predicate NoEdits(es: seq<Event>) { forall k :: 0 <= k < |es| ==> !es[k].OutsideEdit? }

  lemma StepKeepsForeign(w: World, e: Event)
    requires Enabled(w, e) && !e.OutsideEdit? && w.target != Some(w.written)
    ensures Apply(w, e).target == w.target && Apply(w, e).written == w.written
    ensures Apply(w, e).phase != Exited(None)
  {
  }

  lemma {:induction false} ForeignStays(start: World, es: seq<Event>, more: seq<Event>)
    requires Runs(start, es) && Runs(start, es + more) && NoEdits(more)
    requires After(start, es).target != Some(After(start, es).written) && After(start, es).phase != Exited(None)
    ensures var w, x := After(start, es), After(start, es + more);
      x.target == w.target && x.written == w.written && x.phase != Exited(None)
    decreases |more|
  {
    hide Enabled, Apply;
    if more == [] {
      assert es + more == es;
    } else {
      var n := |more| - 1;
      assert (es + more)[..|es + more| - 1] == es + more[..n];
      ForeignStays(start, es, more[..n]);
      StepKeepsForeign(After(start, es + more[..n]), more[n]);
    }
  }

  lemma {:induction false} RunsPrefix(start: World, es: seq<Event>, more: seq<Event>)
    requires Runs(start, es + more)
    ensures Runs(start, es)
    decreases |more|
  {
    hide Enabled, Apply;
    if more == [] {
      assert es + more == es;
    } else {
      assert (es + more)[..|es + more| - 1] == es + more[..|more| - 1];
      RunsPrefix(start, es, more[..|more| - 1]);
    }
  }

  /** What someone else puts in the target or removes, at any point of any run, stays that
      way through every later write, failure, signal and the restore, until the next edit;
      and once the owner has entered, the recovery file keeps the original. */
  lemma ForeignBytesSurvive(original: Bytes, backup: Option<Bytes>, past: seq<Event>, b: Option<Bytes>,
      more: seq<Event>)
    requires Runs(Opened(original, backup), past) && b != Some(After(Opened(original, backup), past).written)
    requires Runs(Opened(original, backup), past + [OutsideEdit(b)] + more) && NoEdits(more)
    ensures var w := After(Opened(original, backup), past + [OutsideEdit(b)] + more);
      w.target == b && w.written == After(Opened(original, backup), past).written && w.phase != Exited(None)
      && (w.phase.Active? || w.phase.Unwinding? || w.phase.Exited? ==> w.backup == Some(original))
  {
    var start, edited := Opened(original, backup), past + [OutsideEdit(b)];
    RunsPrefix(start, edited, more);
    assert edited[..|edited| - 1] == past;
    OriginalNeverLost(original, backup, edited + more);
    assert After(start, edited) == After(start, past).(target := b);
    hide Runs, After, LastEdit;
    ForeignStays(start, edited, more);
  }

  // ------------------------------------------------------------------- leaving

  /** Restoring can go ahead: no signal slips in first, there is nothing to restore or
      the write works and no deferred signal is left over, and the recovery file can
      be removed. */
  predicate RestoreWorks(w: World, late: Option<int>, disk: Disk, unlinks: bool) {
    (late.None? || w.handlers.Ignored?) && (w.original == w.written || (disk.Wrote? && w.pending.None?)) && unlinks
  }

  /** What `__exit__` leaves of a state that the owner has entered. */
  lemma StepExit(w: World, late: Option<int>, disk: Disk, unlinks: bool)
    requires Enabled(w, Exit(late, disk, unlinks)) && w.backup == Some(w.original) && !w.handlers.Default?
    ensures var x := ExitStep(w, late, disk, unlinks);
      (x.phase == Exited(None) <==> w.target == Some(w.written) && RestoreWorks(w, late, disk, unlinks))
      && (x.phase == Exited(None) ==> x.target == Some(w.original) && x.backup.None?)
      && (x.phase != Exited(None) ==> x.backup == Some(w.original))
      && (w.target != Some(w.written) ==> x.target == w.target)
  {
  }

  /** Leaving cleans up, with the original in place and the recovery file gone, exactly
      when the target still holds the owner's bytes and the restore works. */
  lemma CleanExitIff(original: Bytes, past: seq<Event>, late: Option<int>, disk: Disk, unlinks: bool)
    requires var start := Opened(original, None);
      Runs(start, past) && Enabled(After(start, past), Exit(late, disk, unlinks))
    ensures var start := Opened(original, None);
      var w := After(start, past);
      var x := Apply(w, Exit(late, disk, unlinks));
      x.target == Some(original) && x.backup.None? <==>
        w.target == Some(OwnBytes(start, past)) && RestoreWorks(w, late, disk, unlinks)
  {
    OriginalNeverLost(original, None, past);
    RecordIsHistory(original, None, past);
    StepExit(After(Opened(original, None), past), late, disk, unlinks);
  }

  /** The promise of the class about leaving in state `after`: restored and cleaned up,
      or someone else's bytes kept together with the recovery copy. */
  predicate Promise(start: World, past: seq<Event>, after: World)
    requires Runs(start, past)
  {
    (after.target == Some(start.original) && after.backup.None?)
    || (Foreign(start, past) && after.target == After(start, past).target && after.backup == Some(start.original))
  }

  /** In every run it is kept exactly when the target holds someone else's bytes, or
      it holds the owner's own and the restore works. */
  lemma PromiseIff(original: Bytes, past: seq<Event>, late: Option<int>, disk: Disk, unlinks: bool)
    requires var start := Opened(original, None);
      Runs(start, past) && Enabled(After(start, past), Exit(late, disk, unlinks))
    ensures var start := Opened(original, None);
      var w := After(start, past);
      Promise(start, past, Apply(w, Exit(late, disk, unlinks))) <==>
        Foreign(start, past) || (w.target == Some(OwnBytes(start, past)) && RestoreWorks(w, late, disk, unlinks))
  {
    OriginalNeverLost(original, None, past);
    RecordIsHistory(original, None, past);
    StepExit(After(Opened(original, None), past), late, disk, unlinks);
  }

  /** It can be broken. First, by a write of the owner's that breaks half way:
      its own torn bytes are taken for someone else's and left in the target. */
  lemma TornWriteStays(original: Bytes, mutation: Bytes, torn: Bytes) returns (es: seq<Event>)
    requires mutation != original && torn != original
    ensures es == [Enter(true, Wrote, None), Write(mutation, Broke(torn), [], None)]
    ensures var start := Opened(original, None);
      Runs(start, es) && !Foreign(start, es) && Enabled(After(start, es), Exit(None, Wrote, true))
      && var w := Apply(After(start, es), Exit(None, Wrote, true));
         w.target == Some(torn) && w.backup == Some(original) && w.phase == Exited(Some(ChangedOutside))
           && !Promise(start, es, w)
  {
    var start := Opened(original, None);
    Extend(start, [], Enter(true, Wrote, None));
    es := [] + [Enter(true, Wrote, None)];
    Extend(start, es, Write(mutation, Broke(torn), [], None));
    assert (es + [Write(mutation, Broke(torn), [], None)])[..1] == es;
    es := es + [Write(mutation, Broke(torn), [], None)];
  }

  /** Second, by a signal between entering `__exit__` and ignoring signals: the owner's own
      mutation is left in the target. */
  lemma LateSignalLeavesMutation(original: Bytes, mutation: Bytes, signum: int) returns (es: seq<Event>)
    requires mutation != original
    ensures es == [Enter(true, Wrote, None), Write(mutation, Wrote, [], None)]
    ensures var start := Opened(original, None);
      Runs(start, es) && Enabled(After(start, es), Exit(Some(signum), Wrote, true))
      && var w := Apply(After(start, es), Exit(Some(signum), Wrote, true));
         w.target == Some(mutation) && mutation == OwnBytes(start, es) && w.backup == Some(original)
         && w.phase == Exited(Some(SystemExit(128 + signum))) && !Promise(start, es, w)
  {
    var start := Opened(original, None);
    Extend(start, [], Enter(true, Wrote, None));
    es := [] + [Enter(true, Wrote, None)];
    Extend(start, es, Write(mutation, Wrote, [], None));
    assert (es + [Write(mutation, Wrote, [], None)])[..1] == es;
    es := es + [Write(mutation, Wrote, [], None)];
    PromiseIff(original, es, Some(signum), Wrote, true);
  }

  /** Third, by a signal during a write that then fails: it stays pending, and the restore delivers
      it after writing the original and before removing the recovery file. */
  lemma PendingSignalKeepsBackup(original: Bytes, a: Bytes, b: Bytes, signum: int) returns (es: seq<Event>)
    requires a != original && b != a
    ensures es == [Enter(true, Wrote, None), Write(a, Wrote, [], None), Write(b, Broke(a), [signum], None)]
    ensures var start := Opened(original, None);
      Runs(start, es) && Enabled(After(start, es), Exit(None, Wrote, true))
      && var w := Apply(After(start, es), Exit(None, Wrote, true));
         w.target == Some(original) && w.backup == Some(original)
         && w.phase == Exited(Some(SystemExit(128 + signum))) && !Promise(start, es, w)
  {
    var start := Opened(original, None);
    Extend(start, [], Enter(true, Wrote, None));
    es := [] + [Enter(true, Wrote, None)];
    Extend(start, es, Write(a, Wrote, [], None));
    es := es + [Write(a, Wrote, [], None)];
    Extend(start, es, Write(b, Broke(a), [signum], None));
    es := es + [Write(b, Broke(a), [signum], None)];
    RecordIsHistory(original, None, es);
    PromiseIff(original, es, None, Wrote, true);
  }

  predicate OnlySignals(es: seq<Event>) { forall k :: 0 <= k < |es| ==> es[k].Signal? }

  /** A signal during a successful write is not lost and does no harm: in every run the
      write is recorded as the owner's, the run unwinds with that signal, and whatever
      further signals arrive the owner can still leave cleanly. */
  lemma DeferredSignalRestores(
      original: Bytes, past: seq<Event>, content: Bytes, during: seq<int>, noise: seq<Event>, late: Option<int>)
    requires var start := Opened(original, None);
      Runs(start, past) && After(start, past).phase == Active
        && After(start, past).target == Some(OwnBytes(start, past))
      && content != OwnBytes(start, past) && during != [] && OnlySignals(noise)
    ensures var start, es := Opened(original, None), past + [Write(content, Wrote, during, None)] + noise;
      Runs(start, es) && OwnBytes(start, es) == content && After(start, es).target == Some(content)
      && After(start, es).phase == Unwinding(SystemExit(128 + during[|during| - 1]))
      && var x := Apply(After(start, es), Exit(late, Wrote, true));
         x.phase == Exited(None) && x.target == Some(original) && x.backup.None?
  {
    var start, write := Opened(original, None), Write(content, Wrote, during, None);
    RecordIsHistory(original, None, past);
    OriginalNeverLost(original, None, past);
    Extend(start, past, write);
    var w, x := After(start, past), After(start, past + [write]);
    assert x.phase.Unwinding? && x.handlers.Ignored? && x.written == content;
    SignalsIgnored(start, past + [write], noise);
    RecordIsHistory(original, None, past + [write] + noise);
  }

  lemma {:induction false} SignalsIgnored(start: World, es: seq<Event>, noise: seq<Event>)
    requires Runs(start, es) && OnlySignals(noise)
    requires After(start, es).phase.Unwinding? && After(start, es).handlers.Ignored?
    ensures Runs(start, es + noise) && After(start, es + noise) == After(start, es)
    decreases |noise|
  {
    if noise == [] {
      assert es + noise == es;
    } else {
      var n := |noise| - 1;
      SignalsIgnored(start, es, noise[..n]);
      Extend(start, es + noise[..n], noise[n]);
      assert es + noise[..n] + [noise[n]] == es + noise;
    }
  }

  // ------------------------------------------------------- the owner as it runs

  class MutationTarget {
    var target: Option<Bytes>
    var backup: Option<Bytes>
    const original: Bytes
    var written: Bytes
    var writing: bool
    var pending: Option<int>
    var handlers: Handlers

    ghost function View(phase: Phase): World
      reads this
    {
      World(target, backup, original, written, pending, handlers, phase)
    }

    constructor (target: Bytes, backup: Option<Bytes>)
      ensures View(Fresh) == Opened(target, backup) && !writing
    {
      this.target, this.backup := Some(target), backup;
      original, written := target, target;
      writing, pending, handlers := false, None, Default;
    }

    /** Refuses to overwrite an existing recovery file. */
    method Enter(opens: bool, disk: Disk, caught: Option<int>) returns (raised: Option<Exn>)
      requires !writing
      modifies this
      ensures !writing
      ensures View(if raised.Some? then Refused(raised.value) else Active)
        == EnterStep(old(View(Fresh)), opens, disk, caught)
    {
      if backup.Some? {
        return Some(FileExists);
      }
      if !opens {
        return Some(DiskError);
      }
      if disk.Broke? {
        backup := Some(disk.left);
        return Some(DiskError);
      }
      backup := Some(original);
      handlers := Ours;
      if caught.Some? {
        raised := Interrupt(caught.value);
        return;
      }
      return None;
    }

    /** The signal handler. */
    method Interrupt(signum: int) returns (raised: Option<Exn>)
      modifies this`pending, this`handlers
      ensures old(writing) ==> raised.None? && pending == Some(signum) && handlers == old(handlers)
      ensures !old(writing) ==>
        raised == Some(SystemExit(128 + signum)) && handlers == Ignored && pending == old(pending)
    {
      if writing {
        pending := Some(signum);
        return None;
      }
      handlers := Ignored;
      return Some(SystemExit(128 + signum));
    }

    method WriteBytes(content: Bytes, disk: Disk, during: seq<int>, after: Option<int>, ghost phase: Phase)
      returns (raised: Option<Exn>)
      requires !writing
      modifies this
      ensures !writing
      ensures (View(phase), raised) == WriteStep(old(View(phase)), content, disk, during, after)
    {
      if target.None? {
        return Some(FileMissing);
      }
      if target.value != written {
        return Some(ChangedOutside);
      }
      if content == written {
        return None;
      }
      writing := true;
      ghost var before := View(phase);
      for i := 0 to |during|
        invariant writing && View(phase) == Defer(before, during[..i])
      {
        if handlers.Ours? {
          var r := Interrupt(during[i]);
        }
      }
      assert during[..|during|] == during;
      if disk.Wrote? {
        target := Some(content);
        written := content;
      } else {
        target := Some(disk.left);
      }
      writing := false;
      if after.Some? && handlers.Ours? {
        raised := Interrupt(after.value);
        return;
      }
      if disk.Broke? {
        return Some(DiskError);
      }
      if pending.Some? {
        var signum := pending.value;
        pending := None;
        raised := Interrupt(signum);
        return;
      }
      return None;
    }

    /** Whatever happens, the earlier handlers are restored. */
    method Exit(late: Option<int>, disk: Disk, unlinks: bool, ghost phase: Phase) returns (raised: Option<Exn>)
      requires !writing
      modifies this
      ensures !writing
      ensures View(Exited(raised)) == ExitStep(old(View(phase)), late, disk, unlinks)
    {
      if late.Some? && handlers.Ours? {
        raised := Interrupt(late.value);
      } else {
        handlers := Ignored;
        raised := WriteBytes(original, disk, [], None, phase);
        if raised.None? && !unlinks {
          raised := Some(DiskError);
        } else if raised.None? {
          backup := None;
        }
      }
      handlers := Default;
    }
  }
}
