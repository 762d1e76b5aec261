/**
 The worker's mode and readiness gate (worker.py): the control watcher, the mode aligner and the lease heartbeat run
 as separate tasks. Between two awaits a task runs alone, so each step below is one await-free stretch of one task.
 */
module ModeGate {
  import opened Modes
  import opened Wrappers

  type PolicyId = Option<nat>

  datatype Target = Target(mode: Mode, policy: PolicyId)

  datatype Holder = Free | ByWatcher | ByAligner

  /** Where the watcher is suspended: outside the lock, in a clean-up, in a control pass, or
      cancelling after a failure. */
  datatype Watch = Idle | CleaningUp(observed: Mode) | Passing(observed: Mode) | Alerting

  /** Where the aligner is suspended; `previous` and `policyChanged` are read before it queues for the lock. */
  datatype Align =
    | Fetching
    | Queued(previous: Mode, target: Target, policyChanged: bool)
    | Cleaning(previous: Mode, target: Target)
    | Cancelling(previous: Mode, target: Target)

  /** One change of the effective mode: in which lock hold, and in which hold a clean-up had last returned true. */
  datatype Change = Change(from: Mode, to: Mode, hold: nat, cleanedIn: Option<nat>)

  /** `limits` is the policy and the mode the risk limits in the settings were computed for. */
  datatype Gate = Gate(
    personal: bool, mode: Mode, limits: Option<Target>, ready: bool, configurationOk: bool,
    leaseOk: bool, token: Option<nat>, stopped: bool,
    holder: Holder, hold: nat, watch: Watch, align: Align,
    lastPass: Option<Mode>, cleanedIn: Option<nat>, changes: seq<Change>)

  datatype Step =
    | LeaseBeat(ok: bool, token: nat)
    | Stop
    | WatcherEnters
    | WatcherCleanedUp(ok: bool)
    | WatcherPassed(pending: bool)
    | WatcherFailed
    | WatcherAlerted
    | AlignerFetched(target: Option<Target>)
    | AlignerEnters
    | AlignerCleaned(ok: bool)
    | AlignerCancelled(ok: bool)

  predicate HasLease(g: Gate) { g.leaseOk && g.token.Some? }

  function WatcherLeaves(g: Gate, ready: bool): Gate { g.(ready := ready, watch := Idle, holder := Free) }

  function AlignerFails(g: Gate): Gate { g.(configurationOk := false, align := Fetching, holder := Free) }

  /** Mode and limits change together, in one await-free stretch. */
  function Publish(g: Gate, target: Target): Gate {
    g.(mode := target.mode, limits := Some(target), configurationOk := true, align := Fetching, holder := Free,
       changes := if target.mode == g.mode then g.changes
           else g.changes + [Change(g.mode, target.mode, g.hold, g.cleanedIn)])
  }

  function EnterWatcher(g: Gate): Gate {
    var held := g.(holder := ByWatcher, hold := g.hold + 1);
    if g.personal && !RealMoney(g.mode) then
      if HasLease(g) then held.(watch := CleaningUp(g.mode)) else WatcherLeaves(held, false)
    else held.(watch := Passing(g.mode))
  }

  function EnterAligner(g: Gate): Gate
    requires g.align.Queued?
  {
    var Queued(previous, target, policyChanged) := g.align;
    var held := g.(holder := ByAligner, hold := g.hold + 1);
    if target.mode == previous && !policyChanged then Publish(held, target)
    else
      var closed := held.(configurationOk := false, ready := false);
      if !RealMoney(previous) then Publish(closed, target)
      else if target.mode == previous then closed.(align := Cancelling(previous, target))
      else if HasLease(g) then closed.(align := Cleaning(previous, target))
      else AlignerFails(closed)
  }

  /** The state after one step, or None where that step cannot happen now. */
  function Next(g: Gate, s: Step): Option<Gate> {
    match s
    case LeaseBeat(ok, token) => Some(if ok then g.(leaseOk := true, token := Some(token))
                                      else g.(leaseOk := false, token := None))
    case Stop => Some(g.(stopped := true))
    case WatcherEnters => if g.watch.Idle? && g.holder.Free? && !g.stopped then Some(EnterWatcher(g)) else None
    case WatcherCleanedUp(ok) =>
      if !g.watch.CleaningUp? then None
      else
        var noted := if ok then g.(lastPass := Some(g.watch.observed), cleanedIn := Some(g.hold)) else g;
        Some(WatcherLeaves(noted, ok && g.mode == g.watch.observed))
    case WatcherPassed(pending) =>
      if !g.watch.Passing? then None
      else
        var noted := if pending then g else g.(lastPass := Some(g.watch.observed));
        Some(WatcherLeaves(noted, !pending && g.mode == g.watch.observed))
    case WatcherFailed =>
      if !g.watch.Passing? then None
      else if RealMoney(g.mode) then Some(g.(ready := false, watch := Alerting))
      else Some(WatcherLeaves(g, false))
    case WatcherAlerted => if g.watch.Alerting? then Some(WatcherLeaves(g, g.ready)) else None
    case AlignerFetched(target) =>
      if !g.personal || !g.align.Fetching? then None
      else if target.None? then Some(g.(configurationOk := false))
      else Some(g.(align := Queued(g.mode, target.value,
                                   g.limits.Some? && g.limits.value.policy != target.value.policy)))
    case AlignerEnters => if g.align.Queued? && g.holder.Free? then Some(EnterAligner(g)) else None
    case AlignerCleaned(ok) =>
      if !g.align.Cleaning? then None
      else if ok then Some(Publish(g.(cleanedIn := Some(g.hold)), g.align.target)) else Some(AlignerFails(g))
    case AlignerCancelled(ok) =>
      if !g.align.Cancelling? then None
      else if ok then Some(Publish(g, g.align.target)) else Some(AlignerFails(g))
  }

  predicate Initial(g: Gate) {
    && !g.ready && g.configurationOk == !g.personal && g.limits.None? && g.holder.Free?
    && g.watch.Idle? && g.align.Fetching? && g.lastPass.None? && g.changes == []
  }

  /** An interleaving of the tasks. */
  ghost predicate Run(states: seq<Gate>, steps: seq<Step>) {
    && |states| == |steps| + 1 && Initial(states[0])
    && forall i :: StepAt(states, steps, i)
  }

  predicate StepAt(states: seq<Gate>, steps: seq<Step>, i: int)
    requires |states| == |steps| + 1
  {
    0 <= i < |steps| ==> Next(states[i], steps[i]) == Some(states[i + 1])
  }

  /** The flags the lease guard reads before every submission. */
  predicate MaySubmit(g: Gate) {
    g.ready && g.configurationOk && g.leaseOk && g.token.Some? && !g.stopped
  }

  predicate LockCoherent(g: Gate) {
    && (g.holder.ByWatcher? <==> !g.watch.Idle?)
    && (g.holder.ByAligner? <==> g.align.Cleaning? || g.align.Cancelling?)
  }

  /** What a suspended task remembers of the mode is still the mode. */
  predicate MemoryFresh(g: Gate) {
    && (g.watch.CleaningUp? || g.watch.Passing? ==> g.watch.observed == g.mode)
    && (g.align.Queued? || g.align.Cleaning? || g.align.Cancelling? ==> g.align.previous == g.mode)
    && (g.align.Cancelling? ==> g.align.target.mode == g.mode)
  }

  predicate TransitionCloses(g: Gate) {
    g.align.Cleaning? || g.align.Cancelling? ==> !g.ready && !g.configurationOk
  }

  predicate CleanLeaves(g: Gate) {
    forall c | c in g.changes && RealMoney(c.from) :: c.cleanedIn == Some(c.hold)
  }

  predicate Inv(g: Gate) {
    && LockCoherent(g) && MemoryFresh(g) && TransitionCloses(g) && CleanLeaves(g)
    && (g.ready ==> g.lastPass == Some(g.mode))
    && (g.limits.Some? ==> g.limits.value.mode == g.mode)
    && (g.personal && g.configurationOk ==> g.limits.Some?)
  }

  lemma PublishKeepsInv(g: Gate, target: Target)
    requires g.watch.Idle? && CleanLeaves(g) && (g.ready ==> target.mode == g.mode && g.lastPass == Some(g.mode))
    requires RealMoney(g.mode) && target.mode != g.mode ==> g.cleanedIn == Some(g.hold)
    ensures Inv(Publish(g, target))
  {
    var h := Publish(g, target);
    forall c | c in h.changes && RealMoney(c.from) ensures c.cleanedIn == Some(c.hold) {
      if c !in g.changes { assert c == Change(g.mode, target.mode, g.hold, g.cleanedIn); }
    }
  }

  lemma EnterAlignerKeepsInv(g: Gate)
    requires Inv(g) && g.align.Queued? && g.holder.Free?
    ensures Inv(EnterAligner(g))
  {
    hide Publish, RealMoney;
    var Queued(previous, target, policyChanged) := g.align;
    var held := g.(holder := ByAligner, hold := g.hold + 1);
    if target.mode == previous && !policyChanged {
      PublishKeepsInv(held, target);
    } else {
      var closed := held.(configurationOk := false, ready := false);
      if !RealMoney(previous) { PublishKeepsInv(closed, target); }
    }
  }

  predicate WatcherStep(s: Step) {
    s.LeaseBeat? || s.Stop? || s.WatcherEnters? || s.WatcherCleanedUp? || s.WatcherPassed? || s.WatcherFailed?
        || s.WatcherAlerted?
  }

  /** A step after which the aligner's side of the state is as it was. */
  predicate AlignerUntouched(g: Gate, h: Gate) {
    h.mode == g.mode && h.personal == g.personal && h.align == g.align && h.limits == g.limits && h.changes == g.changes
    && h.configurationOk == g.configurationOk && (h.holder.ByAligner? <==> g.holder.ByAligner?)
    && (g.holder.ByAligner? ==> h.hold == g.hold)
  }

  lemma WatcherLeavesKeepsInv(g: Gate, ready: bool)
    requires MemoryFresh(g) && CleanLeaves(g) && !g.align.Cleaning? && !g.align.Cancelling? && !g.holder.ByAligner?
    requires ready ==> g.lastPass == Some(g.mode)
    requires (g.limits.Some? ==> g.limits.value.mode == g.mode) && (g.personal && g.configurationOk ==> g.limits.Some?)
    ensures Inv(WatcherLeaves(g, ready)) && AlignerUntouched(g, WatcherLeaves(g, ready))
  {}

  lemma EnterWatcherKeepsInv(g: Gate)
    requires Inv(g) && g.watch.Idle? && g.holder.Free?
    ensures Inv(EnterWatcher(g)) && AlignerUntouched(g, EnterWatcher(g))
  {
    hide WatcherLeaves, RealMoney, HasLease;
    WatcherLeavesKeepsInv(g.(holder := ByWatcher, hold := g.hold + 1), false);
  }

  lemma CleanedUpKeepsInv(g: Gate, ok: bool, h: Gate)
    requires Inv(g) && Next(g, WatcherCleanedUp(ok)) == Some(h)
    ensures Inv(h) && AlignerUntouched(g, h)
  {
    hide Publish, EnterAligner, EnterWatcher, WatcherLeaves;
    var noted := if ok then g.(lastPass := Some(g.watch.observed), cleanedIn := Some(g.hold)) else g;
    WatcherLeavesKeepsInv(noted, ok && g.mode == g.watch.observed);
  }

  lemma PassedKeepsInv(g: Gate, pending: bool, h: Gate)
    requires Inv(g) && Next(g, WatcherPassed(pending)) == Some(h)
    ensures Inv(h) && AlignerUntouched(g, h)
  {
    hide Publish, EnterAligner, EnterWatcher, WatcherLeaves;
    var noted := if pending then g else g.(lastPass := Some(g.watch.observed));
    WatcherLeavesKeepsInv(noted, !pending && g.mode == g.watch.observed);
  }

  lemma FailedKeepsInv(g: Gate, s: Step, h: Gate)
    requires (s.WatcherFailed? || s.WatcherAlerted?) && Inv(g) && Next(g, s) == Some(h)
    ensures Inv(h) && AlignerUntouched(g, h)
  {
    hide Publish, EnterAligner, EnterWatcher, WatcherLeaves;
    if s.WatcherAlerted? {
      WatcherLeavesKeepsInv(g, g.ready);
    } else if !RealMoney(g.mode) {
      WatcherLeavesKeepsInv(g, false);
    }
  }

  lemma FlagsKeepInv(g: Gate, leaseOk: bool, token: Option<nat>, stopped: bool)
    requires Inv(g)
    ensures var h := g.(leaseOk := leaseOk, token := token, stopped := stopped); Inv(h) && AlignerUntouched(g, h)
  {
    hide RealMoney;
  }

  lemma WatcherStepKeepsInv(g: Gate, s: Step, h: Gate)
    requires WatcherStep(s) && Inv(g) && Next(g, s) == Some(h)
    ensures Inv(h) && AlignerUntouched(g, h)
  {
    hide Inv, AlignerUntouched, Publish, EnterAligner, EnterWatcher, WatcherLeaves;
    match s
    case LeaseBeat(ok, token) => FlagsKeepInv(g, ok, if ok then Some(token) else None, g.stopped);
    case Stop => FlagsKeepInv(g, g.leaseOk, g.token, true);
    case WatcherEnters => EnterWatcherKeepsInv(g);
    case WatcherCleanedUp(ok) => CleanedUpKeepsInv(g, ok, h);
    case WatcherPassed(pending) => PassedKeepsInv(g, pending, h);
    case WatcherFailed => FailedKeepsInv(g, s, h);
    case WatcherAlerted => FailedKeepsInv(g, s, h);
  }

  lemma AlignerStepKeepsInv(g: Gate, s: Step, h: Gate)
    requires !WatcherStep(s) && Inv(g) && Next(g, s) == Some(h)
    ensures Inv(h) && h.personal == g.personal
  {
    hide Publish, EnterAligner, EnterWatcher;
    match s
    case AlignerEnters => EnterAlignerKeepsInv(g); EnterKeepsPersonal(g);
    case AlignerCleaned(ok) =>
      if ok {
        PublishKeepsInv(g.(cleanedIn := Some(g.hold)), g.align.target);
        PublishKeepsPersonal(g.(cleanedIn := Some(g.hold)), g.align.target);
      }
    case AlignerCancelled(ok) => if ok { PublishKeepsInv(g, g.align.target); PublishKeepsPersonal(g, g.align.target); }
    case AlignerFetched(_) =>
  }

  lemma PublishKeepsPersonal(g: Gate, target: Target)
    ensures Publish(g, target).personal == g.personal
  {}

  lemma EnterKeepsPersonal(g: Gate)
    requires g.align.Queued?
    ensures EnterAligner(g).personal == g.personal
  {}

  lemma StepKeepsInv(g: Gate, s: Step, h: Gate)
    requires Inv(g) && Next(g, s) == Some(h)
    ensures Inv(h) && h.personal == g.personal
  {
    hide Next, Inv;
    if WatcherStep(s) { WatcherStepKeepsInv(g, s, h); } else { AlignerStepKeepsInv(g, s, h); }
  }

  /** The only step that leaves a real-money mode ends a clean-up that returned true, inside the aligner's hold. */
  lemma LeavingStep(g: Gate, s: Step, h: Gate)
    requires Inv(g) && Next(g, s) == Some(h) && h.mode != g.mode
    ensures h.limits.Some? && (RealMoney(g.mode) ==> s == AlignerCleaned(true) && g.holder.ByAligner?)
  {
    hide EnterAligner, EnterWatcher, WatcherLeaves, Inv;
    if WatcherStep(s) {
      WatcherStepKeepsInv(g, s, h);
    } else if s.AlignerEnters? {
      EnteringNeverLeaves(g);
    } else {
      WaitingMemory(g);
    }
  }

  lemma EnteringNeverLeaves(g: Gate)
    requires Inv(g) && g.align.Queued? && EnterAligner(g).mode != g.mode
    ensures !RealMoney(g.mode) && EnterAligner(g).limits.Some?
  {
    hide LockCoherent, TransitionCloses, CleanLeaves, RealMoney;
  }

  lemma WaitingMemory(g: Gate)
    requires Inv(g)
    ensures MemoryFresh(g) && LockCoherent(g)
  {}

  lemma {:induction false} InvHolds(states: seq<Gate>, steps: seq<Step>, i: nat)
    requires Run(states, steps) && i < |states|
    ensures Inv(states[i])
  {
    hide Next;
    if i > 0 {
      InvHolds(states, steps, i - 1);
      assert StepAt(states, steps, i - 1);
      StepKeepsInv(states[i - 1], steps[i - 1], states[i]);
    }
  }

  /** In every interleaving, whenever the ready flag is set the last successful control pass was
      for the mode in force. */
  lemma ReadyMeansPassedForThisMode(states: seq<Gate>, steps: seq<Step>, i: nat)
    requires Run(states, steps) && i < |states| && states[i].ready
    ensures states[i].lastPass == Some(states[i].mode)
  {
    InvHolds(states, steps, i);
  }

  /** Where the guard lets a personal deployment submit, the limits are those of the mode in force, that mode passed
      its control pass, and no mode or policy change is in its clean-up or cancellation. One that is still queued for
      the lock does not close the gate. */
  lemma SubmissionIsAligned(states: seq<Gate>, steps: seq<Step>, i: nat)
    requires Run(states, steps) && i < |states| && MaySubmit(states[i])
    ensures var g := states[i];
            && g.lastPass == Some(g.mode) && !g.align.Cleaning? && !g.align.Cancelling?
            && (g.personal ==> g.limits.Some? && g.limits.value.mode == g.mode)
  {
    InvHolds(states, steps, i);
    PersonalIsFixed(states, steps, i);
  }

  lemma {:induction false} PersonalIsFixed(states: seq<Gate>, steps: seq<Step>, i: nat)
    requires Run(states, steps) && i < |states|
    ensures states[i].personal == states[0].personal
  {
    if i > 0 {
      hide Next, Inv;
      PersonalIsFixed(states, steps, i - 1);
      InvHolds(states, steps, i - 1);
      assert StepAt(states, steps, i - 1);
      StepKeepsInv(states[i - 1], steps[i - 1], states[i]);
    }
  }

  /** The mode changes only at an aligner's step; when it was a real-money mode, that very step ends a clean-up that
      returned true while the aligner held the lock, and nobody else entered since the clean-up began. */
  lemma LeavingRealMoneyNeedsCleanup(states: seq<Gate>, steps: seq<Step>, i: nat)
    requires Run(states, steps) && i < |steps| && states[i].mode != states[i + 1].mode
    ensures RealMoney(states[i].mode) ==>
              && steps[i] == AlignerCleaned(true) && states[i].holder.ByAligner?
              && exists b: nat :: b < i && steps[b].AlignerEnters?
                   && forall k | b < k <= i :: states[k].holder.ByAligner? && states[k].hold == states[i].hold
    ensures states[i + 1].limits.Some? && states[i + 1].limits.value.mode == states[i + 1].mode
  {
    hide Next, Inv;
    InvHolds(states, steps, i);
    InvHolds(states, steps, i + 1);
    assert StepAt(states, steps, i);
    LeavingStep(states[i], steps[i], states[i + 1]);
    LimitsFollowMode(states[i + 1]);
    if RealMoney(states[i].mode) {
      var b := HoldBegan(states, steps, i);
    }
  }

  lemma LimitsFollowMode(g: Gate)
    requires Inv(g)
    ensures g.limits.Some? ==> g.limits.value.mode == g.mode
  {}

  lemma HoldStep(g: Gate, s: Step, h: Gate)
    requires Inv(g) && Next(g, s) == Some(h) && h.holder.ByAligner?
    ensures s.AlignerEnters? || (g.holder.ByAligner? && g.hold == h.hold)
  {
    hide EnterAligner, EnterWatcher, Inv;
    if WatcherStep(s) { WatcherStepKeepsInv(g, s, h); }
  }

  /** While the aligner holds the lock across an await, its hold began at its own entering step. */
  lemma {:induction false} HoldBegan(states: seq<Gate>, steps: seq<Step>, i: nat) returns (b: nat)
    requires Run(states, steps) && i < |states| && states[i].holder.ByAligner?
    ensures b < i && steps[b].AlignerEnters?
    ensures forall k | b < k <= i :: states[k].holder.ByAligner? && states[k].hold == states[i].hold
  {
    hide Next, Inv;
    InvHolds(states, steps, i - 1);
    assert StepAt(states, steps, i - 1);
    HoldStep(states[i - 1], steps[i - 1], states[i]);
    if steps[i - 1].AlignerEnters? {
      b := i - 1;
    } else {
      b := HoldBegan(states, steps, i - 1);
    }
  }

  /** The recorded history of mode changes agrees: every departure from real money was cleaned in its own hold. */
  lemma EveryDepartureCleaned(states: seq<Gate>, steps: seq<Step>, i: nat, c: Change)
    requires Run(states, steps) && i < |states| && c in states[i].changes && RealMoney(c.from)
    ensures c.cleanedIn == Some(c.hold)
  {
    InvHolds(states, steps, i);
  }

  predicate Recorded(g: Gate, h: Gate) {
    h.changes == g.changes + if h.mode == g.mode then [] else [Change(g.mode, h.mode, h.hold, h.cleanedIn)]
  }

  /** The history records every change of mode and nothing else, each with the hold and the last
      clean-up of its moment. */
  lemma ChangesAreRecorded(g: Gate, s: Step, h: Gate)
    requires Inv(g) && Next(g, s) == Some(h)
    ensures Recorded(g, h)
  {
    hide EnterWatcher, EnterAligner, Inv;
    if WatcherStep(s) {
      WatcherStepKeepsInv(g, s, h);
    } else if s.AlignerEnters? {
      EnteringRecords(g);
    }
  }

  lemma EnteringRecords(g: Gate)
    requires g.align.Queued?
    ensures Recorded(g, EnterAligner(g))
  {
    hide Publish, Recorded, RealMoney;
    var target, held := g.align.target, g.(holder := ByAligner, hold := g.hold + 1);
    PublishRecords(g, held, target);
    PublishRecords(g, held.(configurationOk := false, ready := false), target);
    NothingRecorded(g);
  }

  lemma NothingRecorded(g: Gate)
    ensures forall h: Gate | h.mode == g.mode && h.changes == g.changes :: Recorded(g, h)
  {}

  lemma PublishRecords(g: Gate, held: Gate, target: Target)
    requires held.mode == g.mode && held.changes == g.changes
    ensures Recorded(g, Publish(held, target))
  {}

  // ---- what closes the gate, and that it can always be opened

  /** FAILING CLOSED. Every failure, every pending cancellation and every change of mode or policy that had to clean up
      leaves a state in which nothing may be submitted. */
  lemma FailureCloses(g: Gate, s: Step, h: Gate)
    requires Inv(g) && Next(g, s) == Some(h)
    requires s in {Stop, WatcherPassed(true), WatcherCleanedUp(false), WatcherFailed, AlignerFetched(None)}
             || (s.LeaseBeat? && !s.ok) || s.AlignerCleaned? || s.AlignerCancelled?
    ensures !MaySubmit(h)
  {
    hide EnterAligner, EnterWatcher;
  }

  /** A pass that verified everything in order opens the flag, one that did not closes it, and the
      lock is free again. */
  lemma PassDecides(g: Gate, s: Step, h: Gate)
    requires Inv(g) && Next(g, s) == Some(h) && (s.WatcherPassed? || s.WatcherCleanedUp?)
    ensures h.ready <==> s in {WatcherPassed(false), WatcherCleanedUp(true)}
    ensures h.mode == g.mode && h.holder.Free? && h.watch.Idle?
  {
    hide EnterAligner, EnterWatcher;
  }

  /** Where a sequence of steps leads, or None where one of them cannot happen. */
  function After(g: Gate, steps: seq<Step>): Option<Gate>
    decreases steps
  {
    if steps == [] then Some(g)
    else
      var h := Next(g, steps[0]);
      if h.None? then None else After(h.value, steps[1..])
  }

  lemma {:induction false} AfterThen(g: Gate, a: seq<Step>, h: Gate, b: seq<Step>)
    requires After(g, a) == Some(h)
    ensures After(g, a + b) == After(h, b)
    decreases a
  {
    hide Next;
    if a == [] {
      assert a + b == b;
    } else {
      assert (a + b)[1..] == a[1..] + b;
      AfterThen(Next(g, a[0]).value, a[1..], h, b);
    }
  }

  lemma OneStep(g: Gate, s: Step)
    ensures After(g, [s]) == Next(g, s)
  {
    hide Next;
  }

  predicate Unheld(g: Gate) { g.holder.Free? && g.watch.Idle? && !g.align.Cleaning? && !g.align.Cancelling? }

  predicate SameDeployment(g: Gate, h: Gate) { h.personal == g.personal && h.stopped == g.stopped }

  /** Whoever holds the lock can give it back. */
  lemma LockIsReleased(g: Gate) returns (steps: seq<Step>, h: Gate)
    requires Inv(g)
    ensures After(g, steps) == Some(h) && Inv(h) && Unheld(h) && SameDeployment(g, h)
    ensures !g.align.Queued? ==> h.align.Fetching?
  {
    hide EnterAligner, EnterWatcher, Publish, CleanLeaves;
    if Unheld(g) { return [], g; }
    var s := match g.watch
             case CleaningUp(_) => WatcherCleanedUp(false)
             case Passing(_) => WatcherPassed(true)
             case Alerting => WatcherAlerted
             case Idle => if g.align.Cleaning? then AlignerCleaned(false) else AlignerCancelled(false);
    OneStep(g, s);
    h := Next(g, s).value;
    StepKeepsInv(g, s, h);
    steps := [s];
  }

  /** A queued aligner gets through, one way or the other. */
  lemma AlignerGetsThrough(g: Gate) returns (steps: seq<Step>, h: Gate)
    requires Inv(g) && Unheld(g)
    ensures After(g, steps) == Some(h) && Inv(h) && Unheld(h) && h.align.Fetching? && SameDeployment(g, h)
  {
    hide Inv, EnterAligner;
    if g.align.Fetching? { return [], g; }
    var entered := Next(g, AlignerEnters).value;
    StepKeepsInv(g, AlignerEnters, entered);
    OneStep(g, AlignerEnters);
    EnteredState(g);
    var more;
    more, h := LockIsReleased(entered);
    AfterThen(g, [AlignerEnters], entered, more);
    steps := [AlignerEnters] + more;
  }

  lemma EnteredState(g: Gate)
    requires Inv(g) && Unheld(g) && g.align.Queued?
    ensures var h := EnterAligner(g);
            SameDeployment(g, h) && (h.align.Fetching? ==> Unheld(h)) && !h.align.Queued? && h.watch.Idle?
  {
    hide CleanLeaves, TransitionCloses;
  }

  /** The aligner has given the lock back: with the target in force, or with everything as it was
      and the gate closed. */
  predicate Settles(g: Gate, h: Gate, target: Target, done: bool) {
    h == g.(mode := if done then target.mode else g.mode, limits := if done then Some(target) else g.limits,
            configurationOk := done, align := Fetching, holder := Free, cleanedIn := h.cleanedIn, changes := h.changes)
  }

  predicate Waits(g: Gate, target: Target, newPolicy: bool) {
    RealMoney(g.mode) && if target.mode == g.mode then newPolicy else HasLease(g)
  }

  /** Entering settles the target at once, or waits for a clean-up or a cancellation with the gate closed. */
  lemma EnteringExactly(g: Gate, target: Target, newPolicy: bool)
    requires g.align == Queued(g.mode, target, newPolicy)
    ensures var h, same := EnterAligner(g), target.mode == g.mode && !newPolicy;
            var closed := g.(hold := g.hold + 1, ready := g.ready && same);
            if Waits(g, target, newPolicy) then
              h == closed.(configurationOk := false, holder := ByAligner,
                           align := if target.mode == g.mode then Cancelling(g.mode, target)
                               else Cleaning(g.mode, target))
            else Settles(closed, h, target, same || !RealMoney(g.mode))
  {}

  lemma WaitingEnds(g: Gate, target: Target, ok: bool)
    requires g.align == Cleaning(g.mode, target) || g.align == Cancelling(g.mode, target)
    ensures var h := Next(g, if g.align.Cleaning? then AlignerCleaned(ok) else AlignerCancelled(ok));
            h.Some? && Settles(g, h.value, target, ok)
  {}

  /** THE OUTCOME OF ALIGNING. With the lock free, a fetched target is in force at once if it changes nothing or leaves
      no real money; otherwise the gate closes, and it is in force exactly when the clean-up, or for a change of policy
      alone the cancellation, succeeds. A failure leaves mode and limits alone and the gate closed. */
  lemma AligningExactly(g: Gate, target: Target, ok: bool) returns (steps: seq<Step>, h: Gate)
    requires Inv(g) && g.personal && Unheld(g) && g.align.Fetching?
    ensures After(g, steps) == Some(h) && Inv(h) && Unheld(h) && h.align.Fetching?
            && h == g.(mode := h.mode, limits := h.limits, ready := h.ready, configurationOk := h.configurationOk,
                       hold := g.hold + 1, cleanedIn := h.cleanedIn, changes := h.changes)
    ensures var newPolicy := g.limits.Some? && g.limits.value.policy != target.policy;
            var same, leaves := target.mode == g.mode && !newPolicy, RealMoney(g.mode) && target.mode != g.mode;
            && (h.ready <==> g.ready && same)
            && if same || !RealMoney(g.mode) || (ok && (leaves ==> HasLease(g)))
               then h.mode == target.mode && h.limits == Some(target) && h.configurationOk
               else h.mode == g.mode && h.limits == g.limits && !h.configurationOk
  {
    hide Inv, EnterAligner, RealMoney;
    var newPolicy := g.limits.Some? && g.limits.value.policy != target.policy;
    var fetched, queued := AlignerFetched(Some(target)), g.(align := Queued(g.mode, target, newPolicy));
    assert Next(g, fetched) == Some(queued);
    StepKeepsInv(g, fetched, queued);
    var entered := EnterAligner(queued);
    assert Next(queued, AlignerEnters) == Some(entered);
    StepKeepsInv(queued, AlignerEnters, entered);
    EnteringExactly(queued, target, newPolicy);
    OneStep(g, fetched);
    OneStep(queued, AlignerEnters);
    hide Next, After;
    AfterThen(g, [fetched], queued, [AlignerEnters]);
    steps, h := [fetched] + [AlignerEnters], entered;
    if Waits(g, target, newPolicy) {
      WaitingEnds(entered, target, ok);
      var last := if entered.align.Cleaning? then AlignerCleaned(ok) else AlignerCancelled(ok);
      h := Next(entered, last).value;
      StepKeepsInv(entered, last, h);
      OneStep(entered, last);
      AfterThen(g, steps, entered, [last]);
      steps := steps + [last];
    }
  }

  /** A control pass in an open deployment can always complete and set the flag. */
  lemma PassCanSucceed(g: Gate) returns (steps: seq<Step>, h: Gate)
    requires Inv(g) && Unheld(g) && !g.stopped && HasLease(g)
    ensures After(g, steps) == Some(h) && h.ready && h.mode == g.mode && h.limits == g.limits
    ensures h.configurationOk == g.configurationOk && HasLease(h) && !h.stopped
  {
    hide Publish, EnterAligner, CleanLeaves;
    var entered := Next(g, WatcherEnters).value;
    var s := if entered.watch.CleaningUp? then WatcherCleanedUp(true) else WatcherPassed(false);
    h := Next(entered, s).value;
    OneStep(g, WatcherEnters);
    OneStep(entered, s);
    AfterThen(g, [WatcherEnters], entered, [s]);
    steps := [WatcherEnters] + [s];
  }

  /** NO DEADLOCK. From every reachable state of a personal deployment that has not been stopped, some continuation puts
      any given mode and policy in force and opens the gate for it. */
  lemma GateCanOpen(states: seq<Gate>, steps: seq<Step>, i: nat, target: Target) returns (more: seq<Step>, h: Gate)
    requires Run(states, steps) && i < |states| && states[i].personal && !states[i].stopped
    ensures After(states[i], more) == Some(h) && h.mode == target.mode && h.limits == Some(target) && MaySubmit(h)
  {
    hide Inv, After, Next;
    InvHolds(states, steps, i);
    var a, unheld := LockIsReleased(states[i]);
    var b, idle := AlignerGetsThrough(unheld);
    var c, leased := LeaseComesBack(idle);
    var d, aligned := AligningExactly(leased, target, true);
    var e;
    e, h := PassCanSucceed(aligned);
    AfterThen(states[i], a, unheld, b);
    AfterThen(states[i], a + b, idle, c);
    AfterThen(states[i], a + b + c, leased, d);
    AfterThen(states[i], a + b + c + d, aligned, e);
    more := a + b + c + d + e;
  }

  lemma LeaseComesBack(g: Gate) returns (steps: seq<Step>, h: Gate)
    requires Inv(g)
    ensures After(g, steps) == Some(h) && Inv(h) && HasLease(h) && h == g.(leaseOk := true, token := h.token)
  {
    hide EnterAligner, EnterWatcher, Publish;
    h := Next(g, LeaseBeat(true, 0)).value;
    StepKeepsInv(g, LeaseBeat(true, 0), h);
    OneStep(g, LeaseBeat(true, 0));
    steps := [LeaseBeat(true, 0)];
  }
}
