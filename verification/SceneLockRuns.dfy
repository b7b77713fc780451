// Every interleaving of any number of accesses to the scene lock.
//
// An access is one acquire/release life cycle of a thread. A waiting access is
// either asleep on the condition variable or awake and about to re-evaluate its
// predicate; after a release the notify_all is still owed, because it runs
// outside the mutex.
module SceneLockRuns {
  import opened SceneLock

  type Access = nat

  datatype Phase =
    | Idle
    | ReadWaiting(asleep: bool)
    | WriteWaiting(asleep: bool)
    | Reading(version: nat)
    | Writing(version: nat)
    | NotifyOwed
  {
    predicate Asleep() { (ReadWaiting? || WriteWaiting?) && asleep }

    predicate Waiting() { ReadWaiting? || WriteWaiting? }

    predicate Is(kind: Kind) {
      match kind
      case Reader => Reading?
      case Writer => Writing?
      case WaitingWriter => WriteWaiting?
    }

    function Woken(): Phase {
      if ReadWaiting? then ReadWaiting(false)
      else if WriteWaiting? then WriteWaiting(false)
      else this
    }
  }

  // The three kinds of access that the lock counts.
  datatype Kind = Reader | Writer | WaitingWriter

  datatype System = System(lock: LockFields, phases: map<Access, Phase>) {
    function PhaseOf(a: Access): Phase {
      if a in phases then phases[a] else Idle
    }

    function Moved(a: Access, l: LockFields, p: Phase): System {
      System(l, phases[a := p])
    }

    // Would the wait predicate of this waiting access hold now?
    predicate Admissible(a: Access) {
      match PhaseOf(a)
      case ReadWaiting(_) => lock.CanAcquireRead()
      case WriteWaiting(_) => lock.CanAcquireWrite()
      case _ => false
    }

    function Members(kind: Kind): set<Access> {
      set a | a in phases && phases[a].Is(kind)
    }

    function Readers(): set<Access> { Members(Reader) }
    function Writers(): set<Access> { Members(Writer) }
    function WaitingWriters(): set<Access> { Members(WaitingWriter) }
  }

  datatype Step =
    | ArriveRead(a: Access)
    | ArriveWrite(a: Access)
    | Recheck(a: Access)
    | Release(a: Access)
    | NotifyAll(a: Access)
    | SpuriousWake(a: Access)
    | Publish(a: Access)

  function Initial(policy: ReadPolicy): System {
    System(InitialFields(policy), map[])
  }

  predicate Enabled(s: System, step: Step) {
    var p := s.PhaseOf(step.a);
    match step
    case ArriveRead(_) => p.Idle?
    case ArriveWrite(_) => p.Idle?
    case Recheck(_) => p.Waiting() && !p.asleep
    case Release(_) => p.Reading? || p.Writing?
    case NotifyAll(_) => p.NotifyOwed?
    case SpuriousWake(_) => p.Asleep()
    case Publish(_) => p.Writing?
  }

  function TryRead(s: System, a: Access, l: LockFields): System {
    if l.CanAcquireRead() then s.Moved(a, l.ReadGranted(), Reading(l.sceneVersionId))
    else s.Moved(a, l, ReadWaiting(true))
  }

  function TryWrite(s: System, a: Access, l: LockFields): System {
    if l.CanAcquireWrite() then s.Moved(a, l.WriteGranted(), Writing(l.sceneVersionId))
    else s.Moved(a, l, WriteWaiting(true))
  }

  function Apply(s: System, step: Step): System
    requires Enabled(s, step)
  {
    var a := step.a;
    match step
    case ArriveRead(_) => TryRead(s, a, s.lock.ReadArrived())
    case ArriveWrite(_) => TryWrite(s, a, s.lock.WriteArrived())
    case Recheck(_) => if s.PhaseOf(a).ReadWaiting? then TryRead(s, a, s.lock) else TryWrite(s, a, s.lock)
    case Release(_) => s.Moved(a, s.lock.Released(if s.PhaseOf(a).Reading? then Read else Write), NotifyOwed)
    case NotifyAll(_) => System(s.lock, map b | b in s.phases :: if b == a then Idle else s.phases[b].Woken())
    case SpuriousWake(_) => s.Moved(a, s.lock, s.PhaseOf(a).Woken())
    case Publish(_) => s.Moved(a, s.lock.Published(), Writing(s.lock.sceneVersionId + 1))
  }

  predicate Next(s: System, step: Step, t: System) {
    Enabled(s, step) && t == Apply(s, step)
  }

  predicate GrantsRead(s: System, step: Step) {
    match step
    case ArriveRead(_) => s.lock.ReadArrived().CanAcquireRead()
    case Recheck(a) => s.PhaseOf(a).ReadWaiting? && s.lock.CanAcquireRead()
    case _ => false
  }

  predicate GrantsWrite(s: System, step: Step) {
    match step
    case ArriveWrite(_) => s.lock.WriteArrived().CanAcquireWrite()
    case Recheck(a) => s.PhaseOf(a).WriteWaiting? && s.lock.CanAcquireWrite()
    case _ => false
  }

  // A run: states with the steps between them.
  ghost predicate IsRun(policy: ReadPolicy, states: seq<System>, steps: seq<Step>) {
    && |states| == |steps| + 1
    && states[0] == Initial(policy)
    && forall i :: 0 <= i < |steps| ==> Next(states[i], steps[i], states[i + 1])
  }

  // ------------------------------------------------------------------ invariant

  ghost predicate CountersExact(s: System) {
    && s.lock.activeReaderCount == |s.Readers()|
    && s.lock.waitingWriterCount == |s.WaitingWriters()|
    && (s.lock.writerActive <==> s.Writers() != {})
  }

  ghost predicate Exclusive(s: System) {
    && (forall a, b :: a in s.Writers() && b in s.Writers() ==> a == b)
    && (s.Writers() != {} ==> s.Readers() == {})
  }

  ghost predicate VersionsCurrent(s: System) {
    forall a :: a in s.phases && (s.phases[a].Reading? || s.phases[a].Writing?)
                ==> s.phases[a].version == s.lock.sceneVersionId
  }

  ghost predicate FlagHasWaitingReader(s: System) {
    s.lock.blockedPriorityReadPending ==> exists a :: a in s.phases && s.phases[a].ReadWaiting?
  }

  ghost predicate NotificationOwed(s: System) {
    exists a :: a in s.phases && s.phases[a].NotifyOwed?
  }

  ghost predicate NoLostWakeUp(s: System) {
    forall a :: a in s.phases && s.phases[a].Asleep() && s.Admissible(a) ==> NotificationOwed(s)
  }

  ghost predicate Inv(s: System) {
    CountersExact(s) && Exclusive(s) && VersionsCurrent(s) && FlagHasWaitingReader(s) && NoLostWakeUp(s)
  }

  // A step moves one access; the others are at most woken.
  lemma OthersOnlyWoken(s: System, step: Step, b: Access)
    requires Enabled(s, step) && b != step.a
    ensures Apply(s, step).PhaseOf(b) == if step.NotifyAll? then s.PhaseOf(b).Woken() else s.PhaseOf(b)
  {
  }

  lemma InMembers(s: System, b: Access, kind: Kind)
    ensures b in s.Members(kind) <==> s.PhaseOf(b).Is(kind)
  {
  }

  // What one step does to the sets that the lock counts: the stepping access
  // enters or leaves a set according to its phase before and after.
  lemma MembersAfterStep(s: System, step: Step, kind: Kind)
    requires Enabled(s, step)
    ensures Apply(s, step).Members(kind)
            == Toggled(s.Members(kind), step.a, Apply(s, step).PhaseOf(step.a).Is(kind))
    ensures step.a in s.Members(kind) <==> s.PhaseOf(step.a).Is(kind)
  {
    var t := Apply(s, step);
    InMembers(s, step.a, kind);
    forall b ensures b in t.Members(kind) <==> b in Toggled(s.Members(kind), step.a, t.PhaseOf(step.a).Is(kind)) {
      InMembers(s, b, kind);
      InMembers(t, b, kind);
      if b != step.a {
        OthersOnlyWoken(s, step, b);
      }
    }
  }

  function Toggled(x: set<Access>, a: Access, isIn: bool): (y: set<Access>)
    ensures |y| == |x - {a}| + (if isIn then 1 else 0)
    ensures |x - {a}| == |x| - (if a in x then 1 else 0)
  {
    if isIn then (x - {a}) + {a} else x - {a}
  }

  function Bit(b: bool): int {
    if b then 1 else 0
  }

  // The counters move exactly as the phase of the stepping access does.
  lemma CountersFollowPhase(s: System, step: Step)
    requires Enabled(s, step)
    requires s.PhaseOf(step.a).Reading? ==> s.lock.activeReaderCount > 0
    requires s.PhaseOf(step.a).WriteWaiting? ==> s.lock.waitingWriterCount > 0
    requires s.PhaseOf(step.a).Writing? ==> s.lock.writerActive
    ensures var t := Apply(s, step); var p, q := s.PhaseOf(step.a), t.PhaseOf(step.a);
      && t.lock.activeReaderCount == s.lock.activeReaderCount + Bit(q.Reading?) - Bit(p.Reading?)
      && t.lock.waitingWriterCount == s.lock.waitingWriterCount + Bit(q.WriteWaiting?) - Bit(p.WriteWaiting?)
      && (t.lock.writerActive <==> q.Writing? || (s.lock.writerActive && !p.Writing?))
  {
  }

  lemma StepKeepsCounters(s: System, step: Step)
    requires CountersExact(s) && Exclusive(s) && Enabled(s, step)
    ensures CountersExact(Apply(s, step))
  {
    MembersAfterStep(s, step, Reader);
    MembersAfterStep(s, step, WaitingWriter);
    MembersAfterStep(s, step, Writer);
    OneWriter(s, step.a);
    CountersFollowPhase(s, step);
  }

  lemma OneWriter(s: System, a: Access)
    requires Exclusive(s)
    ensures a in s.Writers() ==> s.Writers() == {a}
  {
  }

  // Whoever starts writing finds nobody inside; whoever starts reading finds no writer.
  lemma EntryGuards(s: System, step: Step)
    requires CountersExact(s) && Enabled(s, step)
    ensures var p, q := s.PhaseOf(step.a), Apply(s, step).PhaseOf(step.a);
      && (q.Writing? && !p.Writing? ==> s.Readers() == {} && s.Writers() == {})
      && (q.Reading? && !p.Reading? ==> s.Writers() == {})
      && !(p.Reading? && q.Writing?) && !(p.Writing? && q.Reading?)
  {
    assert s.Readers() == {} <==> |s.Readers()| == 0;
  }

  lemma StepKeepsExclusion(s: System, step: Step)
    requires CountersExact(s) && Exclusive(s) && Enabled(s, step)
    ensures Exclusive(Apply(s, step))
  {
    var t := Apply(s, step);
    EntryGuards(s, step);
    MembersAfterStep(s, step, Reader);
    MembersAfterStep(s, step, Writer);
    SetsStayExclusive(s.Readers(), s.Writers(), step.a, t.PhaseOf(step.a).Reading?, t.PhaseOf(step.a).Writing?);
  }

  lemma SetsStayExclusive(readers: set<Access>, writers: set<Access>, a: Access, willRead: bool, willWrite: bool)
    requires forall x, y :: x in writers && y in writers ==> x == y
    requires writers != {} ==> readers == {}
    requires willWrite && a !in writers ==> readers == {} && writers == {}
    requires willRead && a !in readers ==> writers == {}
    requires !(willRead && willWrite)
    ensures forall x, y :: x in Toggled(writers, a, willWrite) && y in Toggled(writers, a, willWrite) ==> x == y
    ensures Toggled(writers, a, willWrite) != {} ==> Toggled(readers, a, willRead) == {}
  {
  }

  lemma StepKeepsVersions(s: System, step: Step)
    requires Inv(s) && Enabled(s, step)
    ensures VersionsCurrent(Apply(s, step))
  {
    if step.Publish? {
      assert step.a in s.Writers();
      forall b | b in s.phases && b != step.a ensures !s.phases[b].Reading? && !s.phases[b].Writing? {
        assert b !in s.Readers() && b !in s.Writers();
      }
    }
  }

  // Only a release can open the gate for an access that is asleep before and after.
  lemma OnlyReleaseAdmitsSleepers(s: System, step: Step, a: Access)
    requires Inv(s) && Enabled(s, step)
    requires s.PhaseOf(a).Asleep() && !s.Admissible(a)
    requires Apply(s, step).PhaseOf(a).Asleep() && Apply(s, step).Admissible(a)
    ensures step.Release? && NotificationOwed(Apply(s, step))
  {
    var t := Apply(s, step);
    if step.Release? {
      assert t.phases[step.a].NotifyOwed?;
    } else {
      assert false;
    }
  }

  lemma StepKeepsWakeUps(s: System, step: Step)
    requires Inv(s) && Enabled(s, step)
    ensures NoLostWakeUp(Apply(s, step)) && FlagHasWaitingReader(Apply(s, step))
  {
    var t := Apply(s, step);
    forall a | a in t.phases && t.phases[a].Asleep() && t.Admissible(a)
      ensures NotificationOwed(t)
    {
      if a == step.a {
        assert false;
      } else if s.Admissible(a) {
        var n :| n in s.phases && s.phases[n].NotifyOwed?;
        assert n in t.phases && t.phases[n].NotifyOwed?;
      } else {
        OnlyReleaseAdmitsSleepers(s, step, a);
      }
    }
    if t.lock.blockedPriorityReadPending {
      if s.lock.blockedPriorityReadPending {
        var r :| r in s.phases && s.phases[r].ReadWaiting?;
        assert r in t.phases && t.phases[r].ReadWaiting?;
      } else {
        assert t.phases[step.a].ReadWaiting?;
      }
    }
  }

  lemma StepKeepsInv(s: System, step: Step)
    requires Inv(s) && Enabled(s, step)
    ensures Inv(Apply(s, step)) && Apply(s, step).lock.readPolicy == s.lock.readPolicy
  {
    StepKeepsCounters(s, step);
    StepKeepsExclusion(s, step);
    StepKeepsVersions(s, step);
    StepKeepsWakeUps(s, step);
  }

  lemma {:induction false} RunInvariant(policy: ReadPolicy, states: seq<System>, steps: seq<Step>, i: nat)
    requires IsRun(policy, states, steps) && i < |states|
    ensures Inv(states[i]) && states[i].lock.readPolicy == policy
    decreases i
  {
    if i > 0 {
      RunInvariant(policy, states, steps, i - 1);
      assert Next(states[i - 1], steps[i - 1], states[i]);
      StepKeepsInv(states[i - 1], steps[i - 1]);
    }
  }

  // ---------------------------------------------------------------- progress

  ghost predicate NoLease(s: System) {
    s.Readers() == {} && s.Writers() == {}
  }

  lemma NoLeaseCounters(s: System)
    requires Inv(s) && NoLease(s)
    ensures !s.lock.writerActive && s.lock.activeReaderCount == 0
  {
  }

  // With no lease out, some waiting access would be admitted if it looked.
  lemma DeadlockFree(s: System, waiter: Access) returns (a: Access)
    requires Inv(s) && NoLease(s) && s.PhaseOf(waiter).Waiting()
    ensures s.Admissible(a)
  {
    NoLeaseCounters(s);
    if s.lock.blockedPriorityReadPending {
      a :| a in s.phases && s.phases[a].ReadWaiting?;
    } else if s.WaitingWriters() != {} {
      a :| a in s.WaitingWriters();
    } else {
      a := waiter;
      InMembers(s, waiter, WaitingWriter);
    }
  }

  // ... and it will look: a grant is at most one owed notification and one
  // recheck away, whatever the interleaving so far has been.
  lemma GrantIsNear(policy: ReadPolicy, states: seq<System>, steps: seq<Step>, i: nat, waiter: Access)
    returns (wake: seq<Step>, s: System, a: Access)
    requires IsRun(policy, states, steps) && i < |states|
    requires NoLease(states[i]) && states[i].PhaseOf(waiter).Waiting()
    ensures |wake| <= 1 && (wake == [] ==> s == states[i])
    ensures wake != [] ==> wake[0].NotifyAll? && Next(states[i], wake[0], s)
    ensures Enabled(s, Recheck(a)) && (GrantsRead(s, Recheck(a)) || GrantsWrite(s, Recheck(a)))
  {
    RunInvariant(policy, states, steps, i);
    a := DeadlockFree(states[i], waiter);
    if states[i].PhaseOf(a).Asleep() {
      assert NotificationOwed(states[i]);
      var n :| n in states[i].phases && states[i].phases[n].NotifyOwed?;
      wake := [NotifyAll(n)];
      s := Apply(states[i], NotifyAll(n));
      OthersOnlyWoken(states[i], NotifyAll(n), a);
    } else {
      wake, s := [], states[i];
    }
  }

  // Nobody sleeps for ever beside a free lock: when no access is awake to recheck
  // and no notification is owed, a waiting access implies a lease that is held.
  lemma QuiescentWaitersHaveAHolder(policy: ReadPolicy, states: seq<System>, steps: seq<Step>, i: nat, waiter: Access)
    requires IsRun(policy, states, steps) && i < |states|
    requires states[i].PhaseOf(waiter).Waiting()
    requires forall a :: a in states[i].phases ==> (states[i].phases[a].Waiting() ==> states[i].phases[a].asleep)
                                                   && !states[i].phases[a].NotifyOwed?
    ensures !NoLease(states[i])
  {
    if NoLease(states[i]) {
      RunInvariant(policy, states, steps, i);
      var a := DeadlockFree(states[i], waiter);
      assert false;
    }
  }

  // ------------------------------------------------------- leases and versions

  // The underflow guard in the destructor is never taken, and neither counter wraps.
  lemma CountersNeverUnderflow(policy: ReadPolicy, states: seq<System>, steps: seq<Step>, i: nat, a: Access)
    requires IsRun(policy, states, steps) && i < |states|
    ensures states[i].PhaseOf(a).Reading? ==> states[i].lock.activeReaderCount > 0
    ensures states[i].PhaseOf(a).WriteWaiting? ==> states[i].lock.waitingWriterCount > 0
  {
    RunInvariant(policy, states, steps, i);
    InMembers(states[i], a, Reader);
    InMembers(states[i], a, WaitingWriter);
  }

  lemma WriteExcludesAll(policy: ReadPolicy, states: seq<System>, steps: seq<Step>, i: nat, a: Access, b: Access)
    requires IsRun(policy, states, steps) && i < |states| && a != b
    requires states[i].PhaseOf(a).Writing?
    ensures !states[i].PhaseOf(b).Writing? && !states[i].PhaseOf(b).Reading?
  {
    RunInvariant(policy, states, steps, i);
    InMembers(states[i], a, Writer);
    InMembers(states[i], b, Writer);
    InMembers(states[i], b, Reader);
  }

  // Every live lease, read or write, carries the current scene version, although
  // publication changes it.
  lemma LeasesAreCurrent(policy: ReadPolicy, states: seq<System>, steps: seq<Step>, i: nat, a: Access)
    requires IsRun(policy, states, steps) && i < |states|
    requires states[i].PhaseOf(a).Reading? || states[i].PhaseOf(a).Writing?
    ensures states[i].PhaseOf(a).version == states[i].lock.sceneVersionId
  {
    RunInvariant(policy, states, steps, i);
  }

  // While an access reads, the scene version is the one its lease recorded.
  lemma {:induction false} SnapshotStable(policy: ReadPolicy, states: seq<System>, steps: seq<Step>, i: nat, j: nat, a: Access)
    requires IsRun(policy, states, steps) && i <= j < |states|
    requires forall k :: i <= k <= j ==> states[k].PhaseOf(a).Reading?
    ensures states[j].lock.sceneVersionId == states[i].lock.sceneVersionId == states[j].PhaseOf(a).version
    ensures states[j].PhaseOf(a) == states[i].PhaseOf(a)
    decreases j
  {
    RunInvariant(policy, states, steps, j);
    if i < j {
      SnapshotStable(policy, states, steps, i, j - 1, a);
      assert Next(states[j - 1], steps[j - 1], states[j]);
      if steps[j - 1].a != a {
        OthersOnlyWoken(states[j - 1], steps[j - 1], a);
      }
    }
  }

  // -------------------------------------------------------- bounded overtaking

  lemma {:induction false} FlagStaysUntilRead(policy: ReadPolicy, states: seq<System>, steps: seq<Step>, i: nat, j: nat)
    requires IsRun(policy, states, steps) && i < j < |states|
    requires steps[i].ArriveRead? && states[i].lock.writerActive
    requires forall k :: i < k < j ==> !GrantsRead(states[k], steps[k])
    ensures states[j].lock.blockedPriorityReadPending
    decreases j
  {
    if j == i + 1 {
      assert Next(states[i], steps[i], states[j]);
    } else {
      FlagStaysUntilRead(policy, states, steps, i, j - 1);
      assert Next(states[j - 1], steps[j - 1], states[j]);
    }
  }

  // A read request that arrives during a write puts a read grant before the next write.
  lemma ReadGrantBetweenWrites(policy: ReadPolicy, states: seq<System>, steps: seq<Step>, i: nat, j: nat)
    requires IsRun(policy, states, steps) && i < j < |steps|
    requires steps[i].ArriveRead? && states[i].lock.writerActive
    requires GrantsWrite(states[j], steps[j])
    ensures exists k :: i < k < j && GrantsRead(states[k], steps[k])
  {
    if forall k :: i < k < j ==> !GrantsRead(states[k], steps[k]) {
      FlagStaysUntilRead(policy, states, steps, i, j);
      assert false;
    }
  }

  lemma {:induction false} NoPriorityUntilWrite(policy: ReadPolicy, states: seq<System>, steps: seq<Step>, i: nat, j: nat)
    requires IsRun(policy, states, steps) && i < j < |states|
    requires GrantsRead(states[i], steps[i])
    requires forall k :: i < k < j ==> !GrantsWrite(states[k], steps[k])
    ensures !states[j].lock.blockedPriorityReadPending && !states[j].lock.writerActive
    ensures states[j].lock.readPolicy == policy
    decreases j
  {
    RunInvariant(policy, states, steps, j);
    if j == i + 1 {
      assert Next(states[i], steps[i], states[j]);
    } else {
      NoPriorityUntilWrite(policy, states, steps, i, j - 1);
      assert Next(states[j - 1], steps[j - 1], states[j]);
    }
  }

  // Balanced: two read grants that both pass a waiting writer have a write grant
  // between them, so a waiting writer is overtaken at most once.
  lemma BalancedOvertakesOnce(states: seq<System>, steps: seq<Step>, i: nat, j: nat)
    requires IsRun(Balanced, states, steps) && i < j < |steps|
    requires GrantsRead(states[i], steps[i])
    requires GrantsRead(states[j], steps[j]) && states[j].lock.waitingWriterCount > 0
    ensures exists k :: i < k < j && GrantsWrite(states[k], steps[k])
  {
    if forall k :: i < k < j ==> !GrantsWrite(states[k], steps[k]) {
      NoPriorityUntilWrite(Balanced, states, steps, i, j);
      assert false;
    }
  }

  // ------------------------------------------------------ whose grant is it?

  // A reader blocked by a write goes before the next write unless another access
  // takes the priority grant.
  lemma BlockedReaderFirst(policy: ReadPolicy, states: seq<System>, steps: seq<Step>, i: nat, j: nat)
    requires IsRun(policy, states, steps) && i < j < |steps|
    requires steps[i].ArriveRead? && states[i].lock.writerActive
    requires GrantsWrite(states[j], steps[j])
    requires forall k :: i < k < j && GrantsRead(states[k], steps[k]) ==> steps[k].a == steps[i].a
    ensures exists k :: i < k < j && GrantsRead(states[k], steps[k]) && steps[k].a == steps[i].a
  {
    ReadGrantBetweenWrites(policy, states, steps, i, j);
  }

  // A read request evaluates its predicate: on arrival, or when it rechecks.
  predicate LooksForRead(s: System, step: Step) {
    step.ArriveRead? || (step.Recheck? && s.PhaseOf(step.a).ReadWaiting?)
  }

  // Step m is the first evaluation by any read request after step r.
  ghost predicate FirstLook(states: seq<System>, steps: seq<Step>, r: nat, m: nat)
    requires |states| == |steps| + 1
  {
    && r < m < |steps| && LooksForRead(states[m], steps[m])
    && forall k :: r < k < m ==> !LooksForRead(states[k], steps[k])
  }

  // A read request arrives at step i during a write, which is released at step r.
  ghost predicate BlockedUntil(states: seq<System>, steps: seq<Step>, i: nat, r: nat)
    requires |states| == |steps| + 1
  {
    && i < r < |steps| && steps[i].ArriveRead?
    && (forall m :: i <= m <= r ==> states[m].lock.writerActive)
    && steps[r].Release? && states[r].PhaseOf(steps[r].a).Writing?
  }

  lemma {:induction false} FreeUntilWrite(policy: ReadPolicy, states: seq<System>, steps: seq<Step>, i: nat, r: nat, m: nat)
    requires IsRun(policy, states, steps) && BlockedUntil(states, steps, i, r) && r < m < |states|
    requires forall k :: r < k < m ==> !GrantsWrite(states[k], steps[k])
    ensures !states[m].lock.writerActive
    decreases m
  {
    assert Next(states[m - 1], steps[m - 1], states[m]);
    if r + 1 < m {
      FreeUntilWrite(policy, states, steps, i, r, m - 1);
    }
  }

  // The first look after the release is granted, under either policy.
  lemma FirstLookIsGranted(policy: ReadPolicy, states: seq<System>, steps: seq<Step>, i: nat, r: nat, m: nat)
    requires IsRun(policy, states, steps) && BlockedUntil(states, steps, i, r) && FirstLook(states, steps, r, m)
    requires forall k :: r < k < m ==> !GrantsWrite(states[k], steps[k])
    ensures GrantsRead(states[m], steps[m])
  {
    RunInvariant(policy, states, steps, m);
    FreeUntilWrite(policy, states, steps, i, r, m);
    forall k | i < k < m ensures !GrantsRead(states[k], steps[k]) {
      if k > r {
        assert !LooksForRead(states[k], steps[k]);
      }
    }
    FlagStaysUntilRead(policy, states, steps, i, m);
  }

  lemma {:induction false} FirstLookExists(states: seq<System>, steps: seq<Step>, r: nat, m: nat) returns (k: nat)
    requires |states| == |steps| + 1 && r < m < |steps| && LooksForRead(states[m], steps[m])
    ensures k <= m && FirstLook(states, steps, r, k)
    decreases m
  {
    if FirstLook(states, steps, r, m) {
      k := m;
    } else {
      var n :| r < n < m && LooksForRead(states[n], steps[n]);
      k := FirstLookExists(states, steps, r, n);
    }
  }

  // Until the next write, a look is granted exactly if the policy is Greedy, or it
  // is the first one after the release, or no writer waits.
  lemma LookIsGrantedIff(policy: ReadPolicy, states: seq<System>, steps: seq<Step>, i: nat, r: nat, m: nat)
    requires IsRun(policy, states, steps) && BlockedUntil(states, steps, i, r)
    requires r < m < |steps| && LooksForRead(states[m], steps[m])
    requires forall k :: r < k < m ==> !GrantsWrite(states[k], steps[k])
    ensures GrantsRead(states[m], steps[m])
            <==> policy == Greedy || FirstLook(states, steps, r, m) || states[m].lock.waitingWriterCount == 0
  {
    RunInvariant(policy, states, steps, m);
    FreeUntilWrite(policy, states, steps, i, r, m);
    var k := FirstLookExists(states, steps, r, m);
    FirstLookIsGranted(policy, states, steps, i, r, k);
    if k < m {
      NoPriorityUntilWrite(policy, states, steps, k, m);
    }
  }

  // Exactly when a reader that was blocked by a write goes before the next one: it
  // looks in time, and under Balanced it is the first to look or no writer waits.
  lemma BlockedReaderGoesFirstIff(policy: ReadPolicy, states: seq<System>, steps: seq<Step>, i: nat, r: nat, j: nat)
    requires IsRun(policy, states, steps) && BlockedUntil(states, steps, i, r) && r < j <= |steps|
    requires forall m :: r < m < j ==> !GrantsWrite(states[m], steps[m])
    ensures (exists m :: i < m < j && GrantsRead(states[m], steps[m]) && steps[m].a == steps[i].a)
            <==> exists m :: r < m < j && LooksForRead(states[m], steps[m]) && steps[m].a == steps[i].a
                   && (policy == Greedy || FirstLook(states, steps, r, m) || states[m].lock.waitingWriterCount == 0)
  {
    forall m | i < m < j && GrantsRead(states[m], steps[m]) ensures r < m && LooksForRead(states[m], steps[m]) {
    }
    forall m | r < m < j && LooksForRead(states[m], steps[m])
      ensures GrantsRead(states[m], steps[m])
              <==> policy == Greedy || FirstLook(states, steps, r, m) || states[m].lock.waitingWriterCount == 0
    {
      LookIsGrantedIff(policy, states, steps, i, r, m);
    }
  }

  // Balanced, with a writer waiting throughout: exactly one read is granted before
  // the next write, and it goes to whoever looks first; so the blocked reader goes
  // before that write if and only if the first look is its own.
  lemma PriorityIsTheFirstLook(states: seq<System>, steps: seq<Step>, i: nat, r: nat, j: nat) returns (k: nat)
    requires IsRun(Balanced, states, steps) && BlockedUntil(states, steps, i, r) && r < j < |steps|
    requires GrantsWrite(states[j], steps[j]) && forall m :: r < m < j ==> !GrantsWrite(states[m], steps[m])
    requires forall m :: r < m < j ==> states[m].lock.waitingWriterCount > 0
    ensures r < k < j && FirstLook(states, steps, r, k) && GrantsRead(states[k], steps[k])
    ensures forall m :: i < m < j && GrantsRead(states[m], steps[m]) ==> m == k
    ensures (exists m :: i < m < j && GrantsRead(states[m], steps[m]) && steps[m].a == steps[i].a)
            <==> steps[k].a == steps[i].a
  {
    ReadGrantBetweenWrites(Balanced, states, steps, i, j);
    var g :| i < g < j && GrantsRead(states[g], steps[g]);
    assert r < g && LooksForRead(states[g], steps[g]);
    k := FirstLookExists(states, steps, r, g);
    FirstLookIsGranted(Balanced, states, steps, i, r, k);
    forall m | i < m < j && GrantsRead(states[m], steps[m]) ensures m == k {
      if m != k {
        assert r < m && LooksForRead(states[m], steps[m]) && k < m;
        BalancedOvertakesOnce(states, steps, k, m);
      }
    }
  }

  function WriteGrantCount(states: seq<System>, steps: seq<Step>): nat
    requires |states| == |steps| + 1
  {
    if steps == [] then 0
    else
      var n := |steps| - 1;
      WriteGrantCount(states[..n + 1], steps[..n]) + if GrantsWrite(states[n], steps[n]) then 1 else 0
  }

  const READER: Access := 0
  const RIVAL: Access := 1
  const WRITER: Access := 2

  // A Balanced lock at version 0 with no waiting writer, and the phases of the three.
  function Trio(readers: nat, writing: bool, flag: bool, r: Phase, q: Phase, w: Phase): System {
    System(LockFields(Balanced, readers, 0, writing, flag, 0), map[READER := r, RIVAL := q, WRITER := w])
  }

  // READER arrived during a write, lost its priority to RIVAL, and is awake.
  const OVERTAKEN := Trio(0, false, false, ReadWaiting(false), Idle, Idle)

  const ENTERED := System(LockFields(Balanced, 0, 0, true, false, 0), map[WRITER := Writing(0)])
  const BLOCKED := System(LockFields(Balanced, 0, 0, true, true, 0), map[WRITER := Writing(0), READER := ReadWaiting(true)])
  const FREED := System(LockFields(Balanced, 0, 0, false, true, 0), map[WRITER := NotifyOwed, READER := ReadWaiting(true)])
  const WOKEN := System(LockFields(Balanced, 0, 0, false, true, 0), map[WRITER := Idle, READER := ReadWaiting(false)])
  const PASSED := Trio(1, false, false, ReadWaiting(false), Reading(0), Idle)
  const DONE := Trio(0, false, false, ReadWaiting(false), NotifyOwed, Idle)

  lemma ReaderIsBlocked()
    ensures Next(Initial(Balanced), ArriveWrite(WRITER), ENTERED)
    ensures Next(ENTERED, ArriveRead(READER), BLOCKED)
    ensures Next(BLOCKED, Release(WRITER), FREED)
    ensures Next(FREED, NotifyAll(WRITER), WOKEN)
  {
  }

  lemma RivalPasses()
    ensures Next(WOKEN, ArriveRead(RIVAL), PASSED)
    ensures Next(PASSED, Release(RIVAL), DONE)
    ensures Next(DONE, NotifyAll(RIVAL), OVERTAKEN)
  {
  }

  const BEHIND := Trio(0, true, false, ReadWaiting(false), Idle, Writing(0))
  const ASLEEP := Trio(0, true, false, ReadWaiting(true), Idle, Writing(0))
  const LEFT := Trio(0, false, false, ReadWaiting(true), Idle, NotifyOwed)

  lemma OneMoreWrite()
    ensures GrantsWrite(OVERTAKEN, ArriveWrite(WRITER)) && Next(OVERTAKEN, ArriveWrite(WRITER), BEHIND)
    ensures Next(BEHIND, Recheck(READER), ASLEEP)
    ensures Next(ASLEEP, Release(WRITER), LEFT)
    ensures Next(LEFT, NotifyAll(WRITER), OVERTAKEN)
  {
  }

  // READER requested during a write, has waited ever since, and n writes were granted.
  ghost predicate Starved(states: seq<System>, steps: seq<Step>, n: nat) {
    && IsRun(Balanced, states, steps) && |states| >= 3
    && steps[1] == ArriveRead(READER) && states[1].lock.writerActive
    && (forall k :: 2 <= k < |states| ==> states[k].PhaseOf(READER).ReadWaiting?)
    && WriteGrantCount(states, steps) >= n
  }

  lemma StarvedStep(states: seq<System>, steps: seq<Step>, n: nat, step: Step, t: System)
    requires Starved(states, steps, n)
    requires Next(states[|steps|], step, t) && t.PhaseOf(READER).ReadWaiting?
    ensures Starved(states + [t], steps + [step], n + if GrantsWrite(states[|steps|], step) then 1 else 0)
  {
    assert (states + [t])[..|steps| + 1] == states && (steps + [step])[..|steps|] == steps;
  }

  lemma {:induction false} Starve(states: seq<System>, steps: seq<Step>, n: nat, more: seq<Step>, path: seq<System>)
    returns (states': seq<System>, steps': seq<Step>)
    requires Starved(states, steps, n) && |path| == |more| + 1 && path[0] == states[|steps|]
    requires forall k :: 0 <= k < |more| ==> Next(path[k], more[k], path[k + 1])
    requires forall k :: 0 <= k < |path| ==> path[k].PhaseOf(READER).ReadWaiting?
    ensures Starved(states', steps', n) && states'[|steps'|] == path[|more|]
    decreases |more|
  {
    if more == [] {
      states', steps' := states, steps;
    } else {
      assert Next(path[0], more[0], path[1]);
      StarvedStep(states, steps, n, more[0], path[1]);
      states', steps' := Starve(states + [path[1]], steps + [more[0]], n, more[1..], path[1..]);
    }
  }

  lemma StarvedOnce() returns (states: seq<System>, steps: seq<Step>)
    ensures Starved(states, steps, 0) && states[|steps|] == OVERTAKEN
  {
    ReaderIsBlocked();
    states, steps := [Initial(Balanced), ENTERED, BLOCKED], [ArriveWrite(WRITER), ArriveRead(READER)];
    assert Starved(states, steps, 0);
    states, steps := Starve(states, steps, 0, [Release(WRITER), NotifyAll(WRITER)], [BLOCKED, FREED, WOKEN]);
    RivalPasses();
    states, steps := Starve(states, steps, 0, [ArriveRead(RIVAL), Release(RIVAL), NotifyAll(RIVAL)],
                            [WOKEN, PASSED, DONE, OVERTAKEN]);
  }

  // Priority belongs to whichever read is granted first, so no bound holds for one
  // particular reader: it can wait through any number of writes.
  lemma {:induction false} OneReaderMayStarve(n: nat) returns (states: seq<System>, steps: seq<Step>)
    ensures Starved(states, steps, n) && states[|steps|] == OVERTAKEN
  {
    if n == 0 {
      states, steps := StarvedOnce();
    } else {
      states, steps := OneReaderMayStarve(n - 1);
      OneMoreWrite();
      StarvedStep(states, steps, n - 1, ArriveWrite(WRITER), BEHIND);
      states, steps := Starve(states + [BEHIND], steps + [ArriveWrite(WRITER)], n,
                              [Recheck(READER), Release(WRITER), NotifyAll(WRITER)], [BEHIND, ASLEEP, LEFT, OVERTAKEN]);
    }
  }
}
