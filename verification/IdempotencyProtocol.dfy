/** Any number of requests under one user and key, interleaved with crashes, expiry and clock ticks.

    The INSERT, the router's run and the final UPDATE or DELETE of a request are one database transaction:
    until it commits nobody else sees its row, and a rival INSERT waits. The router commits its own business
    transaction separately. Nothing orders that commit against the capture of the response, so the model counts
    the effect as early as it can happen, when the router ends: a run that dies in between may be counted as
    an effect that was in fact rolled back, and no real effect goes uncounted. */
module IdempotencyProtocol {
  import opened Tables
  import opened Idempotency

  datatype Phase =
    | Arrived
    | Conflicted                          // the INSERT found the key taken
    | Running                             // holds the key, the router is at work
    | Finished(outcome: Outcome)          // holds the key, the router has ended
    | Releasing(reply: Reply)             // row deleted, not yet committed
    | Completing(response: Response)      // row completed, not yet committed
    | Done(reply: Reply)
    | Dead                                // crashed or cancelled: its transaction is rolled back

  /** The uncommitted transaction that holds the key, and the row as that transaction sees it. */
  datatype InFlight = InFlight(owner: nat, row: Option<Record>)

  /** The lower part is bookkeeping for the claims: which runs committed a business effect, which of those
      ended without a record, which were recorded, how many records expired, and what each run returned. */
  datatype State = State(
    attempts: seq<Attempt>, phases: seq<Phase>, committed: Option<Record>, inflight: Option<InFlight>, now: int,
    effects: set<nat>, orphans: set<nat>, completed: set<nat>, expired: nat, ran: map<nat, Response>)

  datatype Step =
    | Arrive(attempt: Attempt)
    | Acquire(i: nat)
    | Look(i: nat)
    | RouterReturns(i: nat, response: Response, wrote: bool)
    | RouterRaises(i: nat, wrote: bool)
    | CaptureFails(i: nat)
    | Release(i: nat)
    | Complete(i: nat)
    | Commit(i: nat)
    | Crash(i: nat)
    | Tick(seconds: nat)
    | Cleanup

  function Start(now: int): State {
    State([], [], None, None, now, {}, {}, {}, 0, map[])
  }

  predicate Holds(p: Phase) {
    p.Running? || p.Finished? || p.Releasing? || p.Completing?
  }

  predicate In(s: State, i: nat) {
    i < |s.phases|
  }

  /** When a step can happen. */
  predicate Enabled(s: State, step: Step) {
    match step
    case Arrive(_) => true
    case Acquire(i) => In(s, i) && s.phases[i].Arrived? && s.inflight.None?
    case Look(i) => In(s, i) && s.phases[i].Conflicted?
    case RouterReturns(i, _, _) => In(s, i) && s.phases[i].Running?
    case RouterRaises(i, _) => In(s, i) && s.phases[i].Running?
    case CaptureFails(i) => In(s, i) && s.phases[i].Finished? && s.phases[i].outcome.Returned?
    case Release(i) => In(s, i) && s.phases[i].Finished?
                       && (s.phases[i].outcome.Failed? || s.phases[i].outcome.response.status >= 500)
    case Complete(i) => In(s, i) && s.phases[i].Finished?
                        && s.phases[i].outcome.Returned? && s.phases[i].outcome.response.status < 500
    case Commit(i) => In(s, i) && (s.phases[i].Releasing? || s.phases[i].Completing?)
    case Crash(i) => In(s, i) && !s.phases[i].Done? && !s.phases[i].Dead?
    case Tick(_) => true
    case Cleanup => true
  }

  function To(s: State, i: nat, p: Phase): State
    requires In(s, i)
  {
    s.(phases := s.phases[i := p])
  }

  /** The row the holder sees. */
  function OwnRow(s: State): Option<Record> {
    if s.inflight.Some? then s.inflight.value.row else None
  }

  function Effect(s: State, i: nat, wrote: bool): State {
    if wrote then s.(effects := s.effects + {i}) else s
  }

  function Orphaned(s: State, i: nat): State {
    if i in s.effects then s.(orphans := s.orphans + {i}) else s
  }

  function WithRow(s: State, i: nat, row: Option<Record>): State {
    s.(inflight := Some(InFlight(i, row)))
  }

  function Next(s: State, step: Step): State
    requires Enabled(s, step) && |s.attempts| == |s.phases|
    requires s.committed.Some? ==> RecordFits(s.committed.value)
  {
    match step
    case Arrive(a) => s.(attempts := s.attempts + [a], phases := s.phases + [Arrived])
    case Acquire(i) =>
      if s.committed.Some? then To(s, i, Conflicted)
      else WithRow(To(s, i, Running), i, Some(Record(i, s.attempts[i], s.now, Pending)))
    case Look(i) => To(s, i, Done(Answer(s.committed, s.attempts[i])))
    case RouterReturns(i, r, wrote) => Effect(To(s, i, Finished(Returned(r))), i, wrote).(ran := s.ran[i := r])
    case RouterRaises(i, wrote) => Effect(To(s, i, Finished(Failed)), i, wrote)
    case CaptureFails(i) => To(s, i, Finished(Failed))
    case Release(i) =>
      var reply := match s.phases[i].outcome case Failed => Raised case Returned(r) => Own(r);
      var row := OwnRow(s);
      WithRow(To(s, i, Releasing(reply)), i, if row.Some? && row.value.status.Pending? then None else row)
    case Complete(i) =>
      var r := s.phases[i].outcome.response;
      var row := OwnRow(s);
      WithRow(To(s, i, Completing(r)), i, if row.Some? then Some(row.value.(status := Kept(r, s.now))) else None)
    case Commit(i) =>
      var done := To(s, i, Done(if s.phases[i].Completing? then Own(s.phases[i].response) else s.phases[i].reply));
      var out := done.(committed := OwnRow(s), inflight := None);
      if OwnRow(s).Some? then out.(completed := s.completed + {i}) else Orphaned(out, i)
    case Crash(i) =>
      var dead := To(s, i, Dead);
      if Holds(s.phases[i]) then Orphaned(dead.(inflight := None), i) else dead
    case Tick(t) => s.(now := s.now + t)
    case Cleanup =>
      if s.committed.Some? && Expired(s.committed.value, s.now) then s.(committed := None, expired := s.expired + 1) else s
  }

  // ---- the invariant ----

  /** What the row of a holder looks like in each phase. */
  ghost predicate RowOfHolder(s: State, i: nat, row: Option<Record>)
    requires In(s, i) && i < |s.attempts|
  {
    match s.phases[i]
    case Running => row.Some? && row.value == Record(i, s.attempts[i], row.value.createdAt, Pending)
    case Finished(_) => row.Some? && row.value == Record(i, s.attempts[i], row.value.createdAt, Pending)
    case Releasing(_) => row.None?
    case Completing(r) =>
      && row.Some? && row.value.id == i && row.value.attempt == s.attempts[i] && i in s.ran && s.ran[i] == r
      && row.value.status.Completed? && row.value.status == Kept(r, row.value.status.completedAt)
    case _ => false
  }

  /** A committed record is COMPLETED and holds what one finished run returned, under that run's attempt. */
  ghost predicate RecordOfRun(s: State, r: Record) {
    && r.id in s.completed && r.id < |s.attempts| && r.attempt == s.attempts[r.id] && r.id in s.ran
    && r.status.Completed? && r.status == Kept(s.ran[r.id], r.status.completedAt)
  }

  ghost predicate SameAttempt(s: State, i: nat, o: nat) {
    i < |s.attempts| && o < |s.attempts| && s.attempts[i] == s.attempts[o]
  }

  ghost predicate OtherEndpoint(s: State, i: nat, o: nat) {
    i < |s.attempts| && o < |s.attempts|
    && (s.attempts[i].verb != s.attempts[o].verb || s.attempts[i].path != s.attempts[o].path)
  }

  ghost predicate OtherBody(s: State, i: nat, o: nat) {
    i < |s.attempts| && o < |s.attempts| && s.attempts[i].verb == s.attempts[o].verb
    && s.attempts[i].path == s.attempts[o].path && s.attempts[i].fingerprint != s.attempts[o].fingerprint
  }

  /** Every answer has its reason. */
  ghost predicate Justified(s: State, i: nat)
    requires In(s, i)
  {
    match s.phases[i]
    case Conflicted => s.committed.Some? || s.expired > 0
    case Finished(Returned(r)) => i in s.ran && s.ran[i] == r
    case Releasing(Own(r)) => i in s.ran && s.ran[i] == r
    case Releasing(reply) => reply == Raised
    case Done(Own(r)) => i in s.ran && s.ran[i] == r
    case Done(Cached(r)) => exists o :: o in s.completed && SameAttempt(s, i, o) && o in s.ran && r == Replayed(s.ran[o])
    case Done(KeyConflict) => exists o :: o in s.completed && OtherEndpoint(s, i, o)
    case Done(BodyMismatch) => exists o :: o in s.completed && OtherBody(s, i, o)
    case Done(InProgress) => s.expired > 0
    case _ => true
  }

  predicate Owner(s: State, i: nat) {
    s.inflight.Some? && s.inflight.value.owner == i
  }

  ghost predicate HolderFits(s: State)
    requires |s.attempts| == |s.phases|
  {
    s.inflight.Some? ==>
      && s.committed.None? && In(s, s.inflight.value.owner)
      && RowOfHolder(s, s.inflight.value.owner, s.inflight.value.row)
  }

  ghost predicate Shape(s: State) {
    && |s.attempts| == |s.phases|
    && (s.committed.Some? ==> RecordOfRun(s, s.committed.value))
    && HolderFits(s)
  }

  ghost predicate Owners(s: State) {
    forall i: nat :: In(s, i) ==> (Holds(s.phases[i]) <==> Owner(s, i))
  }

  ghost predicate Justifications(s: State) {
    forall i: nat :: In(s, i) ==> Justified(s, i)
  }

  /** Each effect belongs to a recorded run, to a lost one, or to the run that still holds the key. */
  ghost predicate Counted(s: State) {
    && (forall i :: i in s.effects ==> i in s.completed || i in s.orphans || Owner(s, i))
    && s.orphans <= s.effects
    && (forall i :: i in s.completed || i in s.orphans || i in s.effects ==>
          In(s, i) && !s.phases[i].Arrived? && !s.phases[i].Conflicted?)
    && (forall i :: i in s.completed || i in s.orphans ==> !Holds(s.phases[i]))
    && |s.completed| == s.expired + if s.committed.Some? then 1 else 0
  }

  ghost predicate Inv(s: State) {
    Shape(s) && Owners(s) && Justifications(s) && Counted(s)
  }

  lemma StartsWell(now: int)
    ensures Inv(Start(now))
  {
  }

  // ---- every step keeps it ----

  lemma StepKeepsRecord(s: State, step: Step)
    requires Inv(s) && Enabled(s, step)
    ensures var after := Next(s, step);
            |after.attempts| == |after.phases| && (after.committed.Some? ==> RecordOfRun(after, after.committed.value))
  {
    match step
    case RouterReturns(i, r, wrote) => assert Owner(s, i);
    case Commit(i) => assert Owner(s, i);
    case _ =>
  }

  lemma HolderKeepsRow(s: State, step: Step)
    requires Inv(s) && Enabled(s, step)
    requires step.RouterReturns? || step.RouterRaises? || step.CaptureFails? || step.Release? || step.Complete?
    ensures HolderFits(Next(s, step))
  {
    assert Owner(s, step.i);
  }

  lemma OthersKeepRow(s: State, step: Step)
    requires Inv(s) && Enabled(s, step)
    requires !(step.RouterReturns? || step.RouterRaises? || step.CaptureFails? || step.Release? || step.Complete?)
    ensures HolderFits(Next(s, step))
  {
  }

  lemma StepKeepsShape(s: State, step: Step)
    requires Inv(s) && Enabled(s, step)
    ensures Shape(Next(s, step))
  {
    StepKeepsRecord(s, step);
    if step.RouterReturns? || step.RouterRaises? || step.CaptureFails? || step.Release? || step.Complete? {
      HolderKeepsRow(s, step);
    } else {
      OthersKeepRow(s, step);
    }
  }

  lemma HolderKeepsOwners(s: State, step: Step)
    requires Inv(s) && Enabled(s, step)
    requires step.RouterReturns? || step.RouterRaises? || step.CaptureFails? || step.Release? || step.Complete?
    ensures Owners(Next(s, step))
  {
    assert Owner(s, step.i);
  }

  lemma KeyChangesOwners(s: State, step: Step)
    requires Inv(s) && Enabled(s, step) && (step.Acquire? || step.Commit? || step.Crash?)
    ensures Owners(Next(s, step))
  {
    assert Holds(s.phases[step.i]) <==> Owner(s, step.i);
  }

  lemma StepKeepsOwners(s: State, step: Step)
    requires Inv(s) && Enabled(s, step)
    ensures Owners(Next(s, step))
  {
    if step.RouterReturns? || step.RouterRaises? || step.CaptureFails? || step.Release? || step.Complete? {
      HolderKeepsOwners(s, step);
    } else if step.Acquire? || step.Commit? || step.Crash? {
      KeyChangesOwners(s, step);
    }
  }

  /** Nothing that justifies an answer is ever taken back. */
  ghost predicate Grows(s: State, after: State, j: nat) {
    && s.attempts <= after.attempts && s.completed <= after.completed && s.expired <= after.expired
    && (forall k :: k in s.ran && (k == j || k in s.completed) ==> k in after.ran && after.ran[k] == s.ran[k])
    && (s.committed.Some? ==> after.committed.Some? || after.expired > 0)
  }

  lemma JustifiedStays(s: State, after: State, j: nat)
    requires In(s, j) && In(after, j) && after.phases[j] == s.phases[j] && Justified(s, j) && Grows(s, after, j)
    ensures Justified(after, j)
  {
    match s.phases[j]
    case Done(Cached(r)) =>
      var o :| o in s.completed && SameAttempt(s, j, o) && o in s.ran && r == Replayed(s.ran[o]);
      assert o in after.completed && SameAttempt(after, j, o) && o in after.ran;
    case Done(KeyConflict) =>
      var o :| o in s.completed && OtherEndpoint(s, j, o);
      assert o in after.completed && OtherEndpoint(after, j, o);
    case Done(BodyMismatch) =>
      var o :| o in s.completed && OtherBody(s, j, o);
      assert o in after.completed && OtherBody(after, j, o);
    case _ =>
  }

  function Actor(step: Step): Option<nat> {
    match step
    case Arrive(_) => None
    case Tick(_) => None
    case Cleanup => None
    case _ => Some(step.i)
  }

  lemma OthersGrow(s: State, step: Step, j: nat)
    requires Inv(s) && Enabled(s, step) && In(s, j) && Actor(step) != Some(j)
    ensures In(Next(s, step), j) && Next(s, step).phases[j] == s.phases[j] && Grows(s, Next(s, step), j)
  {
    match step
    case Commit(i) => CommitGrows(s, i, j);
    case Crash(i) =>
    case Cleanup =>
    case RouterReturns(i, _, _) => assert Owner(s, i) && i !in s.completed;
    case _ => assert Next(s, step).committed == s.committed && Next(s, step).expired == s.expired;
  }

  lemma CommitGrows(s: State, i: nat, j: nat)
    requires Inv(s) && Enabled(s, Step.Commit(i)) && In(s, j) && i != j
    ensures var after := Next(s, Step.Commit(i)); In(after, j) && after.phases[j] == s.phases[j] && Grows(s, after, j)
  {
    assert Owner(s, i);
  }

  lemma LookIsJustified(s: State, i: nat)
    requires Inv(s) && Enabled(s, Look(i))
    ensures Justified(Next(s, Look(i)), i)
  {
    var after := Next(s, Look(i));
    assert Justified(s, i);
    if s.committed.Some? {
      var r := s.committed.value;
      var o := r.id;
      assert RecordOfRun(s, r) && o in after.completed;
      if s.attempts[i] == r.attempt {
        assert SameAttempt(after, i, o);
      } else if r.attempt.verb != s.attempts[i].verb || r.attempt.path != s.attempts[i].path {
        assert OtherEndpoint(after, i, o);
      } else {
        assert OtherBody(after, i, o);
      }
    }
  }

  lemma ActorIsJustified(s: State, step: Step, i: nat)
    requires Inv(s) && Enabled(s, step) && Actor(step) == Some(i) && !step.Look?
    ensures Justified(Next(s, step), i)
  {
    assert Justified(s, i);
    match step
    case Commit(_) => assert Owner(s, i);
    case _ =>
  }

  lemma StepKeepsJustifications(s: State, step: Step)
    requires Inv(s) && Enabled(s, step)
    ensures Justifications(Next(s, step))
  {
    var after := Next(s, step);
    forall i: nat | In(after, i) ensures Justified(after, i) {
      if Actor(step) == Some(i) {
        if step.Look? {
          LookIsJustified(s, i);
        } else {
          ActorIsJustified(s, step, i);
        }
      } else if In(s, i) {
        OthersGrow(s, step, i);
        JustifiedStays(s, after, i);
      }
    }
  }

  lemma RouterKeepsCounts(s: State, step: Step)
    requires Inv(s) && Enabled(s, step) && (step.RouterReturns? || step.RouterRaises?)
    ensures Counted(Next(s, step))
  {
    assert Owner(s, step.i);
  }

  lemma {:induction false} CompletionKeepsCounts(s: State, i: nat)
    requires Inv(s) && Enabled(s, Step.Commit(i)) && s.phases[i].Completing?
    ensures Counted(Next(s, Step.Commit(i)))
  {
    assert Owner(s, i) && s.committed.None?;
    assert i !in s.completed;
    var after := Next(s, Step.Commit(i));
    assert after.completed == s.completed + {i} && after.committed.Some?;
  }

  lemma {:induction false} ReleaseKeepsCounts(s: State, i: nat)
    requires Inv(s) && Enabled(s, Step.Commit(i)) && s.phases[i].Releasing?
    ensures Counted(Next(s, Step.Commit(i)))
  {
    assert Owner(s, i) && s.committed.None?;
    var after := Next(s, Step.Commit(i));
    assert after.completed == s.completed && after.committed.None?;
  }

  lemma {:induction false} CommitKeepsCounts(s: State, i: nat)
    requires Inv(s) && Enabled(s, Step.Commit(i))
    ensures Counted(Next(s, Step.Commit(i)))
  {
    if s.phases[i].Completing? {
      CompletionKeepsCounts(s, i);
    } else {
      ReleaseKeepsCounts(s, i);
    }
  }

  lemma CrashKeepsCounts(s: State, i: nat)
    requires Inv(s) && Enabled(s, Crash(i))
    ensures Counted(Next(s, Crash(i)))
  {
    assert Holds(s.phases[i]) <==> Owner(s, i);
  }

  lemma OtherStepsKeepCounts(s: State, step: Step)
    requires Inv(s) && Enabled(s, step)
    requires !step.RouterReturns? && !step.RouterRaises? && !step.Commit? && !step.Crash?
    ensures Counted(Next(s, step))
  {
  }

  lemma StepKeepsCounts(s: State, step: Step)
    requires Inv(s) && Enabled(s, step)
    ensures Counted(Next(s, step))
  {
    match step
    case RouterReturns(_, _, _) => RouterKeepsCounts(s, step);
    case RouterRaises(_, _) => RouterKeepsCounts(s, step);
    case Commit(i) => CommitKeepsCounts(s, i);
    case Crash(i) => CrashKeepsCounts(s, i);
    case _ => OtherStepsKeepCounts(s, step);
  }

  lemma StepKeepsInv(s: State, step: Step)
    requires Inv(s) && Enabled(s, step)
    ensures Inv(Next(s, step))
  {
    StepKeepsShape(s, step);
    StepKeepsOwners(s, step);
    StepKeepsJustifications(s, step);
    StepKeepsCounts(s, step);
  }

  // ---- all interleavings ----

  ghost predicate Ready(s: State) {
    |s.attempts| == |s.phases| && (s.committed.Some? ==> RecordFits(s.committed.value))
  }

  ghost predicate Takes(s: State, step: Step, t: State) {
    Ready(s) && Enabled(s, step) && t == Next(s, step)
  }

  /** states[0], steps[0], states[1], ...: one interleaving of any requests, crashes, ticks and cleanups. */
  ghost predicate Interleaving(states: seq<State>, steps: seq<Step>) {
    |states| == |steps| + 1 && forall k :: 0 <= k < |steps| ==> Takes(states[k], steps[k], states[k + 1])
  }

  lemma {:induction false} InterleavingsKeepInv(states: seq<State>, steps: seq<Step>, k: nat)
    requires Interleaving(states, steps) && Inv(states[0]) && k < |states|
    ensures Inv(states[k])
    decreases k
  {
    if k > 0 {
      InterleavingsKeepInv(states, steps, k - 1);
      assert Takes(states[k - 1], steps[k - 1], states[k]);
      StepKeepsInv(states[k - 1], steps[k - 1]);
    }
  }

  // ---- how often the business effect happens ----

  lemma EffectsAreCounted(s: State)
    requires Inv(s)
    ensures |s.effects| <= 1 + |s.orphans| + s.expired
  {
    var held := if s.inflight.Some? then {s.inflight.value.owner} else {};
    assert s.effects <= s.orphans + s.completed + held;
    SizeOfUnion(s.orphans, s.completed + held);
    SizeOfUnion(s.completed, held);
    SizeOfSubset(s.effects, s.orphans + s.completed + held);
  }

  lemma SizeOfUnion(a: set<nat>, b: set<nat>)
    ensures |a + b| <= |a| + |b|
  {
    assert a + b == a + (b - a);
  }

  lemma {:induction false} SizeOfSubset(a: set<nat>, b: set<nat>)
    requires a <= b
    ensures |a| <= |b|
  {
    assert b == a + (b - a);
  }

  /** In every interleaving, committed business effects are at most one, plus the runs that committed theirs
      and were lost before their record, plus the records that expired. */
  lemma EffectsAreBounded(states: seq<State>, steps: seq<Step>, now: int, k: nat)
    requires Interleaving(states, steps) && states[0] == Start(now) && k < |states|
    ensures |states[k].effects| <= 1 + |states[k].orphans| + states[k].expired
  {
    StartsWell(now);
    InterleavingsKeepInv(states, steps, k);
    EffectsAreCounted(states[k]);
  }

  /** At most one request holds the key; a committed record is COMPLETED and holds, under its own method, path
      and fingerprint, what one single run returned; and every answer is justified. */
  lemma EveryStateIsSafe(states: seq<State>, steps: seq<Step>, now: int, k: nat, i: nat, j: nat)
    requires Interleaving(states, steps) && states[0] == Start(now) && k < |states|
    requires In(states[k], i) && In(states[k], j)
    ensures Holds(states[k].phases[i]) && Holds(states[k].phases[j]) ==> i == j
    ensures states[k].committed.Some? ==> RecordOfRun(states[k], states[k].committed.value)
    ensures Justified(states[k], i)
  {
    StartsWell(now);
    InterleavingsKeepInv(states, steps, k);
    assert Holds(states[k].phases[i]) ==> Owner(states[k], i);
    assert Holds(states[k].phases[j]) ==> Owner(states[k], j);
  }

  /** The committed record changes only when its owner's completion commits, or when it expires. */
  lemma OnlyTheOwnerRecords(s: State, step: Step)
    requires Inv(s) && Enabled(s, step) && Next(s, step).committed != s.committed
    ensures (step.Commit? && s.committed.None? && Owner(s, step.i) && s.phases[step.i].Completing?)
         || (step.Cleanup? && s.committed.Some? && Expired(s.committed.value, s.now) && Next(s, step).committed.None?)
  {
    match step
    case Commit(i) => assert Owner(s, i);
    case _ =>
  }

  /** A run that failed or crashed leaves the key free: the next request under it runs. */
  lemma FailureFreesTheKey(s: State, step: Step, j: nat)
    requires Inv(s) && Enabled(s, step)
    requires (step.Crash? && Holds(s.phases[step.i])) || (step.Commit? && s.phases[step.i].Releasing?)
    requires In(s, j) && s.phases[j].Arrived?
    ensures var free := Next(s, step);
            Enabled(free, Acquire(j)) && Next(free, Acquire(j)).phases[j].Running?
  {
    assert Owner(s, step.i);
    StepKeepsInv(s, step);
  }

  /** While its record is there, a request repeated under the key runs nothing and gets the first response. */
  lemma RepeatIsReplayed(s: State, j: nat)
    requires Inv(s) && s.committed.Some? && In(s, j) && s.phases[j].Arrived?
    requires s.attempts[j] == s.attempts[s.committed.value.id]
    ensures var looked := Next(s, Acquire(j));
            && looked.phases[j] == Conflicted && Inv(looked)
            && Next(looked, Look(j)).phases[j] == Done(Cached(Replayed(s.ran[s.committed.value.id])))
            && Next(looked, Look(j)).effects == s.effects
  {
    StepKeepsInv(s, Acquire(j));
  }

  // ---- crashes, and what counts as an effect ----

  /** A request can die at any moment before its answer. Its transaction is rolled back: the committed record
      stays, the key it held is free, and nobody else is touched. */
  lemma CrashRollsBack(s: State, i: nat)
    requires Inv(s) && In(s, i) && !s.phases[i].Done? && !s.phases[i].Dead?
    ensures Enabled(s, Crash(i))
    ensures var after := Next(s, Crash(i));
            && after.phases == s.phases[i := Dead] && after.committed == s.committed && after.effects == s.effects
            && after.inflight == (if Owner(s, i) then None else s.inflight)
            && after.orphans == (if Owner(s, i) && i in s.effects then s.orphans + {i} else s.orphans)
  {
    assert Holds(s.phases[i]) <==> Owner(s, i);
  }

  predicate Writes(step: Step, i: nat) {
    (step.RouterReturns? || step.RouterRaises?) && step.i == i && step.wrote
  }

  /** The effects of an interleaving are those of the routers that committed one, and of no other. */
  lemma {:induction false} EffectsAreWritten(states: seq<State>, steps: seq<Step>, now: int, k: nat, i: nat)
    requires Interleaving(states, steps) && states[0] == Start(now) && k < |states|
    ensures i in states[k].effects <==> exists j :: 0 <= j < k && Writes(steps[j], i)
    decreases k
  {
    if k > 0 {
      EffectsAreWritten(states, steps, now, k - 1, i);
      assert Takes(states[k - 1], steps[k - 1], states[k]);
      OneStepWrites(states[k - 1], steps[k - 1], i);
    }
  }

  lemma OneStepWrites(s: State, step: Step, i: nat)
    requires Ready(s) && Enabled(s, step)
    ensures i in Next(s, step).effects <==> i in s.effects || Writes(step, i)
  {
  }

  // ---- which responses are recorded ----

  /** Server errors are released, everything else is completed. */
  ghost predicate EndsByStatus(s: State, i: nat)
    requires In(s, i)
  {
    match s.phases[i]
    case Releasing(Own(r)) => r.status >= 500
    case Completing(r) => r.status < 500
    case Done(Own(r)) => i in s.completed <==> r.status < 500
    case _ => true
  }

  ghost predicate AllEndByStatus(s: State) {
    forall i: nat :: In(s, i) ==> EndsByStatus(s, i)
  }

  lemma StepKeepsEnds(s: State, step: Step)
    requires Inv(s) && Enabled(s, step) && AllEndByStatus(s)
    ensures AllEndByStatus(Next(s, step))
  {
    var after := Next(s, step);
    forall i: nat | In(after, i) ensures EndsByStatus(after, i) {
      if Actor(step) == Some(i) {
        OwnStepKeepsEnd(s, step, i);
      } else if In(s, i) {
        OtherStepKeepsEnd(s, step, i);
      }
    }
  }

  lemma OwnStepKeepsEnd(s: State, step: Step, i: nat)
    requires Inv(s) && Enabled(s, step) && Actor(step) == Some(i) && EndsByStatus(s, i)
    ensures EndsByStatus(Next(s, step), i)
  {
    match step
    case Commit(_) => assert Owner(s, i) && i !in s.completed;
    case _ =>
  }

  lemma OtherStepKeepsEnd(s: State, step: Step, i: nat)
    requires Inv(s) && Enabled(s, step) && Actor(step) != Some(i) && In(s, i) && EndsByStatus(s, i)
    ensures EndsByStatus(Next(s, step), i)
  {
    assert Next(s, step).phases[i] == s.phases[i];
  }

  lemma {:induction false} InterleavingsKeepEnds(states: seq<State>, steps: seq<Step>, k: nat)
    requires Interleaving(states, steps) && Inv(states[0]) && AllEndByStatus(states[0]) && k < |states|
    ensures AllEndByStatus(states[k])
    decreases k
  {
    if k > 0 {
      InterleavingsKeepEnds(states, steps, k - 1);
      InterleavingsKeepInv(states, steps, k - 1);
      assert Takes(states[k - 1], steps[k - 1], states[k]);
      StepKeepsEnds(states[k - 1], steps[k - 1]);
    }
  }

  /** In every interleaving, a request that was answered with what its own run returned was recorded exactly
      when that is no server error. */
  lemma RecordedExactlyBelow500(states: seq<State>, steps: seq<Step>, now: int, k: nat, i: nat, r: Response)
    requires Interleaving(states, steps) && states[0] == Start(now) && k < |states|
    requires In(states[k], i) && states[k].phases[i] == Done(Own(r))
    ensures i in states[k].ran && states[k].ran[i] == r
    ensures i in states[k].completed <==> r.status < 500
  {
    StartsWell(now);
    InterleavingsKeepInv(states, steps, k);
    InterleavingsKeepEnds(states, steps, k);
    assert Justified(states[k], i) && EndsByStatus(states[k], i);
  }

  // ---- how long a record lasts ----

  /** A cleanup leaves the record there exactly until a day has passed since its completion. */
  lemma CleanupKeepsExactlyForADay(s: State)
    requires Inv(s) && s.committed.Some?
    ensures Next(s, Cleanup).committed
         == if s.now - s.committed.value.status.completedAt <= 86400 then s.committed else None
  {
  }

  lemma {:induction false} TimePasses(states: seq<State>, steps: seq<Step>, k: nat, m: nat)
    requires Interleaving(states, steps) && k <= m < |states|
    ensures states[k].now <= states[m].now
    decreases m
  {
    if k < m {
      TimePasses(states, steps, k, m - 1);
      assert Takes(states[m - 1], steps[m - 1], states[m]);
    }
  }

  /** The record stays, and what its run returned, as long as a day has not passed. */
  ghost predicate SameRecord(s: State, t: State) {
    && s.committed.Some? && t.committed == s.committed && s.committed.value.id in s.ran
    && s.committed.value.id in t.ran && t.ran[s.committed.value.id] == s.ran[s.committed.value.id]
  }

  lemma StepKeepsYoungRecord(s: State, step: Step)
    requires Inv(s) && Enabled(s, step) && s.committed.Some?
    requires s.now - s.committed.value.status.completedAt <= 86400
    ensures SameRecord(s, Next(s, step))
  {
    var r := s.committed.value;
    assert RecordOfRun(s, r) && forall i: nat :: In(s, i) ==> !Owner(s, i);
  }

  lemma {:induction false} RecordLastsADay(states: seq<State>, steps: seq<Step>, k: nat, m: nat)
    requires Interleaving(states, steps) && Inv(states[0]) && k <= m < |states|
    requires states[k].committed.Some? && states[k].committed.value.status.Completed?
    requires states[m].now - states[k].committed.value.status.completedAt <= 86400
    ensures SameRecord(states[k], states[m])
    decreases m
  {
    InterleavingsKeepInv(states, steps, k);
    if k < m {
      TimePasses(states, steps, m - 1, m);
      RecordLastsADay(states, steps, k, m - 1);
      InterleavingsKeepInv(states, steps, m - 1);
      assert Takes(states[m - 1], steps[m - 1], states[m]);
      StepKeepsYoungRecord(states[m - 1], steps[m - 1]);
    }
  }

  /** In every interleaving, within a day of a recorded completion: a request that then tries the key does not
      get it, and one that then looks, repeating the recorded attempt, has run nothing and gets the recorded
      response. */
  lemma RepeatWithinADay(states: seq<State>, steps: seq<Step>, now: int, k: nat, m: nat, j: nat)
    requires Interleaving(states, steps) && states[0] == Start(now) && k <= m < |steps|
    requires states[k].committed.Some? && states[k].committed.value.status.Completed?
    requires states[m].now - states[k].committed.value.status.completedAt <= 86400
    requires steps[m] == Acquire(j) || steps[m] == Look(j)
    requires In(states[m], j) && j < |states[m].attempts|
    requires states[m].attempts[j] == states[k].committed.value.attempt
    ensures In(states[m + 1], j) && j !in states[m + 1].effects && states[k].committed.value.id in states[k].ran
    ensures steps[m].Acquire? ==> states[m + 1].phases[j] == Conflicted
    ensures steps[m].Look? ==>
              states[m + 1].phases[j] == Done(Cached(Replayed(states[k].ran[states[k].committed.value.id])))
  {
    StartsWell(now);
    InterleavingsKeepInv(states, steps, m);
    RecordLastsADay(states, steps, k, m);
    assert Takes(states[m], steps[m], states[m + 1]);
    assert RecordOfRun(states[m], states[m].committed.value);
  }

  // ---- what is not promised ----

  /** One run committed its effect, then died or failed. */
  function OneLost(a: Attempt, r: Response, end: Phase): State {
    State([a], [end], None, None, 0, {0}, {0}, {}, 0, map[0 := r])
  }

  /** One run committed its effect and returned. */
  function OneReturned(a: Attempt, r: Response): State {
    State([a], [Finished(Returned(r))], None, Some(InFlight(0, Some(Record(0, a, 0, Pending)))), 0, {0}, {}, {}, 0,
          map[0 := r])
  }

  lemma FirstRunReturns(a: Attempt, r: Response) returns (s1: State, s2: State)
    ensures Takes(Start(0), Arrive(a), s1) && Takes(s1, Acquire(0), s2)
    ensures Takes(s2, RouterReturns(0, r, true), OneReturned(a, r))
  {
    s1 := Next(Start(0), Arrive(a));
    s2 := Next(s1, Acquire(0));
  }

  lemma FirstRunDies(a: Attempt, r: Response)
    ensures Takes(OneReturned(a, r), Crash(0), OneLost(a, r, Dead))
  {
  }

  lemma FirstRunFails(a: Attempt, r: Response) returns (s4: State, s5: State)
    ensures Takes(OneReturned(a, r), CaptureFails(0), s4) && Takes(s4, Step.Release(0), s5)
    ensures Takes(s5, Step.Commit(0), OneLost(a, r, Done(Raised)))
  {
    s4 := Next(OneReturned(a, r), CaptureFails(0));
    s5 := Next(s4, Step.Release(0));
  }

  lemma SecondRunCommits(a: Attempt, r: Response, end: Phase) returns (s5: State, s6: State, s7: State)
    ensures Takes(OneLost(a, r, end), Arrive(a), s5) && Takes(s5, Acquire(1), s6)
    ensures Takes(s6, RouterReturns(1, r, true), s7)
    ensures s7.effects == {0, 1} && s7.orphans == {0} && s7.expired == 0 && |s7.phases| == 2 && s7.phases[0] == end
  {
    s5 := Next(OneLost(a, r, end), Arrive(a));
    s6 := Next(s5, Acquire(1));
    s7 := Next(s6, RouterReturns(1, r, true));
  }

  /** A run that dies after the router committed leaves no record, so the retry commits again: the bound is
      reached, and exactly-once does not hold. */
  lemma CrashCanDoubleTheEffect(a: Attempt, r: Response) returns (states: seq<State>, steps: seq<Step>)
    ensures Interleaving(states, steps) && states[0] == Start(0)
    ensures var last := states[|states| - 1];
            |last.effects| == 2 && |last.orphans| == 1 && last.expired == 0
  {
    steps := [Arrive(a), Acquire(0), RouterReturns(0, r, true), Crash(0), Arrive(a), Acquire(1), RouterReturns(1, r, true)];
    var s1, s2 := FirstRunReturns(a, r);
    FirstRunDies(a, r);
    var s5, s6, s7 := SecondRunCommits(a, r, Dead);
    states := [Start(0), s1, s2, OneReturned(a, r), OneLost(a, r, Dead), s5, s6, s7];
  }

  ghost predicate NoCrash(steps: seq<Step>) {
    forall k :: 0 <= k < |steps| ==> !steps[k].Crash?
  }

  /** From one state to another without a crash. */
  ghost predicate Leads(states: seq<State>, steps: seq<Step>, from: State, to: State) {
    Interleaving(states, steps) && NoCrash(steps) && states[0] == from && states[|states| - 1] == to
  }

  lemma {:induction false} ThreeSteps(s: State, x: Step, t: State, y: Step, u: State, z: Step, v: State)
    requires Takes(s, x, t) && Takes(t, y, u) && Takes(u, z, v) && !x.Crash? && !y.Crash? && !z.Crash?
    ensures Leads([s, t, u, v], [x, y, z], s, v)
  {
  }

  lemma {:induction false} LeadsOn(
      s1: seq<State>, t1: seq<Step>, s2: seq<State>, t2: seq<Step>, x: State, y: State, z: State)
    requires Leads(s1, t1, x, y) && Leads(s2, t2, y, z)
    ensures Leads(s1 + s2[1..], t1 + t2, x, z)
  {
    Joined(s1, t1, s2, t2);
  }

  lemma {:induction false} FailedCapture(a: Attempt, r: Response) returns (states: seq<State>, steps: seq<Step>)
    ensures Leads(states, steps, Start(0), OneLost(a, r, Done(Raised)))
  {
    var s1, s2 := FirstRunReturns(a, r);
    var s4, s5 := FirstRunFails(a, r);
    var mid, lost := OneReturned(a, r), OneLost(a, r, Done(Raised));
    ThreeSteps(Start(0), Arrive(a), s1, Acquire(0), s2, RouterReturns(0, r, true), mid);
    ThreeSteps(mid, CaptureFails(0), s4, Step.Release(0), s5, Step.Commit(0), lost);
    states := [Start(0), s1, s2, mid] + [mid, s4, s5, lost][1..];
    steps := [Arrive(a), Acquire(0), RouterReturns(0, r, true)] + [CaptureFails(0), Step.Release(0), Step.Commit(0)];
    LeadsOn(
      [Start(0), s1, s2, mid], [Arrive(a), Acquire(0), RouterReturns(0, r, true)],
      [mid, s4, s5, lost], [CaptureFails(0), Step.Release(0), Step.Commit(0)], Start(0), mid, lost);
  }

  /** Nor without a crash: a response that cannot be captured after the router committed is answered by its
      error and releases the key, and the retry commits again. */
  lemma {:induction false} CaptureFailureCanDoubleTheEffect(a: Attempt, r: Response)
    returns (states: seq<State>, steps: seq<Step>)
    ensures Interleaving(states, steps) && states[0] == Start(0) && NoCrash(steps)
    ensures var last := states[|states| - 1];
            && |last.effects| == 2 && |last.orphans| == 1 && last.expired == 0
            && In(last, 0) && last.phases[0] == Done(Raised)
  {
    var lost := OneLost(a, r, Done(Raised));
    var s1, t1 := FailedCapture(a, r);
    var s7, s8, s9 := SecondRunCommits(a, r, Done(Raised));
    ThreeSteps(lost, Arrive(a), s7, Acquire(1), s8, RouterReturns(1, r, true), s9);
    var s2, t2 := [lost, s7, s8, s9], [Arrive(a), Acquire(1), RouterReturns(1, r, true)];
    LeadsOn(s1, t1, s2, t2, Start(0), lost, s9);
    states, steps := s1 + s2[1..], t1 + t2;
  }

  // ---- the bound is reached for every number of losses and expiries ----

  /** Nothing holds the key and nothing is recorded; the effects so far are those of lost and expired runs. */
  ghost predicate Idle(s: State) {
    Inv(s) && s.inflight.None? && s.committed.None? && |s.effects| == |s.orphans| + s.expired
  }

  /** After a further request arrived, acquired the key and its router committed and returned. */
  ghost predicate Wrote(s: State, t: State, r: Response) {
    var i := |s.attempts|;
    && Inv(t) && |t.attempts| == i + 1 && t.phases[i] == Finished(Returned(r)) && Owner(t, i)
    && t.effects == s.effects + {i} && i !in s.effects && i !in s.orphans
    && t.orphans == s.orphans && t.expired == s.expired && t.committed.None?
  }

  lemma {:induction false} RunWrites(s: State, a: Attempt, r: Response) returns (states: seq<State>, steps: seq<Step>)
    requires Inv(s) && s.inflight.None? && s.committed.None?
    ensures Interleaving(states, steps) && states[0] == s && Wrote(s, states[|states| - 1], r)
  {
    var i := |s.attempts|;
    var s1, s2 := Next(s, Arrive(a)), Tried(s, a);
    TriedIsAPrefix(s, a);
    StepKeepsInv(s, Arrive(a));
    var s3 := Next(s2, RouterReturns(i, r, true));
    StepKeepsInv(s2, RouterReturns(i, r, true));
    NothingCountedYet(s);
    steps := [Arrive(a), Acquire(i), RouterReturns(i, r, true)];
    states := [s, s1, s2, s3];
  }

  lemma {:induction false} NothingCountedYet(s: State)
    requires Inv(s)
    ensures |s.attempts| !in s.effects && |s.attempts| !in s.orphans
  {
  }

  lemma {:induction false} OneMoreEffect(effects: set<nat>, i: nat)
    requires i !in effects
    ensures |effects + {i}| == |effects| + 1
  {
  }

  /** A run that dies then leaves one more lost effect. */
  lemma {:induction false} WroteThenDies(s: State, t: State, r: Response)
    requires Idle(s) && Wrote(s, t, r)
    ensures Ready(t) && Enabled(t, Crash(|s.attempts|))
    ensures var u := Next(t, Crash(|s.attempts|));
            Idle(u) && |u.orphans| == |s.orphans| + 1 && u.expired == s.expired
  {
    var i := |s.attempts|;
    StepKeepsInv(t, Crash(i));
    OneMoreEffect(s.effects, i);
    OneMoreEffect(s.orphans, i);
  }

  /** Completing and committing leaves a record, and the key free of holders. */
  lemma {:induction false} WroteThenRecords(s: State, t: State, r: Response) returns (t1: State, t2: State)
    requires Wrote(s, t, r) && r.status < 500
    ensures Takes(t, Step.Complete(|s.attempts|), t1) && Takes(t1, Step.Commit(|s.attempts|), t2) && Inv(t2)
    ensures t2.inflight.None? && t2.committed.Some? && t2.committed.value.status == Kept(r, t2.now)
    ensures t2.effects == t.effects && t2.orphans == t.orphans && t2.expired == t.expired
  {
    var i := |s.attempts|;
    t1 := Next(t, Step.Complete(i));
    StepKeepsInv(t, Step.Complete(i));
    t2 := Next(t1, Step.Commit(i));
    StepKeepsInv(t1, Step.Commit(i));
  }

  /** A record expires a second after its time to live. */
  lemma {:induction false} RecordExpires(t: State, r: Response) returns (t1: State, t2: State)
    requires Inv(t) && t.inflight.None? && t.committed.Some? && t.committed.value.status == Kept(r, t.now)
    ensures Takes(t, Tick(COMPLETED_TTL_SECONDS + 1), t1) && Takes(t1, Cleanup, t2) && Inv(t2)
    ensures t2.inflight.None? && t2.committed.None? && t2.expired == t.expired + 1
    ensures t2.effects == t.effects && t2.orphans == t.orphans
  {
    t1 := Next(t, Tick(COMPLETED_TTL_SECONDS + 1));
    StepKeepsInv(t, Tick(COMPLETED_TTL_SECONDS + 1));
    t2 := Next(t1, Cleanup);
    StepKeepsInv(t1, Cleanup);
  }

  lemma {:induction false} TwoSteps(s: State, x: Step, t: State, y: Step, u: State)
    requires Takes(s, x, t) && Takes(t, y, u)
    ensures Interleaving([s, t, u], [x, y])
  {
  }

  /** A run that completes, and whose record then expires, leaves one more effect that can be repeated. */
  lemma {:induction false} WroteThenExpires(s: State, t: State, r: Response)
    returns (states: seq<State>, steps: seq<Step>)
    requires Idle(s) && Wrote(s, t, r) && r.status < 500
    ensures Interleaving(states, steps) && states[0] == t
    ensures var u := states[|states| - 1];
            Idle(u) && u.orphans == s.orphans && u.expired == s.expired + 1
  {
    var i := |s.attempts|;
    var t1, t2 := WroteThenRecords(s, t, r);
    TwoSteps(t, Step.Complete(i), t1, Step.Commit(i), t2);
    var t3, t4 := RecordExpires(t2, r);
    TwoSteps(t2, Tick(COMPLETED_TTL_SECONDS + 1), t3, Cleanup, t4);
    Joined([t, t1, t2], [Step.Complete(i), Step.Commit(i)], [t2, t3, t4], [Tick(COMPLETED_TTL_SECONDS + 1), Cleanup]);
    OneMoreEffect(s.effects, i);
    states := [t, t1, t2] + [t2, t3, t4][1..];
    steps := [Step.Complete(i), Step.Commit(i)] + [Tick(COMPLETED_TTL_SECONDS + 1), Cleanup];
  }

  lemma {:induction false} Joined(s1: seq<State>, t1: seq<Step>, s2: seq<State>, t2: seq<Step>)
    requires Interleaving(s1, t1) && Interleaving(s2, t2) && s1[|s1| - 1] == s2[0]
    ensures var s := s1 + s2[1..];
            Interleaving(s, t1 + t2) && s[0] == s1[0] && s[|s| - 1] == s2[|s2| - 1]
  {
    var s, t := s1 + s2[1..], t1 + t2;
    forall k | 0 <= k < |t| ensures Takes(s[k], t[k], s[k + 1]) {
      if k >= |t1| {
        assert Takes(s2[k - |t1|], t2[k - |t1|], s2[k - |t1| + 1]);
        assert s[k] == s2[k - |t1|];
      }
    }
  }

  /** With m runs lost and n records expired, the key can be idle again with m + n effects committed. */
  lemma {:induction false} IdleAfter(m: nat, n: nat, a: Attempt, r: Response)
    returns (states: seq<State>, steps: seq<Step>)
    requires r.status < 500
    ensures Interleaving(states, steps) && states[0] == Start(0)
    ensures var last := states[|states| - 1];
            Idle(last) && |last.orphans| == m && last.expired == n
    decreases m + n
  {
    if m + n == 0 {
      StartsWell(0);
      states, steps := [Start(0)], [];
    } else {
      var s0, t0 := IdleAfter(if m > 0 then m - 1 else 0, if m > 0 then n else n - 1, a, r);
      var s := s0[|s0| - 1];
      var s1, t1 := RunWrites(s, a, r);
      var t := s1[|s1| - 1];
      Joined(s0, t0, s1, t1);
      var s2, t2;
      if m > 0 {
        WroteThenDies(s, t, r);
        s2, t2 := [t, Next(t, Crash(|s.attempts|))], [Crash(|s.attempts|)];
      } else {
        s2, t2 := WroteThenExpires(s, t, r);
      }
      Joined(s0 + s1[1..], t0 + t1, s2, t2);
      states, steps := s0 + s1[1..] + s2[1..], t0 + t1 + t2;
    }
  }

  /** For every number of lost runs and of expired records some interleaving commits one effect more: the
      bound is exact, and each loss and each expiry can cost a repetition. */
  lemma {:induction false} BoundIsReached(m: nat, n: nat, a: Attempt, r: Response)
    returns (states: seq<State>, steps: seq<Step>)
    requires r.status < 500
    ensures Interleaving(states, steps) && states[0] == Start(0)
    ensures var last := states[|states| - 1];
            |last.orphans| == m && last.expired == n && |last.effects| == 1 + m + n
  {
    var s0, t0 := IdleAfter(m, n, a, r);
    var s := s0[|s0| - 1];
    var s1, t1 := RunWrites(s, a, r);
    Joined(s0, t0, s1, t1);
    OneMoreEffect(s.effects, |s.attempts|);
    states, steps := s0 + s1[1..], t0 + t1;
  }

  // ---- one request alone ----

  /** The request arrives and tries the key. */
  ghost function Tried(s: State, a: Attempt): State
    requires Ready(s) && s.inflight.None?
  {
    Next(Next(s, Arrive(a)), Acquire(|s.attempts|))
  }

  lemma TriedIsAPrefix(s: State, a: Attempt)
    requires Inv(s) && s.inflight.None?
    ensures Inv(Tried(s, a)) && Tried(s, a).now == s.now && Tried(s, a).committed == s.committed
    ensures Tried(s, a).attempts == s.attempts + [a]
    ensures Tried(s, a).phases == s.phases + [if s.committed.Some? then Conflicted else Running]
    ensures s.committed.None? ==>
      Tried(s, a).inflight == Some(InFlight(|s.attempts|, Some(Record(|s.attempts|, a, s.now, Pending))))
    ensures s.committed.Some? ==> Tried(s, a).inflight.None?
  {
    StepKeepsInv(s, Arrive(a));
    StepKeepsInv(Next(s, Arrive(a)), Acquire(|s.attempts|));
  }

  function EndOf(i: nat, outcome: Outcome, wrote: bool): Step {
    match outcome case Failed => RouterRaises(i, wrote) case Returned(r) => RouterReturns(i, r, wrote)
  }

  function CloseOf(i: nat, outcome: Outcome): Step {
    if outcome.Failed? || outcome.response.status >= 500 then Step.Release(i) else Step.Complete(i)
  }

  lemma HolderEnds(s: State, i: nat, a: Attempt, outcome: Outcome, wrote: bool) returns (ended: State)
    requires Inv(s) && |s.phases| == i + 1 && s.phases[i].Running? && s.committed.None?
    requires s.inflight == Some(InFlight(i, Some(Record(i, a, s.now, Pending))))
    ensures Takes(s, EndOf(i, outcome, wrote), ended)
    ensures ended.phases == s.phases[i := Finished(outcome)] && |ended.attempts| == |ended.phases|
    ensures ended.committed.None? && ended.inflight == s.inflight && ended.now == s.now
  {
    ended := Next(s, EndOf(i, outcome, wrote));
  }

  lemma HolderCloses(s: State, i: nat, a: Attempt, outcome: Outcome) returns (closed: State, last: State)
    requires |s.phases| == i + 1 == |s.attempts| && s.phases[i] == Finished(outcome) && s.committed.None?
    requires s.inflight == Some(InFlight(i, Some(Record(i, a, s.now, Pending))))
    ensures Takes(s, CloseOf(i, outcome), closed) && Takes(closed, Step.Commit(i), last)
    ensures var served := Served(None, a, i, outcome, s.now);
            last.committed == served.0 && last.inflight.None? && last.phases == s.phases[i := Done(served.1)]
  {
    closed := Next(s, CloseOf(i, outcome));
    last := Next(closed, Step.Commit(i));
  }

  /** With nobody else under the key, the steps of one request leave and answer what its dispatch does. */
  lemma DispatchIsARun(
      s: State, a: Attempt, outcome: Outcome, wrote: bool) returns (states: seq<State>, steps: seq<Step>)
    requires Inv(s) && s.inflight.None?
    ensures Interleaving(states, steps) && states[0] == s
    ensures var last, served := states[|states| - 1], Served(s.committed, a, |s.attempts|, outcome, s.now);
            last.committed == served.0 && last.inflight.None? && last.phases == s.phases + [Done(served.1)]
  {
    var i := |s.attempts|;
    var s1, s2 := Next(s, Arrive(a)), Tried(s, a);
    TriedIsAPrefix(s, a);
    StepKeepsInv(s, Arrive(a));
    if s.committed.Some? {
      steps := [Arrive(a), Acquire(i), Look(i)];
      states := [s, s1, s2, Next(s2, Look(i))];
    } else {
      var s3 := HolderEnds(s2, i, a, outcome, wrote);
      var s4, s5 := HolderCloses(s3, i, a, outcome);
      steps := [Arrive(a), Acquire(i), EndOf(i, outcome, wrote), CloseOf(i, outcome), Step.Commit(i)];
      states := [s, s1, s2, s3, s4, s5];
    }
  }
}
