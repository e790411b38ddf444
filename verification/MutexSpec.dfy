/** What a session's mutex does, one request at a time, as functions of its fields and the store's history. The
    class in module Mutex is proved to take exactly these steps. */
module MutexSpec {
  import opened Store
  import opened Cluster
  import opened Queue
  import opened Waiting
  import opened Paths

  const RELEASED_KEY: Key := "\0"

  // What Lock's first transaction leaves: the session's key, stored if it was missing, and its create revision.
  function Enqueue(h: History, key: Key, val: string, lease: nat): (History, nat) {
    if key in Current(h) then (h, Current(h)[key].createRev)
    else (Commit(h, map[key := Put(val, lease)]), |h|)
  }

  function Release(h: History, key: Key): History {
    Commit(h, map[key := Delete])
  }

  lemma EnqueueKeeps(h: History, key: Key, val: string, lease: nat)
    requires Valid(h)
    ensures var (h', rev) := Enqueue(h, key, val, lease);
            && Valid(h') && h <= h' && 0 < rev < |h'|
            && Live(Current(h'), key, rev)
            && (key !in Current(h) ==> |h'| == |h| + 1 && Current(h')[key].value == val)
  {
    var b: Batch := map[key := Put(val, lease)];
    assert key in b;
    CommitExtends(h, b);
    if key in Current(h) {
      RevisionBounds(h, Revision(h), key);
    }
  }

  // ---------- Steps ----------

  // Resting: no call in progress and the lock not held. Holding: the last Lock returned nil.
  datatype Phase = Resting | Polling | Watching(key: Key, from: nat) | GivingUp | Holding

  // A session's mutex: its lease, the fields myKey and myRev, and where it is.
  datatype Member = Member(lease: nat, key: Key, rev: int, phase: Phase)

  // `ok` says whether the request succeeds; `pick` and `at` are the server's answers.
  datatype Step =
    | Lock(i: nat, ok: bool)
    | Poll(i: nat, pick: Option<KV>)
    | Deliver(i: nat, at: nat)
    | WaitFails(i: nat)
    | GiveUp(i: nat, ok: bool)
    | Unlock(i: nat, ok: bool)
    | Expire(lease: nat)
    | Outside(batch: Batch)

  predicate AtRest(m: Member) {
    m.phase.Resting? || m.phase.Holding?
  }

  ghost function LockMember(pfx: Key, m: Member, h: History): (Member, History) {
    var key := KeyOf(pfx, m.lease);
    var (h', rev) := Enqueue(h, key, "", m.lease);
    (Member(m.lease, key, rev, if Least(Current(h'), pfx, key) then Holding else Polling), h')
  }

  ghost function PollMember(m: Member, h: History, pick: Option<KV>): Member {
    m.(phase := if pick.None? then Holding else Watching(pick.value.key, Revision(h)))
  }

  ghost function ReleaseMember(m: Member): Member {
    m.(key := RELEASED_KEY, rev := -1, phase := Resting)
  }

  ghost function MemberStep(pfx: Key, m: Member, h: History, step: Step): (Member, History) {
    match step
    case Lock(_, ok) =>
      if !AtRest(m) then (m, h)
      else if ok then LockMember(pfx, m, h) else (m.(key := KeyOf(pfx, m.lease)), h)
    case Poll(_, pick) =>
      if m.phase.Polling? && IsLastCreated(Current(h), pfx, m.rev - 1, pick)
      then (PollMember(m, h, pick), h)
      else (m, h)
    case Deliver(_, at) =>
      if m.phase.Watching? && m.phase.from <= at && Deleted(h, m.phase.key, at)
      then (m.(phase := Polling), h)
      else (m, h)
    case WaitFails(_) =>
      if m.phase.Polling? || m.phase.Watching? then (m.(phase := GivingUp), h) else (m, h)
    case GiveUp(_, ok) =>
      if !m.phase.GivingUp? then (m, h)
      else if ok then (ReleaseMember(m), Release(h, m.key)) else (m.(phase := Resting), h)
    case Unlock(_, ok) =>
      if AtRest(m) && ok && m.key != "" then (ReleaseMember(m), Release(h, m.key)) else (m, h)
    case _ => (m, h)
  }

  ghost function Moves(pfx: Key): Mover<Member, Step> {
    (m: Member, h: History, step: Step) => MemberStep(pfx, m, h, step)
  }

  // The steps of the `i`-th session.
  function Own(i: nat): Step -> bool {
    (step: Step) => !step.Expire? && !step.Outside? && step.i == i
  }

  // ---------- Waiting, in steps ----------

  function StepOf(i: nat, sight: Sight): Step {
    match sight
    case Polled(_, pick) => Poll(i, pick)
    case Saw(_, at) => Deliver(i, at)
  }

  ghost function PhaseOf(stage: Stage): Phase {
    match stage
    case Asking => Polling
    case Awaiting(key, from) => Watching(key, from)
    case Through => Holding
  }

  /** The course of a wait is a path of polls and deliveries. */
  lemma WaitIsPath(pfx: Key, m: Member, i: nat, h0: History, h: History, sights: seq<Sight>)
    returns (trace: seq<Stamp<Step>>)
    requires m.phase.Polling? && Course(pfx, m.rev - 1, h0, h, sights)
    ensures Path(Moves(pfx), Own(i), m, h0, trace, m.(phase := PhaseOf(StageAfter(sights))), h)
  {
    var at := (stage: Stage) => m.(phase := PhaseOf(stage));
    var step := (sight: Sight) => StepOf(i, sight);
    forall stage, sight | Sees(pfx, m.rev - 1, stage, sight)
      ensures SightIsStep(Moves(pfx), Own(i), at, step, stage, sight)
    {
    }
    trace := CourseIsPath(Moves(pfx), Own(i), at, step, pfx, m.rev - 1, h0, h, sights);
  }

  // The whole wait: through, or about to give up.
  lemma WaitedPath(pfx: Key, m: Member, i: nat, h0: History, h: History, sights: seq<Sight>)
    returns (trace: seq<Stamp<Step>>)
    requires m.phase.Polling? && Course(pfx, m.rev - 1, h0, h, sights)
    ensures var phase' := if StageAfter(sights) == Through then Holding else GivingUp;
            Path(Moves(pfx), Own(i), m, h0, trace, m.(phase := phase'), h)
  {
    trace := WaitIsPath(pfx, m, i, h0, h, sights);
    if StageAfter(sights) != Through {
      PathStep(Moves(pfx), Own(i), m, h0, trace, m.(phase := PhaseOf(StageAfter(sights))), h, WaitFails(i), h, h);
      trace := trace + [Stamp(h, WaitFails(i))];
    }
  }
}
