/** What a session's candidate does, one request at a time, as functions of its fields and the store's history. The
    class in module Election is proved to take exactly these steps. */
module ElectionSpec {
  import opened Store
  import opened Cluster
  import opened Queue
  import opened Waiting
  import opened Paths
  import M = MutexSpec

  // The guard of Proclaim and Resign: the key's create revision is the one remembered.
  predicate Matches(s: Snapshot, key: Key, rev: int) {
    CreateOf(Lookup(s, key)) == rev
  }

  function Announce(h: History, key: Key, rev: int, val: string, lease: nat): History {
    if Matches(Current(h), key, rev) then Commit(h, map[key := Put(val, lease)]) else h
  }

  function Withdraw(h: History, key: Key, rev: int): History {
    if Matches(Current(h), key, rev) then M.Release(h, key) else h
  }

  lemma AnnounceKeeps(h: History, key: Key, rev: int, val: string, lease: nat)
    requires Valid(h)
    ensures var h' := Announce(h, key, rev, val, lease);
            && Valid(h') && h <= h'
            && (Live(Current(h), key, rev) ==> Live(Current(h'), key, rev) && Current(h')[key].value == val)
  {
  }

  lemma WithdrawKeeps(h: History, key: Key, rev: int)
    requires Valid(h)
    ensures Valid(Withdraw(h, key, rev)) && h <= Withdraw(h, key, rev)
    ensures !Live(Current(Withdraw(h, key, rev)), key, rev)
  {
  }

  // ---------- Steps ----------

  // Proposing and Quitting: Campaign is about to replace an old value, or to resign. Leading: the last Campaign
  // returned nil and Resign has not been called since.
  datatype Phase = Resting | Proposing | Quitting | Polling | Watching(key: Key, from: nat) | Leading

  // A session's candidate: its lease, the fields leaderKey, leaderRev and whether leaderSession is set, where it
  // is, the value its Campaign asks for, and the value it stored last.
  datatype Candidate = Candidate(
    lease: nat, key: Key, rev: int, session: bool, phase: Phase, wanted: string, stored: string)

  // `ok` says whether the request succeeds; `pick` and `at` are the server's answers.
  datatype Step =
    | Campaign(i: nat, val: string, ok: bool)
    | Propose(i: nat, ok: bool)
    | Quit(i: nat, ok: bool)
    | Poll(i: nat, pick: Option<KV>)
    | Deliver(i: nat, at: nat)
    | WaitFails(i: nat, ctxDone: bool)
    | Proclaim(i: nat, val: string, ok: bool)
    | Resign(i: nat, ok: bool)
    | Expire(lease: nat)
    | Outside(batch: Batch)

  predicate AtRest(c: Candidate) {
    c.phase.Resting? || c.phase.Leading?
  }

  ghost function CampaignCandidate(pfx: Key, c: Candidate, h: History, val: string): (Candidate, History) {
    var key := KeyOf(pfx, c.lease);
    var (h', rev) := M.Enqueue(h, key, val, c.lease);
    var stale := key in Current(h) && Current(h)[key].value != val;
    (Candidate(c.lease, key, rev, true, if stale then Proposing else Polling, val, if stale then c.stored else val), h')
  }

  // A Proclaim that reaches the server; inside Campaign it decides how Campaign goes on.
  ghost function AnnounceCandidate(c: Candidate, h: History, val: string): (Candidate, History) {
    var h' := Announce(h, c.key, c.rev, val, c.lease);
    var inCampaign := c.phase.Proposing?;
    if Matches(Current(h), c.key, c.rev) then
      (c.(stored := val, phase := if inCampaign then Polling else c.phase), h')
    else
      (c.(key := "", phase := if inCampaign then Quitting else c.phase), h')
  }

  ghost function WithdrawCandidate(c: Candidate, h: History, ok: bool): (Candidate, History) {
    (c.(key := "", session := false, phase := Resting), if ok then Withdraw(h, c.key, c.rev) else h)
  }

  ghost function CandidateStep(pfx: Key, c: Candidate, h: History, step: Step): (Candidate, History) {
    match step
    case Campaign(_, val, ok) => if AtRest(c) && ok then CampaignCandidate(pfx, c, h, val) else (c, h)
    case Propose(_, ok) =>
      if !c.phase.Proposing? then (c, h)
      else if ok then AnnounceCandidate(c, h, c.wanted) else (c.(phase := Quitting), h)
    case Quit(_, ok) => if c.phase.Quitting? then WithdrawCandidate(c, h, ok) else (c, h)
    case Poll(_, pick) =>
      if c.phase.Polling? && IsLastCreated(Current(h), pfx, c.rev - 1, pick)
      then (c.(phase := if pick.None? then Leading else Watching(pick.value.key, Revision(h))), h)
      else (c, h)
    case Deliver(_, at) =>
      if c.phase.Watching? && c.phase.from <= at && Deleted(h, c.phase.key, at)
      then (c.(phase := Polling), h)
      else (c, h)
    case WaitFails(_, ctxDone) =>
      if !(c.phase.Polling? || c.phase.Watching?) then (c, h)
      else if ctxDone then (c.(phase := Quitting), h) else (c.(session := false, phase := Resting), h)
    case Proclaim(_, val, ok) => if AtRest(c) && c.session && ok then AnnounceCandidate(c, h, val) else (c, h)
    case Resign(_, ok) => if AtRest(c) && c.session then WithdrawCandidate(c, h, ok) else (c, h)
    case _ => (c, h)
  }

  ghost function Moves(pfx: Key): Mover<Candidate, Step> {
    (c: Candidate, h: History, step: Step) => CandidateStep(pfx, c, h, step)
  }

  // The steps of the `i`-th session.
  function Own(i: nat): Step -> bool {
    (step: Step) => !step.Expire? && !step.Outside? && step.i == i
  }

  // ---------- Waiting, in steps ----------

  function StepOf(i: nat, sight: Sight): Step {
    match sight
    case Polled(_, pick) => Poll(i, pick)
    case Saw(_, at) => Deliver(i, at)
  }

  ghost function PhaseOf(stage: Stage): Phase {
    match stage
    case Asking => Polling
    case Awaiting(key, from) => Watching(key, from)
    case Through => Leading
  }

  /** The course of a wait is a path of polls and deliveries. */
  lemma WaitIsPath(pfx: Key, c: Candidate, i: nat, h0: History, h: History, sights: seq<Sight>)
    returns (trace: seq<Stamp<Step>>)
    requires c.phase.Polling? && Course(pfx, c.rev - 1, h0, h, sights)
    ensures Path(Moves(pfx), Own(i), c, h0, trace, c.(phase := PhaseOf(StageAfter(sights))), h)
  {
    var at := (stage: Stage) => c.(phase := PhaseOf(stage));
    var step := (sight: Sight) => StepOf(i, sight);
    forall stage, sight | Sees(pfx, c.rev - 1, stage, sight)
      ensures SightIsStep(Moves(pfx), Own(i), at, step, stage, sight)
    {
    }
    trace := CourseIsPath(Moves(pfx), Own(i), at, step, pfx, c.rev - 1, h0, h, sights);
  }

  // The whole wait: through, or failed, because the context is done or otherwise.
  ghost function Waited(c: Candidate, through: bool, ctxDone: bool): Candidate {
    if through then c.(phase := Leading)
    else if ctxDone then c.(phase := Quitting)
    else c.(session := false, phase := Resting)
  }

  lemma WaitedPath(pfx: Key, c: Candidate, i: nat, h0: History, h: History, sights: seq<Sight>, ctxDone: bool)
    returns (trace: seq<Stamp<Step>>)
    requires c.phase.Polling? && Course(pfx, c.rev - 1, h0, h, sights)
    ensures Path(Moves(pfx), Own(i), c, h0, trace, Waited(c, StageAfter(sights) == Through, ctxDone), h)
  {
    trace := WaitIsPath(pfx, c, i, h0, h, sights);
    if StageAfter(sights) != Through {
      var step := WaitFails(i, ctxDone);
      PathStep(Moves(pfx), Own(i), c, h0, trace, c.(phase := PhaseOf(StageAfter(sights))), h, step, h, h);
      trace := trace + [Stamp(h, step)];
    }
  }
}
