/** Leader election: the first candidate in the line under the prefix leads, and its key's value is what it
    proclaims. */
module Election {
  import opened Store
  import opened Cluster
  import opened Queue
  import opened Waiting
  import opened Paths
  import opened ElectionSpec
  import M = MutexSpec
  import opened Mutex

  class Election {
    const lease: nat
    const pfx: Prefix
    var leaderKey: Key
    var leaderRev: int
    var leaderSession: Option<nat>
    var hdr: Option<nat>

    constructor (sessionLease: nat, name: Key)
      ensures lease == sessionLease && pfx == Pfx(name)
      ensures leaderKey == "" && leaderRev == 0 && leaderSession == None && hdr == None
    {
      lease, pfx := sessionLease, Pfx(name);
      leaderKey, leaderRev, leaderSession, hdr := "", 0, None, None;
    }

    // The candidate that this election is.
    ghost predicate Is(cand: Candidate)
      reads this
    {
      && cand.lease == lease && cand.key == leaderKey && cand.rev == leaderRev
      && cand.session == leaderSession.Some? && leaderSession in {None, Some(lease)}
    }

    // The candidate has taken the step on the store `pre` and left the store `h`.
    ghost predicate IsAfter(cand: Candidate, pre: History, step: Step, h: History)
      reads this
    {
      Is(CandidateStep(pfx, cand, pre, step).0) && h == CandidateStep(pfx, cand, pre, step).1
    }

    // The first transaction of Campaign; `found` is the session's own entry if it was there already.
    method Nominate(c: Cluster, val: string) returns (found: Option<KV>, rev: nat, ghost pre: History)
      requires Valid(c.hist)
      modifies this`leaderKey, this`leaderRev, this`leaderSession, c`hist, c`others
      ensures Valid(c.hist) && Valid(pre) && Interfered(old(c.hist), old(c.others), pre, c.others)
      ensures leaderKey == KeyOf(pfx, lease) && leaderSession == Some(lease)
      ensures (c.hist, leaderRev) == M.Enqueue(pre, leaderKey, val, lease)
      ensures found == Lookup(Current(pre), leaderKey) && rev == Revision(c.hist)
    {
      var k := KeyOf(pfx, lease);
      var succeeded, resps;
      succeeded, resps, pre := c.Txn([CreateEq(k, 0)], [OpPut(k, val, lease)], [OpGet(k, None)]);
      Absent(pre, k);
      SingleOp(pre, if succeeded then OpPut(k, val, lease) else OpGet(k, None));
      OnePut(pre, k, val, lease);
      M.EnqueueKeeps(pre, k, val, lease);
      leaderKey, leaderRev, leaderSession, rev := k, Revision(c.hist), Some(lease), Revision(c.hist);
      found := None;
      if !succeeded {
        SingleGet(pre, k, resps);
        found := resps[0].kv;
        leaderRev := found.value.createRev;
      }
    }

    /** Enters the election, or keeps the session's place in it with the new value, and waits to become first.
        The first transaction runs against `pre`; in `entered` the session's key holds `val`. A nil return means
        that nobody older was left at some revision since. If the first request fails nothing has happened; if the
        value cannot be replaced the candidate resigns. When the waiting fails because the context is done it
        resigns, too; when it fails otherwise it only forgets that it was a candidate. The call is a path of the
        `i`-th candidate's steps. */
    method Campaign(c: Cluster, val: string, ghost i: nat, ghost cand: Candidate)
      returns (err: Option<CallError>, ghost pre: History, ghost entered: History,
               ghost trace: seq<Stamp<Step>>, ghost cand': Candidate)
      requires Valid(c.hist) && Is(cand) && AtRest(cand)
      modifies this, c
      ensures Valid(c.hist) && old(c.hist) <= pre && pre <= entered && entered <= c.hist
      ensures Is(cand') && Path(Moves(pfx), Own(i), cand, old(c.hist), trace, cand', c.hist)
      ensures err.None? ==> cand'.phase.Leading?
      ensures err.Some? ==> cand'.phase.Resting? || (err == Some(RequestFailed) && cand' == cand)
      ensures err != Some(NoLeader)
      ensures err.None? ==> Won(c.hist, val, pre, entered)
      ensures err == Some(NotLeader) ==> leaderKey == "" && leaderSession == None
      ensures err == Some(RequestFailed) ==>
        c.failed && ((unchanged(this) && c.hist == old(c.hist)) || (leaderKey == "" && leaderSession == None))
      ensures err == Some(WaitEnded) ==>
        && leaderSession == None && (c.ctxDone || c.lost || c.failed)
        && (c.ctxDone ==> leaderKey == "" && (c.failed || !Live(Current(c.hist), KeyOf(pfx, lease), leaderRev)))
    {
      pre, entered := c.hist, c.hist;
      var sent := c.Accepts(KeyOf(pfx, lease));
      if !sent {
        trace := OneStep(Moves(pfx), Own(i), cand, c.hist, Step.Campaign(i, val, false), c.hist, c.hist);
        return Some(RequestFailed), pre, entered, trace, cand;
      }
      var rev;
      err, rev, pre, trace, cand' := Enter(c, val, i, cand);
      entered := c.hist;
      if err.Some? {
        trace, cand' := Quit(c, i, cand, old(c.hist), trace, cand');
        return;
      }
      ghost var before, entering := trace, cand';
      err, trace, cand' := Await(c, i, entering);
      PathConcat(Moves(pfx), Own(i), cand, old(c.hist), before, entering, entered, trace, cand', c.hist);
      trace := before + trace;
      if err.None? {
        hdr := Some(rev);
      }
    }

    // What a nil return of Campaign means.
    ghost predicate Won(h: History, val: string, pre: History, entered: History)
      reads this
    {
      && leaderKey == KeyOf(pfx, lease) && leaderSession == Some(lease)
      && leaderRev == M.Enqueue(pre, leaderKey, val, lease).1
      && Live(Current(entered), leaderKey, leaderRev) && Current(entered)[leaderKey].value == val
      && hdr == Some(Revision(M.Enqueue(pre, leaderKey, val, lease).0))
      && NobodyOlder(h, Revision(entered))
      && (Live(Current(h), leaderKey, leaderRev) ==> Least(Current(h), pfx, leaderKey))
    }

    ghost predicate NobodyOlder(h: History, since: nat)
      reads this
    {
      exists r | 0 < r < |h| :: since <= r && Predecessors(h[r], pfx, leaderRev - 1) == {}
    }

    // Campaign up to the waiting: the session's key holds the value, or it cannot be made to.
    method Enter(c: Cluster, val: string, ghost i: nat, ghost cand: Candidate)
      returns (err: Option<CallError>, rev: nat, ghost pre: History,
               ghost trace: seq<Stamp<Step>>, ghost cand': Candidate)
      requires Valid(c.hist) && Is(cand) && AtRest(cand)
      modifies this, c
      ensures Valid(c.hist) && old(c.hist) <= pre <= c.hist
      ensures Is(cand') && Path(Moves(pfx), Own(i), cand, old(c.hist), trace, cand', c.hist)
      ensures cand'.phase == (if err.None? then Polling else Quitting)
      ensures leaderRev == M.Enqueue(pre, KeyOf(pfx, lease), val, lease).1 && 0 < leaderRev < |c.hist|
      ensures rev == Revision(M.Enqueue(pre, KeyOf(pfx, lease), val, lease).0)
      ensures leaderSession == Some(lease) && c.ctxDone == old(c.ctxDone) && c.lost == old(c.lost)
      ensures err.None? ==>
        && leaderKey == KeyOf(pfx, lease)
        && Live(Current(c.hist), leaderKey, leaderRev) && Current(c.hist)[leaderKey].value == val
      ensures err.Some? ==> err == Some(NotLeader) || (err == Some(RequestFailed) && c.failed)
    {
      var stale;
      stale, rev, pre, trace, cand' := TakePlace(c, val, i, cand);
      err := None;
      if stale {
        err, trace, cand' := Replace(c, val, i, cand, old(c.hist), trace, cand');
      }
    }

    // The first request of a Campaign that gets through: is another value under the session's key already?
    method TakePlace(c: Cluster, val: string, ghost i: nat, ghost cand: Candidate)
      returns (stale: bool, rev: nat, ghost pre: History, ghost trace: seq<Stamp<Step>>, ghost cand': Candidate)
      requires Valid(c.hist) && Is(cand) && AtRest(cand)
      modifies this`leaderKey, this`leaderRev, this`leaderSession, c`hist, c`others
      ensures Valid(c.hist) && old(c.hist) <= pre <= c.hist
      ensures Is(cand') && cand'.session && cand'.wanted == val
      ensures cand'.phase == (if stale then Proposing else Polling)
      ensures Path(Moves(pfx), Own(i), cand, old(c.hist), trace, cand', c.hist)
      ensures leaderKey == KeyOf(pfx, lease) && (c.hist, leaderRev) == M.Enqueue(pre, leaderKey, val, lease)
      ensures 0 < leaderRev < |c.hist| && rev == Revision(c.hist) && leaderSession == Some(lease)
      ensures Live(Current(c.hist), leaderKey, leaderRev) && (!stale ==> Current(c.hist)[leaderKey].value == val)
    {
      var found;
      found, rev, pre := Nominate(c, val);
      M.EnqueueKeeps(pre, leaderKey, val, lease);
      InterferedExtends(old(c.hist), old(c.others), pre, c.others);
      stale := found.Some? && found.value.value != val;
      trace := OneStep(Moves(pfx), Own(i), cand, old(c.hist), Step.Campaign(i, val, true), pre, c.hist);
      cand' := CandidateStep(pfx, cand, pre, Step.Campaign(i, val, true)).0;
    }

    // The Proclaim of a Campaign that finds another value under the session's key.
    method Replace(c: Cluster, val: string, ghost i: nat, ghost cand: Candidate, ghost h0: History,
                   ghost trace: seq<Stamp<Step>>, ghost cand1: Candidate)
      returns (err: Option<CallError>, ghost trace': seq<Stamp<Step>>, ghost cand': Candidate)
      requires Valid(c.hist) && Is(cand1) && cand1.session && cand1.phase.Proposing? && cand1.wanted == val
      requires leaderRev > 0 && Path(Moves(pfx), Own(i), cand, h0, trace, cand1, c.hist)
      modifies this`leaderKey, this`hdr, c`hist, c`others, c`failed
      ensures Valid(c.hist) && old(c.hist) <= c.hist
      ensures Is(cand') && Path(Moves(pfx), Own(i), cand, h0, trace', cand', c.hist)
      ensures cand'.phase == (if err.None? then Polling else Quitting)
      ensures err.None? ==>
        && leaderKey == old(leaderKey) && Live(Current(c.hist), leaderKey, leaderRev)
        && Current(c.hist)[leaderKey].value == val
      ensures err.Some? ==> err == Some(NotLeader) || (err == Some(RequestFailed) && c.failed)
    {
      ghost var pre, h := c.hist, c.hist;
      err, pre := Proclaim(c, val);
      ghost var ok := err != Some(RequestFailed);
      PathStep(Moves(pfx), Own(i), cand, h0, trace, cand1, h, Step.Propose(i, ok), pre, c.hist);
      trace' := trace + [Stamp(pre, Step.Propose(i, ok))];
      cand' := CandidateStep(pfx, cand1, pre, Step.Propose(i, ok)).0;
      AnnounceKeeps(pre, old(leaderKey), leaderRev, val, lease);
    }

    // The Resign of a Campaign that fails.
    method Quit(c: Cluster, ghost i: nat, ghost cand: Candidate, ghost h0: History,
                ghost trace: seq<Stamp<Step>>, ghost cand1: Candidate)
      returns (ghost trace': seq<Stamp<Step>>, ghost cand': Candidate)
      requires Valid(c.hist) && Is(cand1) && cand1.session && cand1.phase.Quitting?
      requires Path(Moves(pfx), Own(i), cand, h0, trace, cand1, c.hist)
      modifies this`leaderKey, this`leaderSession, this`hdr, c`hist, c`others, c`failed
      ensures Valid(c.hist) && old(c.hist) <= c.hist
      ensures Is(cand') && cand'.phase.Resting? && Path(Moves(pfx), Own(i), cand, h0, trace', cand', c.hist)
      ensures leaderKey == "" && leaderSession == None && (old(c.failed) ==> c.failed)
      ensures c.failed || !Live(Current(c.hist), old(leaderKey), leaderRev)
    {
      ghost var h := c.hist;
      var ok;
      ghost var pre;
      ok, pre := Resign(c);
      PathStep(Moves(pfx), Own(i), cand, h0, trace, cand1, h, Step.Quit(i, ok), pre, c.hist);
      trace' := trace + [Stamp(pre, Step.Quit(i, ok))];
      cand' := CandidateStep(pfx, cand1, pre, Step.Quit(i, ok)).0;
    }

    // The rest of Campaign: wait until nobody older is left.
    method Await(c: Cluster, ghost i: nat, ghost cand: Candidate)
      returns (err: Option<CallError>, ghost trace: seq<Stamp<Step>>, ghost cand': Candidate)
      requires Valid(c.hist) && pfx <= leaderKey && 0 < leaderRev < |c.hist|
      requires Is(cand) && cand.session && cand.phase.Polling?
      modifies this, c
      ensures Valid(c.hist) && old(c.hist) <= c.hist
      ensures Is(cand') && Path(Moves(pfx), Own(i), cand, old(c.hist), trace, cand', c.hist)
      ensures cand'.phase == (if err.None? then Leading else Resting)
      ensures err in {None, Some(WaitEnded)} && leaderRev == old(leaderRev)
      ensures err.None? ==>
        && leaderKey == old(leaderKey) && leaderSession == old(leaderSession)
        && NobodyOlder(c.hist, Revision(old(c.hist)))
        && (Live(Current(c.hist), leaderKey, leaderRev) ==> Least(Current(c.hist), pfx, leaderKey))
      ensures err.Some? ==>
        && leaderSession == None && (c.ctxDone || c.lost || c.failed)
        && (c.ctxDone ==> leaderKey == "" && (c.failed || !Live(Current(c.hist), old(leaderKey), leaderRev)))
    {
      var ok, rev;
      ok, rev, trace, cand' := WaitTurn(c, i, cand);
      if !ok {
        if c.ctxDone {
          trace, cand' := Quit(c, i, cand, old(c.hist), trace, cand');
        } else {
          leaderSession := None;
        }
        return Some(WaitEnded), trace, cand';
      }
      if Live(Current(c.hist), leaderKey, leaderRev) {
        NoPredecessorsIsLeast(c.hist, rev, rev, pfx, leaderKey, leaderRev);
      }
      err := None;
    }

    method WaitTurn(c: Cluster, ghost i: nat, ghost cand: Candidate)
      returns (ok: bool, rev: nat, ghost trace: seq<Stamp<Step>>, ghost cand': Candidate)
      requires Valid(c.hist) && 0 < leaderRev < |c.hist| && Is(cand) && cand.phase.Polling?
      modifies c
      ensures Valid(c.hist) && old(c.hist) <= c.hist
      ensures ok ==> rev == Revision(c.hist) && Predecessors(Current(c.hist), pfx, leaderRev - 1) == {}
      ensures !ok ==> c.ctxDone || c.lost || c.failed
      ensures cand' == Waited(cand, ok, c.ctxDone)
      ensures Path(Moves(pfx), Own(i), cand, old(c.hist), trace, cand', c.hist)
    {
      var rounds;
      ghost var sights;
      ok, rev, rounds, sights := WaitDeletes(c, pfx, leaderRev - 1);
      InterferedExtends(old(c.hist), old(c.others), c.hist, c.others);
      trace := WaitedPath(pfx, cand, i, old(c.hist), c.hist, sights, c.ctxDone);
      cand' := Waited(cand, ok, c.ctxDone);
    }

    /** Stores a new value under the leader key if the key is still the incarnation remembered; otherwise the
        leader key is forgotten. A request that fails, as every further one on the forgotten key does, changes
        nothing. Called by a candidate at rest this is its step of that name. */
    method Proclaim(c: Cluster, val: string) returns (err: Option<CallError>, ghost pre: History)
      requires Valid(c.hist)
      modifies this`leaderKey, this`hdr, c`hist, c`others, c`failed
      ensures Valid(c.hist) && old(c.hist) <= pre && pre <= c.hist
      ensures Interfered(old(c.hist), old(c.others), pre, c.others)
      ensures err in {None, Some(NotLeader), Some(RequestFailed)}
      ensures var ok := err != Some(RequestFailed);
        forall i, cand | old(Is(cand)) && AtRest(cand) :: IsAfter(cand, pre, Step.Proclaim(i, val, ok), c.hist)
      ensures leaderSession.None? ==> err == Some(NotLeader) && unchanged(this) && unchanged(c)
      ensures leaderSession.Some? && old(leaderKey) == "" ==> err == Some(RequestFailed)
      ensures err == Some(RequestFailed) ==> unchanged(this) && c.failed && c.hist == old(c.hist)
      ensures leaderSession.Some? && err != Some(RequestFailed) ==>
        && c.hist == Announce(pre, old(leaderKey), leaderRev, val, leaderSession.value)
        && err == (if Matches(Current(pre), old(leaderKey), leaderRev) then None else Some(NotLeader))
        && leaderKey == (if err.None? then old(leaderKey) else "")
        && hdr == (if err.None? then Some(Revision(c.hist)) else old(hdr))
        && c.failed == old(c.failed)
    {
      InterferedReflexive(c.hist, c.others);
      pre := c.hist;
      if leaderSession.None? {
        assert forall i, cand | Is(cand) :: IsAfter(cand, pre, Step.Proclaim(i, val, true), c.hist);
        return Some(NotLeader), pre;
      }
      var sent := c.Accepts(leaderKey);
      if !sent {
        return Some(RequestFailed), pre;
      }
      var put := OpPut(leaderKey, val, leaderSession.value);
      var cmp := CreateEq(leaderKey, leaderRev);
      var succeeded, resps;
      succeeded, resps, pre := c.Txn([cmp], [put], []);
      InterferedExtends(old(c.hist), old(c.others), pre, c.others);
      OneCmp(Current(pre), cmp);
      SingleOp(pre, put);
      OnePut(pre, leaderKey, val, leaderSession.value);
      if succeeded {
        hdr, err := Some(Revision(c.hist)), None;
      } else {
        leaderKey, err := "", Some(NotLeader);
      }
      forall i, cand | old(Is(cand)) && AtRest(cand)
        ensures IsAfter(cand, pre, Step.Proclaim(i, val, true), c.hist)
      {
        assert CandidateStep(pfx, cand, pre, Step.Proclaim(i, val, true)) == AnnounceCandidate(cand, pre, val);
      }
    }

    /** Deletes the leader key if it is still the incarnation remembered, and forgets it in any case, even if the
        request fails. Called by a candidate at rest this is its step of that name. */
    method Resign(c: Cluster) returns (ok: bool, ghost pre: History)
      requires Valid(c.hist)
      modifies this`leaderKey, this`leaderSession, this`hdr, c`hist, c`others, c`failed
      ensures Valid(c.hist) && old(c.hist) <= pre && pre <= c.hist
      ensures Interfered(old(c.hist), old(c.others), pre, c.others)
      ensures leaderSession == None
      ensures forall i, cand | old(Is(cand)) && AtRest(cand) ::
        IsAfter(cand, pre, Step.Resign(i, ok), c.hist)
      ensures old(leaderSession).None? ==> ok && unchanged(this) && unchanged(c)
      ensures old(leaderSession).Some? ==> leaderKey == "" && (old(leaderKey) == "" ==> !ok)
      ensures !ok ==> hdr == old(hdr) && c.hist == old(c.hist) && c.failed
      ensures old(leaderSession).Some? && ok ==>
        && c.hist == Withdraw(pre, old(leaderKey), leaderRev)
        && !Live(Current(c.hist), old(leaderKey), leaderRev)
        && hdr == Some(Revision(c.hist)) && c.failed == old(c.failed)
    {
      InterferedReflexive(c.hist, c.others);
      pre := c.hist;
      if leaderSession.None? {
        assert forall i, cand | Is(cand) :: IsAfter(cand, pre, Step.Resign(i, true), c.hist);
        return true, pre;
      }
      ok := c.Accepts(leaderKey);
      if ok {
        pre := Retract(c);
        hdr := Some(Revision(c.hist));
      }
      leaderKey := "";
      leaderSession := None;
    }

    // The transaction of Resign.
    method Retract(c: Cluster) returns (ghost pre: History)
      requires Valid(c.hist)
      modifies c`hist, c`others
      ensures Valid(c.hist) && old(c.hist) <= pre && pre <= c.hist
      ensures Interfered(old(c.hist), old(c.others), pre, c.others)
      ensures c.hist == Withdraw(pre, leaderKey, leaderRev) && !Live(Current(c.hist), leaderKey, leaderRev)
    {
      var cmp := CreateEq(leaderKey, leaderRev);
      var _, _, h := c.Txn([cmp], [OpDelete(leaderKey)], []);
      pre := h;
      InterferedExtends(old(c.hist), old(c.others), pre, c.others);
      OneCmp(Current(pre), cmp);
      SingleOp(pre, OpDelete(leaderKey));
      OneDelete(pre, leaderKey);
      WithdrawKeeps(pre, leaderKey, leaderRev);
    }

    /** The entry of the first candidate in line, if the request succeeds. */
    method Leader(c: Cluster) returns (err: Option<CallError>, resp: GetResp)
      requires Valid(c.hist)
      modifies c`hist, c`others, c`failed, c`told
      ensures Valid(c.hist) && Interfered(old(c.hist), old(c.others), c.hist, c.others)
      ensures err in {None, Some(NoLeader), Some(RequestFailed)}
      ensures if err == Some(RequestFailed) then c.failed && c.hist == old(c.hist)
              else resp.rev == Revision(c.hist) && IsFirstCreated(Current(c.hist), pfx, resp.kv)
      ensures err != Some(RequestFailed) ==> err == if resp.kv.None? then Some(NoLeader) else None
    {
      InterferedReflexive(c.hist, c.others);
      var sent := c.Accepts(pfx);
      if !sent {
        return Some(RequestFailed), GetResp(0, None);
      }
      resp := c.GetFirstCreated(pfx);
      err := if resp.kv.None? then Some(NoLeader) else None;
    }
  }

  lemma OneCmp(s: Snapshot, cmp: Cmp)
    ensures AllHold(s, [cmp]) == Holds(s, cmp)
  {
    assert [cmp][0] == cmp;
  }

  lemma SingleGet(h: History, key: Key, resps: seq<GetResp>)
    requires ResponsesOk(h, [OpGet(key, None)], resps)
    ensures resps[0].kv == Lookup(Current(h), key)
  {
  }
}
