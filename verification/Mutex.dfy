/** The distributed mutex: a session's key in the line under the prefix; the first in line holds the lock. */
module Mutex {
  import opened Store
  import opened Cluster
  import opened Queue
  import opened Waiting
  import opened Paths
  import opened MutexSpec

  class Mutex {
    const lease: nat
    const pfx: Prefix
    var myKey: Key
    var myRev: int
    var hdr: Option<nat>

    constructor (sessionLease: nat, name: Key)
      ensures lease == sessionLease && pfx == Pfx(name) && myKey == "" && myRev == -1 && hdr == None
    {
      lease, pfx, myKey, myRev, hdr := sessionLease, Pfx(name), "", -1, None;
    }

    // The member of the line that this mutex is.
    ghost function Self(phase: Phase): Member
      reads this
    {
      Member(lease, myKey, myRev, phase)
    }

    // Nobody in front of this mutex at revision `rev` of the history.
    ghost predicate Unobstructed(h: History, rev: nat)
      reads this
    {
      rev < |h| && Predecessors(h[rev], pfx, myRev - 1) == {}
    }

    // The first transaction of Lock: the session's key is stored if it is missing, and the owner is read along.
    method Join(c: Cluster) returns (owner: GetResp, ghost pre: History)
      requires Valid(c.hist)
      requires myKey == KeyOf(pfx, lease)
      modifies this`myRev, c`hist, c`others
      ensures Valid(c.hist) && Interfered(old(c.hist), old(c.others), pre, c.others)
      ensures (c.hist, myRev) == Enqueue(pre, myKey, "", lease)
      ensures owner.rev == Revision(c.hist) && IsFirstCreated(Current(c.hist), pfx, owner.kv)
    {
      var put, get, getOwner := OpPut(myKey, "", lease), OpGet(myKey, None), OpFirstCreate(pfx);
      var succeeded, resps;
      succeeded, resps, pre := c.Txn([CreateEq(myKey, 0)], [put, getOwner], [get, getOwner]);
      Absent(pre, myKey);
      if succeeded {
        JoinedNew(pre, myKey, lease, pfx, resps);
        myRev := Revision(c.hist);
      } else {
        JoinedAgain(pre, myKey, pfx, resps);
        myRev := resps[0].kv.value.createRev;
      }
      owner := resps[1];
    }

    /** Takes a place in the line, or keeps the one the session has, and waits for its turn. A nil return means
        that at the header's revision nobody older was left. If the first request fails nothing has happened; if
        the waiting fails the place has been given up again, unless the request for that fails as well. The first
        transaction runs against `pre` and leaves `joined`. The call is a path of the `i`-th member's steps. */
    method Lock(c: Cluster, ghost i: nat, ghost phase: Phase)
      returns (err: Option<CallError>, ghost pre: History, ghost joined: History,
               ghost trace: seq<Stamp<Step>>, ghost phase': Phase)
      requires Valid(c.hist) && AtRest(Self(phase))
      modifies this, c
      ensures Valid(c.hist) && old(c.hist) <= pre && joined <= c.hist
      ensures Path(Moves(pfx), Own(i), old(Self(phase)), old(c.hist), trace, Self(phase'), c.hist)
      ensures phase' == (if err.None? then Holding else if err == Some(RequestFailed) then phase else Resting)
      ensures myKey == RELEASED_KEY || myKey == KeyOf(pfx, lease)
      ensures err == Some(RequestFailed) ==>
        && c.failed && c.hist == old(c.hist)
        && myKey == KeyOf(pfx, lease) && myRev == old(myRev) && hdr == old(hdr)
      ensures err != Some(RequestFailed) ==> joined == Enqueue(pre, KeyOf(pfx, lease), "", lease).0
      ensures err.None? ==>
        && myKey == KeyOf(pfx, lease) && myRev == Enqueue(pre, myKey, "", lease).1
        && hdr.Some? && Revision(joined) <= hdr.value && Unobstructed(c.hist, hdr.value)
        && c.ctxDone == old(c.ctxDone) && c.lost == old(c.lost) && c.failed == old(c.failed)
      ensures err.None? && Live(Current(c.hist), myKey, myRev) ==> Least(Current(c.hist), pfx, myKey)
      ensures err == Some(WaitEnded) ==>
        && (c.ctxDone || c.lost || c.failed) && hdr == old(hdr)
        && (if myKey == RELEASED_KEY then myRev == -1 && KeyOf(pfx, lease) !in Current(c.hist)
            else c.failed && myRev == Enqueue(pre, myKey, "", lease).1)
    {
      phase' := phase;
      var taken, first, header;
      taken, first, header, pre, trace := TakePlace(c, i, phase);
      joined := c.hist;
      if !taken {
        return Some(RequestFailed), pre, joined, trace, phase;
      }
      EnqueueKeeps(pre, myKey, "", lease);
      if first {
        hdr := Some(header);
        return None, pre, joined, trace, Holding;
      }
      err, trace, phase' := AwaitFrom(c, i, old(Self(phase)), old(c.hist), trace);
    }

    // The rest of Lock, after the path that has led to it.
    method AwaitFrom(c: Cluster, ghost i: nat, ghost m0: Member, ghost h0: History, ghost before: seq<Stamp<Step>>)
      returns (err: Option<CallError>, ghost trace: seq<Stamp<Step>>, ghost phase': Phase)
      requires Valid(c.hist) && pfx <= myKey && 0 < myRev < |c.hist|
      requires Path(Moves(pfx), Own(i), m0, h0, before, Self(Polling), c.hist)
      modifies this, c
      ensures Valid(c.hist) && old(c.hist) <= c.hist
      ensures err in {None, Some(WaitEnded)} && phase' == (if err.None? then Holding else Resting)
      ensures Path(Moves(pfx), Own(i), m0, h0, trace, Self(phase'), c.hist)
      ensures Awaited(c.hist, Revision(old(c.hist)), err, old(myKey), old(myRev),
                      c.ctxDone || c.lost || c.failed, c.failed)
      ensures err.None? ==> c.ctxDone == old(c.ctxDone) && c.lost == old(c.lost) && c.failed == old(c.failed)
      ensures err.Some? ==> hdr == old(hdr)
    {
      ghost var m1 := Self(Polling);
      err, trace, phase' := Await(c, i);
      PathConcat(Moves(pfx), Own(i), m0, h0, before, m1, old(c.hist), trace, Self(phase'), c.hist);
      trace := before + trace;
    }

    // What the waiting of a Lock leaves: the place is first, or has been given up.
    ghost predicate Awaited(h: History, since: nat, err: Option<CallError>, key: Key, rev: int,
                            ended: bool, failed: bool)
      reads this
    {
      if err.None? then
        && myKey == key && myRev == rev
        && hdr.Some? && since <= hdr.value && Unobstructed(h, hdr.value)
        && (Live(Current(h), myKey, myRev) ==> Least(Current(h), pfx, myKey))
      else
        && ended
        && (|| (myKey == RELEASED_KEY && myRev == -1 && key !in Current(h))
            || (failed && myKey == key && myRev == rev))
    }

    // The first request of Lock: does it get through, and is the place the first in line?
    method TakePlace(c: Cluster, ghost i: nat, ghost phase: Phase)
      returns (taken: bool, first: bool, header: nat, ghost pre: History, ghost trace: seq<Stamp<Step>>)
      requires Valid(c.hist) && AtRest(Self(phase))
      modifies this`myKey, this`myRev, c`hist, c`others, c`failed
      ensures Valid(c.hist) && Valid(pre) && old(c.hist) <= pre <= c.hist && myKey == KeyOf(pfx, lease)
      ensures !taken ==> c.failed && c.hist == old(c.hist) && myRev == old(myRev)
      ensures taken ==> c.failed == old(c.failed) && (c.hist, myRev) == Enqueue(pre, myKey, "", lease)
      ensures taken && first ==>
        && header == Revision(c.hist)
        && Predecessors(Current(c.hist), pfx, myRev - 1) == {} && Least(Current(c.hist), pfx, myKey)
      ensures Path(Moves(pfx), Own(i), old(Self(phase)), old(c.hist), trace,
                      Self(if !taken then phase else if first then Holding else Polling), c.hist)
    {
      pre := c.hist;
      ghost var m := Self(phase);
      myKey := KeyOf(pfx, lease);
      taken := c.Accepts(myKey);
      first, header := false, 0;
      if !taken {
        trace := OneStep(Moves(pfx), Own(i), m, c.hist, Step.Lock(i, false), c.hist, c.hist);
        return;
      }
      var owner;
      owner, pre := Join(c);
      InterferedExtends(old(c.hist), old(c.others), pre, c.others);
      EnqueueKeeps(pre, myKey, "", lease);
      trace := OneStep(Moves(pfx), Own(i), m, old(c.hist), Step.Lock(i, true), pre, c.hist);
      first, header := owner.kv.None? || owner.kv.value.createRev == myRev, owner.rev;
      FirstIsLeast(Current(c.hist), pfx, owner.kv, myKey, myRev);
    }

    method WaitTurn(c: Cluster, ghost i: nat) returns (ok: bool, rev: nat, ghost trace: seq<Stamp<Step>>)
      requires Valid(c.hist) && 0 < myRev < |c.hist|
      modifies c
      ensures Valid(c.hist) && old(c.hist) <= c.hist
      ensures ok ==> rev == Revision(c.hist) && Predecessors(Current(c.hist), pfx, myRev - 1) == {}
      ensures if ok then c.ctxDone == old(c.ctxDone) && c.lost == old(c.lost) && c.failed == old(c.failed)
              else c.ctxDone || c.lost || c.failed
      ensures Path(Moves(pfx), Own(i), Self(Polling), old(c.hist), trace,
                   Self(if ok then Holding else GivingUp), c.hist)
    {
      var rounds;
      ghost var sights;
      ok, rev, rounds, sights := WaitDeletes(c, pfx, myRev - 1);
      InterferedExtends(old(c.hist), old(c.others), c.hist, c.others);
      trace := WaitedPath(pfx, Self(Polling), i, old(c.hist), c.hist, sights);
    }

    // The rest of Lock: wait until nobody older is left, or give the place up.
    method Await(c: Cluster, ghost i: nat)
      returns (err: Option<CallError>, ghost trace: seq<Stamp<Step>>, ghost phase': Phase)
      requires Valid(c.hist) && pfx <= myKey && 0 < myRev < |c.hist|
      modifies this, c
      ensures Valid(c.hist) && old(c.hist) <= c.hist
      ensures err in {None, Some(WaitEnded)} && phase' == (if err.None? then Holding else Resting)
      ensures Path(Moves(pfx), Own(i), old(Self(Polling)), old(c.hist), trace, Self(phase'), c.hist)
      ensures Awaited(c.hist, Revision(old(c.hist)), err, old(myKey), old(myRev),
                      c.ctxDone || c.lost || c.failed, c.failed)
      ensures err.None? ==> c.ctxDone == old(c.ctxDone) && c.lost == old(c.lost) && c.failed == old(c.failed)
      ensures err.Some? ==> hdr == old(hdr)
    {
      var ok, rev;
      ok, rev, trace := WaitTurn(c, i);
      if !ok {
        trace := GiveUp(c, i, Self(Polling), old(c.hist), trace);
        return Some(WaitEnded), trace, Resting;
      }
      hdr := Some(rev);
      if Live(Current(c.hist), myKey, myRev) {
        NoPredecessorsIsLeast(c.hist, rev, rev, pfx, myKey, myRev);
      }
      err, phase' := None, Holding;
    }

    // The Unlock of a Lock whose waiting has failed.
    method GiveUp(c: Cluster, ghost i: nat, ghost m0: Member, ghost h0: History, ghost trace: seq<Stamp<Step>>)
      returns (ghost trace': seq<Stamp<Step>>)
      requires Valid(c.hist) && Path(Moves(pfx), Own(i), m0, h0, trace, Self(GivingUp), c.hist)
      modifies this`myKey, this`myRev, c`hist, c`others, c`failed
      ensures Valid(c.hist) && old(c.hist) <= c.hist
      ensures Path(Moves(pfx), Own(i), m0, h0, trace', Self(Resting), c.hist)
      ensures old(c.failed) ==> c.failed
      ensures || (myKey == RELEASED_KEY && myRev == -1 && old(myKey) !in Current(c.hist))
              || (c.failed && myKey == old(myKey) && myRev == old(myRev))
    {
      ghost var m, h := Self(GivingUp), c.hist;
      var ok;
      ghost var pre;
      ok, pre := Unlock(c);
      PathStep(Moves(pfx), Own(i), m0, h0, trace, m, h, Step.GiveUp(i, ok), pre, c.hist);
      trace' := trace + [Stamp(pre, Step.GiveUp(i, ok))];
    }

    /** Deletes whatever key the mutex remembers, and forgets it; if the request fails, as it does before the first
        Lock, nothing changes. This is the step of that name of a member at rest, or of one that gives up. */
    method Unlock(c: Cluster) returns (ok: bool, ghost pre: History)
      requires Valid(c.hist)
      modifies this`myKey, this`myRev, c`hist, c`others, c`failed
      ensures Valid(c.hist) && old(c.hist) <= pre <= c.hist
      ensures Interfered(old(c.hist), old(c.others), pre, c.others)
      ensures old(myKey) == "" ==> !ok
      ensures forall i, phase | AtRest(old(Self(phase))) ::
        (Self(if ok then Resting else phase), c.hist) == MemberStep(pfx, old(Self(phase)), pre, Step.Unlock(i, ok))
      ensures if ok then
                && c.hist == Release(pre, old(myKey)) && old(myKey) !in Current(c.hist)
                && myKey == RELEASED_KEY && myRev == -1 && c.failed == old(c.failed)
              else
                unchanged(this) && c.hist == old(c.hist) && c.failed
    {
      pre := c.hist;
      InterferedReflexive(c.hist, c.others);
      ok := c.Accepts(myKey);
      if !ok {
        return;
      }
      var _, _, h := c.Txn([], [OpDelete(myKey)], []);
      pre := h;
      InterferedExtends(old(c.hist), old(c.others), pre, c.others);
      SingleOp(pre, OpDelete(myKey));
      OneDelete(pre, myKey);
      myKey := RELEASED_KEY;
      myRev := -1;
    }

    /** The comparison that guards a transaction by the lock: it holds exactly while the key is present in the
        incarnation that this mutex locked. */
    method IsOwner() returns (cmp: Cmp)
      ensures forall s :: Holds(s, cmp) <==> (myRev == 0 && myKey !in s) || Live(s, myKey, myRev)
    {
      cmp := CreateEq(myKey, myRev);
    }
  }

  lemma FirstIsLeast(s: Snapshot, pfx: Key, oldest: Option<KV>, key: Key, rev: int)
    requires IsFirstCreated(s, pfx, oldest) && pfx <= key && Live(s, key, rev)
    ensures Least(s, pfx, key) <==> oldest.None? || oldest.value.createRev == rev
    ensures Least(s, pfx, key) ==> Predecessors(s, pfx, rev - 1) == {}
  {
  }

  lemma Absent(h: History, key: Key)
    requires Valid(h)
    ensures AllHold(Current(h), [CreateEq(key, 0)]) == (key !in Current(h))
  {
    if key in Current(h) {
      RevisionBounds(h, Revision(h), key);
    }
    assert AllHold(Current(h), [CreateEq(key, 0)]) == Holds(Current(h), [CreateEq(key, 0)][0]);
  }

  lemma JoinedNew(h: History, key: Key, lease: nat, pfx: Key, resps: seq<GetResp>)
    requires Valid(h) && key !in Current(h)
    requires ResponsesOk(h, [OpPut(key, "", lease), OpFirstCreate(pfx)], resps)
    ensures var h' := Enqueue(h, key, "", lease).0;
            && h' == Save(h, Effects(Work(Current(h), false), |h|, [OpPut(key, "", lease), OpFirstCreate(pfx)]))
            && |h'| == |h| + 1
            && resps[1].rev == Revision(h') && IsFirstCreated(Current(h'), pfx, resps[1].kv)
  {
    TwoOps(h, OpPut(key, "", lease), OpFirstCreate(pfx), resps);
    OnePut(h, key, "", lease);
    EnqueueKeeps(h, key, "", lease);
  }

  lemma JoinedAgain(h: History, key: Key, pfx: Key, resps: seq<GetResp>)
    requires Valid(h) && key in Current(h)
    requires ResponsesOk(h, [OpGet(key, None), OpFirstCreate(pfx)], resps)
    ensures h == Save(h, Effects(Work(Current(h), false), |h|, [OpGet(key, None), OpFirstCreate(pfx)]))
    ensures resps[0].kv == Some(Current(h)[key])
    ensures resps[1].rev == Revision(h) && IsFirstCreated(Current(h), pfx, resps[1].kv)
  {
  }
}
