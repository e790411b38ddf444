/** Connection states, and the recorder that aggregates them with wrapping 64-bit counters. */
module Connectivity {

  datatype State = Idle | Connecting | Ready | TransientFailure | Shutdown

  const TWO_64: nat := 0x1_0000_0000_0000_0000

  type Uint64 = n: nat | n < TWO_64

  // A sub-connection handle: any 64-bit machine address but nil.
  type SubConn = n: nat | 0 < n < TWO_64 witness 1

  function Wrap(n: int): Uint64 {
    n % 0x1_0000_0000_0000_0000
  }

  function Counted(s: State, as_: State): nat {
    if s == as_ then 1 else 0
  }

  // ---------- Recounting from scratch ----------

  ghost function In(m: map<SubConn, State>, s: State): set<SubConn> {
    set sc | sc in m && m[sc] == s
  }

  ghost function Count(m: map<SubConn, State>, s: State): nat {
    |In(m, s)|
  }

  // Ready if anything is ready, else Connecting if anything is connecting, else TransientFailure.
  ghost function Aggregate(m: map<SubConn, State>): State {
    if exists sc :: sc in m && m[sc] == Ready then Ready
    else if exists sc :: sc in m && m[sc] == Connecting then Connecting
    else TransientFailure
  }

  // The state is Ready exactly if some sub-connection is ready, Connecting exactly if none is ready and some is
  // connecting, and TransientFailure exactly if neither.
  ghost predicate Summarizes(cur: State, m: map<SubConn, State>) {
    && (cur == Ready <==> exists sc :: sc in m && m[sc] == Ready)
    && (cur == Connecting <==> (forall sc | sc in m :: m[sc] != Ready) && exists sc :: sc in m && m[sc] == Connecting)
    && (cur == TransientFailure <==> forall sc | sc in m :: m[sc] != Ready && m[sc] != Connecting)
  }

  lemma {:induction false} FewHandles(s: set<nat>, n: nat)
    requires forall k | k in s :: 0 < k < n
    ensures n > 0 ==> |s| < n
    ensures n == 0 ==> s == {}
    decreases n
  {
    if n > 1 {
      FewHandles(s - {n - 1}, n - 1);
    } else {
      assert forall k :: k !in s;
    }
  }

  /** The wrapping counters never lose information: there are fewer handles than 64-bit numbers. */
  lemma CountFits(m: map<SubConn, State>, s: State)
    ensures Count(m, s) < TWO_64 && Wrap(Count(m, s)) == Count(m, s)
    ensures Count(m, s) > 0 <==> exists sc :: sc in m && m[sc] == s
  {
    var handles: set<nat> := set sc: SubConn | sc in In(m, s) :: sc as nat;
    assert handles == In(m, s);
    FewHandles(handles, TWO_64);
    if exists sc :: sc in m && m[sc] == s {
      var sc :| sc in m && m[sc] == s;
      assert sc in In(m, s);
    }
    if Count(m, s) > 0 {
      var sc :| sc in In(m, s);
    }
  }

  /** A handle entering in a state adds it to that state's count. */
  lemma CountAdded(m: map<SubConn, State>, sc: SubConn, s: State, t: State)
    requires sc !in m
    ensures Count(m[sc := s], t) == Count(m, t) + Counted(s, t)
  {
    assert In(m[sc := s], t) == if s == t then In(m, t) + {sc} else In(m, t);
  }

  // A new idle handle matters to no counter and not to the aggregate.
  lemma IdleAdded(m: map<SubConn, State>, sc: SubConn)
    requires sc !in m
    ensures forall t | t in {Ready, Connecting, TransientFailure} :: In(m[sc := Idle], t) == In(m, t)
    ensures Aggregate(m[sc := Idle]) == Aggregate(m)
  {
    var m' := m[sc := Idle];
    assert forall c | c in m' :: m'[c] != Idle ==> c in m && m[c] == m'[c];
    assert forall c | c in m :: c in m' && m'[c] == m[c];
  }

  /** A handle leaving takes its state out of the count. */
  lemma CountRemoved(m: map<SubConn, State>, sc: SubConn, t: State)
    requires sc in m
    ensures Count(m - {sc}, t) == Count(m, t) - Counted(m[sc], t)
  {
    assert In(m - {sc}, t) == In(m, t) - {sc};
  }

  lemma CountMoved(m: map<SubConn, State>, sc: SubConn, s: State, t: State)
    requires sc in m
    ensures Count(m[sc := s], t) == Count(m, t) - Counted(m[sc], t) + Counted(s, t)
  {
    CountRemoved(m, sc, t);
    CountAdded(m - {sc}, sc, s, t);
    assert (m - {sc})[sc := s] == m[sc := s];
  }

  class Recorder {
    var cur: State
    var numReady: Uint64
    var numConnecting: Uint64
    var numTransientFailure: Uint64

    constructor ()
      ensures cur == Idle && numReady == 0 && numConnecting == 0 && numTransientFailure == 0
    {
      cur, numReady, numConnecting, numTransientFailure := Idle, 0, 0, 0;
    }

    // The counters are the recounts over the states.
    ghost predicate Counts(m: map<SubConn, State>)
      reads this
    {
      && numReady == Count(m, Ready) && numConnecting == Count(m, Connecting)
      && numTransientFailure == Count(m, TransientFailure)
    }

    method Bump(state: State, updateVal: Uint64)
      modifies this`numReady, this`numConnecting, this`numTransientFailure
      ensures numReady == if state.Ready? then Wrap(old(numReady) + updateVal) else old(numReady)
      ensures numConnecting == if state.Connecting? then Wrap(old(numConnecting) + updateVal) else old(numConnecting)
      ensures numTransientFailure
           == if state.TransientFailure? then Wrap(old(numTransientFailure) + updateVal) else old(numTransientFailure)
    {
      match state
      case Ready => numReady := Wrap(numReady + updateVal);
      case Connecting => numConnecting := Wrap(numConnecting + updateVal);
      case TransientFailure => numTransientFailure := Wrap(numTransientFailure + updateVal);
      case _ =>
    }

    /** One sub-connection went from the old state to the new one: given counters that were right before, they
        are right for any states that differ by that transition, and the current state is the aggregate. */
    method RecordTransition(oldState: State, newState: State)
      modifies this
      ensures numReady == Wrap(old(numReady) - Counted(oldState, Ready) + Counted(newState, Ready))
      ensures numConnecting == Wrap(old(numConnecting) - Counted(oldState, Connecting) + Counted(newState, Connecting))
      ensures numTransientFailure
           == Wrap(old(numTransientFailure) - Counted(oldState, TransientFailure) + Counted(newState, TransientFailure))
      ensures forall m | Counts(m) :: cur == Aggregate(m) && Summarizes(cur, m)
    {
      var states := [oldState, newState];
      for idx := 0 to |states|
        invariant numReady == Tally(old(numReady), states, idx, Ready)
        invariant numConnecting == Tally(old(numConnecting), states, idx, Connecting)
        invariant numTransientFailure == Tally(old(numTransientFailure), states, idx, TransientFailure)
      {
        Bump(states[idx], Wrap(2 * idx - 1));
      }
      TallyOfTwo(old(numReady), oldState, newState, Ready);
      TallyOfTwo(old(numConnecting), oldState, newState, Connecting);
      TallyOfTwo(old(numTransientFailure), oldState, newState, TransientFailure);
      Summarize();
    }

    method Summarize()
      modifies this`cur
      ensures forall m | Counts(m) :: cur == Aggregate(m) && Summarizes(cur, m)
    {
      if numReady > 0 {
        cur := Ready;
      } else if numConnecting > 0 {
        cur := Connecting;
      } else {
        cur := TransientFailure;
      }
      forall m | Counts(m)
        ensures cur == Aggregate(m) && Summarizes(cur, m)
      {
        CountFits(m, Ready);
        CountFits(m, Connecting);
      }
    }
  }

  // A counter after the first `idx` states, each adding 2*idx-1 in 64-bit arithmetic.
  function Tally(n: Uint64, states: seq<State>, idx: nat, s: State): Uint64
    requires idx <= |states|
  {
    if idx == 0 then n
    else if states[idx - 1] == s then Wrap(Tally(n, states, idx - 1, s) + Wrap(2 * (idx - 1) - 1))
    else Tally(n, states, idx - 1, s)
  }

  lemma TallyOfTwo(n: Uint64, from: State, to: State, s: State)
    ensures Tally(n, [from, to], 2, s) == Wrap(n - Counted(from, s) + Counted(to, s))
  {
    TallyOfOne(n, from, to, s);
    if to == s {
      WrapSum(n - Counted(from, s), 1);
    }
  }

  lemma TallyOfOne(n: Uint64, from: State, to: State, s: State)
    ensures Tally(n, [from, to], 1, s) == Wrap(n - Counted(from, s))
  {
    assert Tally(n, [from, to], 0, s) == n == Wrap(n);
    if from == s {
      WrapSum(n, -1);
    }
  }

  lemma WrapSum(a: int, b: int)
    ensures Wrap(Wrap(a) + Wrap(b)) == Wrap(a + b)
  {
  }

  /** What a report does to the states changes each recount by the transition, and taking that difference with
      wrapping arithmetic lands exactly on the new recount: no underflow is ever visible. */
  lemma TransitionCounts(m: map<SubConn, State>, sc: SubConn, s: State, t: State)
    requires sc in m && t in {Ready, Connecting, TransientFailure}
    ensures var m' := if s.Shutdown? then m - {sc} else m[sc := s];
            Wrap(Count(m, t) - Counted(m[sc], t) + Counted(s, t)) == Count(m', t)
  {
    var m' := if s.Shutdown? then m - {sc} else m[sc := s];
    CountRemoved(m, sc, t);
    CountMoved(m, sc, s, t);
    CountFits(m', t);
  }
}
