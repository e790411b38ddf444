/** The round-robin picker over the sub-connections it was built with. */
module RoundRobin {
  import opened Connectivity

  datatype PickError = NoSubConnAvailable | AllInTransientFailure

  datatype PickResult = Picked(sc: SubConn) | Refused(err: PickError)

  predicate NoDuplicates(scs: seq<SubConn>) {
    forall i, j | 0 <= i < j < |scs| :: scs[i] != scs[j]
  }

  // ---------- Consecutive picks ----------

  function After(n: nat, next: nat): nat
    requires next < n
  {
    if next + 1 == n then 0 else next + 1
  }

  // The picks of m consecutive calls that start at position `next`.
  function Picks(scs: seq<SubConn>, next: nat, m: nat): seq<SubConn>
    requires next < |scs|
    decreases m
  {
    if m == 0 then [] else [scs[next]] + Picks(scs, After(|scs|, next), m - 1)
  }

  function Occurrences(s: seq<SubConn>, sc: SubConn): nat {
    if s == [] then 0 else (if s[0] == sc then 1 else 0) + Occurrences(s[1..], sc)
  }

  // How far position `j` is ahead of position `next` in picking order.
  function Distance(n: nat, next: nat, j: nat): nat
    requires next < n && j < n
  {
    if next <= j then j - next else j - next + n
  }

  /** Exactly how often each sub-connection comes up: once in every full turn, and once more if it is reached in
      what is left. */
  lemma {:induction false} ExactShare(scs: seq<SubConn>, next: nat, m: nat, j: nat)
    requires NoDuplicates(scs) && next < |scs| && j < |scs|
    ensures Occurrences(Picks(scs, next, m), scs[j]) == (m + |scs| - 1 - Distance(|scs|, next, j)) / |scs|
    decreases m
  {
    var n, d := |scs|, Distance(|scs|, next, j);
    if m == 0 {
      DivUnique(n - 1 - d, n, 0);
    } else {
      ExactShare(scs, After(n, next), m - 1, j);
      assert Picks(scs, next, m)[1..] == Picks(scs, After(n, next), m - 1);
      if d == 0 {
        TurnMore(m - 1, n);
        assert m - 1 + n - 1 - Distance(n, After(n, next), j) == m - 1;
      } else {
        assert scs[j] != scs[next];
        assert m - 1 + n - 1 - Distance(n, After(n, next), j) == m + n - 1 - d;
      }
    }
  }

  lemma TurnMore(m: nat, n: nat)
    requires n > 0
    ensures (m + n) / n == m / n + 1
  {
    var q := m / n;
    assert n * (q + 1) == n * q + n && n * (q + 2) == n * q + n + n;
    DivUnique(m + n, n, q + 1);
  }

  lemma DivUnique(a: nat, n: nat, q: nat)
    requires n > 0 && n * q <= a < n * (q + 1)
    ensures a / n == q
  {
    var p := a / n;
    assert n * p <= a < n * p + n == n * (p + 1);
    if p < q {
      MulMonotone(n, p + 1, q);
    } else if q < p {
      MulMonotone(n, q + 1, p);
    }
  }

  lemma {:induction false} MulMonotone(n: nat, p: nat, q: nat)
    requires p <= q
    ensures n * p <= n * q
    decreases q
  {
  }

  /** Fairness: over any m consecutive picks every sub-connection is picked m/n times, rounded down or up. */
  lemma Fairness(scs: seq<SubConn>, next: nat, m: nat, j: nat)
    requires NoDuplicates(scs) && next < |scs| && j < |scs|
    ensures m / |scs| <= Occurrences(Picks(scs, next, m), scs[j]) <= (m + |scs| - 1) / |scs|
  {
    var n, d := |scs|, Distance(|scs|, next, j);
    ExactShare(scs, next, m, j);
    DivMonotone(m, m + n - 1 - d, n);
    DivMonotone(m + n - 1 - d, m + n - 1, n);
  }

  lemma DivMonotone(a: nat, b: nat, n: nat)
    requires n > 0 && a <= b
    ensures a / n <= b / n
  {
    var p, q := a / n, b / n;
    assert n * p <= a && b < n * q + n == n * (q + 1);
    if q + 1 <= p {
      MulMonotone(n, q + 1, p);
    }
  }

  /** Any n consecutive picks are a permutation: each of the n sub-connections exactly once. */
  lemma FullTurn(scs: seq<SubConn>, next: nat, j: nat)
    requires NoDuplicates(scs) && next < |scs| && j < |scs|
    ensures |Picks(scs, next, |scs|)| == |scs| && Occurrences(Picks(scs, next, |scs|), scs[j]) == 1
  {
    var n, d := |scs|, Distance(|scs|, next, j);
    ExactShare(scs, next, n, j);
    PickCount(scs, next, n);
    DivUnique(n + n - 1 - d, n, 1);
  }

  lemma {:induction false} PickCount(scs: seq<SubConn>, next: nat, m: nat)
    requires next < |scs|
    ensures |Picks(scs, next, m)| == m
    decreases m
  {
    if m > 0 {
      PickCount(scs, After(|scs|, next), m - 1);
    }
  }

  lemma ModUnique(a: nat, n: nat, q: nat, r: nat)
    requires r < n && a == n * q + r
    ensures a % n == r
  {
    assert n * (q + 1) == n * q + n;
    DivUnique(a, n, q);
  }

  lemma AfterTurns(n: nat, a: nat)
    requires n > 0
    ensures After(n, a % n) == (a + 1) % n
  {
    var q, r := a / n, a % n;
    if r + 1 == n {
      assert n * (q + 1) == n * q + n;
      ModUnique(a + 1, n, q + 1, 0);
    } else {
      ModUnique(a + 1, n, q, r + 1);
    }
  }

  /** Pick number `j` is `j` places further on, round the end. */
  lemma {:induction false} PickAt(scs: seq<SubConn>, next: nat, m: nat, j: nat)
    requires next < |scs| && j < m
    ensures |Picks(scs, next, m)| == m && Picks(scs, next, m)[j] == scs[(next + j) % |scs|]
    decreases m
  {
    PickCount(scs, next, m);
    ModUnique(next, |scs|, 0, next);
    PickFrom(scs, next, m, j);
  }

  // The picks that start where a number leads, round the end.
  lemma {:induction false} PickFrom(scs: seq<SubConn>, a: nat, m: nat, j: nat)
    requires scs != [] && j < m
    ensures |Picks(scs, a % |scs|, m)| == m && Picks(scs, a % |scs|, m)[j] == scs[(a + j) % |scs|]
    decreases m
  {
    PickCount(scs, a % |scs|, m);
    if j > 0 {
      AfterTurns(|scs|, a);
      PickFrom(scs, a + 1, m - 1, j - 1);
      assert a + 1 + (j - 1) == a + j;
    }
  }

  class RoundRobinPicker {
    const scs: seq<SubConn>
    var next: nat

    ghost predicate Valid()
      reads this
    {
      NoDuplicates(scs) && (scs == [] || next < |scs|)
    }

    /** Holds every given sub-connection once, in some order, and starts at the first. */
    constructor (ready: set<SubConn>)
      ensures Valid() && next == 0
      ensures forall sc :: sc in scs <==> sc in ready
    {
      var list: seq<SubConn> := [];
      var todo := ready;
      while todo != {}
        invariant todo <= ready
        invariant NoDuplicates(list)
        invariant forall sc :: sc in list <==> sc in ready && sc !in todo
      {
        var sc :| sc in todo;
        todo := todo - {sc};
        list := list + [sc];
      }
      scs := list;
      next := 0;
    }

    /** Picks the next sub-connection, or none if there are none; m calls in a row make Picks(scs, next, m). */
    method Pick() returns (result: PickResult)
      requires Valid()
      modifies this
      ensures Valid()
      ensures result == if scs == [] then Refused(NoSubConnAvailable) else Picked(scs[old(next)])
      ensures next == if scs == [] then old(next) else After(|scs|, old(next))
      ensures scs != [] ==> forall m: nat :: Picks(scs, old(next), m + 1) == [scs[old(next)]] + Picks(scs, next, m)
    {
      if |scs| == 0 {
        return Refused(NoSubConnAvailable);
      }
      var cur := next;
      result := Picked(scs[cur]);
      next := (next + 1) % |scs|;
      assert next == After(|scs|, cur);
    }
  }
}
