/** The waiting line that the mutex and the election keep under a key prefix: one key for each session,
    ordered by create revision. */
module Queue {
  import opened Store

  // ---------- Keys ----------

  const HEX_DIGITS := "0123456789abcdef"

  function Hex(n: nat): string {
    if n < 16 then [HEX_DIGITS[n]] else Hex(n / 16) + [HEX_DIGITS[n % 16]]
  }

  lemma HexNonEmpty(n: nat)
    ensures |Hex(n)| > 0
  {
  }

  // What NewMutex and NewElection make of a name ends in a slash.
  type Prefix = k: Key | k != "" witness "/"

  function Pfx(name: Key): Prefix {
    name + "/"
  }

  // The key of a session under a prefix.
  function KeyOf(pfx: Key, lease: nat): Key {
    pfx + Hex(lease)
  }

  // ---------- Reading a key back ----------

  predicate IsHexDigit(c: char) {
    '0' <= c <= '9' || 'a' <= c <= 'f'
  }

  function DigitValue(c: char): nat
    requires IsHexDigit(c)
  {
    if c <= '9' then c as int - '0' as int else c as int - 'a' as int + 10
  }

  predicate IsHex(s: string) {
    s != "" && forall i | 0 <= i < |s| :: IsHexDigit(s[i])
  }

  // A text of base-16 digits, as a number.
  function HexValue(s: string): nat
    requires forall i | 0 <= i < |s| :: IsHexDigit(s[i])
  {
    if s == "" then 0 else 16 * HexValue(s[..|s| - 1]) + DigitValue(s[|s| - 1])
  }

  /** Hexadecimal, lower case, without leading zeros. */
  lemma {:induction false} HexReadsBack(n: nat)
    ensures IsHex(Hex(n)) && HexValue(Hex(n)) == n
    ensures n > 0 ==> Hex(n)[0] != '0'
    ensures n == 0 ==> Hex(n) == "0"
    decreases n
  {
    assert forall d | 0 <= d < 16 :: IsHexDigit(HEX_DIGITS[d]) && DigitValue(HEX_DIGITS[d]) == d;
    if n < 16 {
      assert Hex(n)[..0] == "";
      assert HexValue(Hex(n)) == 16 * HexValue("") + DigitValue(Hex(n)[0]);
    } else {
      HexReadsBack(n / 16);
      assert Hex(n)[..|Hex(n)| - 1] == Hex(n / 16);
    }
  }

  /** A session's key: the name, a slash, and its lease in hexadecimal. */
  lemma KeyReadsBack(name: Key, lease: nat)
    ensures var key := KeyOf(Pfx(name), lease); var n := |name|;
            && n + 1 < |key| && key[..n] == name && key[n] == '/'
            && IsHex(key[n + 1..]) && HexValue(key[n + 1..]) == lease
            && (lease > 0 ==> key[n + 1] != '0') && (lease == 0 ==> key[n + 1..] == "0")
  {
    HexReadsBack(lease);
    assert KeyOf(Pfx(name), lease)[|name| + 1..] == Hex(lease);
  }

  lemma KeyOfInjective(pfx: Key, a: nat, b: nat)
    requires KeyOf(pfx, a) == KeyOf(pfx, b)
    ensures a == b
  {
    assert Hex(a) == KeyOf(pfx, a)[|pfx|..] && Hex(b) == KeyOf(pfx, b)[|pfx|..];
    HexReadsBack(a);
    HexReadsBack(b);
  }

  lemma DifferentKeys(pfx: Key, a: nat, b: nat)
    requires a != b
    ensures KeyOf(pfx, a) != KeyOf(pfx, b)
  {
    if KeyOf(pfx, a) == KeyOf(pfx, b) {
      KeyOfInjective(pfx, a, b);
    }
  }

  // ---------- Order ----------

  // The key is present in the incarnation created at `rev`.
  predicate Live(s: Snapshot, k: Key, rev: int) {
    k in s && s[k].createRev == rev
  }

  predicate Least(s: Snapshot, pfx: Key, k: Key) {
    && k in s && pfx <= k
    && forall j | j in s && pfx <= j :: s[k].createRev <= s[j].createRev
  }

  predicate DistinctCreates(s: Snapshot, pfx: Key) {
    forall j, k | j in s && k in s && pfx <= j && pfx <= k && s[j].createRev == s[k].createRev :: j == k
  }

  function Predecessors(s: Snapshot, pfx: Key, max: int): set<Key> {
    set k | k in s && pfx <= k && s[k].createRev <= max
  }

  // A transaction that stores at most one key under the prefix, as every client of the line does.
  predicate Orderly(pfx: Key, b: Batch) {
    forall j, k | j in b && k in b && pfx <= j && pfx <= k && b[j].Put? && b[k].Put? :: j == k
  }

  /** Whoever is first in the line stays first for as long as its key lives: others' stores keep create
      revisions, and new keys get larger ones. */
  lemma LeastStays(h: History, a: nat, b: nat, pfx: Key, k: Key)
    requires Valid(h) && a <= b < |h|
    requires Least(h[a], pfx, k) && Live(h[b], k, h[a][k].createRev)
    ensures Least(h[b], pfx, k)
  {
    RevisionBounds(h, a, k);
    forall j | j in h[b] && pfx <= j
      ensures h[b][k].createRev <= h[b][j].createRev
    {
      if h[b][j].createRev <= a {
        SameIncarnation(h, a, b, j);
      }
    }
  }

  /** The keys created no later than `max` only ever leave. */
  lemma PredecessorsOnlyLeave(h: History, a: nat, b: nat, pfx: Key, max: int)
    requires Valid(h) && a <= b < |h| && max <= a
    ensures Predecessors(h[b], pfx, max) <= Predecessors(h[a], pfx, max)
  {
    forall k | k in Predecessors(h[b], pfx, max)
      ensures k in Predecessors(h[a], pfx, max)
    {
      SameIncarnation(h, a, b, k);
    }
  }

  // Once nobody older is left, a key still in the incarnation it had then is first.
  lemma NoPredecessorsIsLeast(h: History, a: nat, b: nat, pfx: Key, k: Key, rev: nat)
    requires Valid(h) && rev <= a <= b < |h| && pfx <= k
    requires Predecessors(h[a], pfx, rev - 1) == {}
    requires Live(h[b], k, rev)
    ensures Least(h[b], pfx, k)
  {
    SameIncarnation(h, a, b, k);
    forall j | j in h[a] && pfx <= j
      ensures rev <= h[a][j].createRev
    {
      assert j !in Predecessors(h[a], pfx, rev - 1);
    }
    LeastStays(h, a, b, pfx, k);
  }

  lemma DistinctCreatesKept(h: History, pfx: Key, b: Batch)
    requires Valid(h) && DistinctCreates(Current(h), pfx) && Orderly(pfx, b)
    ensures DistinctCreates(Current(Commit(h, b)), pfx)
  {
    forall k | k in Current(h)
      ensures Current(h)[k].createRev < |h|
    {
      RevisionBounds(h, Revision(h), k);
    }
  }

  /** There is at most one first in line. */
  lemma OneLeast(s: Snapshot, pfx: Key, j: Key, k: Key)
    requires DistinctCreates(s, pfx) && Least(s, pfx, j) && Least(s, pfx, k)
    ensures j == k
  {
  }

  // A key that is first at one time and one that is first later.
  lemma FirstsInOrder(h: History, a: nat, b: nat, pfx: Key, j: Key, k: Key)
    requires Valid(h) && a <= b < |h| && DistinctCreates(h[a], pfx)
    requires Least(h[a], pfx, j) && Least(h[b], pfx, k)
    ensures h[a][j].createRev <= h[b][k].createRev
    ensures h[a][j].createRev == h[b][k].createRev ==> j == k
  {
    RevisionBounds(h, a, j);
    if h[b][k].createRev <= a {
      SameIncarnation(h, a, b, k);
    }
  }
}
