/** The revisioned key-value store that the concurrency package talks to.

    A store is its whole history: `h[r]` is the snapshot at revision `r`. A write transaction
    appends exactly one snapshot; a transaction that changes nothing appends none. */
module Store {

  datatype Option<+T> = None | Some(value: T)

  type Key = string

  datatype KV = KV(key: Key, value: string, createRev: nat, modRev: nat, lease: nat)

  type Snapshot = map<Key, KV>

  // A new store is at revision 1 and empty.
  const NEW_STORE: seq<Snapshot> := [map[], map[]]

  type History = h: seq<Snapshot> | |h| >= 2 witness NEW_STORE

  function Revision(h: History): nat {
    |h| - 1
  }

  function Current(h: History): Snapshot {
    h[|h| - 1]
  }

  function Lookup(s: Snapshot, k: Key): Option<KV> {
    if k in s then Some(s[k]) else None
  }

  // What a comparison sees: a missing key compares as 0.
  function ModOf(kv: Option<KV>): nat {
    if kv.Some? then kv.value.modRev else 0
  }

  function CreateOf(kv: Option<KV>): nat {
    if kv.Some? then kv.value.createRev else 0
  }

  function ValueOf(kv: Option<KV>): string {
    if kv.Some? then kv.value.value else ""
  }

  // Reading at a past revision, or at the newest one when none is given.
  function AsOf(h: History, rev: Option<nat>): Snapshot {
    if rev.Some? && 0 < rev.value < |h| then h[rev.value] else Current(h)
  }

  // A range response holding at most one key. Its header carries the store's revision when it was served,
  // which for a read at a past revision is later than the revision read.
  datatype GetResp = GetResp(rev: nat, kv: Option<KV>)

  // ---------- Writes ----------

  datatype Write = Put(value: string, lease: nat) | Delete

  // One transaction's writes, at most one for each key.
  type Batch = map<Key, Write>

  predicate Effective(s: Snapshot, b: Batch) {
    exists k | k in b :: b[k].Put? || k in s
  }

  function Written(s: Snapshot, rev: nat, k: Key, w: Write): KV
    requires w.Put?
  {
    KV(k, w.value, if k in s then s[k].createRev else rev, rev, w.lease)
  }

  function Apply(s: Snapshot, rev: nat, b: Batch): Snapshot {
    map k | k in s.Keys + b.Keys && (k in b ==> b[k].Put?) ::
      if k in b then Written(s, rev, k, b[k]) else s[k]
  }

  function Commit(h: History, b: Batch): (h': History) {
    if Effective(Current(h), b) then h + [Apply(Current(h), |h|, b)] else h
  }

  function CommitAll(h: History, bs: seq<Batch>): (h': History)
    decreases |bs|
  {
    if bs == [] then h else CommitAll(Commit(h, bs[0]), bs[1..])
  }

  // Lease expiry or revocation deletes every key attached to the lease, in one revision.
  function Expiry(s: Snapshot, lease: nat): Batch {
    map k | k in s && s[k].lease == lease :: Delete
  }

  // ---------- Histories that some sequence of transactions produces ----------

  ghost predicate Transition(s: Snapshot, s': Snapshot, rev: nat) {
    forall k | k in s' ::
      || (k in s && s'[k] == s[k])
      || (s'[k].key == k && s'[k].modRev == rev && s'[k].createRev == if k in s then s[k].createRev else rev)
  }

  ghost predicate Valid(h: History) {
    && h[0] == map[]
    && forall r | 0 < r < |h| :: Transition(h[r - 1], h[r], r)
  }

  lemma CommitExtends(h: History, b: Batch)
    requires Valid(h)
    ensures Valid(Commit(h, b))
    ensures h <= Commit(h, b)
    ensures |Commit(h, b)| <= |h| + 1
  {
  }

  /** What a transaction does to each key: a put stores the value under the lease and the new revision, keeping the
      create revision of an entry that is there; a delete removes it; nothing else is touched. It takes a revision
      exactly if it puts something or deletes something that is there. */
  lemma CommitMeans(h: History, b: Batch, k: Key)
    ensures var s, h' := h[|h| - 1], Commit(h, b);
            var s' := h'[|h'| - 1];
            && (if exists j :: j in b && (b[j].Put? || j in s) then |h'| == |h| + 1 && h'[..|h|] == h else h' == h)
            && (k !in b ==> (k in s' <==> k in s) && (k in s ==> s'[k] == s[k]))
            && (k in b && b[k].Delete? ==> k !in s')
            && (k in b && b[k].Put? ==>
                  k in s' && s'[k] == KV(k, b[k].value, if k in s then s[k].createRev else |h|, |h|, b[k].lease))
  {
  }

  /** Expiry of a lease removes exactly the keys attached to it. */
  lemma ExpiryMeans(h: History, lease: nat, k: Key)
    ensures var s, h' := h[|h| - 1], Commit(h, Expiry(h[|h| - 1], lease));
            var s' := h'[|h'| - 1];
            && (k in s' <==> k in s && s[k].lease != lease)
            && (k in s' ==> s'[k] == s[k])
  {
    CommitMeans(h, Expiry(h[|h| - 1], lease), k);
  }

  lemma CommitAllExtends(h: History, bs: seq<Batch>)
    requires Valid(h)
    ensures Valid(CommitAll(h, bs))
    ensures h <= CommitAll(h, bs)
    ensures |CommitAll(h, bs)| <= |h| + |bs|
    decreases |bs|
  {
    if bs != [] {
      CommitExtends(h, bs[0]);
      CommitAllExtends(Commit(h, bs[0]), bs[1..]);
    }
  }

  lemma CommitAllConcat(h: History, bs: seq<Batch>, cs: seq<Batch>)
    ensures CommitAll(h, bs + cs) == CommitAll(CommitAll(h, bs), cs)
    decreases |bs|
  {
    if bs == [] {
      assert bs + cs == cs;
    } else {
      assert (bs + cs)[1..] == bs[1..] + cs;
      CommitAllConcat(Commit(h, bs[0]), bs[1..], cs);
    }
  }

  lemma {:induction false} RevisionBounds(h: History, r: nat, k: Key)
    requires Valid(h) && r < |h| && k in h[r]
    ensures h[r][k].key == k
    ensures 1 <= h[r][k].createRev <= h[r][k].modRev <= r
    decreases r
  {
    assert r > 0;
    assert Transition(h[r - 1], h[r], r);
    if k in h[r - 1] {
      RevisionBounds(h, r - 1, k);
    }
  }

  /** A key last modified at or before revision `a` has not changed since `a`. */
  lemma {:induction false} Steady(h: History, a: nat, b: nat, k: Key)
    requires Valid(h) && a <= b < |h|
    requires k in h[b] && h[b][k].modRev <= a
    ensures k in h[a] && h[a][k] == h[b][k]
    decreases b
  {
    if a < b {
      assert Transition(h[b - 1], h[b], b);
      Steady(h, a, b - 1, k);
    }
  }

  /** A modification revision determines a key's whole entry: seeing the same one twice (0 for a missing
      key) means seeing the same entry twice. Optimistic commit guards rest on this. */
  lemma ModRevDetermines(h: History, a: nat, b: nat, k: Key)
    requires Valid(h) && a <= b < |h|
    requires ModOf(Lookup(h[a], k)) == ModOf(Lookup(h[b], k))
    ensures Lookup(h[a], k) == Lookup(h[b], k)
  {
    if k in h[a] {
      RevisionBounds(h, a, k);
    }
    if k in h[b] {
      RevisionBounds(h, b, k);
      Steady(h, a, b, k);
    }
  }

  /** An incarnation of a key is never interrupted: if it existed by revision `a` and exists at `b`, it exists
      with the same create revision at `a`. */
  lemma {:induction false} SameIncarnation(h: History, a: nat, b: nat, k: Key)
    requires Valid(h) && a <= b < |h|
    requires k in h[b] && h[b][k].createRev <= a
    ensures k in h[a] && h[a][k].createRev == h[b][k].createRev
    decreases b
  {
    if a < b {
      assert Transition(h[b - 1], h[b], b);
      SameIncarnation(h, a, b - 1, k);
    }
  }
}
