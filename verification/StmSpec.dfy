/** What one call on a software transaction does, as functions of the transaction's fields and the
    store's history. The class in module Stm is proved to do exactly this. */
module StmSpec {
  import opened Store

  datatype Isolation = SerializableSnapshot | Serializable | RepeatableReads | ReadCommitted

  datatype StmPut = StmPut(val: string, op: Write)

  type ReadSet = map<Key, GetResp>
  type WriteSet = map<Key, StmPut>

  // The fields of a transaction; `getRev` is the revision option passed to its gets.
  datatype Tx = Tx(iso: Isolation, rset: ReadSet, wset: WriteSet, getRev: Option<nat>, prefetch: ReadSet)

  const MAX_INT64: int := 0x7fff_ffff_ffff_ffff

  // The two levels implemented by stmSerializable; the other two are plain stm.
  predicate FixesSnapshot(iso: Isolation) {
    iso.SerializableSnapshot? || iso.Serializable?
  }

  function NewTx(iso: Isolation): Tx {
    Tx(iso, map[], map[], None, map[])
  }

  function Reset(tx: Tx): Tx {
    tx.(rset := map[], wset := map[])
  }

  // ---------- Reading ----------

  function FirstIn<V>(m: map<Key, V>, keys: seq<Key>): Option<V> {
    if keys == [] then None
    else if keys[0] in m then Some(m[keys[0]])
    else FirstIn(m, keys[1..])
  }

  function Serve(h: History, rev: Option<nat>, k: Key): GetResp {
    GetResp(Revision(h), Lookup(AsOf(h, rev), k))
  }

  function Served(h: History, rev: Option<nat>, keys: seq<Key>): ReadSet {
    map k | k in keys :: Serve(h, rev, k)
  }

  function Fetch(tx: Tx, h: History, keys: seq<Key>): (Tx, Option<GetResp>) {
    if keys == [] then (tx, None)
    else match FirstIn(tx.rset, keys)
      case Some(resp) => (tx, Some(resp))
      case None =>
        (tx.(rset := tx.rset + Served(h, tx.getRev, keys)), Some(Serve(h, tx.getRev, keys[0])))
  }

  function RespToValue(resp: Option<GetResp>): string {
    if resp.Some? then ValueOf(resp.value.kv) else ""
  }

  // Prefetched responses for the keys move into the read set.
  function UsePrefetch(tx: Tx, keys: seq<Key>): Tx {
    tx.(rset := tx.rset + (map k | k in keys && k in tx.prefetch :: tx.prefetch[k]),
        prefetch := map k | k in tx.prefetch && k !in keys :: tx.prefetch[k])
  }

  // A Get of no keys as the first read of an stmSerializable dereferences a nil response.
  predicate CanGet(tx: Tx, keys: seq<Key>) {
    keys == [] && FixesSnapshot(tx.iso) ==> tx.rset != map[]
  }

  function GetTx(tx: Tx, h: History, keys: seq<Key>): (Tx, string)
    requires CanGet(tx, keys)
  {
    match FirstIn(tx.wset, keys)
    case Some(w) => (tx, w.val)
    case None =>
      if !FixesSnapshot(tx.iso) then
        var (tx1, resp) := Fetch(tx, h, keys);
        (tx1, RespToValue(resp))
      else
        var (tx2, resp) := Fetch(UsePrefetch(tx, keys), h, keys);
        (if tx.rset == map[] then tx2.(getRev := Some(resp.value.rev)) else tx2, RespToValue(resp))
  }

  function RevTx(tx: Tx, h: History, key: Key): (Tx, nat) {
    var tx1 := if FixesSnapshot(tx.iso) then GetTx(tx, h, [key]).0 else tx;
    var (tx2, resp) := Fetch(tx1, h, [key]);
    (tx2, ModOf(resp.value.kv))
  }

  // ---------- Writing ----------

  function PutTx(tx: Tx, key: Key, val: string, lease: nat): Tx {
    tx.(wset := tx.wset[key := StmPut(val, Put(val, lease))])
  }

  function DelTx(tx: Tx, key: Key): Tx {
    tx.(wset := tx.wset[key := StmPut("", Delete)])
  }

  // ---------- Committing ----------

  predicate ReadsCurrent(tx: Tx, s: Snapshot) {
    forall k | k in tx.rset :: ModOf(Lookup(s, k)) == ModOf(tx.rset[k].kv)
  }

  // Every written key was last modified no later than the earliest response in the read set.
  predicate WritesFresh(tx: Tx, s: Snapshot) {
    forall k | k in tx.wset ::
      && ModOf(Lookup(s, k)) < MAX_INT64
      && forall j | j in tx.rset :: ModOf(Lookup(s, k)) <= tx.rset[j].rev
  }

  predicate NoConflict(tx: Tx, s: Snapshot) {
    match tx.iso
    case SerializableSnapshot => ReadsCurrent(tx, s) && WritesFresh(tx, s)
    case Serializable => ReadsCurrent(tx, s)
    case RepeatableReads => ReadsCurrent(tx, s)
    case ReadCommitted => true
  }

  function Pending(ws: WriteSet): Batch {
    map k | k in ws :: ws[k].op
  }

  function Reread(h: History, rs: ReadSet): ReadSet {
    map k | k in rs :: Serve(h, None, k)
  }

  datatype CommitResult = CommitResult(tx: Tx, h: History, committed: bool)

  function CommitTx(tx: Tx, h: History): CommitResult {
    if NoConflict(tx, Current(h)) then
      CommitResult(tx, Commit(h, Pending(tx.wset)), true)
    else if FixesSnapshot(tx.iso) then
      CommitResult(tx.(rset := Reread(h, tx.rset), prefetch := Reread(h, tx.rset), getRev := None), h, false)
    else
      CommitResult(tx, h, false)
  }

  // ---------- What each call keeps ----------

  // A response still waiting in the prefetch never belongs to a key whose cached read is visible.
  // A plain stm uses neither the prefetch nor the revision option.
  predicate Tidy(tx: Tx) {
    && (forall k | k in tx.rset && k in tx.prefetch :: k in tx.wset)
    && (!FixesSnapshot(tx.iso) ==> tx.prefetch == map[] && tx.getRev == None)
  }

  predicate Grows(rs: ReadSet, rs': ReadSet) {
    forall k | k in rs :: k in rs' && rs'[k] == rs[k]
  }

  lemma FirstInFinds<V>(m: map<Key, V>, keys: seq<Key>)
    ensures FirstIn(m, keys).None? <==> forall k | k in keys :: k !in m
    ensures FirstIn(m, keys).Some? ==> exists k :: k in keys && k in m && FirstIn(m, keys) == Some(m[k])
    ensures keys != [] && keys[0] in m ==> FirstIn(m, keys) == Some(m[keys[0]])
  {
  }

  /** Repeatable reads: no Get forgets or changes an entry of the read set, at any isolation level. */
  lemma GetKeepsReads(tx: Tx, h: History, keys: seq<Key>)
    requires CanGet(tx, keys) && Tidy(tx)
    ensures var tx' := GetTx(tx, h, keys).0;
            && Tidy(tx') && Grows(tx.rset, tx'.rset)
            && tx'.wset == tx.wset && tx'.iso == tx.iso
  {
    FirstInFinds(tx.wset, keys);
    FirstInFinds(UsePrefetch(tx, keys).rset, keys);
    FirstInFinds(tx.rset, keys);
  }

  lemma RevKeepsReads(tx: Tx, h: History, key: Key)
    requires Tidy(tx)
    ensures var tx' := RevTx(tx, h, key).0;
            && Tidy(tx') && Grows(tx.rset, tx'.rset)
            && tx'.wset == tx.wset && tx'.iso == tx.iso && key in tx'.rset
            && RevTx(tx, h, key).1 == match tx'.rset[key].kv case Some(kv) => kv.modRev case None => 0
  {
    GetKeepsReads(tx, h, [key]);
    var tx1 := if FixesSnapshot(tx.iso) then GetTx(tx, h, [key]).0 else tx;
    FirstInFinds(tx1.rset, [key]);
    FirstInFinds(tx1.wset, [key]);
    FirstInFinds(UsePrefetch(tx, [key]).rset, [key]);
  }

  /** A single-key Get returns the transaction's own last write of the key, or else what its read set holds
      afterwards. */
  lemma GetAnswers(tx: Tx, h: History, key: Key)
    requires Tidy(tx)
    ensures var (tx', v) := GetTx(tx, h, [key]);
            && (key in tx.wset ==> tx' == tx && v == tx.wset[key].val)
            && (key !in tx.wset ==> key in tx'.rset && (key in tx.rset ==> tx'.rset[key] == tx.rset[key]))
            && (key !in tx.wset ==> v == match tx'.rset[key].kv case Some(kv) => kv.value case None => "")
  {
    FirstInFinds(tx.wset, [key]);
    FirstInFinds(tx.rset, [key]);
    FirstInFinds(UsePrefetch(tx, [key]).rset, [key]);
  }

  /** The first Get of a transaction, at every level, answers the key's present value, or "" if the key is missing;
      the first Rev answers its modification revision, or 0. */
  lemma FirstReadAnswers(iso: Isolation, h: History, key: Key)
    ensures GetTx(NewTx(iso), h, [key]).1 == if key in h[|h| - 1] then h[|h| - 1][key].value else ""
    ensures RevTx(NewTx(iso), h, key).1 == if key in h[|h| - 1] then h[|h| - 1][key].modRev else 0
  {
    GetAnswers(NewTx(iso), h, key);
    FirstInFinds(GetTx(NewTx(iso), h, [key]).0.rset, [key]);
    RevKeepsReads(NewTx(iso), h, key);
  }

  /** A Get of a key that the transaction neither holds nor has written answers the store's entry, now or at the
      revision the snapshot is fixed to, and keeps it with the header's revision. At the two stmSerializable levels,
      and only there, the first read fixes the snapshot. */
  lemma FreshRead(tx: Tx, h: History, key: Key)
    requires key !in tx.rset && key !in tx.wset && key !in tx.prefetch
    ensures var s := if tx.getRev.Some? && 0 < tx.getRev.value < |h| then h[tx.getRev.value] else h[|h| - 1];
            var resp := GetResp(|h| - 1, if key in s then Some(s[key]) else None);
            var fixes := (tx.iso == SerializableSnapshot || tx.iso == Serializable) && tx.rset == map[];
            var (tx', v) := GetTx(tx, h, [key]);
            && v == (if key in s then s[key].value else "")
            && tx' == tx.(rset := tx.rset[key := resp], getRev := if fixes then Some(|h| - 1) else tx.getRev)
  {
    FirstInFinds(tx.wset, [key]);
    FetchMisses(tx, h, key);
    assert UsePrefetch(tx, [key]) == tx;
  }

  lemma FetchMisses(tx: Tx, h: History, key: Key)
    requires key !in tx.rset
    ensures var resp := Serve(h, tx.getRev, key);
            Fetch(tx, h, [key]) == (tx.(rset := tx.rset[key := resp]), Some(resp))
  {
    FirstInFinds(tx.rset, [key]);
    assert Served(h, tx.getRev, [key]) == map[key := Serve(h, tx.getRev, key)];
    assert tx.rset + Served(h, tx.getRev, [key]) == tx.rset[key := Serve(h, tx.getRev, key)];
  }

  /** Read your writes: a Get of a key just put answers what was put, of a key just deleted "". */
  lemma OwnWriteAnswers(tx: Tx, h: History, key: Key, val: string, lease: nat)
    ensures GetTx(PutTx(tx, key, val, lease), h, [key]).1 == val
    ensures GetTx(DelTx(tx, key), h, [key]).1 == ""
  {
    FirstInFinds(PutTx(tx, key, val, lease).wset, [key]);
    FirstInFinds(DelTx(tx, key).wset, [key]);
  }

  // ---------- Where the cached responses come from ----------

  // The response was served at revision resp.rev, from the snapshot of some revision no earlier than `base`.
  ghost predicate Genuine(h: History, base: nat, k: Key, resp: GetResp) {
    && base <= resp.rev < |h|
    && exists a :: base <= a <= resp.rev && resp.kv == Lookup(h[a], k)
  }

  ghost predicate AllGenuine(h: History, base: nat, rs: ReadSet) {
    forall k | k in rs :: Genuine(h, base, k, rs[k])
  }

  ghost predicate Sourced(h: History, base: nat, tx: Tx) {
    && 0 < base < |h|
    && AllGenuine(h, base, tx.rset)
    && AllGenuine(h, base, tx.prefetch)
    && (tx.getRev.Some? ==> base <= tx.getRev.value < |h|)
  }

  lemma ServeGenuine(h: History, base: nat, rev: Option<nat>, k: Key)
    requires 0 < base < |h| && (rev.Some? ==> base <= rev.value < |h|)
    ensures Genuine(h, base, k, Serve(h, rev, k))
  {
  }

  lemma FetchSourced(tx: Tx, h: History, base: nat, keys: seq<Key>)
    requires Sourced(h, base, tx)
    ensures Sourced(h, base, Fetch(tx, h, keys).0)
    ensures var resp := Fetch(tx, h, keys).1; resp.Some? ==> base <= resp.value.rev < |h|
  {
    FirstInFinds(tx.rset, keys);
    forall k ensures Genuine(h, base, k, Serve(h, tx.getRev, k)) {
      ServeGenuine(h, base, tx.getRev, k);
    }
  }

  lemma GetSourced(tx: Tx, h: History, base: nat, keys: seq<Key>)
    requires CanGet(tx, keys) && Sourced(h, base, tx)
    ensures Sourced(h, base, GetTx(tx, h, keys).0)
  {
    FetchSourced(tx, h, base, keys);
    FetchSourced(UsePrefetch(tx, keys), h, base, keys);
  }

  lemma RevSourced(tx: Tx, h: History, base: nat, key: Key)
    requires Sourced(h, base, tx)
    ensures Sourced(h, base, RevTx(tx, h, key).0)
  {
    GetSourced(tx, h, base, [key]);
    var tx1 := if FixesSnapshot(tx.iso) then GetTx(tx, h, [key]).0 else tx;
    FetchSourced(tx1, h, base, [key]);
  }

  // ---------- What a commit decides ----------

  /** A passed read guard means that every response in the read set is what the commit-time store holds,
      however old the response is. */
  lemma PassedReadsAreCurrent(h: History, base: nat, tx: Tx)
    requires Valid(h) && Sourced(h, base, tx) && ReadsCurrent(tx, Current(h))
    ensures forall k | k in tx.rset :: tx.rset[k].kv == Lookup(Current(h), k)
  {
    forall k | k in tx.rset
      ensures tx.rset[k].kv == Lookup(Current(h), k)
    {
      var a :| base <= a <= tx.rset[k].rev && tx.rset[k].kv == Lookup(h[a], k);
      ModRevDetermines(h, a, Revision(h), k);
    }
  }

  lemma UnchangedStoreNeverConflicts(h: History, tx: Tx)
    requires Valid(h) && Sourced(h, Revision(h), tx) && Revision(h) < MAX_INT64
    ensures NoConflict(tx, Current(h))
  {
    forall k
      ensures ModOf(Lookup(Current(h), k)) <= Revision(h)
    {
      if k in Current(h) {
        RevisionBounds(h, Revision(h), k);
      }
    }
  }

  lemma NoReadsNeverConflict(h: History, tx: Tx)
    requires Valid(h) && tx.rset == map[] && Revision(h) < MAX_INT64
    ensures NoConflict(tx, Current(h))
  {
    forall k | k in Current(h)
      ensures Current(h)[k].modRev <= Revision(h)
    {
      RevisionBounds(h, Revision(h), k);
    }
  }

  // What every written key must be for the write guard.
  ghost predicate WrittenUntouched(h: History, ws: WriteSet, first: int)
    requires 0 <= first
  {
    forall k | k in ws :: k !in Current(h) || forall r | first <= r < |h| :: Lookup(h[r], k) == Lookup(Current(h), k)
  }

  // Every response in the read set is what the store holds.
  ghost predicate AllCurrent(s: Snapshot, rs: ReadSet) {
    forall k | k in rs :: rs[k].kv == Lookup(s, k)
  }

  /** Exactly when a commit succeeds: at the Serializable and RepeatableReads levels if and only if everything read
      is still what the store holds, whoever has touched what is written; at the ReadCommitted level always; at the
      SerializableSnapshot level if and only if, in addition, every key written is absent or has not changed since
      first(). */
  lemma CommitsExactly(h: History, base: nat, tx: Tx, first: int)
    requires Valid(h) && Sourced(h, base, tx) && Revision(h) < MAX_INT64
    requires IsFirst(tx.rset, first) && 0 <= first
    ensures tx.iso.Serializable? || tx.iso.RepeatableReads? ==>
              (CommitTx(tx, h).committed <==> AllCurrent(Current(h), tx.rset))
    ensures tx.iso.ReadCommitted? ==> CommitTx(tx, h).committed
    ensures tx.iso.SerializableSnapshot? ==>
              (CommitTx(tx, h).committed <==> AllCurrent(Current(h), tx.rset) && WrittenUntouched(h, tx.wset, first))
  {
    if ReadsCurrent(tx, Current(h)) {
      PassedReadsAreCurrent(h, base, tx);
    }
    WriteGuardMeans(h, tx, first);
  }

  lemma WriteGuardMeans(h: History, tx: Tx, first: int)
    requires Valid(h) && Revision(h) < MAX_INT64 && IsFirst(tx.rset, first) && 0 <= first
    ensures WritesFresh(tx, Current(h)) <==> WrittenUntouched(h, tx.wset, first)
  {
    forall k | k in tx.wset
      ensures ModOf(Lookup(Current(h), k)) < MAX_INT64
      ensures ModOf(Lookup(Current(h), k)) < first + 1
              <==> (k !in Current(h) || forall r | first <= r < |h| :: Lookup(h[r], k) == Lookup(Current(h), k))
    {
      WriteGuardExact(h, tx.rset, first, k);
      if k in Current(h) {
        RevisionBounds(h, Revision(h), k);
      }
    }
  }

  /** A commit attempted while the store is still at the attempt's base revision never conflicts, so each
      failed commit happens at a strictly later revision than the one its attempt started from. In particular
      an attempt that read nothing, whose write guard compares against the largest int64, always commits. */
  lemma ConflictNeedsProgress(h: History, base: nat, tx: Tx)
    requires Valid(h) && Sourced(h, base, tx) && Revision(h) < MAX_INT64
    requires !CommitTx(tx, h).committed
    ensures base < Revision(h)
    ensures tx.rset != map[]
  {
    if base == Revision(h) {
      UnchangedStoreNeverConflicts(h, tx);
    }
    if tx.rset == map[] {
      NoReadsNeverConflict(h, tx);
    }
  }

  // first(): the smallest header revision in the read set, capped at the largest int64 minus one.
  ghost predicate IsFirst(rs: ReadSet, first: int) {
    && first <= MAX_INT64 - 1
    && (forall k | k in rs :: first <= rs[k].rev)
    && (first == MAX_INT64 - 1 || exists k | k in rs :: rs[k].rev == first)
  }

  /** First committer wins, exactly: the write guard lets a key through if and only if the key is gone from
      the store or has not changed since first(). */
  lemma WriteGuardExact(h: History, rs: ReadSet, first: int, k: Key)
    requires Valid(h) && IsFirst(rs, first) && 0 <= first
    ensures ModOf(Lookup(Current(h), k)) < first + 1
            <==> (k !in Current(h) || forall r | first <= r < |h| :: Lookup(h[r], k) == Lookup(Current(h), k))
  {
    if k in Current(h) {
      RevisionBounds(h, Revision(h), k);
      if Current(h)[k].modRev <= first {
        forall r | first <= r < |h|
          ensures Lookup(h[r], k) == Lookup(Current(h), k)
        {
          Steady(h, r, Revision(h), k);
        }
      } else if forall r | first <= r < |h| :: Lookup(h[r], k) == Lookup(Current(h), k) {
        assert k in h[first] && h[first][k].modRev > first;
        RevisionBounds(h, first, k);
        assert false;
      }
    }
  }

  /** A successful SerializableSnapshot commit: each written key is absent from the store just before the
      commit, or nobody has touched it since first(). */
  lemma FirstCommitterWins(h: History, tx: Tx, first: int)
    requires Valid(h) && tx.iso.SerializableSnapshot? && IsFirst(tx.rset, first) && 0 <= first
    requires CommitTx(tx, h).committed
    ensures forall k | k in tx.wset && k in Current(h) ::
              forall r | first <= r < |h| :: Lookup(h[r], k) == Lookup(Current(h), k)
  {
    forall k | k in tx.wset && k in Current(h)
      ensures forall r | first <= r < |h| :: Lookup(h[r], k) == Lookup(Current(h), k)
    {
      WriteGuardExact(h, tx.rset, first, k);
    }
  }

  // Reads "y" from the store at `h`, then writes "x".
  function SlippingTx(h: History): Tx {
    PutTx(GetTx(NewTx(SerializableSnapshot), h, ["y"]).0, "x", "2", 0)
  }

  lemma SlippingTxReads(h: History)
    ensures SlippingTx(h).rset == map["y" := Serve(h, None, "y")]
    ensures SlippingTx(h).wset == map["x" := StmPut("2", Put("2", 0))]
    ensures SlippingTx(h).iso == SerializableSnapshot
  {
  }

  /** The exception is real: a written key deleted by another client after the snapshot was taken does not
      stop the commit. */
  lemma DeletedKeySlipsThrough()
    ensures exists h: History, h': History ::
              && Valid(h') && h <= h' && IsFirst(SlippingTx(h).rset, Revision(h))
              && CommitTx(SlippingTx(h), h').committed
              && "x" in SlippingTx(h).wset && Lookup(Current(h), "x") != Lookup(Current(h'), "x")
  {
    var x := KV("x", "1", 2, 2, 0);
    var h: History := [map[], map[], map["x" := x]];
    var h': History := h + [map[]];
    SlippingTxReads(h);
    var tx := SlippingTx(h);
    assert tx.rset["y"] == GetResp(2, None);
    assert IsFirst(tx.rset, 2);
    assert Current(h') == map[];
    assert Lookup(map[], "x") == None && Lookup(map[], "y") == None;
    assert NoConflict(tx, Current(h'));
    assert Valid(h');
    assert "x" in Current(h);
  }

  // ---------- The prefetch ----------

  // Every entry is the store's entry at revision `base`, served then.
  predicate Coherent(h: History, base: nat, rs: ReadSet) {
    && base < |h|
    && forall k | k in rs :: rs[k] == GetResp(base, Lookup(h[base], k))
  }

  /** A failed commit of an stmSerializable leaves in the prefetch exactly its read set's keys, each as the
      store has it at the commit's revision. */
  lemma FailedCommitPrefetches(h: History, tx: Tx)
    requires FixesSnapshot(tx.iso) && !CommitTx(tx, h).committed
    ensures var tx' := Reset(CommitTx(tx, h).tx);
            && Coherent(h, Revision(h), tx'.prefetch) && tx'.prefetch.Keys == tx.rset.Keys
            && tx'.getRev == None && tx'.rset == map[] && tx'.wset == map[]
  {
  }

  /** Consuming a prefetched entry gives the same value and modification revision as reading the key again
      at the revision of the failed commit. */
  lemma PrefetchIsReread(h: History, base: nat, tx: Tx, key: Key)
    requires 0 < base < |h| && Coherent(h, base, tx.prefetch) && FixesSnapshot(tx.iso)
    requires key in tx.prefetch && key !in tx.wset && Tidy(tx)
    ensures var bare := tx.(prefetch := map[], getRev := Some(base));
            && GetTx(tx, h, [key]).1 == GetTx(bare, h, [key]).1
            && key in GetTx(tx, h, [key]).0.rset && key in GetTx(bare, h, [key]).0.rset
            && GetTx(tx, h, [key]).0.rset[key].kv == GetTx(bare, h, [key]).0.rset[key].kv
            && RevTx(tx, h, key).1 == RevTx(bare, h, key).1
  {
    var bare := tx.(prefetch := map[], getRev := Some(base));
    GetAnswers(tx, h, key);
    GetAnswers(bare, h, key);
    GetKeepsReads(tx, h, [key]);
    FirstInFinds(tx.wset, [key]);
    FirstInFinds(UsePrefetch(tx, [key]).rset, [key]);
    FirstInFinds(UsePrefetch(bare, [key]).rset, [key]);
    assert GetTx(tx, h, [key]).0.rset[key] == tx.prefetch[key];
    assert GetTx(bare, h, [key]).0.rset[key] == Serve(h, Some(base), key);
    FirstInFinds(GetTx(tx, h, [key]).0.rset, [key]);
    FirstInFinds(GetTx(bare, h, [key]).0.rset, [key]);
  }
}
