/** Garbage collection and listing as a whole, runs of requests, and what a crash in the middle of a
    run leaves. */
module ObjectRuns {
  import opened KvOps
  import Framing
  import opened ObjectKeys
  import opened ObjectMetadata
  import opened Objects
  import opened ObjectAtomicity

  // ---- What garbage collection changes, for any map ----

  /** A version that reads return but collection does not mark: neither committed nor deleted.  No
      operation of the store writes one. */
  ghost predicate Exposed(m: KvMap, metaKey: Bytes) {
    && MetaAt(m, metaKey).Some?
    && var meta := MetaAt(m, metaKey).value;
    && meta.state != COMMITTED && meta.state != DELETED && meta.chunkCount > 0
    && meta.objectId != [] && !Reachable(m, meta.objectId) && ChunkKey(meta.objectId, 0) in m
  }

  lemma {:induction false} GatherSame(m: KvMap, m': KvMap, id: Bytes, n: nat)
    requires forall i: nat :: Lookup(m', ChunkKey(id, i)) == Lookup(m, ChunkKey(id, i))
    ensures Gather(m', id, n) == Gather(m, id, n)
  {
    hide ChunkKey;
    if n > 0 {
      GatherSame(m, m', id, n - 1);
    }
  }

  lemma {:induction false} GatherFirst(m: KvMap, id: Bytes, n: nat)
    requires n > 0
    ensures Gather(m, id, n) == Missing(0) <==> ChunkKey(id, 0) !in m
  {
    hide ChunkKey;
    if n > 1 {
      GatherFirst(m, id, n - 1);
    } else {
      assert Gather(m, id, 0) == Complete([]);
    }
  }

  lemma GarbageChunk(m: KvMap, id: Bytes, i: nat)
    ensures IsGarbage(m, ChunkKey(id, i)) <==> ChunkKey(id, i) in m && id != [] && !Reachable(m, id)
  {
    hide Reachable, ChunkKey, ChunkOwner, HasPrefix;
    OwnerOfChunk(id, i);
    KeyPrefixes([], [], id, i);
  }

  /** Collection, or any part of it, leaves metadata and the marks alone. */
  lemma MarksStay(m: KvMap, gone: set<Bytes>, metaKey: Bytes, id: Bytes)
    requires gone <= Garbage(m)
    ensures HasPrefix(metaKey, OBJMETA) ==> MetaAt(m - gone, metaKey) == MetaAt(m, metaKey)
    ensures Marks(m - gone, metaKey, id) <==> Marks(m, metaKey, id)
  {
    hide HasPrefix, Deserialize, Live;
    if HasPrefix(metaKey, OBJMETA) {
      GarbageIsDead(m, {}, gone);
      assert KeepsMeta(m, m - gone, metaKey);
    }
  }

  lemma ReachableStays(m: KvMap, gone: set<Bytes>, id: Bytes)
    requires gone <= Garbage(m)
    ensures Reachable(m - gone, id) <==> Reachable(m, id)
  {
    hide Marks, Garbage;
    forall mk ensures Marks(m - gone, mk, id) <==> Marks(m, mk, id) {
      MarksStay(m, gone, mk, id);
    }
  }

  lemma MarkedKeepChunks(m: KvMap, gone: set<Bytes>, id: Bytes, n: nat)
    requires gone <= Garbage(m) && (id == [] || Reachable(m, id))
    ensures Gather(m - gone, id, n) == Gather(m, id, n)
  {
    hide ChunkKey, Reachable, Gather, IsGarbage;
    forall i: nat ensures Lookup(m - gone, ChunkKey(id, i)) == Lookup(m, ChunkKey(id, i)) {
      GarbageChunk(m, id, i);
    }
    GatherSame(m, m - gone, id, n);
  }

  /** Deleting any part of the garbage changes no read of a version that is not exposed. */
  lemma CollectInvisible(m: KvMap, gone: set<Bytes>, bucket: Bytes, key: Bytes)
    requires gone <= Garbage(m) && !Exposed(m, ObjectMetaKey(bucket, key))
    ensures GetObject(m - gone, bucket, key) == GetObject(m, bucket, key)
  {
    hide HasPrefix, Deserialize, Gather, Garbage, Reachable, ChunkKey, ObjectMetaKey;
    var mk := ObjectMetaKey(bucket, key);
    KeyPrefixes(bucket, key, [], 0);
    GarbageIsDead(m, {}, gone);
    assert KeepsMeta(m, m - gone, mk);
    if VisibleAt(m, mk) {
      var meta := MetaAt(m, mk).value;
      var id, n := meta.objectId, meta.chunkCount;
      if id == [] || Reachable(m, id) {
        MarkedKeepChunks(m, gone, id, n);
      } else if meta.state == COMMITTED {
        CommittedIsReachable(m, mk);
      } else if n == 0 {
        GatherNone(m, m - gone, id);
      } else {
        GatherFirst(m, id, n);
        GatherFirst(m - gone, id, n);
      }
    }
  }

  lemma GatherNone(m: KvMap, m': KvMap, id: Bytes)
    ensures Gather(m, id, 0) == Gather(m', id, 0)
  {
  }

  lemma CommittedIsReachable(m: KvMap, metaKey: Bytes)
    requires HasPrefix(metaKey, OBJMETA) && CommittedAt(m, metaKey)
    ensures Reachable(m, MetaAt(m, metaKey).value.objectId)
  {
    hide HasPrefix, MetaAt;
    assert Marks(m, metaKey, MetaAt(m, metaKey).value.objectId);
  }

  lemma ExposedLosesData(m: KvMap, bucket: Bytes, key: Bytes)
    requires Exposed(m, ObjectMetaKey(bucket, key))
    ensures GetObject(m - Garbage(m), bucket, key) == MissingChunk(0) != GetObject(m, bucket, key)
  {
    hide HasPrefix, Deserialize, Gather, Reachable, ChunkKey, ObjectMetaKey, IsGarbage;
    var mk := ObjectMetaKey(bucket, key);
    var m' := m - Garbage(m);
    var meta := MetaAt(m, mk).value;
    KeyPrefixes(bucket, key, [], 0);
    GarbageIsDead(m, {}, Garbage(m));
    assert KeepsMeta(m, m', mk);
    GarbageChunk(m, meta.objectId, 0);
    GatherFirst(m, meta.objectId, meta.chunkCount);
    GatherFirst(m', meta.objectId, meta.chunkCount);
  }

  /** Collection changes what a read yields exactly for exposed versions, whatever the map holds. */
  lemma CollectExact(m: KvMap, bucket: Bytes, key: Bytes)
    ensures GetObject(m - Garbage(m), bucket, key) == GetObject(m, bucket, key) <==>
            !Exposed(m, ObjectMetaKey(bucket, key))
  {
    hide GetObject, Garbage, Exposed, ObjectMetaKey;
    if Exposed(m, ObjectMetaKey(bucket, key)) {
      ExposedLosesData(m, bucket, key);
    } else {
      CollectInvisible(m, Garbage(m), bucket, key);
    }
  }

  lemma NothingExposed(m: KvMap, us: set<Upload>, metaKey: Bytes)
    requires Intact(m, us) && HasPrefix(metaKey, OBJMETA)
    ensures !Exposed(m, metaKey)
  {
    hide Reachable, ChunkKey, Deserialize, ChunksHeld, HasPrefix;
    assert MetaOk(m, us, metaKey);
  }

  /** Collection is complete and idempotent: every chunk key left belongs to committed metadata, and
      there is no garbage left. */
  lemma CollectComplete(m: KvMap)
    ensures var m' := m - Garbage(m);
            && Garbage(m') == {}
            && forall id, i: nat :: id != [] && ChunkKey(id, i) in m' ==> Reachable(m', id)
  {
    hide Reachable, ChunkKey, IsGarbage;
    var m' := m - Garbage(m);
    forall id, i: nat | id != [] && ChunkKey(id, i) in m' ensures Reachable(m', id) {
      GarbageChunk(m, id, i);
      ReachableStays(m, Garbage(m), id);
    }
    forall key | key in m' ensures !IsGarbage(m', key) {
      StillNotGarbage(m, key);
    }
  }

  lemma StillNotGarbage(m: KvMap, key: Bytes)
    requires key in m - Garbage(m)
    ensures !IsGarbage(m - Garbage(m), key)
  {
    hide Reachable, HasPrefix, ChunkOwner;
    if ChunkOwner(key).Some? {
      ReachableStays(m, Garbage(m), ChunkOwner(key).value);
    }
  }

  // ---- Requests ----

  datatype Request =
    | PutObject(upload: Upload)
    | DeleteObject(bucket: Bytes, key: Bytes, now: nat)
    | CollectChunks(order: seq<Bytes>)
    | CreateBucket(bucket: Bytes, now: nat)

  function BucketMeta(bucket: Bytes, now: nat): Bytes {
    bucket + [TAB] + Decimal(now)
  }

  lemma BucketMetaReadsBack(bucket: Bytes, now: nat)
    requires NoTab(bucket)
    ensures Fields(BucketMeta(bucket, now), 2) == Some([bucket, Decimal(now)])
  {
    hide Decimal, NoTab;
    DecimalPlain(now);
    FieldsOfJoined([bucket, Decimal(now)]);
    assert [bucket, Decimal(now)][1..] == [Decimal(now)];
  }

  function Deletes(keys: seq<Bytes>): (ops: seq<Op>)
    ensures |ops| == |keys|
  {
    if keys == [] then [] else Deletes(keys[..|keys| - 1]) + [Del(keys[|keys| - 1])]
  }

  /** The key-value operations a request issues; a refused request issues none. */
  function RequestOps(m: KvMap, r: Request): seq<Op> {
    match r
    case PutObject(u) =>
      if u.bucket == [] || u.key == [] || BucketMetaKey(u.bucket) !in m then [] else UploadOps(u)
    case DeleteObject(bucket, key, now) => DeleteOps(m, bucket, key, now)
    case CollectChunks(order) => Deletes(order)
    case CreateBucket(bucket, now) =>
      if bucket == [] || BucketMetaKey(bucket) in m then [] else [Put(BucketMetaKey(bucket), BucketMeta(bucket, now))]
  }

  /** Each upload has a fresh id, names have no colon, clocks fit, and a collection deletes the
      garbage of the state it runs in, in any order. */
  ghost predicate Admissible(m: KvMap, us: set<Upload>, r: Request) {
    match r
    case PutObject(u) => Fresh(us, u)
    case DeleteObject(bucket, key, now) => NoColon(bucket) && now < TWO_64
    case CollectChunks(order) =>
      (forall i :: 0 <= i < |order| ==> order[i] in Garbage(m)) && Garbage(m) == set k | k in order
    case CreateBucket(_, _) => true
  }

  function UploadsOf(r: Request): set<Upload> {
    match r
    case PutObject(u) => {u}
    case _ => {}
  }

  lemma {:induction false} DeletesRemove(m: KvMap, keys: seq<Bytes>)
    ensures Fold(m, Deletes(keys)) == m - set k | k in keys
  {
    hide Fold;
    if keys == [] {
      PartialNothing(m, []);
    } else {
      var n := |keys| - 1;
      DeletesRemove(m, keys[..n]);
      FoldSnoc(m, Deletes(keys[..n]), Del(keys[n]));
      assert keys == keys[..n] + [keys[n]];
      assert (set k | k in keys) == (set k | k in keys[..n]) + {keys[n]};
    }
  }

  lemma {:induction false} DeletesPrefix(keys: seq<Bytes>, j: nat)
    requires j <= |keys|
    ensures Deletes(keys)[..j] == Deletes(keys[..j])
  {
    if j == |keys| {
      assert keys[..j] == keys;
    } else {
      var n := |keys| - 1;
      DeletesPrefix(keys[..n], j);
      assert keys[..n][..j] == keys[..j];
      assert Deletes(keys)[..j] == Deletes(keys[..n])[..j];
    }
  }

  /** After `j` of its deletes a collection has removed some of the garbage. */
  lemma PartialCollect(m: KvMap, order: seq<Bytes>, j: nat) returns (gone: set<Bytes>)
    requires j <= |order| && forall i :: 0 <= i < |order| ==> order[i] in Garbage(m)
    ensures gone <= Garbage(m) && Fold(m, Deletes(order)[..j]) == m - gone
  {
    hide Fold, Deletes, Garbage;
    gone := set k | k in order[..j];
    DeletesPrefix(order, j);
    DeletesRemove(m, order[..j]);
    forall k | k in gone ensures k in Garbage(m) {
      assert k in order;
    }
  }

  // ---- One request, any prefix of its operations ----

  lemma PartialBucket(m: KvMap, bucket: Bytes, now: nat, j: nat)
    requires j <= |RequestOps(m, CreateBucket(bucket, now))|
    ensures var m' := Fold(m, RequestOps(m, CreateBucket(bucket, now))[..j]);
            m' == m || (bucket != [] && BucketMetaKey(bucket) !in m
              && m' == m[BucketMetaKey(bucket) := BucketMeta(bucket, now)])
  {
    hide BucketMetaKey, BucketMeta;
    var ops := RequestOps(m, CreateBucket(bucket, now));
    if j == 1 {
      FoldSnoc(m, [], ops[0]);
      assert ops[..1] == [] + [ops[0]];
    } else {
      PartialNothing(m, ops);
    }
  }

  /** A bucket is recorded once: creating it makes it known, and creating it again does nothing. */
  lemma BucketStays(m: KvMap, bucket: Bytes, now: nat, later: nat)
    requires bucket != []
    ensures var m' := Fold(m, RequestOps(m, CreateBucket(bucket, now)));
            && BucketMetaKey(bucket) in m' && RequestOps(m', CreateBucket(bucket, later)) == []
            && (BucketMetaKey(bucket) in m ==> m' == m)
            && (BucketMetaKey(bucket) !in m ==> m' == m[BucketMetaKey(bucket) := BucketMeta(bucket, now)])
  {
    hide BucketMetaKey, BucketMeta, Fold;
    var ops := RequestOps(m, CreateBucket(bucket, now));
    assert ops[..|ops|] == ops;
    if ops == [] {
      PartialNothing(m, ops);
    } else {
      FoldSnoc(m, [], ops[0]);
      PartialNothing(m, []);
      assert ops == [] + [ops[0]];
    }
  }

  lemma RequestIntact(m: KvMap, us: set<Upload>, r: Request, j: nat)
    requires Intact(m, us) && Admissible(m, us, r) && j <= |RequestOps(m, r)|
    ensures Intact(Fold(m, RequestOps(m, r)[..j]), us + UploadsOf(r))
  {
    hide Intact, Fold, DeleteOps, UploadOps, Deletes, Garbage, NoColon, Fresh, BucketMetaKey, BucketMeta;
    match r
    case PutObject(u) =>
      if RequestOps(m, r) == [] {
        PartialNothing(m, []);
        AlsoIntact(m, us, u);
      } else {
        UploadIntact(m, us, u, j);
      }
    case DeleteObject(bucket, key, now) =>
      DeleteIntact(m, us, bucket, key, now, j);
      assert us + {} == us;
    case CollectChunks(order) =>
      var gone := PartialCollect(m, order, j);
      CollectIntact(m, us, gone);
      assert us + {} == us;
    case CreateBucket(bucket, now) =>
      PartialBucket(m, bucket, now, j);
      BucketIntact(m, us, bucket, BucketMeta(bucket, now));
      assert us + {} == us;
  }

  lemma KeepsItself(m: KvMap, us: set<Upload>)
    ensures KeepsLive(m, m, us) && forall mk :: KeepsMeta(m, m, mk)
  {
    hide Live, ChunkHeld;
  }

  lemma AlsoIntact(m: KvMap, us: set<Upload>, u: Upload)
    requires Intact(m, us) && Fresh(us, u)
    ensures Intact(m, us + {u})
  {
    hide Intact, Fresh, Distinct, KeepsLive, KeepsMeta, HasPrefix;
    IntactIsDistinct(m, us);
    OneMore(us, u);
    KeepsItself(m, us);
    StaysIntact(m, m, us, us + {u});
  }

  lemma BucketSameRead(m: KvMap, name: Bytes, value: Bytes, us: set<Upload>, bucket: Bytes, key: Bytes)
    requires Intact(m, us) && NoColon(bucket)
    ensures GetObject(m[BucketMetaKey(name) := value], bucket, key) == GetObject(m, bucket, key)
  {
    hide Intact, HasPrefix, ChunkKey, IdOf, ChunkOf, BucketMetaKey, ObjectMetaKey, GetObject, NoColon, Live;
    var m' := m[BucketMetaKey(name) := value];
    forall v: Upload, i: nat ensures ChunkKey(IdOf(v), i) != BucketMetaKey(name) {
      KeyPrefixes(name, [], IdOf(v), i);
      NamespacesDisjoint(BucketMetaKey(name));
    }
    KeyPrefixes(bucket, key, [], 0);
    KeyPrefixes(name, key, [], 0);
    NamespacesDisjoint(ObjectMetaKey(bucket, key));
    SameRead(m, m', us, bucket, key);
  }

  /** After any prefix of a request's operations, every object reads as before the request or as
      after it. */
  lemma RequestAtomic(m: KvMap, us: set<Upload>, r: Request, j: nat, bucket: Bytes, key: Bytes)
    requires Intact(m, us) && Admissible(m, us, r) && j <= |RequestOps(m, r)| && NoColon(bucket)
    ensures var now := GetObject(Fold(m, RequestOps(m, r)[..j]), bucket, key);
            now == GetObject(m, bucket, key) || now == GetObject(Fold(m, RequestOps(m, r)), bucket, key)
  {
    hide Intact, Fold, DeleteOps, UploadOps, Deletes, Garbage, NoColon, Fresh, BucketMetaKey, BucketMeta, GetObject,
      Exposed, HasPrefix;
    var ops := RequestOps(m, r);
    assert ops[..|ops|] == ops;
    if ops == [] {
      PartialNothing(m, ops);
    } else {
      match r
      case PutObject(u) =>
        UploadAtomic(m, us, u, j, bucket, key);
        UploadAtomic(m, us, u, |ops|, bucket, key);
        UploadCount(u);
      case DeleteObject(b, k, now) =>
        DeleteAtomic(m, us, b, k, now, j, bucket, key);
        DeleteAtomic(m, us, b, k, now, |ops|, bucket, key);
      case CollectChunks(order) =>
        var gone := PartialCollect(m, order, j);
        KeyPrefixes(bucket, key, [], 0);
        NothingExposed(m, us, ObjectMetaKey(bucket, key));
        CollectInvisible(m, gone, bucket, key);
      case CreateBucket(b, now) =>
        PartialBucket(m, b, now, j);
        BucketSameRead(m, b, BucketMeta(b, now), us, bucket, key);
    }
  }

  // ---- Runs ----

  ghost function After(m: KvMap, rs: seq<Request>): KvMap
    decreases |rs|
  {
    if rs == [] then m else After(Fold(m, RequestOps(m, rs[0])), rs[1..])
  }

  /** All key-value operations of a run of requests, in order. */
  ghost function RunOps(m: KvMap, rs: seq<Request>): seq<Op>
    decreases |rs|
  {
    if rs == [] then [] else RequestOps(m, rs[0]) + RunOps(Fold(m, RequestOps(m, rs[0])), rs[1..])
  }

  function RunUploads(rs: seq<Request>): set<Upload> {
    if rs == [] then {} else UploadsOf(rs[0]) + RunUploads(rs[1..])
  }

  ghost predicate Admitted(m: KvMap, us: set<Upload>, rs: seq<Request>)
    decreases |rs|
  {
    rs == [] || (Admissible(m, us, rs[0]) && Admitted(Fold(m, RequestOps(m, rs[0])), us + UploadsOf(rs[0]), rs[1..]))
  }

  /** A run is its first request and the rest. */
  lemma RunFirst(m: KvMap, rs: seq<Request>)
    requires rs != []
    ensures var m1 := Fold(m, RequestOps(m, rs[0]));
            && RunOps(m, rs) == RequestOps(m, rs[0]) + RunOps(m1, rs[1..])
            && After(m, rs) == After(m1, rs[1..]) && RunUploads(rs) == UploadsOf(rs[0]) + RunUploads(rs[1..])
  {
    hide Fold, RequestOps;
  }

  lemma NoRequests(m: KvMap)
    ensures RunOps(m, []) == [] && After(m, []) == m && RunUploads([]) == {}
  {
  }

  lemma CutConcat(a: seq<Op>, b: seq<Op>, p: nat)
    requires p <= |a + b|
    ensures p <= |a| ==> (a + b)[..p] == a[..p]
    ensures p >= |a| ==> (a + b)[..p] == a + b[..p - |a|]
  {
  }

  lemma {:induction false} RunDistinct(m: KvMap, us: set<Upload>, rs: seq<Request>)
    requires Distinct(us) && Admitted(m, us, rs)
    ensures Distinct(us + RunUploads(rs))
    decreases |rs|
  {
    hide Distinct, RequestOps, Fold, Fresh, Garbage, NoColon;
    if rs == [] {
      assert us + {} == us;
    } else {
      var us' := us + UploadsOf(rs[0]);
      if rs[0].PutObject? {
        OneMore(us, rs[0].upload);
      } else {
        assert us' == us;
      }
      RunDistinct(Fold(m, RequestOps(m, rs[0])), us', rs[1..]);
      assert us + RunUploads(rs) == us' + RunUploads(rs[1..]);
    }
  }

  lemma IntactMore(m: KvMap, us: set<Upload>, us': set<Upload>)
    requires Intact(m, us) && us <= us' && Distinct(us')
    ensures Intact(m, us')
  {
    hide Intact, Distinct, KeepsLive, KeepsMeta, HasPrefix;
    KeepsItself(m, us);
    StaysIntact(m, m, us, us');
  }

  /** The operations a run has issued when it is cut after `p` of them: some whole requests and a
      prefix of the next one. */
  lemma {:induction false} CutRun(m: KvMap, us: set<Upload>, rs: seq<Request>, p: nat) returns (i: nat, j: nat)
    requires Intact(m, us) && Admitted(m, us, rs) && p <= |RunOps(m, rs)| && rs != []
    ensures i < |rs| && j <= |RequestOps(After(m, rs[..i]), rs[i])|
    ensures Fold(m, RunOps(m, rs)[..p]) == Fold(After(m, rs[..i]), RequestOps(After(m, rs[..i]), rs[i])[..j])
    ensures Intact(After(m, rs[..i]), us + RunUploads(rs[..i]))
    ensures Admissible(After(m, rs[..i]), us + RunUploads(rs[..i]), rs[i])
    decreases |rs|
  {
    hide Intact, Fold, RequestOps, Admissible, RunOps, After, RunUploads;
    var ops := RequestOps(m, rs[0]);
    var m1 := Fold(m, ops);
    RunFirst(m, rs);
    CutConcat(ops, RunOps(m1, rs[1..]), p);
    if p <= |ops| || |rs| == 1 {
      i, j := 0, p;
      NoRequests(m);
      NoRequests(m1);
      assert rs[..0] == [] && us + {} == us;
    } else {
      RequestIntact(m, us, rs[0], |ops|);
      assert ops[..|ops|] == ops;
      var i1, j1 := CutRun(m1, us + UploadsOf(rs[0]), rs[1..], p - |ops|);
      i, j := i1 + 1, j1;
      assert rs[..i][1..] == rs[1..][..i1] && rs[..i][0] == rs[0];
      RunFirst(m, rs[..i]);
      FoldConcat(m, ops, RunOps(m1, rs[1..])[..p - |ops|]);
      assert us + RunUploads(rs[..i]) == us + UploadsOf(rs[0]) + RunUploads(rs[1..][..i1]);
    }
  }

  lemma {:induction false} AfterOneMore(m: KvMap, rs: seq<Request>, i: nat)
    requires i < |rs|
    ensures After(m, rs[..i + 1]) == Fold(After(m, rs[..i]), RequestOps(After(m, rs[..i]), rs[i]))
    decreases i
  {
    hide Fold, RequestOps;
    if i == 0 {
      assert rs[..1][1..] == [] && rs[..0] == [];
    } else {
      AfterOneMore(Fold(m, RequestOps(m, rs[0])), rs[1..], i - 1);
      assert rs[..i + 1][1..] == rs[1..][..i] && rs[..i][1..] == rs[1..][..i - 1];
    }
  }

  /** Atomicity over whole runs: cut a run of requests after any prefix of its key-value operations.
      There is one request such that every object then reads as before that request or as after it. */
  lemma RunAtomic(m: KvMap, us: set<Upload>, rs: seq<Request>, p: nat) returns (i: nat)
    requires Intact(m, us) && Admitted(m, us, rs) && p <= |RunOps(m, rs)| && rs != []
    ensures i < |rs| && BetweenVersions(Fold(m, RunOps(m, rs)[..p]), After(m, rs[..i]), After(m, rs[..i + 1]))
  {
    hide Intact, Fold, RequestOps, Admissible, NoColon, GetObject, Admitted, RunOps, After, RunUploads;
    var j;
    i, j := CutRun(m, us, rs, p);
    AfterOneMore(m, rs, i);
    var before, after, cut := After(m, rs[..i]), After(m, rs[..i + 1]), Fold(m, RunOps(m, rs)[..p]);
    forall bucket, key | NoColon(bucket) ensures OldOrNew(cut, before, after, bucket, key) {
      RequestAtomic(before, us + RunUploads(rs[..i]), rs[i], j, bucket, key);
    }
  }

  /** Every object reads as in the one state or as in the other. */
  ghost predicate BetweenVersions(m: KvMap, before: KvMap, after: KvMap) {
    forall bucket, key :: NoColon(bucket) ==> OldOrNew(m, before, after, bucket, key)
  }

  ghost predicate OldOrNew(m: KvMap, before: KvMap, after: KvMap, bucket: Bytes, key: Bytes) {
    || GetObject(m, bucket, key) == GetObject(before, bucket, key)
    || GetObject(m, bucket, key) == GetObject(after, bucket, key)
  }

  lemma {:induction false} RunUploadsSubset(rs: seq<Request>, i: nat)
    requires i < |rs|
    ensures RunUploads(rs[..i]) + UploadsOf(rs[i]) <= RunUploads(rs)
    decreases |rs|
  {
    if i > 0 {
      RunUploadsSubset(rs[1..], i - 1);
      assert rs[..i][1..] == rs[1..][..i - 1];
    }
  }

  /** ... and every read is whole: the state is intact, so `ReadsAreWhole` applies to it. */
  lemma RunIntact(m: KvMap, us: set<Upload>, rs: seq<Request>, p: nat)
    requires Intact(m, us) && Admitted(m, us, rs) && p <= |RunOps(m, rs)|
    ensures Intact(Fold(m, RunOps(m, rs)[..p]), us + RunUploads(rs))
  {
    hide Intact, Fold, RequestOps, Admissible, Admitted, After, Distinct, UploadsOf;
    IntactIsDistinct(m, us);
    RunDistinct(m, us, rs);
    if rs == [] {
      PartialNothing(m, RunOps(m, rs));
      assert us + {} == us;
    } else {
      var i, j := CutRun(m, us, rs, p);
      var mi, ui := After(m, rs[..i]), us + RunUploads(rs[..i]);
      RequestIntact(mi, ui, rs[i], j);
      RunUploadsSubset(rs, i);
      IntactMore(Fold(mi, RequestOps(mi, rs[i])[..j]), ui + UploadsOf(rs[i]), us + RunUploads(rs));
    }
  }

  // ---- Runs one after the other ----

  lemma {:induction false} RunOpsConcat(m: KvMap, a: seq<Request>, b: seq<Request>)
    ensures RunOps(m, a + b) == RunOps(m, a) + RunOps(After(m, a), b)
    ensures After(m, a) == Fold(m, RunOps(m, a))
    decreases |a|
  {
    hide Fold, RequestOps, RunOps, After, RunUploads;
    if a == [] {
      assert a + b == b;
      NoRequests(m);
      PartialNothing(m, []);
    } else {
      var ops := RequestOps(m, a[0]);
      var m1 := Fold(m, ops);
      RunFirst(m, a);
      RunFirst(m, a + b);
      RunOpsConcat(m1, a[1..], b);
      assert (a + b)[1..] == a[1..] + b && (a + b)[0] == a[0];
      Framing.Regroup(ops, RunOps(m1, a[1..]), RunOps(After(m, a), b));
      FoldConcat(m, ops, RunOps(m1, a[1..]));
    }
  }

  lemma {:induction false} AdmittedConcat(m: KvMap, us: set<Upload>, a: seq<Request>, b: seq<Request>)
    requires Admitted(m, us, a + b)
    ensures Admitted(m, us, a) && Admitted(After(m, a), us + RunUploads(a), b)
    decreases |a|
  {
    hide Fold, RequestOps, Admissible;
    if a == [] {
      assert a + b == b && us + {} == us;
    } else {
      assert (a + b)[1..] == a[1..] + b;
      AdmittedConcat(Fold(m, RequestOps(m, a[0])), us + UploadsOf(a[0]), a[1..], b);
      assert us + RunUploads(a) == us + UploadsOf(a[0]) + RunUploads(a[1..]);
    }
  }

  // ---- Objects a run does not touch ----

  /** The request neither uploads nor deletes this object. */
  predicate Elsewhere(r: Request, bucket: Bytes, key: Bytes) {
    match r
    case PutObject(u) => u.bucket != bucket || u.key != key
    case DeleteObject(b, k, _) => b != bucket || k != key
    case _ => true
  }

  lemma RequestElsewhere(m: KvMap, us: set<Upload>, r: Request, j: nat, bucket: Bytes, key: Bytes)
    requires Intact(m, us) && Admissible(m, us, r) && j <= |RequestOps(m, r)|
    requires NoColon(bucket) && Elsewhere(r, bucket, key)
    ensures GetObject(Fold(m, RequestOps(m, r)[..j]), bucket, key) == GetObject(m, bucket, key)
  {
    hide Intact, Fold, DeleteOps, UploadOps, Deletes, Garbage, NoColon, Fresh, BucketMetaKey, BucketMeta, GetObject,
      Exposed, HasPrefix;
    if RequestOps(m, r) == [] {
      PartialNothing(m, []);
    } else {
      match r
      case PutObject(u) => UploadAtomic(m, us, u, j, bucket, key);
      case DeleteObject(b, k, now) => DeleteAtomic(m, us, b, k, now, j, bucket, key);
      case CollectChunks(order) =>
        var gone := PartialCollect(m, order, j);
        KeyPrefixes(bucket, key, [], 0);
        NothingExposed(m, us, ObjectMetaKey(bucket, key));
        CollectInvisible(m, gone, bucket, key);
      case CreateBucket(b, now) =>
        PartialBucket(m, b, now, j);
        BucketSameRead(m, b, BucketMeta(b, now), us, bucket, key);
    }
  }

  ghost predicate AllElsewhere(rs: seq<Request>, bucket: Bytes, key: Bytes) {
    forall i :: 0 <= i < |rs| ==> Elsewhere(rs[i], bucket, key)
  }

  /** A run that does not touch an object leaves what it reads as, after any prefix of its operations. */
  lemma {:induction false} RunElsewhere(m: KvMap, us: set<Upload>, rs: seq<Request>, p: nat, bucket: Bytes, key: Bytes)
    requires Intact(m, us) && Admitted(m, us, rs) && p <= |RunOps(m, rs)|
    requires NoColon(bucket) && AllElsewhere(rs, bucket, key)
    ensures GetObject(Fold(m, RunOps(m, rs)[..p]), bucket, key) == GetObject(m, bucket, key)
    decreases |rs|
  {
    hide Intact, Fold, RequestOps, Admissible, NoColon, GetObject, Elsewhere, RunOps, After, RunUploads;
    if rs == [] {
      NoRequests(m);
      PartialNothing(m, RunOps(m, rs));
    } else {
      var ops, m1 := RequestOps(m, rs[0]), Fold(m, RequestOps(m, rs[0]));
      assert Elsewhere(rs[0], bucket, key) && ops[..|ops|] == ops;
      RunFirst(m, rs);
      CutConcat(ops, RunOps(m1, rs[1..]), p);
      if p <= |ops| {
        RequestElsewhere(m, us, rs[0], p, bucket, key);
      } else {
        RequestElsewhere(m, us, rs[0], |ops|, bucket, key);
        RequestIntact(m, us, rs[0], |ops|);
        RunElsewhere(m1, us + UploadsOf(rs[0]), rs[1..], p - |ops|, bucket, key);
        FoldConcat(m, ops, RunOps(m1, rs[1..])[..p - |ops|]);
      }
    }
  }

  /** An upload the store takes on reads back through whatever else happens later, cut anywhere after it. */
  lemma UploadStays(m: KvMap, us: set<Upload>, before: seq<Request>, u: Upload, later: seq<Request>, p: nat)
    requires Intact(m, us) && Admitted(m, us, before + [PutObject(u)] + later) && AllElsewhere(later, u.bucket, u.key)
    requires RequestOps(After(m, before), PutObject(u)) != []
    requires var rs := before + [PutObject(u)] + later;
             |RunOps(m, before + [PutObject(u)])| <= p <= |RunOps(m, rs)|
    ensures var rs := before + [PutObject(u)] + later;
            ReadsAs(GetObject(Fold(m, RunOps(m, rs)[..p]), u.bucket, u.key), u)
  {
    hide Intact, Fold, RequestOps, Admissible, NoColon, GetObject, AllElsewhere, RunOps, After, Admitted, RunUploads,
      ReadsAs;
    var first := before + [PutObject(u)];
    var done, us' := After(m, first), us + RunUploads(first);
    RunOpsConcat(m, first, later);
    AdmittedConcat(m, us, first, later);
    assert RunOps(m, first)[..|RunOps(m, first)|] == RunOps(m, first);
    RunIntact(m, us, first, |RunOps(m, first)|);
    var q := p - |RunOps(m, first)|;
    CutConcat(RunOps(m, first), RunOps(done, later), p);
    FoldConcat(m, RunOps(m, first), RunOps(done, later)[..q]);
    UploadTaken(m, us, before, u);
    RunElsewhere(done, us', later, q, u.bucket, u.key);
  }

  lemma UploadTaken(m: KvMap, us: set<Upload>, before: seq<Request>, u: Upload)
    requires Admitted(m, us, before + [PutObject(u)]) && RequestOps(After(m, before), PutObject(u)) != []
    ensures ReadsAs(GetObject(After(m, before + [PutObject(u)]), u.bucket, u.key), u)
    ensures NoColon(u.bucket)
  {
    hide Fold, NoColon, GetObject, Encodable, UploadOps, MetaOf, Needed;
    var rs, m1 := before + [PutObject(u)], After(m, before);
    AdmittedConcat(m, us, before, [PutObject(u)]);
    AfterOneMore(m, rs, |before|);
    assert rs[..|before|] == before && rs[..|before| + 1] == rs;
    PutGet(m1, u);
  }

  // ---- Any number of crashes ----

  /** What happens between two openings: requests, and after how many of their key-value operations the
      crash cut them. */
  datatype Life = Life(requests: seq<Request>, cut: nat)

  ghost function Surviving(m: KvMap, life: Life): KvMap
    requires life.cut <= |RunOps(m, life.requests)|
  {
    Fold(m, RunOps(m, life.requests)[..life.cut])
  }

  /** `ms[i]` is the map that life `i` starts from. */
  ghost predicate Lives(ms: seq<KvMap>, us: set<Upload>, lives: seq<Life>) {
    && |ms| == |lives| + 1
    && forall i :: 0 <= i < |lives| ==> LifeOk(ms[i], us + LivesUploads(lives[..i]), lives[i], ms[i + 1])
  }

  ghost predicate LifeOk(m: KvMap, us: set<Upload>, life: Life, next: KvMap) {
    Admitted(m, us, life.requests) && life.cut <= |RunOps(m, life.requests)| && next == Surviving(m, life)
  }

  function LivesUploads(lives: seq<Life>): set<Upload> {
    if lives == [] then {} else LivesUploads(lives[..|lives| - 1]) + RunUploads(lives[|lives| - 1].requests)
  }

  /** Atomicity over any number of crashes, each after any prefix of the operations of the requests since
      the last: every state is intact, so every read in it is whole, and every object reads as before or
      as after one request of the life just ended. */
  lemma {:induction false} ManyCrashesAtomic(ms: seq<KvMap>, us: set<Upload>, lives: seq<Life>) returns (i: nat)
    requires Lives(ms, us, lives) && Intact(ms[0], us)
    ensures Intact(ms[|lives|], us + LivesUploads(lives))
    ensures lives != [] && lives[|lives| - 1].requests != [] ==>
              var m, rs := ms[|lives| - 1], lives[|lives| - 1].requests;
              i < |rs| && BetweenVersions(ms[|lives|], After(m, rs[..i]), After(m, rs[..i + 1]))
    decreases |lives|
  {
    hide Intact, BetweenVersions, After, Admitted, RunOps, RunUploads;
    i := 0;
    if lives == [] {
      assert us + {} == us;
    } else {
      var n := |lives| - 1;
      var m, life := ms[n], lives[n];
      EarlierLives(ms, us, lives);
      var _ := ManyCrashesAtomic(ms[..n + 1], us, lives[..n]);
      assert LifeOk(m, us + LivesUploads(lives[..n]), life, ms[n + 1]);
      RunIntact(m, us + LivesUploads(lives[..n]), life.requests, life.cut);
      assert us + LivesUploads(lives) == us + LivesUploads(lives[..n]) + RunUploads(life.requests);
      if life.requests != [] {
        i := RunAtomic(m, us + LivesUploads(lives[..n]), life.requests, life.cut);
      }
    }
  }

  /** An object no request of these lives touches reads the same through all the crashes. */
  lemma {:induction false} UntouchedOverCrashes(ms: seq<KvMap>, us: set<Upload>, lives: seq<Life>,
                                                bucket: Bytes, key: Bytes)
    requires Lives(ms, us, lives) && Intact(ms[0], us) && NoColon(bucket)
    requires forall i :: 0 <= i < |lives| ==> AllElsewhere(lives[i].requests, bucket, key)
    ensures GetObject(ms[|lives|], bucket, key) == GetObject(ms[0], bucket, key)
    decreases |lives|
  {
    hide Intact, Admitted, RunOps, RunUploads, NoColon, GetObject, AllElsewhere;
    if lives != [] {
      var n := |lives| - 1;
      var m, life, us' := ms[n], lives[n], us + LivesUploads(lives[..n]);
      EarlierLives(ms, us, lives);
      var _ := ManyCrashesAtomic(ms[..n + 1], us, lives[..n]);
      UntouchedOverCrashes(ms[..n + 1], us, lives[..n], bucket, key);
      assert LifeOk(m, us', life, ms[n + 1]);
      RunElsewhere(m, us', life.requests, life.cut, bucket, key);
    }
  }

  lemma EarlierLives(ms: seq<KvMap>, us: set<Upload>, lives: seq<Life>)
    requires Lives(ms, us, lives) && lives != []
    ensures Lives(ms[..|lives|], us, lives[..|lives| - 1])
  {
    hide LifeOk;
    var n := |lives| - 1;
    forall i | 0 <= i < n ensures LifeOk(ms[i], us + LivesUploads(lives[..n][..i]), lives[i], ms[i + 1]) {
      assert lives[..n][..i] == lives[..i];
    }
  }

  // ---- Listing ----

  /** There is an index entry exactly for an object that a read would find. */
  ghost predicate IndexAgrees(m: KvMap, bucket: Bytes, key: Bytes) {
    BucketIndexKey(bucket, key) in m <==> VisibleAt(m, ObjectMetaKey(bucket, key))
  }

  ghost predicate IndexOk(m: KvMap) {
    forall bucket, key :: NoColon(bucket) ==> IndexAgrees(m, bucket, key)
  }

  lemma VisibleIsFound(m: KvMap, us: set<Upload>, bucket: Bytes, key: Bytes)
    requires Intact(m, us) && NoColon(bucket)
    ensures VisibleAt(m, ObjectMetaKey(bucket, key)) <==> GetObject(m, bucket, key).Found?
  {
    hide Intact, NoColon, Deserialize, Gather, ObjectMetaKey;
    ReadsAreWhole(m, us, bucket, key);
  }

  /** In any intact state, however a run was cut, a listed key can be read; and where index and
      metadata agree, the listing is exactly the readable keys with the prefix. */
  lemma ListingIsReadable(m: KvMap, us: set<Upload>, bucket: Bytes, prefix: Bytes, key: Bytes)
    requires Intact(m, us) && NoColon(bucket)
    ensures Listed(m, bucket, prefix, key) ==> HasPrefix(key, prefix) && GetObject(m, bucket, key).Found?
    ensures IndexOk(m) ==>
              (Listed(m, bucket, prefix, key) <==> HasPrefix(key, prefix) && GetObject(m, bucket, key).Found?)
  {
    hide Intact, NoColon, VisibleAt, GetObject, HasPrefix, ObjectMetaKey, BucketIndexKey;
    VisibleIsFound(m, us, bucket, key);
    assert IndexOk(m) ==> IndexAgrees(m, bucket, key);
  }

  lemma SameAgreement(m: KvMap, m': KvMap, bucket: Bytes, key: Bytes)
    requires IndexAgrees(m, bucket, key)
    requires Lookup(m', BucketIndexKey(bucket, key)) == Lookup(m, BucketIndexKey(bucket, key))
    requires Lookup(m', ObjectMetaKey(bucket, key)) == Lookup(m, ObjectMetaKey(bucket, key))
    ensures IndexAgrees(m', bucket, key)
  {
    hide BucketIndexKey, ObjectMetaKey, Deserialize;
  }

  lemma UploadAgrees(m: KvMap, us: set<Upload>, u: Upload, bucket: Bytes, key: Bytes)
    requires Fresh(us, u) && NoColon(bucket) && IndexAgrees(m, bucket, key)
    ensures IndexAgrees(Fold(m, UploadOps(u)), bucket, key)
  {
    hide Fold, Partial, Encodable, Needed, HasPrefix, NotAChunkOf, IndexAgrees, ObjectMetaKey, BucketIndexKey,
      NoColon, Count;
    var m' := Partial(m, u, Count(u) + 2);
    UploadCount(u);
    assert UploadOps(u)[..|UploadOps(u)|] == UploadOps(u);
    PartialUpload(m, u, Count(u) + 2);
    KeyPrefixes(bucket, key, [], 0);
    KeyPrefixes(u.bucket, u.key, [], 0);
    ObjectKeysInjective(bucket, key, u.bucket, u.key);
    NamespacesDisjoint(ObjectMetaKey(bucket, key));
    NamespacesDisjoint(ObjectMetaKey(u.bucket, u.key));
    if bucket == u.bucket && key == u.key {
      UploadedAgrees(m, u);
    } else {
      ChunkKeysApart(u, ObjectMetaKey(bucket, key));
      ChunkKeysApart(u, BucketIndexKey(bucket, key));
      PartialKeeps(m, u, Count(u) + 2, ObjectMetaKey(bucket, key));
      PartialKeeps(m, u, Count(u) + 2, BucketIndexKey(bucket, key));
      SameAgreement(m, m', bucket, key);
    }
  }

  lemma UploadedAgrees(m: KvMap, u: Upload)
    requires Encodable(u)
    ensures IndexAgrees(Partial(m, u, Count(u) + 2), u.bucket, u.key)
  {
    hide Fold, Encodable, ChunkOps, ChunksHeld, Serialize, Deserialize, Needed;
    CommittedUpload(m, u, Count(u) + 2);
  }

  lemma DeletionAgrees(m: KvMap, target: Bytes, name: Bytes, now: nat, bucket: Bytes, key: Bytes)
    requires NoColon(target) && NoColon(bucket) && now < TWO_64 && IndexAgrees(m, bucket, key)
    ensures IndexAgrees(Fold(m, DeleteOps(m, target, name, now)), bucket, key)
  {
    hide Fold, DeleteOps, IndexAgrees, ObjectMetaKey, BucketIndexKey, NoColon, HasPrefix, MetaAt, DeletedMeta;
    var ops := DeleteOps(m, target, name, now);
    var m' := Fold(m, ops);
    assert ops[..|ops|] == ops;
    if ops == [] {
      PartialNothing(m, ops);
    } else {
      PartialDeleteEffect(m, target, name, now, |ops|);
      ObjectKeysInjective(bucket, key, target, name);
      KeyPrefixes(bucket, key, [], 0);
      KeyPrefixes(target, name, [], 0);
      NamespacesDisjoint(ObjectMetaKey(bucket, key));
      NamespacesDisjoint(ObjectMetaKey(target, name));
      if bucket == target && key == name {
        DeletedAgrees(m, bucket, key, now);
      } else {
        SameAgreement(m, m', bucket, key);
      }
    }
  }

  lemma DeletedAgrees(m: KvMap, bucket: Bytes, key: Bytes, now: nat)
    requires DeleteOps(m, bucket, key, now) != [] && now < TWO_64
    ensures IndexAgrees(Fold(m, DeleteOps(m, bucket, key, now)), bucket, key)
  {
    hide Fold, Serialize, Deserialize, ObjectMetaKey, BucketIndexKey;
    var ops := DeleteOps(m, bucket, key, now);
    assert ops[..2] == ops;
    PartialDelete(m, bucket, key, now, 2);
    PartialDeleteEffect(m, bucket, key, now, 2);
  }

  lemma OtherAgrees(m: KvMap, r: Request, bucket: Bytes, key: Bytes)
    requires (r.CollectChunks? && Admissible(m, {}, r)) || r.CreateBucket?
    requires IndexAgrees(m, bucket, key)
    ensures IndexAgrees(Fold(m, RequestOps(m, r)), bucket, key)
  {
    hide Fold, Deletes, IndexAgrees, ObjectMetaKey, BucketIndexKey, HasPrefix, BucketMetaKey, ChunkOwner, Reachable;
    var ops := RequestOps(m, r);
    assert ops[..|ops|] == ops;
    KeyPrefixes(bucket, key, [], 0);
    NamespacesDisjoint(ObjectMetaKey(bucket, key));
    NamespacesDisjoint(BucketIndexKey(bucket, key));
    if r.CreateBucket? {
      KeyPrefixes(r.bucket, [], [], 0);
      NamespacesDisjoint(BucketMetaKey(r.bucket));
      PartialBucket(m, r.bucket, r.now, |ops|);
    } else {
      var gone := PartialCollect(m, r.order, |ops|);
      assert !IsGarbage(m, ObjectMetaKey(bucket, key)) && !IsGarbage(m, BucketIndexKey(bucket, key));
    }
    SameAgreement(m, Fold(m, ops), bucket, key);
  }

  /** A completed request leaves index and metadata in agreement. */
  lemma RequestIndex(m: KvMap, us: set<Upload>, r: Request)
    requires Admissible(m, us, r) && IndexOk(m)
    ensures IndexOk(Fold(m, RequestOps(m, r)))
  {
    hide Fold, DeleteOps, UploadOps, Deletes, Garbage, NoColon, Fresh, BucketMetaKey, IndexAgrees;
    forall bucket, key | NoColon(bucket) ensures IndexAgrees(Fold(m, RequestOps(m, r)), bucket, key) {
      assert IndexAgrees(m, bucket, key);
      match r
      case PutObject(u) =>
        if RequestOps(m, r) == [] {
          PartialNothing(m, []);
        } else {
          UploadAgrees(m, us, u, bucket, key);
        }
      case DeleteObject(b, k, now) => DeletionAgrees(m, b, k, now, bucket, key);
      case _ => OtherAgrees(m, r, bucket, key);
    }
  }

  /** Between completed requests of any run, listing and metadata agree. */
  lemma {:induction false} RunIndex(m: KvMap, us: set<Upload>, rs: seq<Request>)
    requires Admitted(m, us, rs) && IndexOk(m)
    ensures IndexOk(After(m, rs))
    decreases |rs|
  {
    hide Fold, RequestOps, Admissible, IndexOk;
    if rs != [] {
      RequestIndex(m, us, rs[0]);
      RunIndex(Fold(m, RequestOps(m, rs[0])), us + UploadsOf(rs[0]), rs[1..]);
    }
  }
}
