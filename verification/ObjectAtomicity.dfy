/** Atomicity of uploads, deletions and garbage collection: what every state between any two of
    their key-value operations has in common, and what a read can see in it. */
module ObjectAtomicity {
  import opened KvOps
  import opened ObjectKeys
  import opened ObjectMetadata
  import opened Objects

  /** An upload within the store's assumptions: no colon in the bucket name, no tabs, and a chunk
      count that fits in 32 bits. */
  ghost predicate Proper(u: Upload) {
    NoColon(u.bucket) && Encodable(u) && Needed(|u.data|, u.chunkSize) < TWO_32
  }

  /** Uploads with different ids. */
  ghost predicate Distinct(us: set<Upload>) {
    && (forall u :: u in us ==> Proper(u))
    && (forall u, v :: u in us && v in us && IdOf(u) == IdOf(v) ==> u == v)
  }

  ghost predicate Fresh(us: set<Upload>, u: Upload) {
    Proper(u) && forall v :: v in us ==> IdOf(v) != IdOf(u)
  }

  /** `meta` is the metadata of upload `u`, as it was committed or since marked deleted, and while
      it is committed every chunk of the upload is in place. */
  ghost predicate Backed(m: KvMap, u: Upload, meta: Metadata) {
    && meta == MetaOf(u).(state := meta.state, updated := meta.updated)
    && (meta.state == COMMITTED || meta.state == DELETED)
    && (meta.state == COMMITTED ==> meta == MetaOf(u) && ChunksHeld(m, u, Count(u)))
  }

  ghost predicate BackedAt(m: KvMap, metaKey: Bytes, u: Upload) {
    metaKey == MetaKeyOf(u) && MetaAt(m, metaKey).Some? && Backed(m, u, MetaAt(m, metaKey).value)
  }

  ghost predicate MetaOk(m: KvMap, us: set<Upload>, metaKey: Bytes) {
    metaKey in m && HasPrefix(metaKey, OBJMETA) ==> exists u :: u in us && BackedAt(m, metaKey, u)
  }

  /** All metadata in the map comes from the uploads `us`, whole. */
  ghost predicate Intact(m: KvMap, us: set<Upload>) {
    Distinct(us) && forall metaKey :: MetaOk(m, us, metaKey)
  }

  // ---- What a read sees ----

  lemma ReadBacked(m: KvMap, u: Upload)
    requires Proper(u) && BackedAt(m, MetaKeyOf(u), u)
    ensures var meta := MetaAt(m, MetaKeyOf(u)).value;
            GetObject(m, u.bucket, u.key) == if meta.state == DELETED then IsDeleted else Found(meta, u.data)
  {
    hide ChunksHeld, Deserialize, Gather, Encodable, Offset, IdOf;
    var meta := MetaAt(m, MetaKeyOf(u)).value;
    if meta.state == COMMITTED {
      GatherHeld(m, u, Count(u));
      ChunksCover(u, Count(u));
      assert u.data[..|u.data|] == u.data;
    }
  }

  /** A read finds nothing, a deleted object, or the whole data of one upload to that very bucket
      and key with metadata that describes it: never a mix, never a missing chunk, never unreadable metadata. */
  lemma ReadsAreWhole(m: KvMap, us: set<Upload>, bucket: Bytes, key: Bytes)
    requires Intact(m, us) && NoColon(bucket)
    ensures var r := GetObject(m, bucket, key);
            || r == NoMetadata || r == IsDeleted
            || exists u :: u in us && u.bucket == bucket && u.key == key && ReadsAs(r, u)
  {
    hide Deserialize, Gather, Encodable, Needed, ObjectMetaKey, IdOf, HasPrefix, NoColon;
    var mk := ObjectMetaKey(bucket, key);
    KeyPrefixes(bucket, key, [], 0);
    assert MetaOk(m, us, mk);
    if mk in m {
      var u :| u in us && BackedAt(m, mk, u);
      ObjectKeysInjective(bucket, key, u.bucket, u.key);
      ReadBacked(m, u);
      MetaDescribes(u);
    }
  }

  // ---- Steps that leave metadata and live chunks alone ----

  ghost predicate KeepsChunks(m: KvMap, m': KvMap, u: Upload) {
    forall i: nat :: ChunkHeld(m, u, i) ==> ChunkHeld(m', u, i)
  }

  /** Upload `u` is the committed version of its object. */
  ghost predicate Live(m: KvMap, u: Upload) {
    CommittedAt(m, MetaKeyOf(u)) && MetaAt(m, MetaKeyOf(u)).value.objectId == IdOf(u)
  }

  ghost predicate KeepsLive(m: KvMap, m': KvMap, us: set<Upload>) {
    forall u :: u in us && Live(m, u) ==> KeepsChunks(m, m', u)
  }

  ghost predicate KeepsMeta(m: KvMap, m': KvMap, metaKey: Bytes) {
    Lookup(m', metaKey) == Lookup(m, metaKey)
  }

  lemma StillBacked(m: KvMap, m': KvMap, us: set<Upload>, metaKey: Bytes, u: Upload)
    requires KeepsMeta(m, m', metaKey) && KeepsLive(m, m', us) && u in us && BackedAt(m, metaKey, u)
    ensures BackedAt(m', metaKey, u)
  {
    hide Deserialize, Count, ChunkHeld, IdOf, MetaKeyOf;
    var meta := MetaAt(m, metaKey).value;
    if meta.state == COMMITTED {
      assert Live(m, u);
      forall i: nat | i < Count(u) ensures ChunkHeld(m', u, i) {
        assert ChunkHeld(m, u, i);
      }
    }
  }

  lemma StillOk(m: KvMap, m': KvMap, us: set<Upload>, us': set<Upload>, metaKey: Bytes)
    requires KeepsMeta(m, m', metaKey) && KeepsLive(m, m', us) && us <= us' && MetaOk(m, us, metaKey)
    ensures MetaOk(m', us', metaKey)
  {
    hide BackedAt, KeepsLive;
    if metaKey in m' && HasPrefix(metaKey, OBJMETA) {
      var u :| u in us && BackedAt(m, metaKey, u);
      StillBacked(m, m', us, metaKey, u);
    }
  }

  lemma StaysIntact(m: KvMap, m': KvMap, us: set<Upload>, us': set<Upload>)
    requires Intact(m, us) && us <= us' && Distinct(us') && KeepsLive(m, m', us)
    requires forall mk :: HasPrefix(mk, OBJMETA) ==> KeepsMeta(m, m', mk)
    ensures Intact(m', us')
  {
    hide Distinct, KeepsLive, KeepsMeta, HasPrefix;
    forall mk ensures MetaOk(m', us', mk) {
      assert MetaOk(m, us, mk);
      if HasPrefix(mk, OBJMETA) {
        StillOk(m, m', us, us', mk);
      }
    }
  }

  lemma SameRead(m: KvMap, m': KvMap, us: set<Upload>, bucket: Bytes, key: Bytes)
    requires Intact(m, us) && KeepsMeta(m, m', ObjectMetaKey(bucket, key)) && KeepsLive(m, m', us)
    ensures NoColon(bucket) ==> GetObject(m', bucket, key) == GetObject(m, bucket, key)
  {
    hide Deserialize, Gather, Encodable, Needed, ObjectMetaKey, IdOf, HasPrefix, NoColon, KeepsLive;
    var mk := ObjectMetaKey(bucket, key);
    KeyPrefixes(bucket, key, [], 0);
    assert MetaOk(m, us, mk);
    if NoColon(bucket) && mk in m {
      var u :| u in us && BackedAt(m, mk, u);
      ObjectKeysInjective(bucket, key, u.bucket, u.key);
      StillBacked(m, m', us, mk, u);
      ReadBacked(m, u);
      ReadBacked(m', u);
    }
  }

  // ---- Upload ----

  lemma OtherChunksApart(u: Upload, v: Upload, i: nat)
    requires IdOf(u) != IdOf(v)
    ensures NotAChunkOf(u, ChunkKey(IdOf(v), i))
  {
    hide ChunkKey, IdOf;
    forall j: nat ensures ChunkKey(IdOf(v), i) != ChunkKey(IdOf(u), j) {
      if ChunkKey(IdOf(v), i) == ChunkKey(IdOf(u), j) {
        ChunkKeyInjective(IdOf(v), i, IdOf(u), j);
      }
    }
  }

  /** Keys an upload does not write keep their values throughout. */
  lemma PartialKeeps(m: KvMap, u: Upload, j: nat, k: Bytes)
    requires NotAChunkOf(u, k) && (k != MetaKeyOf(u) || j <= Count(u)) && k != IndexKeyOf(u)
    ensures Lookup(Partial(m, u, j), k) == Lookup(m, k)
  {
    hide ChunkOps, Fold, Count, Serialize, MetaKeyOf, IndexKeyOf, NotAChunkOf, IdOf;
    ChunkOpsKeep(m, u, if j <= Count(u) then j else Count(u), k);
  }

  lemma PartialKeepsChunks(m: KvMap, us: set<Upload>, u: Upload, j: nat)
    requires Fresh(us, u)
    ensures KeepsLive(m, Partial(m, u, j), us)
  {
    hide Partial, NotAChunkOf, IdOf, ChunkKey, ChunkOf, Proper, HasPrefix, MetaKeyOf, IndexKeyOf;
    forall v, i: nat | v in us && ChunkHeld(m, v, i) ensures ChunkHeld(Partial(m, u, j), v, i) {
      OtherChunksApart(u, v, i);
      KeyPrefixes(u.bucket, u.key, IdOf(v), i);
      NamespacesDisjoint(ChunkKey(IdOf(v), i));
      MetaAndIndexPrefixes(u);
      PartialKeeps(m, u, j, ChunkKey(IdOf(v), i));
    }
  }

  lemma MetaAndIndexPrefixes(u: Upload)
    ensures HasPrefix(MetaKeyOf(u), OBJMETA) && HasPrefix(IndexKeyOf(u), BUCKETIDX)
  {
    hide HasPrefix;
    KeyPrefixes(u.bucket, u.key, [], 0);
  }

  lemma PartialKeepsMeta(m: KvMap, u: Upload, j: nat, mk: Bytes)
    requires HasPrefix(mk, OBJMETA) && (mk != MetaKeyOf(u) || j <= Count(u))
    ensures KeepsMeta(m, Partial(m, u, j), mk)
  {
    hide Partial, NotAChunkOf, MetaKeyOf, IndexKeyOf, HasPrefix, Count;
    ChunkKeysApart(u, mk);
    MetaAndIndexPrefixes(u);
    NamespacesDisjoint(mk);
    PartialKeeps(m, u, j, mk);
  }

  lemma OneMore(us: set<Upload>, u: Upload)
    requires Distinct(us) && Fresh(us, u)
    ensures Distinct(us + {u})
  {
    hide Proper, IdOf;
  }

  lemma NewVersionBacked(m: KvMap, u: Upload, j: nat)
    requires Proper(u) && Count(u) < j <= Count(u) + 2
    ensures BackedAt(Partial(m, u, j), MetaKeyOf(u), u)
    ensures GetObject(Partial(m, u, j), u.bucket, u.key) == Found(MetaOf(u), u.data)
  {
    hide Partial, Encodable, Needed, Count, Serialize, Deserialize, ChunksHeld, GetObject, MetaAt;
    CommittedUpload(m, u, j);
    ReadBacked(Partial(m, u, j), u);
  }

  lemma UploadIntact(m: KvMap, us: set<Upload>, u: Upload, j: nat)
    requires Intact(m, us) && Fresh(us, u) && j <= |UploadOps(u)|
    ensures Intact(Fold(m, UploadOps(u)[..j]), us + {u})
  {
    hide Distinct, Fresh, Proper, Partial, BackedAt, KeepsLive, KeepsMeta, HasPrefix, MetaKeyOf, Count, Fold;
    var m' := Partial(m, u, j);
    assert |UploadOps(u)| == Count(u) + 2;
    PartialUpload(m, u, j);
    PartialKeepsChunks(m, us, u, j);
    OneMore(us, u);
    FreshIsProper(us, u);
    forall mk ensures MetaOk(m', us + {u}, mk) {
      assert MetaOk(m, us, mk);
      if mk == MetaKeyOf(u) && j > Count(u) {
        NewVersionBacked(m, u, j);
      } else if HasPrefix(mk, OBJMETA) {
        PartialKeepsMeta(m, u, j, mk);
        StillOk(m, m', us, us + {u}, mk);
      }
    }
  }

  lemma FreshIsProper(us: set<Upload>, u: Upload)
    requires Fresh(us, u)
    ensures Proper(u) && NoColon(u.bucket)
  {
  }

  /** An upload is atomic: after any prefix of its key-value operations its object reads as before
      until the metadata is written, and as the whole new version from then on; every other object
      reads as before. */
  lemma UploadAtomic(m: KvMap, us: set<Upload>, u: Upload, j: nat, bucket: Bytes, key: Bytes)
    requires Intact(m, us) && Fresh(us, u) && j <= |UploadOps(u)| && NoColon(bucket)
    ensures GetObject(Fold(m, UploadOps(u)[..j]), bucket, key) ==
            if bucket == u.bucket && key == u.key && j > Count(u) then Found(MetaOf(u), u.data)
            else GetObject(m, bucket, key)
  {
    hide Intact, Fresh, Proper, Partial, KeepsLive, KeepsMeta, HasPrefix, NoColon, Count, Fold, GetObject, MetaOf,
      ObjectMetaKey;
    assert |UploadOps(u)| == Count(u) + 2;
    PartialUpload(m, u, j);
    FreshIsProper(us, u);
    ObjectKeysInjective(bucket, key, u.bucket, u.key);
    if bucket == u.bucket && key == u.key && j > Count(u) {
      NewVersionBacked(m, u, j);
    } else {
      KeyPrefixes(bucket, key, [], 0);
      PartialKeepsMeta(m, u, j, ObjectMetaKey(bucket, key));
      PartialKeepsChunks(m, us, u, j);
      SameRead(m, Partial(m, u, j), us, bucket, key);
    }
  }

  // ---- Two uploads with one id ----

  lemma {:induction false} ChunkOpsKeepLater(m: KvMap, v: Upload, n: nat, x: nat)
    requires x >= n
    ensures Lookup(Fold(m, ChunkOps(v, n)), ChunkKey(IdOf(v), x)) == Lookup(m, ChunkKey(IdOf(v), x))
  {
    hide ChunkKey, ChunkOf, IdOf;
    if n > 0 {
      ChunkOpsKeepLater(m, v, n - 1, x);
      FoldSnoc(m, ChunkOps(v, n - 1), Put(ChunkKey(IdOf(v), n - 1), ChunkOf(v, n - 1)));
      if ChunkKey(IdOf(v), x) == ChunkKey(IdOf(v), n - 1) {
        ChunkKeyInjective(IdOf(v), x, IdOf(v), n - 1);
      }
    }
  }

  /** Chunks from `i` on are those of `u`. */
  ghost predicate LaterHeld(m: KvMap, u: Upload, i: nat, n: nat) {
    forall x: nat :: i <= x < n ==> ChunkHeld(m, u, x)
  }

  lemma {:induction false} GatherMixed(m: KvMap, u: Upload, v: Upload, i: nat, n: nat)
    requires i <= n && IdOf(u) == IdOf(v) && ChunksHeld(m, v, i) && LaterHeld(m, u, i, n)
    ensures Offset(u, i) <= Offset(u, n)
    ensures Gather(m, IdOf(u), n) == Complete(v.data[..Offset(v, i)] + u.data[Offset(u, i)..Offset(u, n)])
    decreases n
  {
    hide ChunkKey, IdOf, Offset;
    if n == i {
      GatherHeld(m, v, i);
      assert u.data[Offset(u, i)..Offset(u, i)] == [];
    } else {
      GatherMixed(m, u, v, i, n - 1);
      assert ChunkHeld(m, u, n - 1);
      OffsetSteps(u, n - 1);
      var a, b, c := Offset(u, i), Offset(u, n - 1), Offset(u, n);
      assert u.data[a..b] + u.data[b..c] == u.data[a..c];
    }
  }

  /** How many of the committed version's chunks an upload with the same id has overwritten. */
  function Overwritten(u: Upload, j: nat): nat {
    if j < Count(u) then j else Count(u)
  }

  lemma MixedChunks(m: KvMap, u: Upload, v: Upload, j: nat)
    requires IdOf(u) == IdOf(v) && ChunksHeld(m, u, Count(u))
    ensures var m', i := Fold(m, ChunkOps(v, j)), Overwritten(u, j);
            ChunksHeld(m', v, i) && LaterHeld(m', u, i, Count(u))
  {
    hide ChunkKey, IdOf, ChunkOf, Fold, Count, ChunkOps;
    var m', i := Fold(m, ChunkOps(v, j)), Overwritten(u, j);
    ChunkOpsStore(m, v, j);
    forall x: nat | i <= x < Count(u) ensures ChunkHeld(m', u, x) {
      assert ChunkHeld(m, u, x);
      ChunkOpsKeepLater(m, v, j, x);
    }
  }

  /** Freshness is needed: an upload in the same millisecond as the committed version has its id, and if it
      is cut before its metadata is written, the object reads as a mix, the first chunks from the one and
      the rest from the other.  It reads as before exactly when the data agree that far. */
  lemma SameIdMixes(m: KvMap, u: Upload, v: Upload, j: nat)
    requires Proper(u) && NoColon(v.bucket) && IdOf(u) == IdOf(v) && j <= Count(v)
    requires BackedAt(m, MetaKeyOf(u), u) && MetaAt(m, MetaKeyOf(u)).value.state == COMMITTED
    ensures var i := Overwritten(u, j);
            var mixed := v.data[..Offset(v, i)] + u.data[Offset(u, i)..];
            && GetObject(Fold(m, UploadOps(v)[..j]), u.bucket, u.key) == Found(MetaAt(m, MetaKeyOf(u)).value, mixed)
            && (mixed == u.data <==> v.data[..Offset(v, i)] == u.data[..Offset(u, i)])
  {
    hide Deserialize, Gather, Encodable, Offset, ChunksHeld, LaterHeld, HasPrefix, Fold, ChunkOps, Needed, NoColon,
      ObjectId;
    var i := Overwritten(u, j);
    var m' := Fold(m, ChunkOps(v, j));
    UploadCount(v);
    PartialUpload(m, v, j);
    MetaAndIndexPrefixes(u);
    PartialKeepsMeta(m, v, j, MetaKeyOf(u));
    MixedChunks(m, u, v, j);
    GatherMixed(m', u, v, i, Count(u));
    ProperCovers(u);
    assert u.data[Offset(u, i)..|u.data|] == u.data[Offset(u, i)..];
    SuffixCancels(v.data[..Offset(v, i)], u.data, Offset(u, i));
  }

  lemma UploadCount(u: Upload)
    ensures |UploadOps(u)| == Count(u) + 2
  {
  }

  lemma ProperCovers(u: Upload)
    requires Proper(u)
    ensures Offset(u, Count(u)) == |u.data|
  {
    hide Encodable, Offset;
    ChunksCover(u, Count(u));
  }

  lemma SuffixCancels(a: Bytes, b: Bytes, n: nat)
    requires n <= |b|
    ensures a + b[n..] == b <==> a == b[..n]
  {
    if a + b[n..] == b {
      assert a == (a + b[n..])[..|a|];
    }
    assert b == b[..n] + b[n..];
  }

  // ---- Deletion ----

  /** The map after the first `j` operations of a deletion. */
  lemma PartialDelete(m: KvMap, bucket: Bytes, key: Bytes, now: nat, j: nat)
    requires j <= |DeleteOps(m, bucket, key, now)|
    ensures var ops := DeleteOps(m, bucket, key, now);
            Fold(m, ops[..j]) ==
              if j == 0 then m else if j == 1 then Apply(m, ops[0]) else Apply(Apply(m, ops[0]), ops[1])
  {
    hide Apply, Serialize, Deserialize;
    var ops := DeleteOps(m, bucket, key, now);
    if j > 0 {
      FoldSnoc(m, [], ops[0]);
      assert [] + [ops[0]] == ops[..1];
      if j > 1 {
        FoldSnoc(m, ops[..1], ops[1]);
        assert ops[..1] + [ops[1]] == ops[..2];
      }
    }
  }

  lemma DeletedReadsBack(raw: Bytes, now: nat)
    requires Deserialize(raw).Some? && now < TWO_64
    ensures var meta := DeletedMeta(Deserialize(raw).value, now); Deserialize(Serialize(meta)) == Some(meta)
  {
    hide Serialize, Deserialize, NoTab;
    ReadMetadataIsWritable(raw);
    MetadataRoundTrip(DeletedMeta(Deserialize(raw).value, now));
  }

  /** Deletion changes the metadata of the one object, from its first operation on, and no chunk. */
  lemma PartialDeleteEffect(m: KvMap, bucket: Bytes, key: Bytes, now: nat, j: nat)
    requires 0 < j <= |DeleteOps(m, bucket, key, now)| && now < TWO_64
    ensures var m' := Fold(m, DeleteOps(m, bucket, key, now)[..j]);
            var target := ObjectMetaKey(bucket, key);
            && MetaAt(m, target).Some? && MetaAt(m', target) == Some(DeletedMeta(MetaAt(m, target).value, now))
            && (forall k :: k != target && k != BucketIndexKey(bucket, key) ==> Lookup(m', k) == Lookup(m, k))
  {
    hide Serialize, Deserialize, Fold, ObjectMetaKey, BucketIndexKey, HasPrefix;
    PartialDelete(m, bucket, key, now, j);
    KeyPrefixes(bucket, key, [], 0);
    NamespacesDisjoint(ObjectMetaKey(bucket, key));
    DeletedReadsBack(m[ObjectMetaKey(bucket, key)], now);
  }

  lemma DeleteKeepsChunks(m: KvMap, us: set<Upload>, bucket: Bytes, key: Bytes, now: nat, j: nat)
    requires j <= |DeleteOps(m, bucket, key, now)| && now < TWO_64
    ensures KeepsLive(m, Fold(m, DeleteOps(m, bucket, key, now)[..j]), us)
  {
    hide DeleteOps, Fold, ObjectMetaKey, BucketIndexKey, HasPrefix, ChunkKey, ChunkOf, IdOf, DeletedMeta, MetaAt;
    if j == 0 {
      PartialNothing(m, DeleteOps(m, bucket, key, now));
    } else {
      PartialDeleteEffect(m, bucket, key, now, j);
      forall v: Upload, i: nat
        ensures ChunkKey(IdOf(v), i) != ObjectMetaKey(bucket, key)
        ensures ChunkKey(IdOf(v), i) != BucketIndexKey(bucket, key)
      {
        KeyPrefixes(bucket, key, IdOf(v), i);
        NamespacesDisjoint(ChunkKey(IdOf(v), i));
      }
    }
  }

  lemma PartialNothing(m: KvMap, ops: seq<Op>)
    ensures Fold(m, ops[..0]) == m
  {
  }

  lemma DeletedStillBacked(m: KvMap, m': KvMap, mk: Bytes, u: Upload, now: nat)
    requires BackedAt(m, mk, u) && MetaAt(m', mk) == Some(DeletedMeta(MetaAt(m, mk).value, now))
    ensures BackedAt(m', mk, u)
  {
    hide Deserialize, ChunksHeld, IdOf, Count;
  }

  lemma DeleteIntact(m: KvMap, us: set<Upload>, bucket: Bytes, key: Bytes, now: nat, j: nat)
    requires Intact(m, us) && j <= |DeleteOps(m, bucket, key, now)| && now < TWO_64
    ensures Intact(Fold(m, DeleteOps(m, bucket, key, now)[..j]), us)
  {
    hide Distinct, BackedAt, KeepsLive, DeleteOps, HasPrefix, ObjectMetaKey, BucketIndexKey, Fold, MetaAt, DeletedMeta;
    var m' := Fold(m, DeleteOps(m, bucket, key, now)[..j]);
    var target := ObjectMetaKey(bucket, key);
    DeleteKeepsChunks(m, us, bucket, key, now, j);
    KeyPrefixes(bucket, key, [], 0);
    if j == 0 {
      PartialNothing(m, DeleteOps(m, bucket, key, now));
    } else {
      PartialDeleteEffect(m, bucket, key, now, j);
      forall mk ensures MetaOk(m', us, mk) {
        assert MetaOk(m, us, mk);
        NamespacesDisjoint(mk);
        if mk == target {
          MetaAtPresent(m, mk);
          var u :| u in us && BackedAt(m, mk, u);
          DeletedStillBacked(m, m', mk, u, now);
        } else if HasPrefix(mk, OBJMETA) {
          StillOk(m, m', us, us, mk);
        }
      }
    }
  }

  lemma MetaAtPresent(m: KvMap, mk: Bytes)
    requires MetaAt(m, mk).Some?
    ensures mk in m
  {
  }

  lemma DeletedRead(m: KvMap, bucket: Bytes, key: Bytes, meta: Metadata, now: nat)
    requires MetaAt(m, ObjectMetaKey(bucket, key)) == Some(DeletedMeta(meta, now))
    ensures GetObject(m, bucket, key) == IsDeleted
  {
    hide Deserialize, Gather, ObjectMetaKey;
  }

  /** A deletion is atomic, from its first operation on; every other object reads as before. */
  lemma DeleteAtomic(m: KvMap, us: set<Upload>, bucket: Bytes, key: Bytes, now: nat, j: nat,
                     bucket': Bytes, key': Bytes)
    requires Intact(m, us) && j <= |DeleteOps(m, bucket, key, now)| && now < TWO_64 && NoColon(bucket)
             && NoColon(bucket')
    ensures GetObject(Fold(m, DeleteOps(m, bucket, key, now)[..j]), bucket', key') ==
            if bucket' == bucket && key' == key && j > 0 then IsDeleted else GetObject(m, bucket', key')
  {
    hide Intact, KeepsLive, DeleteOps, HasPrefix, ObjectMetaKey, BucketIndexKey, Fold, MetaAt, DeletedMeta,
      GetObject, NoColon;
    var m' := Fold(m, DeleteOps(m, bucket, key, now)[..j]);
    if j == 0 {
      PartialNothing(m, DeleteOps(m, bucket, key, now));
    } else {
      PartialDeleteEffect(m, bucket, key, now, j);
      ObjectKeysInjective(bucket, key, bucket', key');
      if bucket' == bucket && key' == key {
        DeletedRead(m', bucket, key, MetaAt(m, ObjectMetaKey(bucket, key)).value, now);
      } else {
        KeyPrefixes(bucket, key, [], 0);
        KeyPrefixes(bucket', key', [], 0);
        NamespacesDisjoint(ObjectMetaKey(bucket', key'));
        DeleteKeepsChunks(m, us, bucket, key, now, j);
        SameRead(m, m', us, bucket', key');
      }
    }
  }

  /** What a deletion leaves of the metadata: the state and the time of the last change are new. */
  lemma DeletionRecords(m: KvMap, bucket: Bytes, key: Bytes, now: nat)
    requires MetaAt(m, ObjectMetaKey(bucket, key)).Some? && now < TWO_64
    ensures var m' := Fold(m, DeleteOps(m, bucket, key, now));
            var meta, gone := MetaAt(m, ObjectMetaKey(bucket, key)).value, MetaAt(m', ObjectMetaKey(bucket, key));
            && gone.Some? && gone.value.state == DELETED && gone.value.updated == now
            && gone.value.objectId == meta.objectId && gone.value.bucket == meta.bucket && gone.value.key == meta.key
            && gone.value.size == meta.size && gone.value.chunkCount == meta.chunkCount
            && gone.value.chunkSize == meta.chunkSize && gone.value.contentType == meta.contentType
            && gone.value.etag == meta.etag && gone.value.created == meta.created
            && BucketIndexKey(bucket, key) !in m' && GetObject(m', bucket, key) == IsDeleted
  {
    hide Serialize, Deserialize, Fold, ObjectMetaKey, BucketIndexKey, GetObject;
    var ops := DeleteOps(m, bucket, key, now);
    assert ops[..2] == ops;
    PartialDelete(m, bucket, key, now, 2);
    PartialDeleteEffect(m, bucket, key, now, 2);
    DeletedRead(Fold(m, ops), bucket, key, MetaAt(m, ObjectMetaKey(bucket, key)).value, now);
  }

  // ---- Garbage collection, creating a bucket ----

  lemma LiveIsReachable(m: KvMap, u: Upload)
    requires Live(m, u)
    ensures Reachable(m, IdOf(u))
  {
    hide HasPrefix, CommittedAt, MetaAt, MetaKeyOf, IdOf;
    MetaAndIndexPrefixes(u);
    assert Marks(m, MetaKeyOf(u), IdOf(u));
  }

  lemma IdNotEmpty(u: Upload)
    ensures IdOf(u) != []
  {
  }

  /** Deleting any part of the garbage touches no metadata and no chunk of a live version. */
  lemma GarbageIsDead(m: KvMap, us: set<Upload>, gone: set<Bytes>)
    requires gone <= Garbage(m)
    ensures KeepsLive(m, m - gone, us)
    ensures forall mk :: HasPrefix(mk, OBJMETA) ==> KeepsMeta(m, m - gone, mk)
  {
    hide HasPrefix, Live, Reachable, ChunkKey, ChunkOwner, ChunkOf, IdOf;
    forall u, i: nat | u in us && Live(m, u) && ChunkHeld(m, u, i) ensures ChunkHeld(m - gone, u, i) {
      LiveIsReachable(m, u);
      IdNotEmpty(u);
      OwnerOfChunk(IdOf(u), i);
      assert !IsGarbage(m, ChunkKey(IdOf(u), i));
    }
    forall mk | HasPrefix(mk, OBJMETA) ensures KeepsMeta(m, m - gone, mk) {
      NamespacesDisjoint(mk);
      assert !IsGarbage(m, mk);
    }
  }

  lemma CollectIntact(m: KvMap, us: set<Upload>, gone: set<Bytes>)
    requires Intact(m, us) && gone <= Garbage(m)
    ensures Intact(m - gone, us)
  {
    hide Intact, Garbage, KeepsLive, KeepsMeta, HasPrefix;
    GarbageIsDead(m, us, gone);
    IntactIsDistinct(m, us);
    StaysIntact(m, m - gone, us, us);
  }

  lemma IntactIsDistinct(m: KvMap, us: set<Upload>)
    requires Intact(m, us)
    ensures Distinct(us)
  {
  }

  /** Writing a bucket's metadata changes nothing about objects. */
  lemma BucketIntact(m: KvMap, us: set<Upload>, bucket: Bytes, value: Bytes)
    requires Intact(m, us)
    ensures Intact(m[BucketMetaKey(bucket) := value], us)
  {
    hide Intact, Distinct, HasPrefix, ChunkKey, IdOf, ChunkOf, BucketMetaKey;
    var m' := m[BucketMetaKey(bucket) := value];
    KeyPrefixes(bucket, [], [], 0);
    NamespacesDisjoint(BucketMetaKey(bucket));
    forall v: Upload, i: nat ensures ChunkKey(IdOf(v), i) != BucketMetaKey(bucket) {
      KeyPrefixes(bucket, [], IdOf(v), i);
    }
    assert KeepsLive(m, m', us);
    IntactIsDistinct(m, us);
    StaysIntact(m, m', us, us);
  }
}
