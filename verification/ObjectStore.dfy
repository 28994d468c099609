/** The object store as the code has it, on top of the key-value store.  Each operation is proved to
    issue exactly the key-value operations its specification names, in that order. */
module ObjectStores {
  import opened KvOps
  import Crc
  import Framing
  import opened WalLayout
  import opened WalFormat
  import opened Wals
  import opened KvStores
  import Snapshot
  import opened CrashRecovery
  import opened ObjectKeys
  import opened ObjectMetadata
  import opened Objects
  import opened ObjectAtomicity
  import ObjectRuns

  datatype PutResult =
    | BucketIsEmpty | KeyIsEmpty | NoSuchBucket | FlushFailed
    | Stored(objectId: Bytes, size: nat, chunkCount: nat, etag: Bytes)

  datatype DeleteResult = NothingToDelete | MetadataUnreadable | DeleteFlushFailed | Deleted

  datatype ListEntry = ListEntry(key: Bytes, size: nat, contentType: Bytes, etag: Bytes, updated: nat)
  datatype ListResult = ListOfEmptyBucket | ListOfNoBucket | Listing(entries: seq<ListEntry>)

  function EntryOf(meta: Metadata): ListEntry {
    ListEntry(meta.key, meta.size, meta.contentType, meta.etag, meta.updated)
  }

  /** A store that is open has performed `ops`, in memory and in its log, of which no more than these are
      added to what awaits a flush; one that is not, nothing. */
  twostate predicate Performed(kv: KVStore, ops: seq<Op>)
    reads kv
  {
    && kv.ready == old(kv.ready) && kv.base == old(kv.base) && kv.start == old(kv.start)
    && (kv.ready ==> kv.data == Fold(old(kv.data), ops) && kv.history == old(kv.history) + ops)
    && |kv.pending| <= |old(kv.pending)| + |ops|
    && (!kv.ready ==> kv.data == old(kv.data) && kv.history == old(kv.history))
  }

  /** Performing operations keeps the map in step with the log. */
  twostate lemma PerformedKeepsLogged(kv: KVStore, ops: seq<Op>)
    requires old(kv.Logged()) && Performed(kv, ops)
    ensures kv.Logged()
  {
    hide Fold;
    FoldConcat(kv.base, old(kv.history), ops);
  }

  lemma OneMoreOp(m: KvMap, h: seq<Op>, ops: seq<Op>, op: Op)
    ensures Fold(m, ops + [op]) == Apply(Fold(m, ops), op) && h + (ops + [op]) == h + ops + [op]
  {
    hide Fold, Apply;
    FoldSnoc(m, ops, op);
  }

  lemma NoOps(m: KvMap, h: seq<Op>)
    ensures Fold(m, []) == m && h + [] == h
  {
  }

  class ObjectStore {
    const kv: KVStore
    const chunkSize: Positive

    constructor (kv: KVStore, chunkSizeBytes: nat)
      ensures this.kv == kv && chunkSize == if chunkSizeBytes == 0 then 4096 else chunkSizeBytes
    {
      this.kv := kv;
      chunkSize := if chunkSizeBytes == 0 then 4096 else chunkSizeBytes;
    }

    method CreateBucket(bucket: Bytes, now: nat) returns (ok: bool)
      requires kv.Valid()
      modifies kv, kv.wal
      ensures kv.Valid() && ok == (bucket != [])
      ensures Performed(kv, ObjectRuns.RequestOps(old(kv.data), ObjectRuns.CreateBucket(bucket, now)))
    {
      hide HistoryOf, LogFile, Encodings, Crc.IsTable, Fold, BucketMetaKey, ObjectRuns.BucketMeta;
      NoOps(kv.data, kv.history);
      if bucket == [] {
        return false;
      }
      var known := kv.Get(BucketMetaKey(bucket));
      if known.Some? {
        return true;
      }
      var value := ObjectRuns.BucketMeta(bucket, now);
      OneMoreOp(kv.data, kv.history, [], Op.Put(BucketMetaKey(bucket), value));
      assert [] + [Op.Put(BucketMetaKey(bucket), value)] == [Op.Put(BucketMetaKey(bucket), value)];
      kv.Put(BucketMetaKey(bucket), value);
      ok := true;
    }

    method BucketExists(bucket: Bytes) returns (r: bool)
      ensures r == (bucket != [] && BucketMetaKey(bucket) in kv.data)
    {
      if bucket == [] {
        return false;
      }
      var known := kv.Get(BucketMetaKey(bucket));
      r := known.Some?;
    }

    /** Writes the chunks of an upload, one put each. */
    method WriteChunks(u: Upload)
      requires kv.Valid()
      modifies kv, kv.wal
      ensures kv.Valid() && Performed(kv, ChunkOps(u, Count(u)))
    {
      hide HistoryOf, LogFile, Encodings, Crc.IsTable, Fold, ChunkKey, Offset, IdOf, Count;
      NoOps(kv.data, kv.history);
      for i := 0 to Count(u)
        invariant kv.Valid() && Performed(kv, ChunkOps(u, i))
      {
        OffsetSteps(u, i);
        var chunk := u.data[Offset(u, i)..Offset(u, i + 1)];
        OneMoreOp(old(kv.data), old(kv.history), ChunkOps(u, i), Op.Put(ChunkKey(IdOf(u), i), chunk));
        kv.Put(ChunkKey(IdOf(u), i), chunk);
      }
    }

    method PutObject(bucket: Bytes, key: Bytes, data: Bytes, contentType: Bytes, etag: Bytes, idMs: nat, now: nat)
      returns (r: PutResult)
      requires kv.Valid()
      modifies kv, kv.wal
      ensures kv.Valid()
      ensures var u := Upload(bucket, key, data, contentType, chunkSize, etag, idMs, now);
              && Performed(kv, ObjectRuns.RequestOps(old(kv.data), ObjectRuns.PutObject(u)))
              && (r.Stored? ==> r == Stored(IdOf(u), |data|, Count(u), etag))
      ensures r.BucketIsEmpty? <==> bucket == []
      ensures r.KeyIsEmpty? <==> bucket != [] && key == []
      ensures r.NoSuchBucket? <==> bucket != [] && key != [] && BucketMetaKey(bucket) !in old(kv.data)
      ensures kv.ready ==> (r.Stored? <==> bucket != [] && key != [] && BucketMetaKey(bucket) in old(kv.data))
      ensures r.Stored? && kv.ready ==> kv.pending == []
    {
      hide HistoryOf, LogFile, Encodings, Crc.IsTable, Fold, IdOf, Count, ChunkOps, Serialize, MetaKeyOf,
        IndexKeyOf, BucketMetaKey;
      NoOps(kv.data, kv.history);
      if bucket == [] {
        return BucketIsEmpty;
      }
      if key == [] {
        return KeyIsEmpty;
      }
      var known := BucketExists(bucket);
      if !known {
        return NoSuchBucket;
      }
      var u := Upload(bucket, key, data, contentType, chunkSize, etag, idMs, now);
      FoldConcat(kv.data, ChunkOps(u, Count(u)), [MetaOp(u), IndexOp(u)]);
      assert kv.history + UploadOps(u) == kv.history + ChunkOps(u, Count(u)) + [MetaOp(u), IndexOp(u)];
      WriteChunks(u);
      Commit(u);
      var ok := kv.FlushWal();
      if !ok {
        return FlushFailed;
      }
      r := Stored(IdOf(u), |data|, Count(u), etag);
    }

    /** The metadata commit point, then the index entry. */
    method Commit(u: Upload)
      requires kv.Valid()
      modifies kv, kv.wal
      ensures kv.Valid() && Performed(kv, [MetaOp(u), IndexOp(u)])
    {
      hide HistoryOf, LogFile, Encodings, Crc.IsTable, Fold, IdOf, Count, Serialize, MetaKeyOf, IndexKeyOf;
      NoOps(kv.data, kv.history);
      OneMoreOp(kv.data, kv.history, [], MetaOp(u));
      OneMoreOp(kv.data, kv.history, [MetaOp(u)], IndexOp(u));
      assert [] + [MetaOp(u)] == [MetaOp(u)] && [MetaOp(u)] + [IndexOp(u)] == [MetaOp(u), IndexOp(u)];
      kv.Put(MetaKeyOf(u), Serialize(MetaOf(u)));
      kv.Put(IndexKeyOf(u), IdOf(u));
    }

    method GetObject(bucket: Bytes, key: Bytes) returns (r: GetResult)
      ensures r == Objects.GetObject(kv.data, bucket, key)
    {
      hide Deserialize, ChunkKey, ObjectMetaKey;
      var raw := kv.Get(ObjectMetaKey(bucket, key));
      if raw.None? {
        return NoMetadata;
      }
      var meta := Deserialize(raw.value);
      if meta.None? {
        return Unreadable;
      }
      if meta.value.state == DELETED {
        return IsDeleted;
      }
      var id, count := meta.value.objectId, meta.value.chunkCount;
      var data: Bytes := [];
      for i := 0 to count
        invariant Gather(kv.data, id, i) == Complete(data)
      {
        var chunk := kv.Get(ChunkKey(id, i));
        if chunk.None? {
          GatherStuck(kv.data, id, i, count);
          return MissingChunk(i);
        }
        data := data + chunk.value;
      }
      r := Found(meta.value, data);
    }

    method DeleteObject(bucket: Bytes, key: Bytes, now: nat) returns (r: DeleteResult)
      requires kv.Valid()
      modifies kv, kv.wal
      ensures kv.Valid()
      ensures Performed(kv, DeleteOps(old(kv.data), bucket, key, now))
      ensures r.NothingToDelete? <==> ObjectMetaKey(bucket, key) !in old(kv.data)
      ensures r.MetadataUnreadable? <==>
              ObjectMetaKey(bucket, key) in old(kv.data) && MetaAt(old(kv.data), ObjectMetaKey(bucket, key)).None?
      ensures kv.ready ==> (r.Deleted? <==> MetaAt(old(kv.data), ObjectMetaKey(bucket, key)).Some?)
      ensures r.Deleted? && kv.ready ==> kv.pending == []
    {
      hide HistoryOf, LogFile, Encodings, Crc.IsTable, Fold, ObjectMetaKey, BucketIndexKey, Serialize, Deserialize;
      NoOps(kv.data, kv.history);
      var raw := kv.Get(ObjectMetaKey(bucket, key));
      if raw.None? {
        return NothingToDelete;
      }
      var meta := Deserialize(raw.value);
      if meta.None? {
        return MetadataUnreadable;
      }
      MarkDeleted(bucket, key, meta.value, now);
      var ok := kv.FlushWal();
      if !ok {
        return DeleteFlushFailed;
      }
      r := Deleted;
    }

    /** The metadata marked deleted, then the index entry removed. */
    method MarkDeleted(bucket: Bytes, key: Bytes, meta: Metadata, now: nat)
      requires kv.Valid()
      modifies kv, kv.wal
      ensures kv.Valid()
      ensures Performed(kv, [Op.Put(ObjectMetaKey(bucket, key), Serialize(DeletedMeta(meta, now))),
                             Op.Del(BucketIndexKey(bucket, key))])
    {
      hide HistoryOf, LogFile, Encodings, Crc.IsTable, Fold, ObjectMetaKey, BucketIndexKey, Serialize;
      NoOps(kv.data, kv.history);
      var put, del := Op.Put(ObjectMetaKey(bucket, key), Serialize(DeletedMeta(meta, now))),
        Op.Del(BucketIndexKey(bucket, key));
      OneMoreOp(kv.data, kv.history, [], put);
      OneMoreOp(kv.data, kv.history, [put], del);
      assert [] + [put] == [put] && [put] + [del] == [put, del];
      kv.Put(put.key, put.value);
      var erased := kv.Del(del.key);
    }

    /** The ids of all committed metadata. */
    method MarkReachable() returns (marked: set<Bytes>)
      ensures forall id :: id in marked <==> Reachable(kv.data, id)
    {
      hide HasPrefix, Deserialize;
      marked := {};
      var metaKeys := kv.ListKeysWithPrefix(OBJMETA);
      for i := 0 to |metaKeys|
        invariant forall id :: id in marked <==> exists j :: 0 <= j < i && Marks(kv.data, metaKeys[j], id)
      {
        var raw := kv.Get(metaKeys[i]);
        if raw.Some? {
          var meta := Deserialize(raw.value);
          if meta.Some? && meta.value.state == COMMITTED {
            marked := marked + {meta.value.objectId};
          }
        }
      }
      forall id ensures id in marked <==> Reachable(kv.data, id) {
        if Reachable(kv.data, id) {
          var metaKey :| Marks(kv.data, metaKey, id);
          assert metaKey in metaKeys;
        }
      }
    }

    /** Mark and sweep; the keys it deletes are the garbage, each once, in the order listed. */
    method GarbageCollectChunks() returns (deleted: nat, ghost order: seq<Bytes>)
      requires kv.Valid()
      modifies kv, kv.wal
      ensures kv.Valid() && Performed(kv, ObjectRuns.Deletes(order))
      ensures (set k | k in order) == Garbage(old(kv.data)) && |order| == |Garbage(old(kv.data))|
      ensures kv.ready ==> deleted == |Garbage(old(kv.data))| && kv.data == old(kv.data) - Garbage(old(kv.data))
      ensures kv.ready ==> kv.pending == []
    {
      hide HistoryOf, LogFile, Encodings, Crc.IsTable, Fold, ObjectRuns.Deletes, Garbage, IsGarbage;
      var marked := MarkReachable();
      var chunkKeys := kv.ListKeysWithPrefix(OBJCHUNK);
      deleted, order := Sweep(marked, chunkKeys);
      SweptGarbage(old(kv.data), marked, chunkKeys, order);
      ObjectRuns.DeletesRemove(old(kv.data), order);
      var ok := kv.FlushWal();
    }

    method Sweep(marked: set<Bytes>, chunkKeys: seq<Bytes>) returns (deleted: nat, ghost order: seq<Bytes>)
      requires kv.Valid()
      requires forall i :: 0 <= i < |chunkKeys| ==> chunkKeys[i] in kv.data
      requires forall i, j :: 0 <= i < j < |chunkKeys| ==> chunkKeys[i] != chunkKeys[j]
      modifies kv, kv.wal
      ensures kv.Valid() && Performed(kv, ObjectRuns.Deletes(order)) && order == Unmarked(marked, chunkKeys)
      ensures kv.ready ==> deleted == |order|
    {
      hide HistoryOf, LogFile, Encodings, Crc.IsTable, Fold, LastColon, ChunkOwner;
      NoOps(kv.data, kv.history);
      deleted, order := 0, [];
      for i := 0 to |chunkKeys|
        invariant kv.Valid() && Performed(kv, ObjectRuns.Deletes(order)) && order == Unmarked(marked, chunkKeys[..i])
        invariant kv.ready ==> deleted == |order|
        invariant kv.ready ==> forall j :: i <= j < |chunkKeys| ==> chunkKeys[j] in kv.data
      {
        var k := chunkKeys[i];
        assert chunkKeys[..i + 1][..i] == chunkKeys[..i];
        var owner := ChunkOwner(k);
        if owner.Some? && owner.value !in marked {
          OneMoreOp(old(kv.data), old(kv.history), ObjectRuns.Deletes(order), Op.Del(k));
          DeletesMore(order, k);
          var erased := kv.Del(k);
          if erased {
            deleted := deleted + 1;
          }
          order := order + [k];
        }
      }
      assert chunkKeys[..|chunkKeys|] == chunkKeys;
    }

    /** One entry for each listed key, each key once, in whatever order the map yields them. */
    method ListObjects(bucket: Bytes, prefix: Bytes) returns (r: ListResult, ghost keys: seq<Bytes>)
      ensures r.ListOfEmptyBucket? <==> bucket == []
      ensures r.ListOfNoBucket? <==> bucket != [] && BucketMetaKey(bucket) !in kv.data
      ensures r.Listing? ==>
                && |keys| == |r.entries|
                && (forall i, j :: 0 <= i < j < |keys| ==> keys[i] != keys[j])
                && (forall k :: k in keys <==> Listed(kv.data, bucket, prefix, k))
                && (forall i :: 0 <= i < |keys| ==> ListedAs(kv.data, bucket, keys[i], r.entries[i]))
    {
      hide Deserialize, BucketMetaKey;
      keys := [];
      if bucket == [] {
        return ListOfEmptyBucket, keys;
      }
      var known := BucketExists(bucket);
      if !known {
        return ListOfNoBucket, keys;
      }
      var entries;
      entries, keys := Entries(bucket, prefix);
      r := Listing(entries);
    }

    method Entries(bucket: Bytes, prefix: Bytes) returns (entries: seq<ListEntry>, ghost keys: seq<Bytes>)
      ensures |keys| == |entries|
      ensures forall i, j :: 0 <= i < j < |keys| ==> keys[i] != keys[j]
      ensures forall k :: k in keys <==> Listed(kv.data, bucket, prefix, k)
      ensures forall i :: 0 <= i < |keys| ==> ListedAs(kv.data, bucket, keys[i], entries[i])
    {
      hide Deserialize, HasPrefix, BucketIndexKey, ObjectMetaKey;
      entries, keys := [], [];
      var indexKeys := kv.ListKeysWithPrefix(BucketIndexKey(bucket, prefix));
      var base := BUCKETIDX + bucket + [COLON];
      for i := 0 to |indexKeys|
        invariant |keys| == |entries|
        invariant forall a, b :: 0 <= a < b < |keys| ==> keys[a] != keys[b]
        invariant forall k ::
                    k in keys <==> Listed(kv.data, bucket, prefix, k) && BucketIndexKey(bucket, k) in indexKeys[..i]
        invariant forall a :: 0 <= a < |keys| ==> ListedAs(kv.data, bucket, keys[a], entries[a])
      {
        var indexKey := indexKeys[i];
        IndexedKey(bucket, prefix, indexKey);
        NextListed(indexKeys, i);
        if |indexKey| >= |base| {
          var key := indexKey[|base|..];
          var raw := kv.Get(ObjectMetaKey(bucket, key));
          if raw.Some? {
            var meta := Deserialize(raw.value);
            if meta.Some? && meta.value.state != DELETED {
              entries, keys := entries + [EntryOf(meta.value)], keys + [key];
            }
          }
        }
      }
      assert indexKeys[..|indexKeys|] == indexKeys;
      forall k | Listed(kv.data, bucket, prefix, k) ensures k in keys {
        ListedIsIndexed(bucket, prefix, k);
      }
    }
  }

  ghost predicate ListedAs(m: KvMap, bucket: Bytes, key: Bytes, e: ListEntry) {
    var meta := MetaAt(m, ObjectMetaKey(bucket, key));
    meta.Some? && e == EntryOf(meta.value)
  }

  /** Whatever the map holds, a listing tells of an object what a read of it tells. */
  lemma ListingAgrees(m: KvMap, bucket: Bytes, key: Bytes, e: ListEntry)
    requires ListedAs(m, bucket, key, e) && Objects.GetObject(m, bucket, key).Found?
    ensures var meta := Objects.GetObject(m, bucket, key).metadata;
            && e.key == meta.key && e.size == meta.size && e.contentType == meta.contentType && e.etag == meta.etag
            && e.updated == meta.updated
  {
    hide Deserialize, Gather, ObjectMetaKey;
  }

  /** In an intact state every entry of a listing tells of its key what was uploaded there and when, and
      the size is that of the data a read yields. */
  lemma ListingDescribes(m: KvMap, us: set<Upload>, bucket: Bytes, prefix: Bytes, key: Bytes, e: ListEntry)
    requires Intact(m, us) && NoColon(bucket) && Listed(m, bucket, prefix, key) && ListedAs(m, bucket, key, e)
    ensures e.key == key
    ensures exists u ::
              && u in us && u.bucket == bucket && u.key == key && ReadsAs(Objects.GetObject(m, bucket, key), u)
              && e.size == |u.data| && e.contentType == u.contentType && e.etag == u.etag && e.updated == u.now
  {
    hide Intact, NoColon, Deserialize, Gather, ObjectMetaKey, BucketIndexKey, HasPrefix;
    ReadsAreWhole(m, us, bucket, key);
    var u :| u in us && u.bucket == bucket && u.key == key && ReadsAs(Objects.GetObject(m, bucket, key), u);
  }

  lemma {:induction false} GatherStuck(m: KvMap, id: Bytes, i: nat, n: nat)
    requires i < n && ChunkKey(id, i) !in m && Gather(m, id, i).Complete?
    ensures Gather(m, id, n) == Missing(i)
  {
    hide ChunkKey;
    if n > i + 1 {
      GatherStuck(m, id, i, n - 1);
    }
  }

  /** The chunk keys whose owner is not marked, in order. */
  function Unmarked(marked: set<Bytes>, keys: seq<Bytes>): seq<Bytes> {
    if keys == [] then []
    else
      var k := keys[|keys| - 1];
      Unmarked(marked, keys[..|keys| - 1]) + if ChunkOwner(k).Some? && ChunkOwner(k).value !in marked then [k] else []
  }

  lemma DeletesMore(order: seq<Bytes>, k: Bytes)
    ensures ObjectRuns.Deletes(order + [k]) == ObjectRuns.Deletes(order) + [Op.Del(k)]
  {
    assert (order + [k])[..|order|] == order;
  }

  lemma {:induction false} UnmarkedExact(marked: set<Bytes>, keys: seq<Bytes>)
    requires forall i, j :: 0 <= i < j < |keys| ==> keys[i] != keys[j]
    ensures var order := Unmarked(marked, keys);
            && (forall k :: k in order <==> k in keys && ChunkOwner(k).Some? && ChunkOwner(k).value !in marked)
            && (forall i, j :: 0 <= i < j < |order| ==> order[i] != order[j])
  {
    hide ChunkOwner;
    if keys != [] {
      var n := |keys| - 1;
      UnmarkedExact(marked, keys[..n]);
      assert keys == keys[..n] + [keys[n]];
      assert keys[n] !in keys[..n];
    }
  }

  lemma {:induction false} DistinctSize(s: seq<Bytes>)
    requires forall i, j :: 0 <= i < j < |s| ==> s[i] != s[j]
    ensures |set k | k in s| == |s|
  {
    if s != [] {
      var n := |s| - 1;
      DistinctSize(s[..n]);
      assert s == s[..n] + [s[n]];
      assert (set k | k in s) == (set k | k in s[..n]) + {s[n]};
      assert s[n] !in (set k | k in s[..n]);
    }
  }

  lemma SweptGarbage(m: KvMap, marked: set<Bytes>, chunkKeys: seq<Bytes>, order: seq<Bytes>)
    requires order == Unmarked(marked, chunkKeys)
    requires forall id :: id in marked <==> Reachable(m, id)
    requires forall i :: 0 <= i < |chunkKeys| ==> chunkKeys[i] in m && HasPrefix(chunkKeys[i], OBJCHUNK)
    requires forall i, j :: 0 <= i < j < |chunkKeys| ==> chunkKeys[i] != chunkKeys[j]
    requires forall k :: k in m && HasPrefix(k, OBJCHUNK) ==> k in chunkKeys
    ensures (set k | k in order) == Garbage(m) && |order| == |Garbage(m)|
  {
    hide Reachable, HasPrefix, ChunkOwner, Unmarked;
    UnmarkedExact(marked, chunkKeys);
    DistinctSize(order);
    assert forall k :: k in order <==> k in m && IsGarbage(m, k);
    assert (set k | k in order) == Garbage(m);
  }

  /** A key found under the scan prefix is the index key of the object key cut out of it. */
  lemma IndexedKey(bucket: Bytes, prefix: Bytes, indexKey: Bytes)
    requires HasPrefix(indexKey, BucketIndexKey(bucket, prefix))
    ensures var base := BUCKETIDX + bucket + [COLON];
            && |indexKey| >= |base| && indexKey == BucketIndexKey(bucket, indexKey[|base|..])
            && HasPrefix(indexKey[|base|..], prefix)
            && forall k :: BucketIndexKey(bucket, k) == indexKey ==> k == indexKey[|base|..]
  {
    var base := BUCKETIDX + bucket + [COLON];
    var scan := BucketIndexKey(bucket, prefix);
    assert scan == base + prefix;
    assert indexKey == scan + indexKey[|scan|..];
    assert indexKey[..|base|] == base;
    assert indexKey == base + indexKey[|base|..];
    assert indexKey[|base|..][..|prefix|] == prefix;
    forall k | BucketIndexKey(bucket, k) == indexKey ensures k == indexKey[|base|..] {
      assert BucketIndexKey(bucket, k)[|base|..] == k;
    }
  }

  lemma ListedIsIndexed(bucket: Bytes, prefix: Bytes, key: Bytes)
    requires HasPrefix(key, prefix)
    ensures HasPrefix(BucketIndexKey(bucket, key), BucketIndexKey(bucket, prefix))
  {
    var scan := BucketIndexKey(bucket, prefix);
    assert BucketIndexKey(bucket, key) == scan + key[|prefix|..];
  }

  lemma NextListed(indexKeys: seq<Bytes>, i: nat)
    requires i < |indexKeys|
    ensures indexKeys[..i + 1] == indexKeys[..i] + [indexKeys[i]]
  {
  }

  // ---- Objects across a crash ----

  /** A store opened on the records `log`, a run of requests, and a crash at any byte.  `log` may itself
      end in the middle of an earlier request.  Recovery yields the map after some prefix of the run's
      key-value operations that includes everything flushed: every object reads as before or as after one
      request of the run, and every read is whole.  What recovery replayed is the `log` of the next
      opening, for which the same holds. */
  lemma ObjectsSurviveCrash(kv: KVStore, log: seq<Record>, img: Bytes, us: set<Upload>, rs: seq<ObjectRuns.Request>)
    returns (p: nat, i: nat)
    requires kv.Valid() && kv.ready && kv.Logged() && CrashImage(kv, img)
    requires kv.start == EncodeAll(log) && AllFit(log) && AllFit(log + kv.written + kv.pending)
    requires var m := Fold(kv.base, OpsOf(log));
             Intact(m, us) && ObjectRuns.Admitted(m, us, rs) && kv.history == OpsOf(log) + ObjectRuns.RunOps(m, rs)
    ensures var m, m' := Fold(kv.base, OpsOf(log)), Recovered(kv.base, img);
            && |ObjectRuns.RunOps(m, rs)| - |kv.pending| <= p <= |ObjectRuns.RunOps(m, rs)|
            && m' == Fold(m, ObjectRuns.RunOps(m, rs)[..p])
            && m' == Fold(kv.base, OpsOf(Replay(img).records)) && Replay(img).records <= log + kv.written + kv.pending
            && Intact(m', us + ObjectRuns.RunUploads(rs))
            && (rs != [] ==>
                  && i < |rs|
                  && ObjectRuns.BetweenVersions(m', ObjectRuns.After(m, rs[..i]), ObjectRuns.After(m, rs[..i + 1])))
  {
    hide HistoryOf, LogFile, Encodings, Crc.IsTable, Fold, EncodeAll, AllFit, Intact, CrashImage, Replay, OpsOf,
      ObjectRuns.Admitted, ObjectRuns.RunOps, ObjectRuns.After, ObjectRuns.RunUploads, ObjectRuns.BetweenVersions;
    var m := Fold(kv.base, OpsOf(log));
    var ops := ObjectRuns.RunOps(m, rs);
    var j := StoreCrash(kv, log, img);
    HistoryCoversLog(kv, log);
    p, i := j - |log|, 0;
    assert kv.history[..j] == OpsOf(log) + ops[..p];
    FoldConcat(kv.base, OpsOf(log), ops[..p]);
    ObjectRuns.RunIntact(m, us, rs, p);
    if rs != [] {
      i := ObjectRuns.RunAtomic(m, us, rs, p);
    }
  }

  lemma HistoryCoversLog(kv: KVStore, log: seq<Record>)
    requires kv.Valid() && kv.start == EncodeAll(log) && AllFit(log)
    ensures |kv.history| - |kv.pending| >= |log|
  {
    hide EncodeAll, AllFit, LogFile, Encodings, Crc.IsTable, HistoryOf, OpsOf;
    HistoryOfStart(log, kv.written, kv.pending);
  }

  // ---- Objects across a checkpoint ----

  /** A value free of white space has no tab, so it is no metadata. */
  lemma CleanIsNoMetadata(v: Bytes)
    requires Snapshot.Clean(v)
    ensures Deserialize(v).None?
  {
    var n := FieldLength(v);
    assert n == |v|;
    assert Fields([], 10) == None;
    assert Fields(v, 11) == None;
  }

  /** No snapshot text yields an object, and a checkpoint of a map with any object's metadata does not
      load back. */
  lemma CheckpointLosesObjects(m: KvMap, es: seq<Snapshot.Entry>, metaKey: Bytes, bucket: Bytes, key: Bytes)
    requires Snapshot.Enumerates(es, m) && MetaAt(m, metaKey).Some?
    ensures var m' := Snapshot.Load(map[], Snapshot.Text(es));
            m' != m && Objects.GetObject(m', bucket, key) in {NoMetadata, Unreadable}
  {
    hide Snapshot.Enumerates, Snapshot.Load, Snapshot.Text, Snapshot.Clean, ObjectMetaKey, Deserialize;
    var m', mk := Snapshot.Load(map[], Snapshot.Text(es)), ObjectMetaKey(bucket, key);
    Snapshot.SnapshotRoundTrip(m, es);
    if Snapshot.CleanMap(m) {
      CleanIsNoMetadata(m[metaKey]);
    }
    Snapshot.LoadsClean(Snapshot.Text(es));
    if mk in m' {
      CleanIsNoMetadata(m'[mk]);
    }
  }

  // ---- Objects across any number of crashes ----

  function RunsUploads(rss: seq<seq<ObjectRuns.Request>>): set<Upload> {
    if rss == [] then {} else RunsUploads(rss[..|rss| - 1]) + ObjectRuns.RunUploads(rss[|rss| - 1])
  }

  /** The records of each session are those of a run of requests on the map that session found. */
  ghost predicate Requested(base: KvMap, us: set<Upload>, logs: seq<Bytes>, ss: seq<Session>,
                            rss: seq<seq<ObjectRuns.Request>>) {
    && |logs| == |ss| + 1 && |rss| == |ss|
    && forall i :: 0 <= i < |ss| ==> RequestedIn(Recovered(base, logs[i]), us + RunsUploads(rss[..i]), ss[i], rss[i])
  }

  ghost predicate RequestedIn(m: KvMap, us: set<Upload>, s: Session, rs: seq<ObjectRuns.Request>) {
    ObjectRuns.Admitted(m, us, rs) && OpsOf(s.issued) == ObjectRuns.RunOps(m, rs)
  }

  /** The map after a session is that before it with a prefix of the session's operations. */
  lemma SessionMap(base: KvMap, kept: seq<Record>, s: Session, log: Bytes) returns (j: nat)
    requires AllFit(kept) && EndsIn(EncodeAll(kept), s, log)
    ensures s.flushed <= j <= |OpsOf(s.issued)|
            && Recovered(base, log) == Fold(Recovered(base, EncodeAll(kept)), OpsOf(s.issued)[..j])
  {
    hide AllFit, EncodeAll, Replay, OpsOf, Fold, Possible, Reopened;
    j := OneMoreSession(kept, s);
    ReplayClean(kept);
    ReplayClean(kept + s.issued[..j]);
    OpsConcat(kept, s.issued[..j]);
    OpsPrefix(s.issued, j);
    FoldConcat(base, OpsOf(kept), OpsOf(s.issued)[..j]);
  }

  /** Atomicity down to the bytes: whatever byte each of any number of crashes cuts the log at, with the
      torn tail repaired at each opening, the recovered map is intact, so every read is whole, it holds
      all that the last session flushed, and every object reads as before or as after one request of it. */
  lemma {:induction false} ObjectsSurviveManyCrashes(
    base: KvMap, us: set<Upload>, logs: seq<Bytes>, ss: seq<Session>, rss: seq<seq<ObjectRuns.Request>>)
      returns (p: nat, i: nat)
    requires Intact(base, us) && Chain(logs, ss) && Requested(base, us, logs, ss, rss)
    ensures Intact(Recovered(base, logs[|ss|]), us + RunsUploads(rss))
    ensures ss != [] ==>
              var m, rs := Recovered(base, logs[|ss| - 1]), rss[|ss| - 1];
              && ss[|ss| - 1].flushed <= p <= |ObjectRuns.RunOps(m, rs)|
              && Recovered(base, logs[|ss|]) == Fold(m, ObjectRuns.RunOps(m, rs)[..p])
    ensures ss != [] && rss[|ss| - 1] != [] ==>
              var m, rs := Recovered(base, logs[|ss| - 1]), rss[|ss| - 1];
              && i < |rs|
              && ObjectRuns.BetweenVersions(Recovered(base, logs[|ss|]),
                                            ObjectRuns.After(m, rs[..i]), ObjectRuns.After(m, rs[..i + 1]))
    decreases |ss|
  {
    hide Intact, EndsIn, Recovered, AllFit, EncodeAll, ObjectRuns.BetweenVersions, ObjectRuns.After,
      ObjectRuns.RunUploads, ObjectRuns.Admitted, ObjectRuns.RunOps, OpsOf, Survivors, Fold;
    p, i := 0, 0;
    if ss == [] {
      NothingLogged(base);
      assert us + {} == us;
    } else {
      var n := |ss| - 1;
      EarlierSessions(base, us, logs, ss, rss);
      var _, _ := ObjectsSurviveManyCrashes(base, us, logs[..n + 1], ss[..n], rss[..n]);
      var js := ManyCrashes(logs[..n + 1], ss[..n]);
      var m, before := Recovered(base, logs[n]), us + RunsUploads(rss[..n]);
      assert EndsIn(logs[n], ss[n], logs[n + 1]) && RequestedIn(m, before, ss[n], rss[n]);
      p := SessionMap(base, Survivors(ss[..n], js), ss[n], logs[n + 1]);
      ObjectRuns.RunIntact(m, before, rss[n], p);
      assert us + RunsUploads(rss) == before + ObjectRuns.RunUploads(rss[n]);
      if rss[n] != [] {
        i := ObjectRuns.RunAtomic(m, before, rss[n], p);
      }
    }
  }

  lemma NothingLogged(base: KvMap)
    ensures Recovered(base, []) == base
  {
    Framing.NothingToRead(ParseOne);
  }

  lemma EarlierSessions(base: KvMap, us: set<Upload>, logs: seq<Bytes>, ss: seq<Session>,
                        rss: seq<seq<ObjectRuns.Request>>)
    requires Chain(logs, ss) && Requested(base, us, logs, ss, rss) && ss != []
    ensures Chain(logs[..|ss|], ss[..|ss| - 1]) && Requested(base, us, logs[..|ss|], ss[..|ss| - 1], rss[..|ss| - 1])
  {
    hide EndsIn, RequestedIn, Recovered;
    var n := |ss| - 1;
    forall i | 0 <= i < n
      ensures RequestedIn(Recovered(base, logs[i]), us + RunsUploads(rss[..n][..i]), ss[i], rss[i])
    {
      assert rss[..n][..i] == rss[..i];
    }
  }

  /** An upload that returned success was flushed, so at most the operations of later requests are still
      buffered.  As long as none of those puts or deletes the same object, it reads back as uploaded after
      a crash at any byte, however many of the later operations the cut leaves. */
  lemma AcknowledgedUploadSurvives(
    kv: KVStore, log: seq<Record>, img: Bytes, us: set<Upload>, before: seq<ObjectRuns.Request>, u: Upload,
    later: seq<ObjectRuns.Request>)
    requires kv.Valid() && kv.ready && kv.Logged() && CrashImage(kv, img)
    requires kv.start == EncodeAll(log) && AllFit(log) && AllFit(log + kv.written + kv.pending)
    requires var m, rs := Fold(kv.base, OpsOf(log)), before + [ObjectRuns.PutObject(u)] + later;
             && Intact(m, us) && ObjectRuns.Admitted(m, us, rs)
             && kv.history == OpsOf(log) + ObjectRuns.RunOps(m, rs)
             && ObjectRuns.RequestOps(ObjectRuns.After(m, before), ObjectRuns.PutObject(u)) != []
             && |kv.pending| <=
                |ObjectRuns.RunOps(m, rs)| - |ObjectRuns.RunOps(m, before + [ObjectRuns.PutObject(u)])|
    requires ObjectRuns.AllElsewhere(later, u.bucket, u.key)
    ensures ReadsAs(Objects.GetObject(Recovered(kv.base, img), u.bucket, u.key), u)
  {
    hide HistoryOf, LogFile, Encodings, Crc.IsTable, Fold, EncodeAll, AllFit, Intact, CrashImage, Recovered, OpsOf,
      Objects.GetObject, ReadsAs, ObjectRuns.Admitted, ObjectRuns.RunOps, ObjectRuns.After, ObjectRuns.RequestOps,
      ObjectRuns.AllElsewhere, ObjectRuns.BetweenVersions, ObjectRuns.RunUploads;
    var m, rs := Fold(kv.base, OpsOf(log)), before + [ObjectRuns.PutObject(u)] + later;
    var p, _ := ObjectsSurviveCrash(kv, log, img, us, rs);
    ObjectRuns.UploadStays(m, us, before, u, later, p);
  }

  /** The last of several sessions: the intact map it found, and the prefix of its operations that the
      crash at its end left. */
  lemma LastSession(base: KvMap, us: set<Upload>, logs: seq<Bytes>, ss: seq<Session>,
                    rss: seq<seq<ObjectRuns.Request>>) returns (p: nat)
    requires Intact(base, us) && Chain(logs, ss) && Requested(base, us, logs, ss, rss) && ss != []
    ensures var n := |ss| - 1;
            var m, before := Recovered(base, logs[n]), us + RunsUploads(rss[..n]);
            && Intact(m, before) && ObjectRuns.Admitted(m, before, rss[n])
            && ss[n].flushed <= p <= |ObjectRuns.RunOps(m, rss[n])|
            && Recovered(base, logs[n + 1]) == Fold(m, ObjectRuns.RunOps(m, rss[n])[..p])
  {
    hide Intact, EndsIn, Recovered, RunsUploads, ObjectRuns.BetweenVersions, ObjectRuns.After, ObjectRuns.Admitted,
      ObjectRuns.RunOps, Fold;
    var n := |ss| - 1;
    EarlierSessions(base, us, logs, ss, rss);
    var _, _ := ObjectsSurviveManyCrashes(base, us, logs[..n + 1], ss[..n], rss[..n]);
    var q, _ := ObjectsSurviveManyCrashes(base, us, logs, ss, rss);
    assert RequestedIn(Recovered(base, logs[n]), us + RunsUploads(rss[..n]), ss[n], rss[n]);
    p := q;
  }

  lemma TakenName(m: KvMap, us: set<Upload>, s: Session, before: seq<ObjectRuns.Request>, u: Upload,
                  later: seq<ObjectRuns.Request>)
    requires RequestedIn(m, us, s, before + [ObjectRuns.PutObject(u)] + later)
    ensures NoColon(u.bucket)
  {
    hide Fold, NoColon, ObjectRuns.RequestOps;
    var put := [ObjectRuns.PutObject(u)];
    ObjectRuns.AdmittedConcat(m, us, before + put, later);
    ObjectRuns.AdmittedConcat(m, us, before, put);
  }

  /** The same through any number of crashes, with the torn tail repaired at each opening: an upload
      flushed in session `k` reads back as long as no later request puts or deletes the same object. */
  lemma {:induction false} AcknowledgedUploadSurvivesManyCrashes(
    base: KvMap, us: set<Upload>, logs: seq<Bytes>, ss: seq<Session>, rss: seq<seq<ObjectRuns.Request>>,
    k: nat, before: seq<ObjectRuns.Request>, u: Upload, later: seq<ObjectRuns.Request>)
    requires Intact(base, us) && Chain(logs, ss) && Requested(base, us, logs, ss, rss)
    requires k < |ss| && rss[k] == before + [ObjectRuns.PutObject(u)] + later
    requires var m := Recovered(base, logs[k]);
             && ObjectRuns.RequestOps(ObjectRuns.After(m, before), ObjectRuns.PutObject(u)) != []
             && |ObjectRuns.RunOps(m, before + [ObjectRuns.PutObject(u)])| <= ss[k].flushed
    requires ObjectRuns.AllElsewhere(later, u.bucket, u.key)
    requires forall i :: k < i < |rss| ==> ObjectRuns.AllElsewhere(rss[i], u.bucket, u.key)
    ensures ReadsAs(Objects.GetObject(Recovered(base, logs[|ss|]), u.bucket, u.key), u)
    decreases |ss|
  {
    hide Intact, EndsIn, RequestedIn, Recovered, RunsUploads, ObjectRuns.After, ObjectRuns.Admitted, ObjectRuns.RunOps,
      ObjectRuns.RequestOps, ObjectRuns.AllElsewhere, ObjectRuns.RunUploads, Fold, Objects.GetObject, ReadsAs;
    var n := |ss| - 1;
    var m, done := Recovered(base, logs[n]), us + RunsUploads(rss[..n]);
    var p := LastSession(base, us, logs, ss, rss);
    if k == n {
      ObjectRuns.UploadStays(m, done, before, u, later, p);
    } else {
      EarlierSessions(base, us, logs, ss, rss);
      AcknowledgedUploadSurvivesManyCrashes(base, us, logs[..n + 1], ss[..n], rss[..n], k, before, u, later);
      assert ObjectRuns.AllElsewhere(rss[n], u.bucket, u.key);
      assert RequestedIn(Recovered(base, logs[k]), us + RunsUploads(rss[..k]), ss[k], rss[k]);
      TakenName(Recovered(base, logs[k]), us + RunsUploads(rss[..k]), ss[k], before, u, later);
      ObjectRuns.RunElsewhere(m, done, rss[n], p, u.bucket, u.key);
    }
  }
}
