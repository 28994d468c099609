/** The object store's operations as functions of the key-value map: what a read sees, which
    key-value operations an upload or a deletion issues, and what garbage collection removes. */
module Objects {
  import opened KvOps
  import opened ObjectKeys
  import opened ObjectMetadata

  // ---- Reading ----

  datatype Gathered = Missing(index: nat) | Complete(data: Bytes)

  /** The first `n` chunks of an object, in order; the first one missing ends it. */
  function Gather(m: KvMap, id: Bytes, n: nat): Gathered {
    if n == 0 then Complete([])
    else
      match Gather(m, id, n - 1)
      case Missing(i) => Missing(i)
      case Complete(d) =>
        match Lookup(m, ChunkKey(id, n - 1))
        case None => Missing(n - 1)
        case Some(chunk) => Complete(d + chunk)
  }

  datatype GetResult =
    | NoMetadata | Unreadable | IsDeleted | MissingChunk(index: nat) | Found(metadata: Metadata, data: Bytes)

  function ReadVia(m: KvMap, raw: Option<Bytes>): GetResult {
    if raw.None? then NoMetadata
    else
      match Deserialize(raw.value)
      case None => Unreadable
      case Some(meta) =>
        if meta.state == DELETED then IsDeleted
        else
          match Gather(m, meta.objectId, meta.chunkCount)
          case Missing(i) => MissingChunk(i)
          case Complete(d) => Found(meta, d)
  }

  function GetObject(m: KvMap, bucket: Bytes, key: Bytes): GetResult {
    ReadVia(m, Lookup(m, ObjectMetaKey(bucket, key)))
  }

  /** The five outcomes of a read: which one it is, and that a missing chunk is the first one missing. */
  lemma ReadOutcome(m: KvMap, bucket: Bytes, key: Bytes)
    ensures var r, mk := GetObject(m, bucket, key), ObjectMetaKey(bucket, key);
            && (r.NoMetadata? <==> mk !in m)
            && (r.Unreadable? <==> mk in m && Deserialize(m[mk]).None?)
            && (r.IsDeleted? <==> mk in m && Deserialize(m[mk]).Some? && Deserialize(m[mk]).value.state == DELETED)
            && (r.MissingChunk? ==>
                  var meta := Deserialize(m[mk]).value;
                  && r.index < meta.chunkCount && ChunkKey(meta.objectId, r.index) !in m
                  && forall i: nat :: i < r.index ==> ChunkKey(meta.objectId, i) in m)
            && (r.Found? ==>
                  && r.metadata == Deserialize(m[mk]).value
                  && forall i: nat :: i < r.metadata.chunkCount ==> ChunkKey(r.metadata.objectId, i) in m)
  {
    hide Deserialize, ObjectMetaKey, ChunkKey, Gather;
    var mk := ObjectMetaKey(bucket, key);
    if mk in m && Deserialize(m[mk]).Some? {
      FirstMissing(m, Deserialize(m[mk]).value.objectId, Deserialize(m[mk]).value.chunkCount);
    }
  }

  lemma {:induction false} FirstMissing(m: KvMap, id: Bytes, n: nat)
    ensures match Gather(m, id, n)
            case Complete(_) => forall i: nat :: i < n ==> ChunkKey(id, i) in m
            case Missing(k) => k < n && ChunkKey(id, k) !in m && forall i: nat :: i < k ==> ChunkKey(id, i) in m
  {
    hide ChunkKey;
    if n > 0 {
      FirstMissing(m, id, n - 1);
    }
  }

  // ---- Uploading ----

  type Positive = n: nat | n > 0 witness 1

  /** One PutObject call: the request, the store's chunk size, the checksum and the two clock
      readings, one for the object id and one for the time stamps. */
  datatype Upload = Upload(
    bucket: Bytes, key: Bytes, data: Bytes, contentType: Bytes,
    chunkSize: Positive, etag: Bytes, idMs: nat, now: nat)

  function IdOf(u: Upload): Bytes {
    ObjectId(u.bucket, u.key, u.idMs)
  }

  function MetaKeyOf(u: Upload): Bytes {
    ObjectMetaKey(u.bucket, u.key)
  }

  function IndexKeyOf(u: Upload): Bytes {
    BucketIndexKey(u.bucket, u.key)
  }

  /** The number of chunks the data needs ... */
  function Needed(size: nat, chunkSize: Positive): nat {
    (size + chunkSize - 1) / chunkSize
  }

  /** ... and the 32-bit number the code works with. */
  function Count(u: Upload): nat {
    Needed(|u.data|, u.chunkSize) % TWO_32
  }

  /** Where chunk `i` starts. */
  function Offset(u: Upload, i: nat): (n: nat)
    ensures n <= |u.data|
  {
    if i * u.chunkSize < |u.data| then i * u.chunkSize else |u.data|
  }

  function ChunkOf(u: Upload, i: nat): Bytes {
    OffsetSteps(u, i);
    u.data[Offset(u, i)..Offset(u, i + 1)]
  }

  function ChunkOps(u: Upload, n: nat): (ops: seq<Op>)
    ensures |ops| == n
  {
    if n == 0 then [] else ChunkOps(u, n - 1) + [Put(ChunkKey(IdOf(u), n - 1), ChunkOf(u, n - 1))]
  }

  function MetaOf(u: Upload): Metadata {
    Metadata(IdOf(u), u.bucket, u.key, |u.data|, Count(u), u.chunkSize, u.contentType, u.etag, u.now, u.now, COMMITTED)
  }

  function MetaOp(u: Upload): Op {
    Put(MetaKeyOf(u), Serialize(MetaOf(u)))
  }

  function IndexOp(u: Upload): Op {
    Put(IndexKeyOf(u), IdOf(u))
  }

  /** Chunks first, then the metadata, then the index entry. */
  function UploadOps(u: Upload): seq<Op> {
    ChunkOps(u, Count(u)) + [MetaOp(u), IndexOp(u)]
  }

  /** What the metadata format takes. */
  predicate Encodable(u: Upload) {
    && NoTab(u.bucket) && NoTab(u.key) && NoTab(u.contentType) && NoTab(u.etag)
    && |u.data| < TWO_64 && u.chunkSize < TWO_32 && u.now < TWO_64
  }

  /** Metadata that says of an upload what was uploaded, where to and when. */
  ghost predicate Describes(meta: Metadata, u: Upload) {
    && meta.bucket == u.bucket && meta.key == u.key && meta.size == |u.data|
    && meta.contentType == u.contentType && meta.etag == u.etag
    && meta.created == u.now && meta.updated == u.now && meta.state == COMMITTED
    && meta.chunkSize == u.chunkSize && meta.chunkCount == Needed(|u.data|, u.chunkSize) % TWO_32
    && meta.objectId == u.bucket + [COLON] + u.key + [COLON] + Decimal(u.idMs)
  }

  /** A read that yields exactly what was uploaded. */
  ghost predicate ReadsAs(r: GetResult, u: Upload) {
    r.Found? && r.data == u.data && Describes(r.metadata, u)
  }

  lemma MetaDescribes(u: Upload)
    ensures Describes(MetaOf(u), u)
  {
  }

  // ---- Deleting ----

  function DeletedMeta(meta: Metadata, now: nat): Metadata {
    meta.(state := DELETED, updated := now)
  }

  function MetaAt(m: KvMap, metaKey: Bytes): Option<Metadata> {
    if metaKey in m then Deserialize(m[metaKey]) else None
  }

  /** Without readable metadata a deletion does nothing. */
  function DeleteOps(m: KvMap, bucket: Bytes, key: Bytes, now: nat): seq<Op> {
    match MetaAt(m, ObjectMetaKey(bucket, key))
    case None => []
    case Some(meta) =>
      [Put(ObjectMetaKey(bucket, key), Serialize(DeletedMeta(meta, now))), Del(BucketIndexKey(bucket, key))]
  }

  // ---- Garbage collection ----

  predicate CommittedAt(m: KvMap, metaKey: Bytes) {
    MetaAt(m, metaKey).Some? && MetaAt(m, metaKey).value.state == COMMITTED
  }

  predicate Marks(m: KvMap, metaKey: Bytes, id: Bytes) {
    HasPrefix(metaKey, OBJMETA) && CommittedAt(m, metaKey) && MetaAt(m, metaKey).value.objectId == id
  }

  ghost predicate Reachable(m: KvMap, id: Bytes) {
    exists metaKey :: Marks(m, metaKey, id)
  }

  ghost predicate IsGarbage(m: KvMap, key: Bytes) {
    key in m && HasPrefix(key, OBJCHUNK) && ChunkOwner(key).Some? && !Reachable(m, ChunkOwner(key).value)
  }

  ghost function Garbage(m: KvMap): set<Bytes> {
    set key | key in m && IsGarbage(m, key)
  }

  // ---- Listing ----

  predicate VisibleAt(m: KvMap, metaKey: Bytes) {
    MetaAt(m, metaKey).Some? && MetaAt(m, metaKey).value.state != DELETED
  }

  predicate Listed(m: KvMap, bucket: Bytes, prefix: Bytes, key: Bytes) {
    HasPrefix(key, prefix) && BucketIndexKey(bucket, key) in m && VisibleAt(m, ObjectMetaKey(bucket, key))
  }

  // ---- Chunks partition the data ----

  lemma OffsetSteps(u: Upload, i: nat)
    ensures Offset(u, i) <= Offset(u, i + 1) <= |u.data|
  {
    assert (i + 1) * u.chunkSize == i * u.chunkSize + u.chunkSize;
  }

  lemma Multiples(a: nat, b: nat, c: nat)
    requires a <= b
    ensures a * c <= b * c
  {
    assert b * c == a * c + (b - a) * c;
  }

  lemma NeededIsEnough(size: nat, cs: Positive)
    ensures Needed(size, cs) * cs >= size && (Needed(size, cs) > 0 ==> (Needed(size, cs) - 1) * cs < size)
  {
    var q, r := (size + cs - 1) / cs, (size + cs - 1) % cs;
    assert size + cs - 1 == cs * q + r;
    assert cs * q == q * cs;
    assert q > 0 ==> (q - 1) * cs == q * cs - cs;
  }

  /** The chunks end exactly where the data ends, and no sooner. */
  lemma ChunksCover(u: Upload, n: nat)
    requires n <= Needed(|u.data|, u.chunkSize)
    ensures Offset(u, n) == |u.data| <==> n == Needed(|u.data|, u.chunkSize)
  {
    var q := Needed(|u.data|, u.chunkSize);
    NeededIsEnough(|u.data|, u.chunkSize);
    if n < q {
      Multiples(n, q - 1, u.chunkSize);
    }
  }

  ghost predicate ChunkHeld(m: KvMap, u: Upload, i: nat) {
    Lookup(m, ChunkKey(IdOf(u), i)) == Some(ChunkOf(u, i))
  }

  ghost predicate ChunksHeld(m: KvMap, u: Upload, n: nat) {
    forall i: nat :: i < n ==> ChunkHeld(m, u, i)
  }

  lemma {:induction false} GatherHeld(m: KvMap, u: Upload, n: nat)
    requires ChunksHeld(m, u, n)
    ensures Gather(m, IdOf(u), n) == Complete(u.data[..Offset(u, n)])
  {
    hide ChunkKey, IdOf, Offset;
    if n > 0 {
      GatherHeld(m, u, n - 1);
      assert ChunkHeld(m, u, n - 1);
      OffsetSteps(u, n - 1);
      assert u.data[..Offset(u, n - 1)] + u.data[Offset(u, n - 1)..Offset(u, n)] == u.data[..Offset(u, n)];
    } else {
      OffsetZero(u);
    }
  }

  lemma OffsetZero(u: Upload)
    ensures Offset(u, 0) == 0
  {
  }

  // ---- What the operations of an upload leave ----

  lemma {:induction false} ChunkOpsPrefix(u: Upload, n: nat, j: nat)
    requires j <= n
    ensures ChunkOps(u, n)[..j] == ChunkOps(u, j)
  {
    if j < n {
      ChunkOpsPrefix(u, n - 1, j);
      assert ChunkOps(u, n)[..j] == ChunkOps(u, n - 1)[..j];
    }
  }

  /** A key that is none of the upload's chunk keys. */
  ghost predicate NotAChunkOf(u: Upload, k: Bytes) {
    forall i: nat :: k != ChunkKey(IdOf(u), i)
  }

  lemma {:induction false} ChunkOpsKeep(m: KvMap, u: Upload, n: nat, k: Bytes)
    requires NotAChunkOf(u, k)
    ensures Lookup(Fold(m, ChunkOps(u, n)), k) == Lookup(m, k)
  {
    hide ChunkKey, ChunkOf, IdOf;
    if n > 0 {
      ChunkOpsKeep(m, u, n - 1, k);
      FoldSnoc(m, ChunkOps(u, n - 1), Put(ChunkKey(IdOf(u), n - 1), ChunkOf(u, n - 1)));
    }
  }

  lemma {:induction false} ChunkOpsStore(m: KvMap, u: Upload, n: nat)
    ensures ChunksHeld(Fold(m, ChunkOps(u, n)), u, n)
  {
    hide ChunkKey, ChunkOf, IdOf, Fold;
    if n > 0 {
      var before, op := Fold(m, ChunkOps(u, n - 1)), Put(ChunkKey(IdOf(u), n - 1), ChunkOf(u, n - 1));
      ChunkOpsStore(m, u, n - 1);
      FoldSnoc(m, ChunkOps(u, n - 1), op);
      forall i: nat | i < n ensures ChunkHeld(Apply(before, op), u, i) {
        if i < n - 1 {
          assert ChunkHeld(before, u, i);
          if ChunkKey(IdOf(u), i) == ChunkKey(IdOf(u), n - 1) {
            ChunkKeyInjective(IdOf(u), i, IdOf(u), n - 1);
          }
        }
      }
    }
  }

  /** The map after the first `j` operations of an upload: chunks, then metadata, then index. */
  ghost function Partial(m: KvMap, u: Upload, j: nat): KvMap {
    if j <= Count(u) then Fold(m, ChunkOps(u, j))
    else
      var chunks := Fold(m, ChunkOps(u, Count(u)));
      if j == Count(u) + 1 then Apply(chunks, MetaOp(u)) else Apply(Apply(chunks, MetaOp(u)), IndexOp(u))
  }

  lemma PartialUpload(m: KvMap, u: Upload, j: nat)
    requires j <= |UploadOps(u)|
    ensures Fold(m, UploadOps(u)[..j]) == Partial(m, u, j)
  {
    hide ChunkOps, MetaOp, IndexOp, Fold, Count;
    var n, chunks := Count(u), ChunkOps(u, Count(u));
    if j <= n {
      ChunkOpsPrefix(u, n, j);
      assert UploadOps(u)[..j] == chunks[..j];
    } else {
      FoldSnoc(m, chunks, MetaOp(u));
      if j == n + 1 {
        assert UploadOps(u)[..j] == chunks + [MetaOp(u)];
      } else {
        FoldSnoc(m, chunks + [MetaOp(u)], IndexOp(u));
        assert UploadOps(u)[..j] == chunks + [MetaOp(u)] + [IndexOp(u)];
      }
    }
  }

  lemma ChunkKeysApart(u: Upload, k: Bytes)
    requires HasPrefix(k, OBJMETA) || HasPrefix(k, BUCKETIDX) || HasPrefix(k, BUCKET)
    ensures NotAChunkOf(u, k)
  {
    hide HasPrefix, ChunkKey;
    NamespacesDisjoint(k);
    forall i: nat ensures k != ChunkKey(IdOf(u), i) {
      KeyPrefixes([], [], IdOf(u), i);
    }
  }

  lemma MetaRoundTrips(u: Upload)
    requires Encodable(u)
    ensures Deserialize(Serialize(MetaOf(u))) == Some(MetaOf(u))
  {
    hide Serialize, Deserialize, Needed;
    IdTabFree(u.bucket, u.key, u.idMs);
    MetadataRoundTrip(MetaOf(u));
  }

  lemma IdTabFree(bucket: Bytes, key: Bytes, ms: nat)
    requires NoTab(bucket) && NoTab(key)
    ensures NoTab(ObjectId(bucket, key, ms))
  {
    hide Decimal;
    DecimalPlain(ms);
  }

  lemma MetaAndIndexDiffer(u: Upload)
    ensures MetaKeyOf(u) != IndexKeyOf(u)
  {
    hide HasPrefix;
    KeyPrefixes(u.bucket, u.key, [], 0);
    NamespacesDisjoint(MetaKeyOf(u));
  }

  lemma ChunksSurvive(m: KvMap, u: Upload, op: Op, n: nat)
    requires ChunksHeld(m, u, n) && NotAChunkOf(u, op.key)
    ensures ChunksHeld(Apply(m, op), u, n)
  {
    hide ChunkKey, ChunkOf, IdOf;
    forall i: nat | i < n ensures ChunkHeld(Apply(m, op), u, i) {
      assert ChunkHeld(m, u, i);
    }
  }

  /** Once the metadata is written, the chunks it names are there. */
  lemma CommittedUpload(m: KvMap, u: Upload, j: nat)
    requires Encodable(u) && Count(u) < j <= Count(u) + 2
    ensures ChunksHeld(Partial(m, u, j), u, Count(u))
    ensures MetaAt(Partial(m, u, j), MetaKeyOf(u)) == Some(MetaOf(u))
  {
    hide ChunkOps, Fold, Count, Serialize, Deserialize, HasPrefix, NotAChunkOf, ChunksHeld, MetaOf, MetaKeyOf,
      IndexKeyOf;
    var chunks := Fold(m, ChunkOps(u, Count(u)));
    ChunkOpsStore(m, u, Count(u));
    UploadKeysApart(u);
    ChunksSurvive(chunks, u, MetaOp(u), Count(u));
    ChunksSurvive(Apply(chunks, MetaOp(u)), u, IndexOp(u), Count(u));
    MetaRoundTrips(u);
    MetaAndIndexDiffer(u);
  }

  lemma UploadKeysApart(u: Upload)
    ensures NotAChunkOf(u, MetaKeyOf(u)) && NotAChunkOf(u, IndexKeyOf(u))
  {
    hide HasPrefix, NotAChunkOf;
    KeyPrefixes(u.bucket, u.key, [], 0);
    ChunkKeysApart(u, MetaKeyOf(u));
    ChunkKeysApart(u, IndexKeyOf(u));
  }

  /** What a read yields once the metadata is in place. */
  lemma ReadUpload(m: KvMap, u: Upload)
    requires ChunksHeld(m, u, Count(u)) && MetaAt(m, MetaKeyOf(u)) == Some(MetaOf(u))
    ensures GetObject(m, u.bucket, u.key) == Found(MetaOf(u), u.data[..Offset(u, Count(u))])
  {
    hide ChunksHeld, Count, Offset, Deserialize, Gather;
    GatherHeld(m, u, Count(u));
  }

  /** A completed upload reads back as the data uploaded exactly when the chunk count fits in 32
      bits; a longer one reads back cut short. */
  lemma PutGet(m: KvMap, u: Upload)
    requires Encodable(u)
    ensures var r := GetObject(Fold(m, UploadOps(u)), u.bucket, u.key);
            && r == Found(MetaOf(u), u.data[..Offset(u, Count(u))])
            && Describes(r.metadata, u)
            && (ReadsAs(r, u) <==> Needed(|u.data|, u.chunkSize) < TWO_32)
            && (r == Found(MetaOf(u), u.data) <==> Needed(|u.data|, u.chunkSize) < TWO_32)
  {
    hide Fold, UploadOps, GetObject, MetaOf, Describes, Offset, Count, Needed, Encodable;
    MetaDescribes(u);
    PutGetMeta(m, u);
  }

  /** The index entry holds the object's id. */
  lemma UploadIndexes(m: KvMap, u: Upload)
    ensures Lookup(Fold(m, UploadOps(u)), BucketIndexKey(u.bucket, u.key)) ==
            Some(u.bucket + [COLON] + u.key + [COLON] + Decimal(u.idMs))
  {
    hide Fold, ChunkOps, BucketIndexKey, Decimal, Serialize, Count;
    assert UploadOps(u)[..|UploadOps(u)|] == UploadOps(u);
    PartialUpload(m, u, Count(u) + 2);
  }

  lemma PutGetMeta(m: KvMap, u: Upload)
    requires Encodable(u)
    ensures var r := GetObject(Fold(m, UploadOps(u)), u.bucket, u.key);
            && r == Found(MetaOf(u), u.data[..Offset(u, Count(u))])
            && (u.data[..Offset(u, Count(u))] == u.data <==> Needed(|u.data|, u.chunkSize) < TWO_32)
  {
    hide ChunksHeld, Partial, Fold, Deserialize, GetObject, MetaOf;
    var n := Needed(|u.data|, u.chunkSize);
    assert UploadOps(u)[..|UploadOps(u)|] == UploadOps(u);
    PartialUpload(m, u, Count(u) + 2);
    CommittedUpload(m, u, Count(u) + 2);
    ReadUpload(Partial(m, u, Count(u) + 2), u);
    ChunksCover(u, Count(u));
    assert u.data[..|u.data|] == u.data;
  }
}
