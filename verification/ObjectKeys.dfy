/** The four kinds of key the object store uses in the key-value store, and the text forms of
    numbers that keys and metadata are made of. */
module ObjectKeys {
  import opened KvOps
  import Snapshot

  const COLON: byte := 58
  const TAB: byte := 9

  predicate NoColon(s: Bytes) {
    COLON !in s
  }

  predicate NoTab(s: Bytes) {
    TAB !in s
  }

  // ---- Numbers as text ----

  predicate IsDigit(b: byte) {
    48 <= b <= 57
  }

  predicate AllDigits(s: Bytes) {
    forall i :: 0 <= i < |s| ==> IsDigit(s[i])
  }

  /** std::to_string and operator<< of an unsigned number. */
  function Decimal(n: nat): (s: Bytes)
    ensures s != [] && AllDigits(s)
  {
    if n < 10 then [48 + n] else Decimal(n / 10) + [48 + n % 10]
  }

  function ValueOf(s: Bytes): nat
    requires AllDigits(s)
  {
    if s == [] then 0 else 10 * ValueOf(s[..|s| - 1]) + (s[|s| - 1] - 48)
  }

  function LeadingDigits(s: Bytes): (n: nat)
    ensures n <= |s| && AllDigits(s[..n]) && (n < |s| ==> !IsDigit(s[n]))
  {
    if s == [] || !IsDigit(s[0]) then 0
    else
      var n := 1 + LeadingDigits(s[1..]);
      assert s[..n] == [s[0]] + s[1..][..n - 1];
      n
  }

  const TWO_32: nat := 0x1_0000_0000
  const TWO_64: nat := 0x1_0000_0000_0000_0000

  /** Where a number starts, after white space and a sign. */
  function Unsigned(s: Bytes): Bytes {
    var t := Snapshot.SkipSpace(s);
    if t != [] && (t[0] == 43 || t[0] == 45) then t[1..] else t
  }

  predicate Negative(s: Bytes) {
    var t := Snapshot.SkipSpace(s);
    t != [] && t[0] == 45
  }

  /** std::stoull and std::stoul: no digits or a value out of range throws; what follows the digits
      is ignored, and a minus sign wraps around. */
  function ReadUnsigned(s: Bytes): Option<nat> {
    var t := Unsigned(s);
    var n := LeadingDigits(t);
    var v := ValueOf(t[..n]);
    if n == 0 || v >= TWO_64 then None
    else Some(if Negative(s) && v > 0 then TWO_64 - v else v)
  }

  /** std::stoi. */
  function ReadInt(s: Bytes): Option<int> {
    var t := Unsigned(s);
    var n := LeadingDigits(t);
    var v: int := ValueOf(t[..n]);
    if n == 0 then None
    else if Negative(s) then (if v <= 0x8000_0000 then Some(-v) else None)
    else if v < 0x8000_0000 then Some(v)
    else None
  }

  lemma {:induction false} DecimalValue(n: nat)
    ensures ValueOf(Decimal(n)) == n
  {
    if n < 10 {
      assert [48 + n][..0] == [];
    } else {
      DecimalValue(n / 10);
      assert Decimal(n)[..|Decimal(n)| - 1] == Decimal(n / 10);
    }
  }

  lemma DigitsReadWhole(s: Bytes)
    requires s != [] && AllDigits(s)
    ensures Unsigned(s) == s && !Negative(s) && LeadingDigits(s) == |s| && s[..|s|] == s
  {
    assert IsDigit(s[0]);
    assert Snapshot.SkipSpace(s) == s;
  }

  lemma NumberRoundTrip(n: nat)
    ensures n < TWO_64 ==> ReadUnsigned(Decimal(n)) == Some(n)
    ensures n < 0x8000_0000 ==> ReadInt(Decimal(n)) == Some(n)
  {
    hide Decimal, Unsigned, Negative, LeadingDigits, ValueOf;
    DecimalValue(n);
    DigitsReadWhole(Decimal(n));
  }

  lemma {:induction false} SpaceSkipped(sp: Bytes, rest: Bytes)
    requires forall i :: 0 <= i < |sp| ==> Snapshot.IsSpace(sp[i])
    requires rest != [] && !Snapshot.IsSpace(rest[0])
    ensures Snapshot.SkipSpace(sp + rest) == rest
  {
    if sp == [] {
      assert sp + rest == rest;
    } else {
      SpaceSkipped(sp[1..], rest);
      assert (sp + rest)[1..] == sp[1..] + rest;
    }
  }

  lemma {:induction false} DigitsEnd(d: Bytes, rest: Bytes)
    requires AllDigits(d) && (rest != [] ==> !IsDigit(rest[0]))
    ensures LeadingDigits(d + rest) == |d| && (d + rest)[..|d|] == d
  {
    if d == [] {
      assert d + rest == rest;
    } else {
      DigitsEnd(d[1..], rest);
      assert (d + rest)[1..] == d[1..] + rest;
    }
  }

  /** How a number is read: white space before it is skipped, what follows its digits is ignored, and a
      minus sign counts down from 2^64. */
  lemma NumberRead(sp: Bytes, minus: bool, d: Bytes, rest: Bytes)
    requires forall i :: 0 <= i < |sp| ==> Snapshot.IsSpace(sp[i])
    requires d != [] && AllDigits(d) && (rest != [] ==> !IsDigit(rest[0]))
    ensures ReadUnsigned(sp + ((if minus then Ascii("-") else []) + (d + rest))) ==
            if ValueOf(d) >= TWO_64 then None
            else if minus && ValueOf(d) > 0 then Some(TWO_64 - ValueOf(d))
            else Some(ValueOf(d))
    ensures ReadInt(sp + ((if minus then Ascii("-") else []) + (d + rest))) ==
            var v: int := ValueOf(d);
            if minus && v <= 0x8000_0000 then Some(-v) else if !minus && v < 0x8000_0000 then Some(v) else None
  {
    hide LeadingDigits, ValueOf, Snapshot.SkipSpace;
    var body := (if minus then Ascii("-") else []) + (d + rest);
    assert IsDigit(d[0]);
    SpaceSkipped(sp, body);
    DigitsEnd(d, rest);
    if minus {
      assert body[1..] == d + rest;
    } else {
      assert body == d + rest;
    }
  }

  lemma DecimalExample()
    ensures Decimal(4096) == Ascii("4096") && Decimal(0) == Ascii("0")
  {
    assert Decimal(40) == [52, 48] && Decimal(409) == [52, 48, 57];
  }

  lemma DecimalInjective(n: nat, n': nat)
    requires Decimal(n) == Decimal(n')
    ensures n == n'
  {
    DecimalValue(n);
    DecimalValue(n');
  }

  lemma DecimalPlain(n: nat)
    ensures NoColon(Decimal(n)) && NoTab(Decimal(n))
  {
    hide Decimal;
    var s := Decimal(n);
    assert forall i :: 0 <= i < |s| ==> IsDigit(s[i]);
  }

  // ---- Keys ----

  /** "bucket:" */
  const BUCKET: Bytes := [98, 117, 99, 107, 101, 116, 58]

  /** "bucketidx:" */
  const BUCKETIDX: Bytes := [98, 117, 99, 107, 101, 116, 105, 100, 120, 58]

  /** "objmeta:" */
  const OBJMETA: Bytes := [111, 98, 106, 109, 101, 116, 97, 58]

  /** "objchunk:" */
  const OBJCHUNK: Bytes := [111, 98, 106, 99, 104, 117, 110, 107, 58]

  function BucketMetaKey(bucket: Bytes): Bytes {
    BUCKET + bucket
  }

  function ObjectMetaKey(bucket: Bytes, key: Bytes): Bytes {
    OBJMETA + bucket + [COLON] + key
  }

  function BucketIndexKey(bucket: Bytes, key: Bytes): Bytes {
    BUCKETIDX + bucket + [COLON] + key
  }

  function ChunkKey(objectId: Bytes, index: nat): Bytes {
    OBJCHUNK + objectId + [COLON] + Decimal(index)
  }

  /** bucket ":" key ":" milliseconds */
  function ObjectId(bucket: Bytes, key: Bytes, ms: nat): Bytes {
    bucket + [COLON] + key + [COLON] + Decimal(ms)
  }

  /** The keys as the documentation of the storage layout writes them. */
  lemma KeyLayout(bucket: Bytes, key: Bytes, id: Bytes, index: nat, ms: nat)
    ensures BucketMetaKey(bucket) == Ascii("bucket:") + bucket
    ensures ObjectMetaKey(bucket, key) == Ascii("objmeta:") + bucket + Ascii(":") + key
    ensures BucketIndexKey(bucket, key) == Ascii("bucketidx:") + bucket + Ascii(":") + key
    ensures ChunkKey(id, index) == Ascii("objchunk:") + id + Ascii(":") + Decimal(index)
    ensures ObjectId(bucket, key, ms) == bucket + Ascii(":") + key + Ascii(":") + Decimal(ms)
  {
    hide Decimal;
    Prefixes();
  }

  lemma Prefixes()
    ensures BUCKET == Ascii("bucket:") && BUCKETIDX == Ascii("bucketidx:") && OBJMETA == Ascii("objmeta:")
    ensures OBJCHUNK == Ascii("objchunk:") && [COLON] == Ascii(":") && [TAB] == Ascii("\t")
  {
  }

  /** rfind(':'), or -1. */
  function LastColon(s: Bytes): (r: int)
    ensures -1 <= r < |s|
  {
    if s == [] then -1
    else if s[|s| - 1] == COLON then |s| - 1
    else LastColon(s[..|s| - 1])
  }

  /** The object id garbage collection reads out of a key it listed under "objchunk:". */
  function ChunkOwner(key: Bytes): Option<Bytes> {
    var i := LastColon(key);
    if i <= |OBJCHUNK| then None else Some(key[|OBJCHUNK|..i])
  }

  // ---- Splitting at a separator ----

  lemma FirstSeparator(a: Bytes, b: Bytes, a': Bytes, b': Bytes, sep: byte)
    requires sep !in a && sep !in a' && a + [sep] + b == a' + [sep] + b'
    ensures a == a' && b == b'
  {
    var s, s' := a + [sep] + b, a' + [sep] + b';
    assert s[|a|] == sep && s'[|a'|] == sep;
    assert forall i :: 0 <= i < |a| ==> s[i] == a[i];
    assert forall i :: 0 <= i < |a'| ==> s'[i] == a'[i];
    assert a == s[..|a|] && a' == s'[..|a'|];
    assert b == s[|a| + 1..] && b' == s'[|a'| + 1..];
  }

  lemma {:induction false} LastSeparator(a: Bytes, b: Bytes)
    requires NoColon(b)
    ensures LastColon(a + [COLON] + b) == |a|
    decreases |b|
  {
    var s := a + [COLON] + b;
    if b == [] {
      assert s[|s| - 1] == COLON;
    } else {
      var c := b[..|b| - 1];
      assert s[|s| - 1] == b[|b| - 1] && s[..|s| - 1] == a + [COLON] + c;
      LastSeparator(a, c);
    }
  }

  lemma TwoParts(p: Bytes, a: Bytes, b: Bytes)
    ensures (p + a + [COLON] + b)[|p|..] == a + [COLON] + b && HasPrefix(p + a + [COLON] + b, p)
  {
  }

  // ---- The keys can be told apart ----

  /** For bucket names without a colon the keys of two objects differ. */
  lemma ObjectKeysInjective(bucket: Bytes, key: Bytes, bucket': Bytes, key': Bytes)
    requires NoColon(bucket) && NoColon(bucket')
    ensures ObjectMetaKey(bucket, key) == ObjectMetaKey(bucket', key') <==> bucket == bucket' && key == key'
    ensures BucketIndexKey(bucket, key) == BucketIndexKey(bucket', key') <==> bucket == bucket' && key == key'
  {
    forall p | p == OBJMETA || p == BUCKETIDX
      ensures p + bucket + [COLON] + key == p + bucket' + [COLON] + key' ==> bucket == bucket' && key == key'
    {
      TwoParts(p, bucket, key);
      TwoParts(p, bucket', key');
      if p + bucket + [COLON] + key == p + bucket' + [COLON] + key' {
        FirstSeparator(bucket, key, bucket', key', COLON);
      }
    }
  }

  ghost predicate SameMetaKey(bucket: Bytes, key: Bytes, bucket': Bytes, key': Bytes) {
    ObjectMetaKey(bucket, key) == ObjectMetaKey(bucket', key') && (bucket, key) != (bucket', key')
  }

  /** In general, an object shares its metadata key with another one exactly when its bucket name or
      its own key has a colon. */
  lemma MetaKeyAmbiguous(bucket: Bytes, key: Bytes)
    ensures (exists bucket', key' :: SameMetaKey(bucket, key, bucket', key')) <==> !NoColon(bucket) || !NoColon(key)
  {
    if !NoColon(bucket) {
      var i :| 0 <= i < |bucket| && bucket[i] == COLON;
      assert bucket == bucket[..i] + [COLON] + bucket[i + 1..];
      assert SameMetaKey(bucket, key, bucket[..i], bucket[i + 1..] + [COLON] + key);
    } else if !NoColon(key) {
      var i :| 0 <= i < |key| && key[i] == COLON;
      assert key == key[..i] + [COLON] + key[i + 1..];
      assert SameMetaKey(bucket, key, bucket + [COLON] + key[..i], key[i + 1..]);
    } else {
      forall bucket', key' ensures !SameMetaKey(bucket, key, bucket', key') {
        if SameMetaKey(bucket, key, bucket', key') {
          PlainMetaKeyUnique(bucket, key, bucket', key');
        }
      }
    }
  }

  lemma PlainMetaKeyUnique(bucket: Bytes, key: Bytes, bucket': Bytes, key': Bytes)
    requires NoColon(bucket) && NoColon(key) && ObjectMetaKey(bucket, key) == ObjectMetaKey(bucket', key')
    ensures bucket == bucket' && key == key'
  {
    TwoParts(OBJMETA, bucket, key);
    TwoParts(OBJMETA, bucket', key');
    var s, s' := bucket + [COLON] + key, bucket' + [COLON] + key';
    assert s == s' && s'[|bucket'|] == COLON;
    assert forall i :: 0 <= i < |bucket| ==> s[i] == bucket[i];
    assert forall i :: |bucket| < i < |s| ==> s[i] == key[i - |bucket| - 1];
    assert bucket == s[..|bucket|] && key == s[|bucket| + 1..];
    assert bucket' == s'[..|bucket'|] && key' == s'[|bucket'| + 1..];
  }

  lemma ChunkKeyParts(id: Bytes, i: nat)
    ensures LastColon(ChunkKey(id, i)) == |OBJCHUNK| + |id| && HasPrefix(ChunkKey(id, i), OBJCHUNK)
    ensures ChunkKey(id, i)[|OBJCHUNK|..|OBJCHUNK| + |id|] == id
    ensures ChunkKey(id, i)[|OBJCHUNK| + |id| + 1..] == Decimal(i)
  {
    hide LastColon, Decimal;
    DecimalPlain(i);
    LastSeparator(OBJCHUNK + id, Decimal(i));
  }

  /** Parsing at the last colon inverts ChunkKey, for any id that is not empty. */
  lemma OwnerOfChunk(id: Bytes, i: nat)
    ensures ChunkOwner(ChunkKey(id, i)) == if id == [] then None else Some(id)
  {
    hide ChunkKey, LastColon;
    ChunkKeyParts(id, i);
  }

  lemma ChunkKeyInjective(id: Bytes, i: nat, id': Bytes, i': nat)
    requires ChunkKey(id, i) == ChunkKey(id', i')
    ensures id == id' && i == i'
  {
    hide ChunkKey, LastColon;
    ChunkKeyParts(id, i);
    ChunkKeyParts(id', i');
    DecimalInjective(i, i');
  }

  /** Object ids of different objects differ, and so do those of one object at different times. */
  lemma ObjectIdInjective(bucket: Bytes, key: Bytes, ms: nat, bucket': Bytes, key': Bytes, ms': nat)
    requires NoColon(bucket) && NoColon(bucket') && ObjectId(bucket, key, ms) == ObjectId(bucket', key', ms')
    ensures bucket == bucket' && key == key' && ms == ms'
  {
    hide LastColon, Decimal;
    var a, a' := bucket + [COLON] + key, bucket' + [COLON] + key';
    DecimalPlain(ms);
    DecimalPlain(ms');
    LastSeparator(a, Decimal(ms));
    LastSeparator(a', Decimal(ms'));
    var s := ObjectId(bucket, key, ms);
    assert a == s[..|a|] && a' == s[..|a'|] && Decimal(ms) == s[|a| + 1..] && Decimal(ms') == s[|a'| + 1..];
    FirstSeparator(bucket, key, bucket', key', COLON);
    DecimalInjective(ms, ms');
  }

  /** The four kinds of key never meet. */
  lemma NamespacesDisjoint(k: Bytes)
    ensures HasPrefix(k, OBJMETA) ==> !HasPrefix(k, OBJCHUNK) && !HasPrefix(k, BUCKET) && !HasPrefix(k, BUCKETIDX)
    ensures HasPrefix(k, OBJCHUNK) ==> !HasPrefix(k, BUCKET) && !HasPrefix(k, BUCKETIDX)
    ensures HasPrefix(k, BUCKET) ==> !HasPrefix(k, BUCKETIDX)
  {
    assert |k| >= 4 ==> k[..4][3] == k[3];
    assert HasPrefix(k, OBJMETA) ==> k[0] == k[..8][0] && k[3] == k[..8][3];
    assert HasPrefix(k, OBJCHUNK) ==> k[0] == k[..9][0] && k[3] == k[..9][3];
    assert HasPrefix(k, BUCKET) ==> k[0] == k[..7][0] && k[6] == k[..7][6];
    assert HasPrefix(k, BUCKETIDX) ==> k[0] == k[..10][0] && k[6] == k[..10][6];
  }

  lemma KeyPrefixes(bucket: Bytes, key: Bytes, id: Bytes, i: nat)
    ensures HasPrefix(ObjectMetaKey(bucket, key), OBJMETA) && HasPrefix(BucketIndexKey(bucket, key), BUCKETIDX)
    ensures HasPrefix(BucketMetaKey(bucket), BUCKET) && HasPrefix(ChunkKey(id, i), OBJCHUNK)
  {
  }
}
