/** Byte strings, and the two operations every layer of the store is built from: a put and a
    delete on a map, folded over a sequence.  The write-ahead log, the replicated log and the
    object store all describe their effect as such a fold. */
module KvOps {

  /** An octet; std::string is a sequence of these. */
  type byte = x: int | 0 <= x < 256

  type Bytes = seq<byte>

  type KvMap = map<Bytes, Bytes>

  datatype Option<+T> = None | Some(value: T)

  /** The octets of a text in ASCII. */
  function Ascii(s: string): (b: Bytes)
    requires forall i :: 0 <= i < |s| ==> s[i] < 128 as char
    ensures |b| == |s| && forall i :: 0 <= i < |s| ==> b[i] == s[i] as int
  {
    seq(|s|, i requires 0 <= i < |s| => s[i] as int)
  }

  predicate HasPrefix(s: Bytes, p: Bytes) {
    |p| <= |s| && s[..|p|] == p
  }

  datatype Op = Put(key: Bytes, value: Bytes) | Del(key: Bytes)

  /** `map_[key] = value` or `map_.erase(key)`. */
  function Apply(m: KvMap, op: Op): KvMap {
    match op
    case Put(k, v) => m[k := v]
    case Del(k) => m - {k}
  }

  /** The map after applying `ops` in order. */
  function Fold(m: KvMap, ops: seq<Op>): KvMap {
    if ops == [] then m
    else Apply(Fold(m, ops[..|ops| - 1]), ops[|ops| - 1])
  }

  /** The next element in whatever order an unordered container yields them. */
  method AnyOf<T>(s: set<T>) returns (x: T)
    requires s != {}
    ensures x in s
  {
    x :| x in s;
  }

  function Lookup(m: KvMap, k: Bytes): Option<Bytes> {
    if k in m then Some(m[k]) else None
  }

  /** What a sequence of operations does to one key: nothing, or the last write wins. */
  function LastWrite(ops: seq<Op>, k: Bytes): Option<Op> {
    if ops == [] then None
    else if ops[|ops| - 1].key == k then Some(ops[|ops| - 1])
    else LastWrite(ops[..|ops| - 1], k)
  }

  function Written(op: Op): Option<Bytes> {
    match op
    case Put(_, v) => Some(v)
    case Del(_) => None
  }

  /** Last writer wins: a fold is determined key by key by the final write to that key. */
  lemma {:induction false} LastWriterWins(m: KvMap, ops: seq<Op>, k: Bytes)
    ensures Lookup(Fold(m, ops), k) ==
            match LastWrite(ops, k)
            case None => Lookup(m, k)
            case Some(op) => Written(op)
  {
    if ops != [] {
      LastWriterWins(m, ops[..|ops| - 1], k);
    }
  }

  lemma LookupsDetermine(m: KvMap, m': KvMap)
    requires forall k :: Lookup(m, k) == Lookup(m', k)
    ensures m == m'
  {
    assert forall k :: k in m <==> k in m' by {
      forall k ensures k in m <==> k in m' {
        assert Lookup(m, k) == Lookup(m', k);
      }
    }
    assert forall k :: k in m ==> m[k] == m'[k] by {
      forall k | k in m ensures m[k] == m'[k] {
        assert Lookup(m, k) == Lookup(m', k);
      }
    }
  }

  lemma FoldSnoc(m: KvMap, ops: seq<Op>, op: Op)
    ensures Fold(m, ops + [op]) == Apply(Fold(m, ops), op)
  {
    assert (ops + [op])[..|ops|] == ops;
  }

  lemma {:induction false} FoldConcat(m: KvMap, a: seq<Op>, b: seq<Op>)
    ensures Fold(m, a + b) == Fold(Fold(m, a), b)
    decreases |b|
  {
    if b == [] {
      assert a + b == a;
    } else {
      FoldConcat(m, a, b[..|b| - 1]);
      assert (a + b)[..|a + b| - 1] == a + b[..|b| - 1];
    }
  }

  lemma {:induction false} LastWriteConcat(a: seq<Op>, b: seq<Op>, k: Bytes)
    ensures LastWrite(a + b, k) == if LastWrite(b, k).Some? then LastWrite(b, k) else LastWrite(a, k)
    decreases |b|
  {
    if b == [] {
      assert a + b == a;
    } else {
      LastWriteConcat(a, b[..|b| - 1], k);
      assert (a + b)[..|a + b| - 1] == a + b[..|b| - 1];
    }
  }

  /** Redo is idempotent: replaying any suffix `b` of the operations that already produced a map
      leaves that map as it is, whatever the map was before. */
  lemma RedoSuffix(m: KvMap, a: seq<Op>, b: seq<Op>)
    ensures Fold(Fold(m, a + b), b) == Fold(m, a + b)
  {
    var done := Fold(m, a + b);
    forall k
      ensures Lookup(Fold(done, b), k) == Lookup(done, k)
    {
      LastWriterWins(done, b, k);
      LastWriterWins(m, a + b, k);
      LastWriteConcat(a, b, k);
    }
    LookupsDetermine(Fold(done, b), done);
  }
}
