/** The key-value store: a map in memory, a write-ahead log, group commit, and checkpoints. */
module KvStores {
  import opened KvOps
  import Crc
  import opened Framing
  import opened WalLayout
  import opened WalFormat
  import opened Wals
  import Snapshot

  ghost function LogFile(start: Bytes, written: seq<Record>): Bytes {
    start + EncodeAll(written)
  }

  ghost function HistoryOf(start: Bytes, written: seq<Record>, pending: seq<Record>): seq<Op> {
    OpsOf(Replay(start).records) + OpsOf(written) + OpsOf(pending)
  }

  lemma NoHistory(start: Bytes)
    ensures LogFile(start, []) == start && HistoryOf(start, [], []) == OpsOf(Replay(start).records)
    ensures Encodings([]) == [] && HistoryOf([], [], []) == []
  {
    assert EncodeAll([]) == [];
    NothingToRead(ParseOne);
  }

  lemma HistoryFlushed(start: Bytes, written: seq<Record>, pending: seq<Record>)
    ensures HistoryOf(start, written + pending, []) == HistoryOf(start, written, pending)
  {
    hide OpsOf, Replay;
    OpsConcat(written, pending);
  }

  lemma FileFlushed(start: Bytes, written: seq<Record>, pending: seq<Record>)
    ensures LogFile(start, written) + Joined(Encodings(pending)) == LogFile(start, written + pending)
  {
    hide Joined, Encodings, EncodeSeq;
    JoinedEncodings(pending);
    EncodeConcat(Encode, written, pending);
  }

  lemma HistoryAppended(start: Bytes, written: seq<Record>, pending: seq<Record>, r: Record)
    ensures HistoryOf(start, written, pending + [r]) == HistoryOf(start, written, pending) + [r.op]
    ensures Encodings(pending + [r]) == Encodings(pending) + [Encode(r)]
  {
    OpsConcat(pending, [r]);
  }

  lemma HistoryRotated(base: KvMap, start: Bytes, written: seq<Record>, pending: seq<Record>)
    ensures var m := Fold(base, HistoryOf(start, written, pending)); Fold(m, HistoryOf([], [], pending)) == m
  {
    RedoSuffix(base, OpsOf(Replay(start).records) + OpsOf(written), OpsOf(pending));
    NothingToRead(ParseOne);
    assert HistoryOf([], [], pending) == OpsOf(pending);
  }

  ghost predicate Numbers(from: nat, rs: seq<Record>, last: nat) {
    last == from + |rs| && forall i :: 0 <= i < |rs| ==> rs[i].seqNo == from + 1 + i
  }

  class KVStore {
    const wal: Wal
    var data: KvMap
    var seqNo: nat
    var ready: bool
    var groupEvery: nat

    /** The map the log replays onto, and the log file as it was when opened. */
    ghost var base: KvMap
    ghost var start: Bytes

    /** Records issued since, flushed and not yet flushed. */
    ghost var written: seq<Record>
    ghost var pending: seq<Record>

    /** All operations of the log in order: replayed, flushed since, and pending. */
    ghost var history: seq<Op>

    ghost predicate Valid()
      reads this, wal, wal.table
    {
      && wal.Valid() && groupEvery >= 1 && wal.buffer == Encodings(pending)
      && (!ready ==> pending == [])
      && (ready ==> wal.isOpen && wal.file == LogFile(start, written) && wal.pos == |wal.file|)
      && history == HistoryOf(start, written, pending)
    }

    /** The map in memory is what the whole log, flushed and not, makes of the base. */
    ghost predicate Logged()
      reads this
    {
      data == Fold(base, history)
    }

    /** With an unchanged batch size, at most batch size - 1 completed operations await a flush. */
    ghost predicate BatchBounded()
      requires groupEvery >= 1
      reads this
    {
      |pending| <= seqNo % groupEvery
    }

    /** The records issued are numbered on from the largest number in the log as it was opened; so it
        stays until a checkpoint starts another log. */
    ghost predicate Numbered()
      reads this
    {
      Numbers(MaxSeq(Replay(start).records), written + pending, seqNo)
    }

    constructor ()
      ensures Valid() && !ready && data == map[] && fresh(wal) && fresh(wal.table) && groupEvery == 5
              && wal.buffer == []
    {
      wal := new Wal();
      data, seqNo, ready, groupEvery := map[], 0, false, 5;
      base, start, written, pending, history := map[], [], [], [], [];
      new;
      NoHistory([]);
    }

    /** Loads the snapshot if there is one, then replays the log over it.  The log is left as it is,
        torn tail included. */
    method Open(snapshot: Option<Bytes>, walFile: Bytes) returns (ok: bool)
      requires Valid()
      modifies this, wal
      ensures Valid() && ok && ready && groupEvery == old(groupEvery)
      ensures old(ready) ==> data == old(data) && seqNo == old(seqNo) && wal.file == old(wal.file)
                              && base == old(base) && start == old(start)
                              && written == old(written) && pending == old(pending)
      ensures !old(ready) ==>
                && start == walFile && written == [] && pending == [] && seqNo == MaxSeq(Replay(walFile).records)
                && base == (match snapshot case None => old(data) case Some(text) => Snapshot.Load(old(data), text))
                && Logged() && BatchBounded() && Numbered()
    {
      hide LogFile, Encodings, Fold, Replay, OpsOf, MaxSeq, Crc.IsTable, Snapshot.Load;
      if ready {
        return true;
      }
      if snapshot.Some? {
        data := Snapshot.LoadInto(data, snapshot.value);
      }
      base, start, written := data, walFile, [];
      wal.Open(walFile);
      ok, data, seqNo := wal.ReplayInto(data);
      ready := true;
      NoHistory(walFile);
      history := OpsOf(Replay(start).records);
    }

    method SetGroupCommitEvery(n: int)
      requires Valid()
      modifies this`groupEvery
      ensures Valid() && groupEvery == if n <= 0 then 1 else n
    {
      groupEvery := if n <= 0 then 1 else n;
    }

    /** Writes the buffer to the log and syncs it. */
    method FlushWal() returns (ok: bool)
      requires Valid()
      modifies this`written, this`pending, wal
      ensures Valid() && ok == old(wal.isOpen)
      ensures ok && ready ==> written == old(written) + old(pending) && pending == []
      ensures !(ok && ready) ==> written == old(written) && pending == old(pending)
      ensures old(BatchBounded()) ==> BatchBounded()
      ensures old(Numbered()) ==> Numbered()
    {
      hide HistoryOf, LogFile, Encodings, Joined, Crc.IsTable, Numbers;
      WriteAtEnd(wal.file, Joined(wal.buffer));
      ok := wal.Flush();
      HistoryFlushed(start, written, pending);
      FileFlushed(start, written, pending);
      if ok && ready {
        written, pending := written + pending, [];
        assert written + pending == old(written + pending);
      }
    }

    /** The common part of put and del: the record goes to the log's buffer first. */
    method Append(op: Op)
      requires Valid() && ready
      modifies this`seqNo, this`pending, this`history, wal
      ensures Valid() && seqNo == old(seqNo) + 1 && wal.isOpen
      ensures pending == old(pending) + [Record(seqNo, op)]
      ensures history == old(history) + [op]
    {
      hide HistoryOf, LogFile, Encodings, Encode, Crc.IsTable;
      seqNo := seqNo + 1;
      var ok := wal.WriteRecord(seqNo, op);
      HistoryAppended(start, written, pending, Record(seqNo, op));
      pending, history := pending + [Record(seqNo, op)], history + [op];
    }

    method Put(key: Bytes, value: Bytes)
      requires Valid()
      modifies this, wal
      ensures Valid() && ready == old(ready) && groupEvery == old(groupEvery) && base == old(base)
              && start == old(start)
      ensures !ready ==> data == old(data) && history == old(history) && seqNo == old(seqNo)
      ensures ready ==> data == old(data)[key := value] && history == old(history) + [Op.Put(key, value)]
      ensures ready ==> seqNo == old(seqNo) + 1
      ensures ready ==> written + pending == old(written + pending) + [Record(seqNo, Op.Put(key, value))]
      ensures pending == if !ready then old(pending)
                         else if seqNo % groupEvery == 0 then []
                         else old(pending) + [Record(seqNo, Op.Put(key, value))]
      ensures old(Logged()) ==> Logged()
      ensures old(BatchBounded()) ==> BatchBounded()
      ensures old(Numbered()) ==> Numbered()
    {
      hide HistoryOf, LogFile, Encodings, Fold, Crc.IsTable;
      if !ready {
        return;
      }
      Append(Op.Put(key, value));
      FoldSnoc(base, old(history), Op.Put(key, value));
      data := data[key := value];
      BatchStep(old(seqNo), groupEvery);
      if seqNo % groupEvery == 0 {
        var ok := FlushWal();
      }
    }

    method Get(key: Bytes) returns (r: Option<Bytes>)
      ensures r == Lookup(data, key)
    {
      if key in data {
        r := Some(data[key]);
      } else {
        r := None;
      }
    }

    method Del(key: Bytes) returns (existed: bool)
      requires Valid()
      modifies this, wal
      ensures Valid() && ready == old(ready) && groupEvery == old(groupEvery) && base == old(base)
              && start == old(start)
      ensures !ready ==> !existed && data == old(data) && history == old(history) && seqNo == old(seqNo)
      ensures ready ==> existed == (key in old(data)) && data == old(data) - {key}
      ensures ready ==> history == old(history) + [Op.Del(key)]
      ensures ready ==> seqNo == old(seqNo) + 1
      ensures ready ==> written + pending == old(written + pending) + [Record(seqNo, Op.Del(key))]
      ensures pending == if !ready then old(pending)
                         else if seqNo % groupEvery == 0 then []
                         else old(pending) + [Record(seqNo, Op.Del(key))]
      ensures old(Logged()) ==> Logged()
      ensures old(BatchBounded()) ==> BatchBounded()
      ensures old(Numbered()) ==> Numbered()
    {
      hide HistoryOf, LogFile, Encodings, Fold, Crc.IsTable;
      if !ready {
        return false;
      }
      Append(Op.Del(key));
      FoldSnoc(base, old(history), Op.Del(key));
      BatchStep(old(seqNo), groupEvery);
      if seqNo % groupEvery == 0 {
        var ok := FlushWal();
      }
      existed := key in data;
      data := data - {key};
    }

    /** Applied by the replicated log, without logging. */
    method ApplyPut(key: Bytes, value: Bytes)
      requires Valid()
      modifies this`data
      ensures Valid() && data == Apply(old(data), Op.Put(key, value))
    {
      data := data[key := value];
    }

    method ApplyDel(key: Bytes)
      requires Valid()
      modifies this`data
      ensures Valid() && data == Apply(old(data), Op.Del(key))
    {
      data := data - {key};
    }

    /** Saves a snapshot, then starts an empty log.  Records still in the buffer stay there and go to
        the new log; the snapshot already has their effect, and redoing them changes nothing. */
    method Checkpoint() returns (ok: bool, text: Bytes, ghost es: seq<Snapshot.Entry>)
      requires Valid()
      modifies this, wal
      ensures Valid() && ok == ready == old(ready) && data == old(data) && seqNo == old(seqNo)
      ensures ok ==> Snapshot.Enumerates(es, data) && text == Snapshot.Text(es)
      ensures ok ==> base == data && start == [] && written == [] && pending == old(pending) && wal.file == []
      ensures old(Logged()) ==> Logged()
    {
      hide HistoryOf, LogFile, Encodings, Fold, Crc.IsTable, Snapshot.Enumerates, Snapshot.Text;
      text, es := [], [];
      if !ready {
        return false, text, es;
      }
      text, es := Snapshot.Save(data);
      wal.Close();
      wal.Open([]);
      HistoryRotated(base, start, written, pending);
      NoHistory([]);
      base, start, written := data, [], [];
      history := HistoryOf([], [], pending);
      ok := true;
    }

    /** Every key with the prefix, once, in whatever order the map yields them. */
    method ListKeysWithPrefix(prefix: Bytes) returns (keys: seq<Bytes>)
      ensures forall i :: 0 <= i < |keys| ==> keys[i] in data && HasPrefix(keys[i], prefix)
      ensures forall i, j :: 0 <= i < j < |keys| ==> keys[i] != keys[j]
      ensures forall k :: k in data && HasPrefix(k, prefix) ==> k in keys
    {
      keys := [];
      var rest := data.Keys;
      while rest != {}
        invariant rest <= data.Keys
        invariant forall i :: 0 <= i < |keys| ==> keys[i] in data && keys[i] !in rest && HasPrefix(keys[i], prefix)
        invariant forall i, j :: 0 <= i < j < |keys| ==> keys[i] != keys[j]
        invariant forall k :: k in data && k !in rest && HasPrefix(k, prefix) ==> k in keys
        decreases |rest|
      {
        var k := AnyOf(rest);
        if HasPrefix(k, prefix) {
          keys := keys + [k];
        }
        rest := rest - {k};
      }
    }
  }

  /** Counting up by one moves the remainder up by one, or to zero. */
  lemma BatchStep(s: nat, g: nat)
    requires g >= 1
    ensures (s + 1) % g == 0 || (s + 1) % g == s % g + 1
  {
    var q, r := s / g, s % g;
    assert s == g * q + r;
    if r + 1 < g {
      Remainder(s + 1, g, q, r + 1);
    } else {
      assert g * q + g == g * (q + 1);
      Remainder(s + 1, g, q + 1, 0);
    }
  }

  lemma Remainder(x: nat, g: nat, q: nat, r: nat)
    requires g >= 1 && x == g * q + r && r < g
    ensures x % g == r
  {
    var q', r' := x / g, x % g;
    assert x == g * q' + r';
    if q > q' {
      AtLeast(g, q, q');
    } else if q' > q {
      AtLeast(g, q', q);
    }
  }

  lemma AtLeast(g: nat, a: nat, b: nat)
    requires g >= 1 && a > b
    ensures g * a >= g * b + g
  {
    assert g * (a - b) >= g by {
      var d := a - b - 1;
      assert g * (d + 1) == g * d + g;
    }
    assert g * a == g * b + g * (a - b);
  }
}
