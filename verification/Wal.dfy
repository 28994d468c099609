/** The write-ahead log as the code has it: a file and the position of its descriptor, a buffer of
    encoded records, and the table the checksum loop uses. */
module Wals {
  import opened KvOps
  import Crc
  import opened Framing
  import opened WalLayout
  import opened WalFormat

  function OpsOf(rs: seq<Record>): (r: seq<Op>)
    ensures |r| == |rs|
  {
    seq(|rs|, i requires 0 <= i < |rs| => rs[i].op)
  }

  function MaxSeq(rs: seq<Record>): nat {
    if rs == [] then 0
    else
      var before := MaxSeq(rs[..|rs| - 1]);
      if before < rs[|rs| - 1].seqNo then rs[|rs| - 1].seqNo else before
  }

  /** It is zero without records, and otherwise one of their numbers that no other exceeds. */
  lemma {:induction false} MaxSeqIsLargest(rs: seq<Record>)
    ensures rs == [] ==> MaxSeq(rs) == 0
    ensures forall i :: 0 <= i < |rs| ==> rs[i].seqNo <= MaxSeq(rs)
    ensures rs != [] ==> exists i :: 0 <= i < |rs| && rs[i].seqNo == MaxSeq(rs)
  {
    if |rs| == 1 {
      assert MaxSeq(rs[..0]) == 0 && rs[0].seqNo == MaxSeq(rs);
    } else if |rs| > 1 {
      var n := |rs| - 1;
      MaxSeqIsLargest(rs[..n]);
      if MaxSeq(rs) == rs[n].seqNo {
        assert 0 <= n < |rs|;
      } else {
        var i :| 0 <= i < n && rs[..n][i].seqNo == MaxSeq(rs[..n]);
        assert rs[i].seqNo == MaxSeq(rs);
      }
    }
  }

  function Joined(parts: seq<Bytes>): Bytes {
    if parts == [] then [] else Joined(parts[..|parts| - 1]) + parts[|parts| - 1]
  }

  function Encodings(rs: seq<Record>): (r: seq<Bytes>)
    ensures |r| == |rs|
  {
    seq(|rs|, i requires 0 <= i < |rs| => Encode(rs[i]))
  }

  lemma OpsConcat(a: seq<Record>, b: seq<Record>)
    ensures OpsOf(a + b) == OpsOf(a) + OpsOf(b)
  {
  }

  lemma {:induction false} JoinedEncodings(rs: seq<Record>)
    ensures Joined(Encodings(rs)) == EncodeAll(rs)
  {
    hide Encode;
    if rs != [] {
      var n := |rs| - 1;
      JoinedEncodings(rs[..n]);
      assert Encodings(rs)[..n] == Encodings(rs[..n]);
      EncodeConcat(Encode, rs[..n], [rs[n]]);
      EncodeOne(Encode, rs[n]);
      assert rs == rs[..n] + [rs[n]];
    }
  }

  /** Reads the record at the start of `rest` field by field, checking lengths and checksum. */
  method ReadRecord(table: array<Crc.Word>, rest: Bytes) returns (p: Parsed<Record>)
    requires Crc.IsTable(table)
    ensures p == ParseOne(rest)
  {
    hide Crc.IsTable, Crc.Crc32, Crc.Stored, UnLe;
    if |rest| < HEADER || rest[..4] != MAGIC || rest[4..6] != VERSION || (rest[6] != 1 && rest[6] != 2) {
      return Stop;
    }
    var h := rest[..HEADER];
    var keyEnd := HEADER + UnLe(rest[7..11]);
    var end := keyEnd + if rest[6] == 1 then UnLe(rest[11..15]) else 0;
    if |rest| < end + 4 {
      return Stop;
    }
    var key, value := rest[HEADER..keyEnd], rest[keyEnd..end];
    var crc := Crc.Update(table, Crc.Zeros(32), h);
    crc := Crc.Update(table, crc, key);
    crc := Crc.Update(table, crc, value);
    Crc.Piecewise(Crc.Zeros(32), h, key);
    Crc.Piecewise(Crc.Zeros(32), h + key, value);
    assert rest[..end] == h + key + value;
    if rest[end..end + 4] != Crc.Stored(crc) {
      return Stop;
    }
    p := Found(Record(UnLe(rest[15..23]), if rest[6] == 1 then Put(key, value) else Del(key)), end + 4);
  }

  /** The replay loop: applies records to a map until the first one that is not whole and sound. */
  method ReplayFile(table: array<Crc.Word>, file: Bytes, m: KvMap) returns (r: KvMap, maxSeq: nat, off: nat)
    requires Crc.IsTable(table)
    ensures r == Fold(m, OpsOf(Replay(file).records)) && maxSeq == MaxSeq(Replay(file).records)
    ensures off == Replay(file).lastGood
  {
    hide ParseOne, Replay, Crc.IsTable, Replayed;
    r, maxSeq, off := m, 0, 0;
    ghost var done: seq<Record> := [];
    ReplayStarts(file);
    while true
      invariant off <= |file| && Replayed(file, off, done)
      invariant r == Fold(m, OpsOf(done)) && maxSeq == MaxSeq(done)
      decreases |file| - off
    {
      var p := ReadRecord(table, file[off..]);
      if p.Stop? || p.length == 0 || p.length > |file| - off {
        ReplayEnds(file, off, done);
        break;
      }
      ReplayMore(file, off, done, p.record, p.length);
      FoldMore(m, done, p.record);
      r := Apply(r, p.record.op);
      maxSeq := if maxSeq < p.record.seqNo then p.record.seqNo else maxSeq;
      off := off + p.length;
      done := done + [p.record];
    }
  }

  class Wal {
    var isOpen: bool
    var file: Bytes
    /** Where the next write goes; the file is not opened for appending. */
    var pos: nat
    var buffer: seq<Bytes>
    var lastGood: nat
    const table: array<Crc.Word>

    ghost predicate Valid()
      reads this, table
    {
      Crc.IsTable(table)
    }

    constructor ()
      ensures Valid() && fresh(table) && !isOpen && file == [] && pos == 0 && buffer == [] && lastGood == 0
    {
      var t := Crc.MakeTable();
      table := t;
      isOpen, file, pos, buffer, lastGood := false, [], 0, [], 0;
    }

    /** Opens a file that holds `content`, at its end; the buffer survives, as when a checkpoint reopens
        the log. */
    method Open(content: Bytes)
      requires Valid()
      modifies this
      ensures Valid() && isOpen && file == content && pos == |content| && lastGood == 0 && buffer == old(buffer)
    {
      isOpen, file, pos, lastGood := true, content, |content|, 0;
    }

    method Close()
      requires Valid()
      modifies this
      ensures Valid() && !isOpen && file == old(file) && pos == old(pos) && buffer == old(buffer)
              && lastGood == old(lastGood)
    {
      isOpen := false;
    }

    /** write_record: the checksum is computed piecewise over header, key and value, and the record
        goes to the buffer only. */
    method WriteRecord(seqNo: nat, op: Op) returns (ok: bool)
      requires Valid()
      modifies this
      ensures Valid() && ok == isOpen && isOpen == old(isOpen) && file == old(file) && pos == old(pos)
      ensures lastGood == old(lastGood)
      ensures buffer == if ok then old(buffer) + [Encode(Record(seqNo, op))] else old(buffer)
    {
      if !isOpen {
        return false;
      }
      var h := Header(Record(seqNo, op));
      var crc := Crc.Update(table, Crc.Zeros(32), h);
      crc := Crc.Update(table, crc, op.key);
      Crc.Piecewise(Crc.Zeros(32), h, op.key);
      if op.Put? {
        crc := Crc.Update(table, crc, op.value);
        Crc.Piecewise(Crc.Zeros(32), h + op.key, op.value);
      }
      var rec := h + op.key;
      if op.Put? {
        rec := rec + op.value;
      }
      assert rec == Body(Record(seqNo, op));
      rec := rec + Crc.Stored(crc);
      buffer := buffer + [rec];
      ok := true;
    }

    /** flush: writes every buffered record at the descriptor's position, each in as many pieces as the
        system takes it, then syncs and empties the buffer. */
    method Flush() returns (ok: bool)
      requires Valid()
      modifies this
      ensures Valid() && ok == isOpen && isOpen == old(isOpen) && lastGood == old(lastGood)
      ensures ok ==> file == WriteAt(old(file), old(pos), Joined(old(buffer))) && buffer == []
      ensures ok ==> pos == old(pos) + |Joined(old(buffer))|
      ensures !ok ==> file == old(file) && pos == old(pos) && buffer == old(buffer)
    {
      if !isOpen {
        return false;
      }
      for i := 0 to |buffer|
        invariant Valid() && isOpen && buffer == old(buffer) && lastGood == old(lastGood)
        invariant pos == old(pos) + |Joined(buffer[..i])|
        invariant file == WriteAt(old(file), old(pos), Joined(buffer[..i]))
      {
        WriteBuffered(buffer[i]);
        WriteTwice(old(file), old(pos), Joined(buffer[..i]), buffer[i]);
        assert buffer[..i + 1][..i] == buffer[..i];
      }
      assert buffer[..|buffer|] == buffer;
      buffer := [];
      ok := true;
    }

    /** The inner loop for one record: a write may take any part of what is left. */
    method WriteBuffered(rec: Bytes)
      requires Valid() && isOpen
      modifies this`file, this`pos
      ensures Valid() && file == WriteAt(old(file), old(pos), rec) && pos == old(pos) + |rec|
    {
      var done := 0;
      while done < |rec|
        invariant Valid() && done <= |rec| && pos == old(pos) + done
        invariant file == WriteAt(old(file), old(pos), rec[..done])
      {
        var n := |rec| - done;
        assert 0 < 1 <= n;
        var w: int :| 0 < w <= n;
        WriteTwice(old(file), old(pos), rec[..done], rec[done..done + w]);
        assert rec[..done] + rec[done..done + w] == rec[..done + w];
        file, pos := WriteAt(file, pos, rec[done..done + w]), pos + w;
        done := done + w;
      }
      assert rec[..done] == rec;
    }

    /** replay_into: replays the file into the map, remembers where the sound part ends, and leaves the
        position at the end of the file. */
    method ReplayInto(m: KvMap) returns (ok: bool, r: KvMap, maxSeq: nat)
      requires Valid()
      modifies this
      ensures Valid() && ok == isOpen && isOpen == old(isOpen) && file == old(file) && buffer == old(buffer)
      ensures ok ==> r == Fold(m, OpsOf(Replay(file).records)) && maxSeq == MaxSeq(Replay(file).records)
      ensures ok ==> lastGood == Replay(file).lastGood && pos == |file|
      ensures !ok ==> lastGood == old(lastGood) && pos == old(pos)
    {
      r, maxSeq := m, 0;
      if !isOpen {
        return false, r, maxSeq;
      }
      var off;
      r, maxSeq, off := ReplayFile(table, file, m);
      lastGood, pos := off, |file|;
      ok := true;
    }

    /** Cuts the file at the last good offset.  The position stays where it was. */
    method TruncateToLastGood() returns (ok: bool)
      requires Valid() && lastGood <= |file|
      modifies this
      ensures Valid() && ok == isOpen && isOpen == old(isOpen) && buffer == old(buffer) && lastGood == old(lastGood)
      ensures pos == old(pos)
      ensures file == if ok then old(file)[..lastGood] else old(file)
    {
      ok := isOpen;
      if ok {
        file := file[..lastGood];
      }
    }
  }

  /** Replay has read `done` and stands at `off`. */
  ghost predicate Replayed(file: Bytes, off: nat, done: seq<Record>) {
    && off <= |file|
    && Replay(file) == Recovery(done + Replay(file[off..]).records, off + Replay(file[off..]).lastGood)
  }

  lemma ReplayStarts(file: Bytes)
    ensures Replayed(file, 0, [])
  {
    assert file[0..] == file;
    assert [] + Replay(file).records == Replay(file).records;
  }

  lemma ReplayMore(file: Bytes, off: nat, done: seq<Record>, rec: Record, n: nat)
    requires Replayed(file, off, done) && ParseOne(file[off..]) == Found(rec, n) && 0 < n <= |file| - off
    ensures Replayed(file, off + n, done + [rec])
  {
    hide ParseOne;
    var rest := file[off..];
    assert rest[n..] == file[off + n..];
    var after := ReplayWith(ParseOne, rest[n..]);
    assert ReplayWith(ParseOne, rest) == Recovery([rec] + after.records, n + after.lastGood);
    assert done + ([rec] + after.records) == (done + [rec]) + after.records;
  }

  lemma ReplayEnds(file: Bytes, off: nat, done: seq<Record>)
    requires Replayed(file, off, done)
    requires var p := ParseOne(file[off..]); p.Stop? || p.length == 0 || p.length > |file| - off
    ensures Replay(file) == Recovery(done, off)
  {
    assert ReplayWith(ParseOne, file[off..]) == Recovery([], 0);
    assert done + [] == done;
  }

  lemma FoldMore(m: KvMap, done: seq<Record>, rec: Record)
    ensures Fold(m, OpsOf(done + [rec])) == Apply(Fold(m, OpsOf(done)), rec.op)
    ensures MaxSeq(done + [rec]) == if MaxSeq(done) < rec.seqNo then rec.seqNo else MaxSeq(done)
  {
    assert (done + [rec])[..|done|] == done;
    assert OpsOf(done + [rec])[..|done|] == OpsOf(done);
  }
}
