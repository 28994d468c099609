/** How one record of the write-ahead log is laid out and read back, for any four-byte checksum.
    Integers are stored least significant byte first. */
module WalLayout {
  import opened KvOps
  import opened Framing

  datatype Record = Record(seqNo: nat, op: Op)

  /** What the fields of the header can hold. */
  ghost predicate Fits(r: Record) {
    && r.seqNo < 0x1_0000_0000_0000_0000
    && |r.op.key| < 0x1_0000_0000
    && |Payload(r.op)| < 0x1_0000_0000
  }

  /** The `w` low bytes of a number. */
  function Le(x: nat, w: nat): (r: Bytes)
    ensures |r| == w
  {
    if w == 0 then [] else [x % 256] + Le(x / 256, w - 1)
  }

  function UnLe(b: Bytes): nat {
    if b == [] then 0 else b[0] + 256 * UnLe(b[1..])
  }

  function Power256(w: nat): nat {
    if w == 0 then 1 else 256 * Power256(w - 1)
  }

  lemma {:induction false} LeRoundTrip(x: nat, w: nat)
    requires x < Power256(w)
    ensures UnLe(Le(x, w)) == x
  {
    if w > 0 {
      LeRoundTrip(x / 256, w - 1);
      assert Le(x, w)[1..] == Le(x / 256, w - 1);
    }
  }

  lemma FieldRanges()
    ensures Power256(4) == 0x1_0000_0000 && Power256(8) == 0x1_0000_0000_0000_0000
  {
    assert Power256(2) == 65536;
    assert Power256(6) == 0x1_0000_0000_0000;
  }

  /** 'K' 'V' 'L' 'G' */
  const MAGIC: Bytes := [0x4B, 0x56, 0x4C, 0x47]
  const VERSION: Bytes := [1, 0]
  const HEADER: nat := 23

  function TypeByte(op: Op): byte {
    if op.Put? then 1 else 2
  }

  function Payload(op: Op): Bytes {
    if op.Put? then op.value else []
  }

  function Header(r: Record): (h: Bytes)
    ensures |h| == HEADER
  {
    MAGIC + VERSION + [TypeByte(r.op)] + Le(|r.op.key|, 4) + Le(|Payload(r.op)|, 4) + Le(r.seqNo, 8)
  }

  function Body(r: Record): Bytes {
    Header(r) + r.op.key + Payload(r.op)
  }

  function EncodeWith(sum: Bytes -> Bytes, r: Record): Bytes {
    Body(r) + sum(Body(r))
  }

  ghost predicate FourBytes(sum: Bytes -> Bytes) {
    forall d :: |sum(d)| == 4
  }

  predicate HeaderOk(file: Bytes) {
    && |file| >= HEADER && file[..4] == MAGIC && file[4..6] == VERSION
    && (file[6] == 1 || file[6] == 2)
  }

  function KeyEnd(file: Bytes): nat
    requires HeaderOk(file)
  {
    HEADER + UnLe(file[7..11])
  }

  /** A delete has no value bytes, whatever its value length says. */
  function BodyEnd(file: Bytes): nat
    requires HeaderOk(file)
  {
    KeyEnd(file) + if file[6] == 1 then UnLe(file[11..15]) else 0
  }

  /** One iteration of replay at the start of `file`: stop at the end, on a short read, a foreign
      header or a wrong checksum; otherwise yield the record. */
  function ParseWith(sum: Bytes -> Bytes, file: Bytes): Parsed<Record> {
    if !HeaderOk(file) then Stop
    else
      var keyEnd, end := KeyEnd(file), BodyEnd(file);
      if |file| < end + 4 || file[end..end + 4] != sum(file[..end]) then Stop
      else
        var key := file[HEADER..keyEnd];
        Found(Record(UnLe(file[15..23]), if file[6] == 1 then Put(key, file[keyEnd..end]) else Del(key)), end + 4)
  }

  lemma {:induction false} LeZero(w: nat)
    ensures |Le(0, w)| == w && forall i :: 0 <= i < w ==> Le(0, w)[i] == 0
  {
    if w > 0 {
      LeZero(w - 1);
    }
  }

  lemma LeOctets()
    ensures Le(0, 4) == [0, 0, 0, 0] && Le(1, 4) == [1, 0, 0, 0]
    ensures Le(258, 8) == [2, 1, 0, 0, 0, 0, 0, 0]
  {
    LeZero(4);
    LeZero(3);
    LeZero(6);
    assert Le(258, 8) == [2] + Le(1, 7);
    assert Le(1, 7) == [1] + Le(0, 6);
  }

  /** Two records octet by octet, up to the checksum: number 258 puts "v" under "k" or deletes "k". */
  lemma RecordOctets()
    ensures Body(Record(258, Put(Ascii("k"), Ascii("v")))) ==
            Ascii("KVLG") + [1, 0] + [1] + [1, 0, 0, 0] + [1, 0, 0, 0] + [2, 1, 0, 0, 0, 0, 0, 0]
            + Ascii("k") + Ascii("v")
    ensures Body(Record(258, Del(Ascii("k")))) ==
            Ascii("KVLG") + [1, 0] + [2] + [1, 0, 0, 0] + [0, 0, 0, 0] + [2, 1, 0, 0, 0, 0, 0, 0] + Ascii("k") + []
  {
    hide Le;
    LeOctets();
    assert MAGIC == Ascii("KVLG");
  }

  // ---- A record is read back as it was written ----

  lemma HeaderFields(r: Record, tail: Bytes)
    ensures var f := Header(r) + tail;
            && f[..4] == MAGIC && f[4..6] == VERSION && f[6] == TypeByte(r.op)
            && f[7..11] == Le(|r.op.key|, 4) && f[11..15] == Le(|Payload(r.op)|, 4) && f[15..23] == Le(r.seqNo, 8)
  {
  }

  lemma SizesRoundTrip(r: Record)
    requires Fits(r)
    ensures UnLe(Le(|r.op.key|, 4)) == |r.op.key| && UnLe(Le(|Payload(r.op)|, 4)) == |Payload(r.op)|
    ensures UnLe(Le(r.seqNo, 8)) == r.seqNo
  {
    FieldRanges();
    LeRoundTrip(|r.op.key|, 4);
    LeRoundTrip(|Payload(r.op)|, 4);
    LeRoundTrip(r.seqNo, 8);
  }

  /** What the reader learns from an intact header. */
  lemma ReadHeader(r: Record, tail: Bytes)
    requires Fits(r)
    ensures var f := Header(r) + tail;
            && HeaderOk(f) && f[6] == TypeByte(r.op) && UnLe(f[15..23]) == r.seqNo
            && KeyEnd(f) == HEADER + |r.op.key| && BodyEnd(f) == |Body(r)|
  {
    HeaderFields(r, tail);
    SizesRoundTrip(r);
  }

  /** The pieces of a record, with whatever follows it. */
  lemma Pieces(h: Bytes, key: Bytes, value: Bytes, crc: Bytes, rest: Bytes)
    ensures var f := h + (key + value + crc + rest);
            var k, e := |h| + |key|, |h| + |key| + |value|;
            && f == h + key + value + crc + rest
            && f[..e] == h + key + value && f[|h|..k] == key && f[k..e] == value && f[e..e + |crc|] == crc
  {
  }

  /** The first record of a file is read back, whatever follows it. */
  lemma ReadsRecord(sum: Bytes -> Bytes, r: Record, rest: Bytes)
    requires FourBytes(sum) && Fits(r)
    ensures ParseWith(sum, EncodeWith(sum, r) + rest) == Found(r, |EncodeWith(sum, r)|)
  {
    var crc := sum(Body(r));
    var tail := r.op.key + Payload(r.op) + crc + rest;
    Pieces(Header(r), r.op.key, Payload(r.op), crc, rest);
    ReadHeader(r, tail);
    assert EncodeWith(sum, r) + rest == Header(r) + tail;
  }

  /** A record cut short anywhere yields nothing; the checksum plays no part. */
  lemma TearsRecord(sum: Bytes -> Bytes, r: Record, n: nat)
    requires FourBytes(sum) && Fits(r) && n < |EncodeWith(sum, r)|
    ensures ParseWith(sum, EncodeWith(sum, r)[..n]) == Stop
  {
    var whole := EncodeWith(sum, r);
    if n >= HEADER {
      var tail := whole[HEADER..n];
      assert whole[..HEADER] == Header(r) by {
        Pieces(Header(r), r.op.key, Payload(r.op), sum(Body(r)), []);
      }
      assert whole[..n] == Header(r) + tail;
      ReadHeader(r, tail);
    }
  }

  // ---- Damage ----

  /** A checksum that notices any one changed byte. */
  ghost predicate Notices(sum: Bytes -> Bytes) {
    forall d: Bytes, i: nat, b: byte :: NoticesChange(sum, d, i, b)
  }

  ghost predicate NoticesChange(sum: Bytes -> Bytes, d: Bytes, i: nat, b: byte) {
    i < |d| && b != d[i] ==> sum(d[i := b]) != sum(d)
  }

  /** Positions of a record whose damage is certain to be noticed: all but type and lengths. */
  ghost predicate Covered(sum: Bytes -> Bytes, r: Record, i: nat) {
    i < |EncodeWith(sum, r)| && (i < 6 || 15 <= i)
  }

  lemma ForeignHeader(r: Record, i: nat, b: byte, tail: Bytes)
    requires i < 6 && b != Header(r)[i]
    ensures !HeaderOk(Header(r)[i := b] + tail)
  {
    HeaderFields(r, tail);
    var f := Header(r)[i := b] + tail;
    if i < 4 {
      assert f[..4][i] == b && (Header(r) + tail)[..4][i] == Header(r)[i];
    } else {
      assert f[4..6][i - 4] == b && (Header(r) + tail)[4..6][i - 4] == Header(r)[i];
    }
  }

  /** A damaged header whose type and lengths are intact still delimits the record. */
  lemma SameSizes(r: Record, bad: Bytes, tail: Bytes)
    requires Fits(r) && |bad| == HEADER && bad[..15] == Header(r)[..15]
    ensures var f := bad + tail;
            HeaderOk(f) && f[6] == TypeByte(r.op) && KeyEnd(f) == HEADER + |r.op.key| && BodyEnd(f) == |Body(r)|
  {
    ReadHeader(r, tail);
    var f, g := bad + tail, Header(r) + tail;
    assert f[..15] == g[..15] by { assert f[..15] == bad[..15] && g[..15] == Header(r)[..15]; }
    assert f[..4] == f[..15][..4] && g[..4] == g[..15][..4];
    assert f[4..6] == f[..15][4..6] && g[4..6] == g[..15][4..6];
    assert f[6] == f[..15][6] && g[6] == g[..15][6];
    assert f[7..11] == f[..15][7..11] && g[7..11] == g[..15][7..11];
    assert f[11..15] == f[..15][11..15] && g[11..15] == g[..15][11..15];
  }

  lemma DamagedRecord(sum: Bytes -> Bytes, r: Record, i: nat, b: byte, rest: Bytes)
    requires FourBytes(sum) && Notices(sum) && Fits(r) && Covered(sum, r, i) && b != EncodeWith(sum, r)[i]
    ensures ParseWith(sum, EncodeWith(sum, r)[i := b] + rest) == Stop
  {
    var whole, bad := EncodeWith(sum, r), EncodeWith(sum, r)[i := b];
    var tail := bad[HEADER..] + rest;
    assert whole[..HEADER] == Header(r) by {
      Pieces(Header(r), r.op.key, Payload(r.op), sum(Body(r)), []);
    }
    assert bad + rest == bad[..HEADER] + tail;
    if i < 6 {
      assert bad[..HEADER] == Header(r)[i := b];
      ForeignHeader(r, i, b, tail);
    } else {
      assert bad[..HEADER][..15] == Header(r)[..15];
      SameSizes(r, bad[..HEADER], tail);
      DamagedBody(sum, r, i, b, rest);
    }
  }

  lemma DamagedBody(sum: Bytes -> Bytes, r: Record, i: nat, b: byte, rest: Bytes)
    requires FourBytes(sum) && Notices(sum) && i < |EncodeWith(sum, r)| && b != EncodeWith(sum, r)[i]
    ensures var f, e := EncodeWith(sum, r)[i := b] + rest, |Body(r)|; f[e..e + 4] != sum(f[..e])
  {
    var body, crc := Body(r), sum(Body(r));
    var f, e := (body + crc)[i := b] + rest, |body|;
    if i < e {
      assert NoticesChange(sum, body, i, b);
      assert f[..e] == body[i := b];
      assert f[e..e + 4] == crc;
    } else {
      assert f[..e] == body;
      assert f[e..e + 4][i - e] == b;
    }
  }
}

/** The log file: records protected by CRC-32, one after the other. */
module WalFormat {
  import opened KvOps
  import Crc
  import opened Framing
  import opened WalLayout

  function CrcOf(data: Bytes): Bytes {
    Crc.Stored(Crc.Crc32(Crc.Zeros(32), data))
  }

  function Encode(r: Record): Bytes {
    EncodeWith(CrcOf, r)
  }

  function ParseOne(file: Bytes): Parsed<Record> {
    ParseWith(CrcOf, file)
  }

  function EncodeAll(rs: seq<Record>): Bytes {
    EncodeSeq(Encode, rs)
  }

  /** replay_into: the records it applies, and last_good_offset_. */
  function Replay(file: Bytes): (r: Recovery<Record>)
    ensures r.lastGood <= |file|
  {
    ReplayWith(ParseOne, file)
  }

  ghost predicate AllFit(rs: seq<Record>) {
    All(Fits, rs)
  }

  lemma CrcIsGood()
    ensures FourBytes(CrcOf) && Notices(CrcOf)
  {
    forall d: Bytes, i: nat, b: byte
      ensures NoticesChange(CrcOf, d, i, b)
    {
      if i < |d| && b != d[i] { CrcNotices(d, i, b); }
    }
  }

  lemma CrcNotices(d: Bytes, i: nat, b: byte)
    requires i < |d| && b != d[i]
    ensures CrcOf(d[i := b]) != CrcOf(d)
  {
    Crc.OneByteDetected(Crc.Zeros(32), d, i, b);
    if CrcOf(d[i := b]) == CrcOf(d) {
      Crc.StoredInjective(Crc.Crc32(Crc.Zeros(32), d[i := b]), Crc.Crc32(Crc.Zeros(32), d));
    }
  }

  lemma WalCodec()
    ensures Codec(Encode, ParseOne, Fits)
  {
    CrcIsGood();
    forall r: Record, rest: Bytes ensures ReadsBack(Encode, ParseOne, Fits, r, rest) {
      if Fits(r) { ReadsRecord(CrcOf, r, rest); }
    }
    forall r: Record, n: nat ensures NotTorn(Encode, ParseOne, Fits, r, n) {
      if Fits(r) && n < |Encode(r)| { TearsRecord(CrcOf, r, n); }
    }
  }

  // ---- What a log file yields ----

  /** How many records lie wholly inside the first `n` bytes of the log. */
  function WholeRecords(rs: seq<Record>, n: nat): (j: nat)
    ensures j <= |rs|
  {
    Whole(Encode, rs, n)
  }

  /** Torn-tail exactness: of any byte prefix of a log, replay applies exactly the records wholly
      inside it, and last_good_offset_ is their total length. */
  lemma TornLog(rs: seq<Record>, n: nat)
    requires AllFit(rs) && n <= |EncodeAll(rs)|
    ensures var j := WholeRecords(rs, n);
            && Replay(EncodeAll(rs)[..n]) == Recovery(rs[..j], |EncodeAll(rs[..j])|)
            && |EncodeAll(rs[..j])| <= n && (j < |rs| ==> n < |EncodeAll(rs[..j + 1])|)
  {
    hide Codec, Encode, ParseOne, EncodeSeq, ReplayWith, Whole;
    WalCodec();
    TornTail(Encode, ParseOne, Fits, rs, n);
    WholeExact(Encode, rs, n);
  }

  /** The repair truncate_to_last_good is meant to be: once the file is cut at the last good offset and
      writing goes on from there, everything appended is replayed too. */
  lemma TruncatedLogIsRepaired(rs: seq<Record>, n: nat, more: seq<Record>)
    requires AllFit(rs) && AllFit(more) && n <= |EncodeAll(rs)|
    ensures var img := EncodeAll(rs)[..n];
            var good := img[..Replay(img).lastGood];
            && good == EncodeAll(Replay(img).records)
            && Replay(good + EncodeAll(more)).records == Replay(img).records + more
  {
    hide Codec, Encode, ParseOne, EncodeSeq, ReplayWith;
    WalCodec();
    TruncateThenAppend(Encode, ParseOne, Fits, rs, n, more);
  }

  /** What the file holds when it is cut at the last good offset and written to as the code does it:
      replay left the descriptor at the old end, and the truncation does not move it. */
  function CutThenWritten(img: Bytes, more: Bytes): Bytes {
    WriteAt(img[..Replay(img).lastGood], |img|, more)
  }

  lemma ZerosAreNoRecord(gap: nat, more: Bytes)
    requires gap > 0
    ensures Replay(seq(gap, i => 0) + more) == Recovery([], 0)
  {
    var f: Bytes := seq(gap, i => 0) + more;
    assert f[0] == 0;
    assert |f| >= 4 ==> f[..4][0] == f[0];
    assert !HeaderOk(f);
    assert ParseOne(f) == Stop;
  }

  lemma WrittenBehindGap(cut: Bytes, pos: nat, more: Bytes)
    requires |cut| < pos && more != []
    ensures WriteAt(cut, pos, more) == cut + (seq(pos - |cut|, i => 0) + more)
  {
  }

  /** The truncation as coded repairs nothing: of what a crash leaves, the records written after it are all
      replayed if the crash cut the log between two records, and none of them is otherwise. */
  lemma TruncationAsCoded(rs: seq<Record>, n: nat, more: seq<Record>)
    requires AllFit(rs) && AllFit(more) && more != [] && n <= |EncodeAll(rs)|
    ensures var img := EncodeAll(rs)[..n];
            var clean := Replay(img).lastGood == |img|;
            var after := Replay(CutThenWritten(img, EncodeAll(more))).records;
            && after == Replay(img).records + (if clean then more else [])
            && (after == Replay(img).records + more <==> clean)
  {
    hide Encode, ParseOne, Replay, AllFit, WriteAt, EncodeSeq, WholeRecords;
    var img := EncodeAll(rs)[..n];
    var cut := img[..Replay(img).lastGood];
    TruncatedLogIsRepaired(rs, n, more);
    LogStarts(more);
    if Replay(img).lastGood == |img| {
      assert cut == img;
      WriteAtEnd(img, EncodeAll(more));
    } else {
      WrittenBehindGap(cut, |img|, EncodeAll(more));
      RecordsFit(rs, n);
      StopsAtGap(Replay(img).records, cut, |img| - |cut|, EncodeAll(more));
    }
    SamePrefixCancels(Replay(img).records, if Replay(img).lastGood == |img| then more else [], more);
  }

  lemma RecordsFit(rs: seq<Record>, n: nat)
    requires AllFit(rs) && n <= |EncodeAll(rs)|
    ensures AllFit(Replay(EncodeAll(rs)[..n]).records)
  {
    hide Encode, Replay, EncodeAll, Fits;
    TornLog(rs, n);
  }

  lemma StopsAtGap(rs: seq<Record>, file: Bytes, gap: nat, more: Bytes)
    requires AllFit(rs) && file == EncodeAll(rs) && gap > 0
    ensures Replay(file + (seq(gap, i => 0) + more)).records == rs
  {
    hide Encode, ParseOne;
    WalCodec();
    ReplayIntact(Encode, ParseOne, Fits, rs, seq(gap, i => 0) + more);
    ZerosAreNoRecord(gap, more);
    assert rs + [] == rs;
  }

  /** One record torn after five bytes, the file truncated, one more record written and flushed: replay
      finds nothing. */
  lemma TruncationLosesRecord()
    ensures var torn, next := Record(1, Put([107], [118])), Record(1, Put([107], [119]));
            var img := Encode(torn)[..5];
            && Replay(img).lastGood == 0 && Replay(CutThenWritten(img, Encode(next))).records == []
  {
    hide Encode, ParseOne, WriteAt;
    var torn, next := Record(1, Put([107], [118])), Record(1, Put([107], [119]));
    assert Fits(torn) && Fits(next);
    EncodeOne(Encode, torn);
    EncodeOne(Encode, next);
    EncodeStart(torn);
    WalCodec();
    TornAt(Encode, ParseOne, Fits, torn, 5);
    assert Replay(Encode(torn)[..5]) == Recovery([], 0);
    TruncationAsCoded([torn], 5, [next]);
  }

  /** Nothing calls that truncation.  Without a torn tail that does no harm ... */
  lemma CleanLogExtends(rs: seq<Record>, more: seq<Record>)
    requires AllFit(rs) && AllFit(more)
    ensures Replay(EncodeAll(rs) + EncodeAll(more)).records == rs + more
  {
    hide Codec, Encode, ParseOne, EncodeSeq, ReplayWith;
    WalCodec();
    CleanAppend(Encode, ParseOne, Fits, rs, more);
  }

  /** ... but a torn tail too short to hold a record's type hides all of what is appended after it. */
  lemma TornTailHidesLaterRecords(rs: seq<Record>, tail: Bytes, more: seq<Record>, n: nat)
    requires AllFit(rs) && 0 < |tail| < 7 && n <= |EncodeAll(more)|
    ensures Replay(EncodeAll(rs) + (tail + EncodeAll(more)[..n])).records == rs
  {
    hide Codec, Encode, ParseOne, EncodeSeq, ReplayWith;
    WalCodec();
    ReplayIntact(Encode, ParseOne, Fits, rs, tail + EncodeAll(more)[..n]);
    NothingBehindShortTail(tail, more, n);
    assert rs + [] == rs;
  }

  lemma NothingBehindShortTail(tail: Bytes, more: seq<Record>, n: nat)
    requires 0 < |tail| < 7 && n <= |EncodeAll(more)|
    ensures Replay(tail + EncodeAll(more)[..n]).records == []
  {
    hide Encode, EncodeSeq;
    var f := tail + EncodeAll(more)[..n];
    if n > 0 {
      LogStarts(more);
      assert f[|tail|] == 75;
      NotAHeader(f, |tail|);
    }
    assert ParseOne(f) == Stop;
  }

  lemma LogStarts(more: seq<Record>)
    requires more != [] || EncodeAll(more) != []
    ensures EncodeAll(more) != [] && EncodeAll(more)[0] == 75
  {
    hide Encode;
    EncodeStart(more[0]);
  }

  /** The record that exposes a torn record `r`: its key has another length. */
  function Probe(r: Record): (x: Record)
    ensures |x.op.key| <= 1 && |x.op.key| != |r.op.key|
  {
    Record(0, Del(if |r.op.key| == 0 then [0] else []))
  }

  lemma ProbeFits(r: Record)
    ensures Fits(Probe(r))
  {
  }

  lemma {:induction false} UnLeAtLeast(b: Bytes, i: nat)
    requires i < |b|
    ensures UnLe(b) >= b[i]
  {
    if i > 0 {
      UnLeAtLeast(b[1..], i - 1);
    }
  }

  lemma EncodeStart(r: Record)
    ensures |Encode(r)| >= HEADER && Encode(r)[..HEADER] == Header(r) && Encode(r)[0] == 75
  {
    hide Crc.Crc32, Crc.Stored, Le;
    Pieces(Header(r), r.op.key, Payload(r.op), CrcOf(Body(r)), []);
    HeaderFields(r, []);
    assert Header(r)[0] == MAGIC[0];
  }

  lemma NotAHeader(f: Bytes, n: nat)
    requires 0 < n < 7 && |f| > n && f[n] == 75
    ensures !HeaderOk(f)
  {
    if |f| >= HEADER {
      assert f[..4][if n < 4 then n else 0] == f[if n < 4 then n else 0];
      assert f[4..6][if n == 5 then 1 else 0] == f[if n == 5 then 5 else 4];
    }
  }

  /** The key length a reader takes from a torn record followed by another one. */
  lemma TornKeyLength(r: Record, n: nat, more: Bytes)
    requires Fits(r) && 0 < n < |Encode(r)| && |more| >= HEADER && more[0] == 75 && HeaderOk(Encode(r)[..n] + more)
    ensures var f := Encode(r)[..n] + more; UnLe(f[7..11]) == |r.op.key| || UnLe(f[7..11]) >= 75
  {
    hide Encode, Header, Le, UnLe;
    var f := Encode(r)[..n] + more;
    EncodeStart(r);
    assert f[n] == 75;
    if n < 7 {
      NotAHeader(f, n);
    } else if n < 11 {
      assert f[7..11][n - 7] == 75;
      UnLeAtLeast(f[7..11], n - 7);
    } else {
      HeaderFields(r, []);
      assert Header(r) + [] == Header(r);
      assert f[7..11] == Header(r)[7..11] by {
        assert forall i :: 7 <= i < 11 ==> f[i] == Encode(r)[i] == Encode(r)[..HEADER][i];
      }
      SizesRoundTrip(r);
    }
  }

  lemma TornHidesProbe(r: Record, n: nat)
    requires Fits(r) && 0 < n < |Encode(r)|
    ensures Replay(Encode(r)[..n] + Encode(Probe(r))).records != [Probe(r)]
  {
    hide Encode, Probe, UnLe, ParseOne, HeaderOk;
    var x := Probe(r);
    var f := Encode(r)[..n] + Encode(x);
    EncodeStart(x);
    ParsedKeyLength(f);
    if ParseOne(f).Found? {
      TornKeyLength(r, n, Encode(x));
      FirstRead(ParseOne, f);
    }
  }

  lemma ParsedKeyLength(f: Bytes)
    ensures ParseOne(f).Found? ==> HeaderOk(f) && |ParseOne(f).record.op.key| == UnLe(f[7..11])
  {
    hide UnLe, CrcOf;
  }

  ghost predicate Extends(img: Bytes, x: Record) {
    Fits(x) ==> Replay(img + Encode(x)).records == Replay(img).records + [x]
  }

  /** Whether the truncation that nothing calls is needed: of what a crash leaves of a log, every
      record appended later is replayed exactly when the crash cut it between two records. */
  lemma TruncationNeeded(rs: seq<Record>, n: nat)
    requires AllFit(rs) && n <= |EncodeAll(rs)|
    ensures var img := EncodeAll(rs)[..n];
            (forall x :: Extends(img, x)) <==> Replay(img).lastGood == |img|
  {
    hide EncodeAll, AllFit, Replay, Encode, WholeRecords;
    var img := EncodeAll(rs)[..n];
    var j := WholeRecords(rs, n);
    TornLog(rs, n);
    assert rs[..|rs|] == rs;
    if Replay(img).lastGood == n {
      forall x ensures Extends(img, x) {
        if Fits(x) { CutBetweenRecords(rs, j, n, x); }
      }
    } else {
      CutInsideRecord(rs, j, n);
      ProbeFits(rs[j]);
      assert !Extends(img, Probe(rs[j]));
    }
  }

  lemma SplitLog(rs: seq<Record>, j: nat)
    requires j <= |rs|
    ensures EncodeAll(rs) == EncodeAll(rs[..j]) + EncodeAll(rs[j..])
  {
    hide EncodeSeq, Encode;
    EncodeConcat(Encode, rs[..j], rs[j..]);
    assert rs == rs[..j] + rs[j..];
  }

  lemma CutBetweenRecords(rs: seq<Record>, j: nat, n: nat, x: Record)
    requires AllFit(rs) && j <= |rs| && n == |EncodeAll(rs[..j])| && n <= |EncodeAll(rs)| && Fits(x)
    ensures Replay(EncodeAll(rs)[..n] + Encode(x)).records == rs[..j] + [x]
  {
    hide Encode, Replay, EncodeSeq;
    SplitLog(rs, j);
    EncodeOne(Encode, x);
    CleanLogExtends(rs[..j], [x]);
  }

  lemma CutInsideRecord(rs: seq<Record>, j: nat, n: nat)
    requires AllFit(rs) && j < |rs| && |EncodeAll(rs[..j])| < n < |EncodeAll(rs[..j + 1])| && n <= |EncodeAll(rs)|
    ensures Replay(EncodeAll(rs)[..n] + Encode(Probe(rs[j]))).records != rs[..j] + [Probe(rs[j])]
  {
    hide Encode, ParseOne, EncodeSeq, Probe;
    var k, x := n - |EncodeAll(rs[..j])|, Probe(rs[j]);
    SplitLog(rs, j + 1);
    EncodeConcat(Encode, rs[..j], [rs[j]]);
    EncodeOne(Encode, rs[j]);
    assert rs[..j + 1] == rs[..j] + [rs[j]];
    assert EncodeAll(rs)[..n] == EncodeAll(rs[..j]) + Encode(rs[j])[..k];
    assert EncodeAll(rs)[..n] + Encode(x) == EncodeAll(rs[..j]) + (Encode(rs[j])[..k] + Encode(x));
    WalCodec();
    ReplayIntact(Encode, ParseOne, Fits, rs[..j], Encode(rs[j])[..k] + Encode(x));
    TornHidesProbe(rs[j], k);
    SamePrefixCancels(rs[..j], Replay(Encode(rs[j])[..k] + Encode(x)).records, [x]);
  }

  /** Certain detection: with one byte of a record's magic, version, sequence number, key, value or
      CRC changed, replay applies exactly the records before it and stops there, whatever follows. */
  lemma DamageDetected(before: seq<Record>, r: Record, i: nat, b: byte, rest: Bytes)
    requires AllFit(before) && Fits(r) && Covered(CrcOf, r, i) && b != Encode(r)[i]
    ensures Replay(EncodeAll(before) + (Encode(r)[i := b] + rest)) == Recovery(before, |EncodeAll(before)|)
  {
    hide Codec, EncodeSeq, EncodeWith, ParseWith, FourBytes, Notices;
    WalCodec();
    CrcIsGood();
    DamagedRecord(CrcOf, r, i, b, rest);
    assert ParseOne(Encode(r)[i := b] + rest) == Stop;
    ReplayIntact(Encode, ParseOne, Fits, before, Encode(r)[i := b] + rest);
  }
}
