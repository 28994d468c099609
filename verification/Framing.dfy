/** Files written at a position, and files made of self-delimiting records, for any encoding of one
    record that can be read back whatever follows it and that yields nothing when cut short. */
module Framing {
  import opened KvOps

  // ---- Writing ----

  /** A file after writing `data` at `pos`: what lies there is overwritten, and a gap before it reads as
      zeros.  Writing nothing changes nothing. */
  function WriteAt(file: Bytes, pos: nat, data: Bytes): Bytes {
    if data == [] then file
    else Reaching(file, pos) + data + if pos + |data| < |file| then file[pos + |data|..] else []
  }

  /** The first `pos` bytes, filled up with zeros. */
  function Reaching(file: Bytes, pos: nat): (r: Bytes)
    ensures |r| == pos
  {
    if pos <= |file| then file[..pos] else file + seq(pos - |file|, i => 0)
  }

  lemma WriteAtEnd(file: Bytes, data: Bytes)
    ensures WriteAt(file, |file|, data) == file + data
  {
    assert file[..|file|] == file;
  }

  /** Writing in two pieces is writing at once. */
  lemma WriteTwice(file: Bytes, pos: nat, a: Bytes, b: Bytes)
    ensures WriteAt(WriteAt(file, pos, a), pos + |a|, b) == WriteAt(file, pos, a + b)
  {
    hide Reaching;
    if a == [] {
      assert a + b == b;
    } else if b == [] {
      assert a + b == a;
    } else {
      FirstWrite(file, pos, a, |b|);
      Regroup(Reaching(file, pos), a, b);
    }
  }

  lemma FirstWrite(file: Bytes, pos: nat, a: Bytes, more: nat)
    requires a != []
    ensures var once, end := WriteAt(file, pos, a), pos + |a|;
            && |once| == (if |file| > end then |file| else end)
            && Reaching(once, end) == Reaching(file, pos) + a
            && (end + more < |once| ==> end + more < |file| && once[end + more..] == file[end + more..])
  {
    hide Reaching;
    var once, end := WriteAt(file, pos, a), pos + |a|;
    assert Reaching(once, end) == once[..end] by { ReachesWithin(once, end); }
    assert once[..end] == Reaching(file, pos) + a;
  }

  lemma ReachesWithin(file: Bytes, pos: nat)
    requires pos <= |file|
    ensures Reaching(file, pos) == file[..pos]
  {
  }

  // ---- Records ----

  datatype Parsed<R> = Stop | Found(record: R, length: nat)

  /** The records read from a file, and the offset after the last of them. */
  datatype Recovery<R> = Recovery(records: seq<R>, lastGood: nat)

  /** A record is read back whatever follows it. */
  ghost predicate ReadsBack<R>(enc: R -> Bytes, parse: Bytes -> Parsed<R>, fits: R -> bool, r: R, rest: Bytes) {
    fits(r) ==> parse(enc(r) + rest) == Found(r, |enc(r)|) && |enc(r)| > 0
  }

  /** A record cut short yields nothing. */
  ghost predicate NotTorn<R>(enc: R -> Bytes, parse: Bytes -> Parsed<R>, fits: R -> bool, r: R, n: nat) {
    fits(r) && n < |enc(r)| ==> parse(enc(r)[..n]) == Stop
  }

  ghost predicate Codec<R(!new)>(enc: R -> Bytes, parse: Bytes -> Parsed<R>, fits: R -> bool) {
    && (forall r: R, rest: Bytes :: ReadsBack(enc, parse, fits, r, rest))
    && (forall r: R, n: nat :: NotTorn(enc, parse, fits, r, n))
  }

  function EncodeSeq<R>(enc: R -> Bytes, rs: seq<R>): Bytes {
    if rs == [] then [] else enc(rs[0]) + EncodeSeq(enc, rs[1..])
  }

  function ReplayWith<R>(parse: Bytes -> Parsed<R>, file: Bytes): (r: Recovery<R>)
    ensures r.lastGood <= |file|
    decreases |file|
  {
    var p := parse(file);
    if p.Found? && 0 < p.length <= |file| then
      var rest := ReplayWith(parse, file[p.length..]);
      Recovery([p.record] + rest.records, p.length + rest.lastGood)
    else Recovery([], 0)
  }

  ghost predicate All<R>(fits: R -> bool, rs: seq<R>) {
    forall i :: 0 <= i < |rs| ==> fits(rs[i])
  }

  lemma NoneEncoded<R>(enc: R -> Bytes)
    ensures EncodeSeq(enc, []) == []
  {
  }

  lemma FirstEncoded<R>(enc: R -> Bytes, rs: seq<R>)
    requires rs != []
    ensures EncodeSeq(enc, rs) == enc(rs[0]) + EncodeSeq(enc, rs[1..])
  {
  }

  lemma Regroup<T>(a: seq<T>, b: seq<T>, c: seq<T>)
    ensures (a + b) + c == a + (b + c)
  {
  }

  lemma {:induction false} EncodeConcat<R>(enc: R -> Bytes, a: seq<R>, b: seq<R>)
    ensures EncodeSeq(enc, a + b) == EncodeSeq(enc, a) + EncodeSeq(enc, b)
  {
    hide EncodeSeq;
    if a == [] {
      NoneEncoded(enc);
      assert a + b == b;
    } else {
      EncodeConcat(enc, a[1..], b);
      FirstEncoded(enc, a + b);
      FirstEncoded(enc, a);
      assert (a + b)[1..] == a[1..] + b && (a + b)[0] == a[0];
      Regroup(enc(a[0]), EncodeSeq(enc, a[1..]), EncodeSeq(enc, b));
    }
  }

  lemma EncodeOne<R>(enc: R -> Bytes, r: R)
    ensures EncodeSeq(enc, [r]) == enc(r)
  {
    assert [r][1..] == [];
  }

  lemma ReplayStep<R>(parse: Bytes -> Parsed<R>, r: R, e: Bytes, rest: Bytes)
    requires parse(e + rest) == Found(r, |e|) && |e| > 0
    ensures var after := ReplayWith(parse, rest);
            ReplayWith(parse, e + rest) == Recovery([r] + after.records, |e| + after.lastGood)
  {
    assert (e + rest)[|e|..] == rest;
  }

  lemma ReadBackAt<R(!new)>(enc: R -> Bytes, parse: Bytes -> Parsed<R>, fits: R -> bool, r: R, rest: Bytes)
    requires Codec(enc, parse, fits) && fits(r)
    ensures parse(enc(r) + rest) == Found(r, |enc(r)|) && |enc(r)| > 0
  {
    assert ReadsBack(enc, parse, fits, r, rest);
  }

  lemma TornAt<R(!new)>(enc: R -> Bytes, parse: Bytes -> Parsed<R>, fits: R -> bool, r: R, n: nat)
    requires Codec(enc, parse, fits) && fits(r) && n < |enc(r)|
    ensures parse(enc(r)[..n]) == Stop
  {
    assert NotTorn(enc, parse, fits, r, n);
  }

  lemma EncodeFirst<R>(enc: R -> Bytes, rs: seq<R>, tail: Bytes)
    requires rs != []
    ensures EncodeSeq(enc, rs) + tail == enc(rs[0]) + (EncodeSeq(enc, rs[1..]) + tail)
    ensures |EncodeSeq(enc, rs)| == |enc(rs[0])| + |EncodeSeq(enc, rs[1..])|
  {
    hide EncodeSeq;
    FirstEncoded(enc, rs);
    Regroup(enc(rs[0]), EncodeSeq(enc, rs[1..]), tail);
  }

  lemma FirstOf<R>(rs: seq<R>, more: seq<R>)
    requires rs != []
    ensures [rs[0]] + (rs[1..] + more) == rs + more
  {
  }

  /** Reading past records that are intact. */
  lemma {:induction false} ReplayIntact<R(!new)>(enc: R -> Bytes, parse: Bytes -> Parsed<R>, fits: R -> bool,
                                                 rs: seq<R>, tail: Bytes)
    requires Codec(enc, parse, fits) && All(fits, rs)
    ensures ReplayWith(parse, EncodeSeq(enc, rs) + tail) ==
            Recovery(rs + ReplayWith(parse, tail).records, |EncodeSeq(enc, rs)| + ReplayWith(parse, tail).lastGood)
    decreases rs
  {
    hide Codec, ReplayWith;
    if rs == [] {
      assert EncodeSeq(enc, rs) + tail == tail;
      assert rs + ReplayWith(parse, tail).records == ReplayWith(parse, tail).records;
    } else {
      IntactStep(enc, parse, fits, rs, tail);
      ReplayIntact(enc, parse, fits, rs[1..], tail);
      FirstOf(rs, ReplayWith(parse, tail).records);
    }
  }

  /** The first record is read, then the rest. */
  lemma IntactStep<R(!new)>(enc: R -> Bytes, parse: Bytes -> Parsed<R>, fits: R -> bool, rs: seq<R>, tail: Bytes)
    requires Codec(enc, parse, fits) && rs != [] && fits(rs[0])
    ensures var after := ReplayWith(parse, EncodeSeq(enc, rs[1..]) + tail);
            && ReplayWith(parse, EncodeSeq(enc, rs) + tail) ==
               Recovery([rs[0]] + after.records, |enc(rs[0])| + after.lastGood)
            && |EncodeSeq(enc, rs)| == |enc(rs[0])| + |EncodeSeq(enc, rs[1..])|
  {
    hide Codec, ReplayWith, EncodeSeq;
    var rest := EncodeSeq(enc, rs[1..]) + tail;
    EncodeFirst(enc, rs, tail);
    ReadBackAt(enc, parse, fits, rs[0], rest);
    ReplayStep(parse, rs[0], enc(rs[0]), rest);
  }

  /** How many records lie wholly inside the first `n` bytes. */
  function Whole<R>(enc: R -> Bytes, rs: seq<R>, n: nat): (j: nat)
    ensures j <= |rs|
    decreases rs
  {
    if rs == [] || n < |enc(rs[0])| then 0 else 1 + Whole(enc, rs[1..], n - |enc(rs[0])|)
  }

  /** It is the largest count whose encoding fits. */
  lemma {:induction false} WholeExact<R>(enc: R -> Bytes, rs: seq<R>, n: nat)
    ensures var j := Whole(enc, rs, n);
            |EncodeSeq(enc, rs[..j])| <= n && (j < |rs| ==> n < |EncodeSeq(enc, rs[..j + 1])|)
    decreases rs
  {
    if rs != [] && n >= |enc(rs[0])| {
      var j := Whole(enc, rs[1..], n - |enc(rs[0])|);
      WholeExact(enc, rs[1..], n - |enc(rs[0])|);
      assert rs[..j + 1][1..] == rs[1..][..j];
      if j + 1 < |rs| {
        assert rs[..j + 2][1..] == rs[1..][..j + 1];
      }
    } else if rs != [] {
      assert rs[..1][1..] == [];
    }
  }

  lemma EncodeMonotone<R>(enc: R -> Bytes, rs: seq<R>, i: nat, j: nat)
    requires i <= j <= |rs|
    ensures |EncodeSeq(enc, rs[..i])| <= |EncodeSeq(enc, rs[..j])|
  {
    hide EncodeSeq;
    assert rs[..j] == rs[..i] + rs[i..j];
    EncodeConcat(enc, rs[..i], rs[i..j]);
  }

  lemma CutAfterFirst<R>(enc: R -> Bytes, rs: seq<R>, n: nat)
    requires rs != [] && |enc(rs[0])| <= n <= |EncodeSeq(enc, rs)|
    ensures n - |enc(rs[0])| <= |EncodeSeq(enc, rs[1..])|
    ensures EncodeSeq(enc, rs)[..n] == enc(rs[0]) + EncodeSeq(enc, rs[1..])[..n - |enc(rs[0])|]
  {
    hide EncodeSeq;
    FirstEncoded(enc, rs);
  }

  lemma PrefixAfterFirst<R>(enc: R -> Bytes, rs: seq<R>, j: nat)
    requires rs != [] && j < |rs|
    ensures rs[..j + 1] == [rs[0]] + rs[1..][..j]
    ensures |EncodeSeq(enc, rs[..j + 1])| == |enc(rs[0])| + |EncodeSeq(enc, rs[1..][..j])|
  {
    assert rs[..j + 1][1..] == rs[1..][..j];
  }

  /** Of any byte prefix of a file, exactly the records wholly inside it are read, and reading stops
      where the last of them ends. */
  lemma {:induction false} TornTail<R(!new)>(enc: R -> Bytes, parse: Bytes -> Parsed<R>, fits: R -> bool,
                                             rs: seq<R>, n: nat)
    requires Codec(enc, parse, fits) && All(fits, rs) && n <= |EncodeSeq(enc, rs)|
    ensures var j := Whole(enc, rs, n);
            ReplayWith(parse, EncodeSeq(enc, rs)[..n]) == Recovery(rs[..j], |EncodeSeq(enc, rs[..j])|)
    decreases rs
  {
    hide Codec, ReplayWith, EncodeSeq;
    if rs == [] || n < |enc(rs[0])| {
      NoneEncoded(enc);
      TornInFirst(enc, parse, fits, rs, n);
    } else {
      var k := |enc(rs[0])|;
      CutAfterFirst(enc, rs, n);
      TornTail(enc, parse, fits, rs[1..], n - k);
      PrefixAfterFirst(enc, rs, Whole(enc, rs[1..], n - k));
      var rest := EncodeSeq(enc, rs[1..])[..n - k];
      ReadBackAt(enc, parse, fits, rs[0], rest);
      ReplayStep(parse, rs[0], enc(rs[0]), rest);
    }
  }

  lemma TornInFirst<R(!new)>(enc: R -> Bytes, parse: Bytes -> Parsed<R>, fits: R -> bool, rs: seq<R>, n: nat)
    requires Codec(enc, parse, fits) && All(fits, rs) && n <= |EncodeSeq(enc, rs)|
    requires rs == [] || n < |enc(rs[0])|
    ensures ReplayWith(parse, EncodeSeq(enc, rs)[..n]) == Recovery([], 0)
  {
    hide Codec;
    if rs != [] {
      assert EncodeSeq(enc, rs)[..n] == enc(rs[0])[..n];
      TornAt(enc, parse, fits, rs[0], n);
    }
  }

  /** After truncating a torn file to its last good offset, everything appended later is read too. */
  lemma TruncateThenAppend<R(!new)>(enc: R -> Bytes, parse: Bytes -> Parsed<R>, fits: R -> bool,
                                    rs: seq<R>, n: nat, more: seq<R>)
    requires Codec(enc, parse, fits) && All(fits, rs) && All(fits, more) && n <= |EncodeSeq(enc, rs)|
    ensures var img := EncodeSeq(enc, rs)[..n];
            var good := img[..ReplayWith(parse, img).lastGood];
            && good == EncodeSeq(enc, ReplayWith(parse, img).records)
            && ReplayWith(parse, good + EncodeSeq(enc, more)).records == ReplayWith(parse, img).records + more
  {
    hide Codec, ReplayWith, EncodeSeq, Whole;
    var img := EncodeSeq(enc, rs)[..n];
    var j := Whole(enc, rs, n);
    TornTail(enc, parse, fits, rs, n);
    WholeExact(enc, rs, n);
    assert rs == rs[..j] + rs[j..];
    EncodeConcat(enc, rs[..j], rs[j..]);
    var good := img[..ReplayWith(parse, img).lastGood];
    assert good == EncodeSeq(enc, rs[..j]);
    CleanAppend(enc, parse, fits, rs[..j], more);
  }

  /** Appending to a file without a torn tail. */
  lemma CleanAppend<R(!new)>(enc: R -> Bytes, parse: Bytes -> Parsed<R>, fits: R -> bool, rs: seq<R>, more: seq<R>)
    requires Codec(enc, parse, fits) && All(fits, rs) && All(fits, more)
    ensures ReplayWith(parse, EncodeSeq(enc, rs) + EncodeSeq(enc, more)).records == rs + more
  {
    hide Codec, ReplayWith, EncodeSeq;
    EncodeConcat(enc, rs, more);
    ReplayIntact(enc, parse, fits, rs + more, []);
    NothingToRead(parse);
    assert EncodeSeq(enc, rs + more) + [] == EncodeSeq(enc, rs) + EncodeSeq(enc, more);
  }

  lemma NothingToRead<R>(parse: Bytes -> Parsed<R>)
    ensures ReplayWith(parse, []) == Recovery([], 0)
  {
  }

  lemma FirstRead<R>(parse: Bytes -> Parsed<R>, file: Bytes)
    requires parse(file).Found?
    ensures var rs := ReplayWith(parse, file).records; rs != [] ==> rs[0] == parse(file).record
  {
  }

  lemma SamePrefixCancels<T>(p: seq<T>, a: seq<T>, b: seq<T>)
    ensures p + a == p + b <==> a == b
  {
    assert (p + a)[|p|..] == a && (p + b)[|p|..] == b;
  }
}
