/** What a crash leaves behind and what opening the store again makes of it.

    A crash leaves some byte prefix of what was written to the log, never shorter than what the last
    successful flush covered; a snapshot is either the old one or the whole new one. */
module CrashRecovery {
  import opened KvOps
  import opened Framing
  import opened WalLayout
  import opened WalFormat
  import opened Wals
  import opened KvStores
  import Snapshot

  /** The map that replaying a log image over a snapshot yields; `KVStore.Open` computes it. */
  function Recovered(base: KvMap, img: Bytes): KvMap {
    Fold(base, OpsOf(Replay(img).records))
  }

  lemma OpsPrefix(rs: seq<Record>, j: nat)
    requires j <= |rs|
    ensures OpsOf(rs[..j]) == OpsOf(rs)[..j]
  {
  }

  // ---- One crash ----

  lemma FlushedAreWhole(durable: seq<Record>, pending: seq<Record>, n: nat)
    requires AllFit(durable + pending) && |EncodeAll(durable)| <= n <= |EncodeAll(durable + pending)|
    ensures WholeRecords(durable + pending, n) >= |durable|
  {
    hide EncodeSeq, AllFit, Replay, WholeRecords;
    var rs := durable + pending;
    var j := WholeRecords(rs, n);
    TornLog(rs, n);
    assert rs[..|durable|] == durable;
    if j < |durable| {
      EncodeMonotone(Encode, rs, j + 1, |durable|);
    }
  }

  /** Crash consistency: whatever byte the crash cuts the log at, recovery yields the map after some
      prefix of the logged operations, and that prefix includes everything flushed. */
  lemma CrashConsistency(base: KvMap, durable: seq<Record>, pending: seq<Record>, n: nat)
    requires AllFit(durable + pending) && |EncodeAll(durable)| <= n <= |EncodeAll(durable + pending)|
    ensures var j := WholeRecords(durable + pending, n);
            && |durable| <= j <= |durable| + |pending|
            && Recovered(base, EncodeAll(durable + pending)[..n]) == Fold(base, OpsOf(durable + pending)[..j])
  {
    hide EncodeAll, AllFit, Replay, WholeRecords, OpsOf, Fold;
    FlushedAreWhole(durable, pending, n);
    TornLog(durable + pending, n);
    OpsPrefix(durable + pending, WholeRecords(durable + pending, n));
  }

  /** What a crash of a running store may leave in its log file. */
  ghost predicate CrashImage(st: KVStore, img: Bytes)
    reads st
  {
    img <= LogFile(st.start, st.written + st.pending) && |LogFile(st.start, st.written)| <= |img|
  }

  lemma ReplayClean(rs: seq<Record>)
    requires AllFit(rs)
    ensures Replay(EncodeAll(rs)) == Recovery(rs, |EncodeAll(rs)|)
  {
    hide Encode, ParseOne;
    WalCodec();
    ReplayIntact(Encode, ParseOne, Fits, rs, []);
    NothingToRead(ParseOne);
    assert EncodeAll(rs) + [] == EncodeAll(rs);
    assert rs + [] == rs;
  }

  lemma LogOfStart(rs: seq<Record>, more: seq<Record>)
    ensures LogFile(EncodeAll(rs), more) == EncodeAll(rs + more)
  {
    EncodeConcat(Encode, rs, more);
  }

  lemma HistoryOfStart(rs: seq<Record>, written: seq<Record>, pending: seq<Record>)
    requires AllFit(rs)
    ensures HistoryOf(EncodeAll(rs), written, pending) == OpsOf(rs + written + pending)
  {
    hide AllFit, OpsOf, Replay, EncodeAll;
    ReplayClean(rs);
    OpsConcat(rs, written);
    OpsConcat(rs + written, pending);
  }

  /** The same for the store as it runs, opened on a log without a torn tail: after any calls and a
      crash at any byte, reopening yields the map after a prefix of the store's history that lacks at
      most the records still in the buffer -- with an unchanged batch size, fewer than that many
      completed operations -- and nothing at all once the buffer was flushed. */
  lemma StoreCrash(st: KVStore, rs: seq<Record>, img: Bytes) returns (j: nat)
    requires st.Valid() && st.ready && st.Logged() && CrashImage(st, img)
    requires st.start == EncodeAll(rs) && AllFit(rs) && AllFit(rs + st.written + st.pending)
    ensures |st.history| - |st.pending| <= j <= |st.history|
    ensures Recovered(st.base, img) == Fold(st.base, st.history[..j])
    ensures st.BatchBounded() ==> |st.history| - j <= st.groupEvery - 1
    ensures st.pending == [] ==> Recovered(st.base, img) == st.data
    ensures Replay(img).records <= rs + st.written + st.pending && |Replay(img).records| == j
  {
    hide HistoryOf, LogFile, AllFit, EncodeAll, Encodings, Recovered, OpsOf, Fold, WholeRecords;
    var all := rs + st.written + st.pending;
    LogOfStart(rs, st.written);
    LogOfStart(rs, st.written + st.pending);
    assert all == rs + (st.written + st.pending);
    HistoryOfStart(rs, st.written, st.pending);
    CrashConsistency(st.base, rs + st.written, st.pending, |img|);
    j := WholeRecords(all, |img|);
    assert img == EncodeAll(all)[..|img|] by { assert img <= EncodeAll(all); }
    TornLog(all, |img|);
    assert st.pending == [] ==> st.history[..j] == st.history;
  }

  // ---- Opened on a torn tail ----

  lemma LogOfTorn(rs: seq<Record>, tail: Bytes, more: seq<Record>)
    ensures LogFile(EncodeAll(rs) + tail, more) == EncodeAll(rs) + (tail + EncodeAll(more))
  {
    hide EncodeSeq;
  }

  /** The code opens a log with whatever tail a crash left.  What was whole before is never lost ... */
  lemma TornStartKeepsWhole(base: KvMap, rs: seq<Record>, tail: Bytes)
    requires AllFit(rs)
    ensures Replay(EncodeAll(rs) + tail).records == rs + Replay(tail).records
    ensures Recovered(base, EncodeAll(rs) + tail) == Fold(Fold(base, OpsOf(rs)), OpsOf(Replay(tail).records))
  {
    hide Encode, ParseOne, Fold, OpsOf;
    WalCodec();
    ReplayIntact(Encode, ParseOne, Fits, rs, tail);
    OpsConcat(rs, Replay(tail).records);
    FoldConcat(base, OpsOf(rs), OpsOf(Replay(tail).records));
  }

  /** ... but of a store opened on a log whose torn tail is shorter than seven bytes, a crash at any byte
      leaves nothing that was issued since, flushed or not. */
  lemma StoreCrashAfterTornTail(st: KVStore, rs: seq<Record>, tail: Bytes, img: Bytes)
    requires st.Valid() && st.ready && CrashImage(st, img)
    requires st.start == EncodeAll(rs) + tail && AllFit(rs) && 0 < |tail| < 7
    ensures Recovered(st.base, img) == Fold(st.base, OpsOf(rs))
  {
    hide HistoryOf, Encodings, Fold, OpsOf, AllFit, Replay, EncodeAll, LogFile;
    var more := st.written + st.pending;
    LogOfTorn(rs, tail, st.written);
    LogOfTorn(rs, tail, more);
    var n := |img| - |EncodeAll(rs)| - |tail|;
    assert |EncodeAll(rs)| + |tail| <= |img|;
    CutOfLog(EncodeAll(rs), tail, EncodeAll(more), img);
    TornTailHidesLaterRecords(rs, tail, more, n);
  }

  lemma CutOfLog(a: Bytes, tail: Bytes, b: Bytes, img: Bytes)
    requires img <= a + (tail + b) && |a| + |tail| <= |img|
    ensures |img| - |a| - |tail| <= |b| && img == a + (tail + b[..|img| - |a| - |tail|])
  {
  }

  // ---- Many crashes ----

  /** Between two openings: the records issued, how many of them the last flush covered, and the
      byte the crash cut the log at. */
  datatype Session = Session(issued: seq<Record>, flushed: nat, cut: nat)

  ghost predicate Possible(log: Bytes, s: Session) {
    && AllFit(s.issued) && s.flushed <= |s.issued|
    && |log| + |EncodeAll(s.issued[..s.flushed])| <= s.cut <= |log| + |EncodeAll(s.issued)|
  }

  /** The log after the crash with the repair the code lacks: cut at the last good offset, and written to
      from there on.  `TruncationAsCoded` has what the code's own truncation would do. */
  ghost function Reopened(log: Bytes, s: Session): Bytes
    requires Possible(log, s)
  {
    var img := (log + EncodeAll(s.issued))[..s.cut];
    img[..Replay(img).lastGood]
  }

  /** `logs[i]` is the log as session `i` finds it; the first session starts with an empty one. */
  ghost predicate Chain(logs: seq<Bytes>, ss: seq<Session>) {
    && |logs| == |ss| + 1 && logs[0] == []
    && forall i :: 0 <= i < |ss| ==> EndsIn(logs[i], ss[i], logs[i + 1])
  }

  ghost predicate EndsIn(before: Bytes, s: Session, log: Bytes) {
    Possible(before, s) && log == Reopened(before, s)
  }

  /** The first `js[i]` records of each session. */
  function Survivors(ss: seq<Session>, js: seq<nat>): seq<Record>
    requires |js| == |ss| && forall i :: 0 <= i < |ss| ==> js[i] <= |ss[i].issued|
    decreases |ss|
  {
    if ss == [] then []
    else
      var n := |ss| - 1;
      Survivors(ss[..n], js[..n]) + ss[n].issued[..js[n]]
  }

  lemma AllFitConcat(a: seq<Record>, b: seq<Record>)
    requires AllFit(a) && AllFit(b)
    ensures AllFit(a + b)
  {
  }

  lemma OneMoreSession(kept: seq<Record>, s: Session) returns (j: nat)
    requires AllFit(kept) && Possible(EncodeAll(kept), s)
    ensures s.flushed <= j <= |s.issued| && Reopened(EncodeAll(kept), s) == EncodeAll(kept + s.issued[..j])
    ensures AllFit(kept + s.issued[..j])
  {
    hide EncodeAll, Reopened, AllFit;
    LogFileUnfolds(kept, s.issued, kept + s.issued, []);
    NoRecords();
    assert EncodeAll(kept) + EncodeAll(s.issued) == EncodeAll(kept + s.issued);
    AllFitConcat(kept, s.issued);
    j := KeptOfSession(kept, s);
    AllFitPrefix(s.issued, j);
    AllFitConcat(kept, s.issued[..j]);
  }

  lemma KeptOfSession(kept: seq<Record>, s: Session) returns (j: nat)
    requires AllFit(kept + s.issued) && Possible(EncodeAll(kept), s)
    requires EncodeAll(kept) + EncodeAll(s.issued) == EncodeAll(kept + s.issued)
    ensures s.flushed <= j <= |s.issued| && Reopened(EncodeAll(kept), s) == EncodeAll(kept + s.issued[..j])
  {
    hide EncodeAll, Replay, WholeRecords;
    var rs, f := kept + s.issued, s.issued[..s.flushed];
    LogOfStart(kept, f);
    assert rs == (kept + f) + s.issued[s.flushed..];
    FlushedAreWhole(kept + f, s.issued[s.flushed..], s.cut);
    j := WholeRecords(rs, s.cut) - |kept|;
    TruncatedLogIsRepaired(rs, s.cut, []);
    TornLog(rs, s.cut);
    assert rs[..|kept| + j] == kept + s.issued[..j];
  }

  /** Any number of crashes, with that repair at each reopening: the log holds exactly a prefix of every
      session's records, each prefix including all that session flushed. */
  lemma {:induction false} ManyCrashes(logs: seq<Bytes>, ss: seq<Session>) returns (js: seq<nat>)
    requires Chain(logs, ss)
    ensures |js| == |ss| && forall i :: 0 <= i < |ss| ==> ss[i].flushed <= js[i] <= |ss[i].issued|
    ensures logs[|ss|] == EncodeAll(Survivors(ss, js)) && AllFit(Survivors(ss, js))
    decreases |ss|
  {
    hide Reopened, Possible, EncodeAll, AllFit;
    if ss == [] {
      js := [];
      NoRecords();
    } else {
      var n := |ss| - 1;
      var js0 := ManyCrashes(logs[..n + 1], ss[..n]);
      assert EndsIn(logs[n], ss[n], logs[n + 1]);
      var j := OneMoreSession(Survivors(ss[..n], js0), ss[n]);
      js := js0 + [j];
      assert js[..n] == js0;
    }
  }

  lemma NoRecords()
    ensures EncodeAll([]) == [] && AllFit([])
  {
  }

  /** So the recovered map is the one these records make. */
  lemma ManyCrashesRecover(logs: seq<Bytes>, ss: seq<Session>, base: KvMap) returns (js: seq<nat>)
    requires Chain(logs, ss)
    ensures |js| == |ss| && forall i :: 0 <= i < |ss| ==> ss[i].flushed <= js[i] <= |ss[i].issued|
    ensures Recovered(base, logs[|ss|]) == Fold(base, OpsOf(Survivors(ss, js)))
  {
    hide Chain, Survivors, EncodeAll, AllFit, Replay, Fold, OpsOf;
    js := ManyCrashes(logs, ss);
    ReplayClean(Survivors(ss, js));
  }

  function Lost(ss: seq<Session>, js: seq<nat>): int
    requires |js| == |ss|
    decreases |ss|
  {
    if ss == [] then 0 else Lost(ss[..|ss| - 1], js[..|ss| - 1]) + |ss[|ss| - 1].issued| - js[|ss| - 1]
  }

  /** A session as put and del produce it with batch size `g`: records are numbered on from the largest
      sequence number replay found, and every record whose number is a multiple of `g` was flushed. */
  ghost predicate GroupCommitted(log: Bytes, s: Session, g: nat)
    requires g >= 1
  {
    var from := MaxSeq(Replay(log).records);
    forall i {:trigger s.issued[i]} :: 0 <= i < |s.issued| ==>
      && s.issued[i].seqNo == from + 1 + i
      && (s.issued[i].seqNo % g == 0 ==> i < s.flushed)
  }

  /** What a store has issued since it was opened is such a session, wherever a crash may cut it. */
  lemma StoreIsSession(st: KVStore, cut: nat)
    requires st.Valid() && st.ready && st.Numbered() && st.BatchBounded()
    ensures GroupCommitted(st.start, Session(st.written + st.pending, |st.written|, cut), st.groupEvery)
  {
    hide HistoryOf, Encodings, LogFile, Crc.IsTable, Replay, MaxSeq;
    var rs, g := st.written + st.pending, st.groupEvery;
    forall i | 0 <= i < |rs| && rs[i].seqNo % g == 0 ensures i < |st.written| {
      if i >= |st.written| {
        NoBatchEnd(st.seqNo, g, st.seqNo - rs[i].seqNo);
      }
    }
  }

  /** Counting back from `x` by less than its remainder reaches no multiple of `g`. */
  lemma NoBatchEnd(x: nat, g: nat, back: nat)
    requires g >= 1 && back < x % g
    ensures back <= x && (x - back) % g != 0
  {
    var q := x / g;
    assert x == g * q + x % g;
    Remainder(x - back, g, q, x % g - back);
  }

  /** So fewer than `g` records are unflushed at any time. */
  lemma UnflushedBounded(log: Bytes, s: Session, g: nat)
    requires g >= 1 && GroupCommitted(log, s, g) && s.flushed <= |s.issued|
    ensures |s.issued| - s.flushed < g
  {
    var from, n := MaxSeq(Replay(log).records), |s.issued|;
    var r := (from + n) % g;
    if n - s.flushed > r {
      var i := n - 1 - r;
      assert s.issued[i].seqNo == from + n - r;
      BatchEnd(from + n, g);
    }
  }

  lemma BatchEnd(x: nat, g: nat)
    requires g >= 1
    ensures (x - x % g) % g == 0
  {
    var q := x / g;
    assert x - x % g == g * q;
    Remainder(x - x % g, g, q, 0);
  }

  /** With batch size `g`, at most `g` - 1 records are lost per crash, over any number of them. */
  lemma {:induction false} LossBounded(logs: seq<Bytes>, ss: seq<Session>, js: seq<nat>, g: nat)
    requires g >= 1 && Chain(logs, ss) && (forall i :: 0 <= i < |ss| ==> GroupCommitted(logs[i], ss[i], g))
    requires |js| == |ss| && forall i :: 0 <= i < |ss| ==> ss[i].flushed <= js[i]
    ensures Lost(ss, js) <= |ss| * (g - 1)
    decreases |ss|
  {
    hide GroupCommitted, EndsIn;
    if ss != [] {
      var n := |ss| - 1;
      LossBounded(logs[..n + 1], ss[..n], js[..n], g);
      SessionFlushed(logs[n], ss[n], logs[n + 1]);
      UnflushedBounded(logs[n], ss[n], g);
      OneMoreTimes(n, g - 1);
    }
  }

  lemma SessionFlushed(before: Bytes, s: Session, log: Bytes)
    requires EndsIn(before, s, log)
    ensures s.flushed <= |s.issued|
  {
    hide Reopened;
  }

  lemma OneMoreTimes(n: nat, x: nat)
    ensures (n + 1) * x == n * x + x
  {
  }

  /** The code never truncates.  Where the crash cut the log between two records that makes no
      difference: truncation would remove nothing. */
  lemma CleanCutNeedsNoTruncation(kept: seq<Record>, s: Session, j: nat)
    requires AllFit(kept + s.issued) && j <= |s.issued| && s.cut == |EncodeAll(kept + s.issued[..j])|
    requires Possible(EncodeAll(kept), s)
    ensures Reopened(EncodeAll(kept), s) == (EncodeAll(kept) + EncodeAll(s.issued))[..s.cut]
    ensures Reopened(EncodeAll(kept), s) == EncodeAll(kept + s.issued[..j])
  {
    hide EncodeAll, Replay, AllFit;
    var whole, rest := kept + s.issued[..j], s.issued[j..];
    assert kept + s.issued == whole + rest;
    LogFileUnfolds(kept, s.issued, whole, rest);
    assert (EncodeAll(kept) + EncodeAll(s.issued))[..s.cut] == EncodeAll(whole);
    AllFitPrefix(kept + s.issued, |whole|);
    assert (kept + s.issued)[..|whole|] == whole;
    ReplayClean(whole);
  }

  lemma LogFileUnfolds(kept: seq<Record>, issued: seq<Record>, whole: seq<Record>, rest: seq<Record>)
    requires kept + issued == whole + rest
    ensures EncodeAll(kept) + EncodeAll(issued) == EncodeAll(whole) + EncodeAll(rest)
  {
    LogOfStart(kept, issued);
    LogOfStart(whole, rest);
  }

  lemma AllFitPrefix(rs: seq<Record>, n: nat)
    requires AllFit(rs) && n <= |rs|
    ensures AllFit(rs[..n])
  {
  }

  // ---- Redo ----

  /** What redoing `again` does to key `k` agrees with what is there. */
  ghost predicate RedoneAlready(m: KvMap, again: seq<Op>, k: Bytes) {
    LastWrite(again, k).Some? ==> Lookup(m, k) == Written(LastWrite(again, k).value)
  }

  /** Redo changes nothing exactly when the last write to every key redone is already in the map. */
  lemma RedoExact(m: KvMap, again: seq<Op>)
    ensures Fold(m, again) == m <==> forall k :: RedoneAlready(m, again, k)
  {
    forall k ensures Lookup(Fold(m, again), k) == Lookup(m, k) <==> RedoneAlready(m, again, k) {
      LastWriterWins(m, again, k);
    }
    if forall k :: RedoneAlready(m, again, k) {
      LookupsDetermine(Fold(m, again), m);
    }
  }

  /** A batch written in full but not synced stays in the buffer and is written once more by the next
      flush.  Having it in the log twice changes nothing. */
  lemma RewrittenBatch(base: KvMap, before: seq<Op>, batch: seq<Op>)
    ensures Fold(base, before + batch + batch) == Fold(base, before + batch)
  {
    FoldConcat(base, before + batch, batch);
    RedoSuffix(base, before, batch);
  }

  /** The first part of the batch says the same about key `k` as the whole of it. */
  ghost predicate SettledEarly(batch: seq<Op>, j: nat, k: Bytes)
    requires j <= |batch|
  {
    LastWrite(batch[..j], k).Some? ==>
      LastWrite(batch, k).Some? && Written(LastWrite(batch[..j], k).value) == Written(LastWrite(batch, k).value)
  }

  lemma WrittenAgain(batch: seq<Op>, j: nat, k: Bytes)
    requires j <= |batch| && LastWrite(batch[..j], k).Some?
    ensures LastWrite(batch, k).Some?
  {
    assert batch == batch[..j] + batch[j..];
    LastWriteConcat(batch[..j], batch[j..], k);
  }

  /** When a crash cuts that second write after `j` records, recovery takes the keys these write back to
      what they had after the first `j` records and leaves the others as they are ... */
  lemma RewriteCutShort(base: KvMap, before: seq<Op>, batch: seq<Op>, j: nat, k: Bytes)
    requires j <= |batch|
    ensures Lookup(Fold(base, before + batch + batch[..j]), k) ==
            if LastWrite(batch[..j], k).Some? then Lookup(Fold(base, before + batch[..j]), k)
            else Lookup(Fold(base, before + batch), k)
  {
    hide Fold;
    LastWriterWins(base, before + batch + batch[..j], k);
    LastWriterWins(base, before + batch[..j], k);
    LastWriterWins(base, before + batch, k);
    LastWriteConcat(before + batch, batch[..j], k);
    LastWriteConcat(before, batch[..j], k);
  }

  /** ... so it yields the live map exactly when those keys are not written differently later in the batch. */
  lemma RewriteCutShortExact(base: KvMap, before: seq<Op>, batch: seq<Op>, j: nat)
    requires j <= |batch|
    ensures Fold(base, before + batch + batch[..j]) == Fold(base, before + batch) <==>
            forall k :: SettledEarly(batch, j, k)
  {
    hide Fold;
    var live := Fold(base, before + batch);
    FoldConcat(base, before + batch, batch[..j]);
    RedoExact(live, batch[..j]);
    forall k ensures RedoneAlready(live, batch[..j], k) <==> SettledEarly(batch, j, k) {
      LastWriterWins(base, before + batch, k);
      LastWriteConcat(before, batch, k);
      if LastWrite(batch[..j], k).Some? { WrittenAgain(batch, j, k); }
    }
  }

  /** Otherwise it may be a map the store never had. */
  lemma RewriteMixesVersions()
    ensures var batch := [Put([1], [1]), Put([1], [2]), Put([3], [4])];
            forall i :: 0 <= i <= |batch| ==> Fold(map[], batch + batch[..1]) != Fold(map[], batch[..i])
  {
    hide Fold;
    var batch := [Put([1], [1]), Put([1], [2]), Put([3], [4])];
    var logged, buffered := [Put([1], [1])], [Put([1], [2]), Put([3], [4])];
    assert batch[..1] == logged && batch == logged + buffered;
    CheckpointMixesVersions();
    FoldConcat(map[], batch, logged);
  }

  // ---- Checkpoint ----

  /** No buffered operation says something else about a key than the log does. */
  ghost predicate SameEffect(logged: seq<Op>, buffered: seq<Op>, k: Bytes) {
    LastWrite(logged, k).Some? && LastWrite(buffered, k).Some? ==>
      Written(LastWrite(logged, k).value) == Written(LastWrite(buffered, k).value)
  }

  lemma LoggedVersusBuffered(base: KvMap, logged: seq<Op>, buffered: seq<Op>, k: Bytes)
    ensures RedoneAlready(Fold(base, logged + buffered), logged, k) <==> SameEffect(logged, buffered, k)
  {
    LastWriterWins(base, logged + buffered, k);
    LastWriteConcat(logged, buffered, k);
  }

  /** A crash after the new snapshot is written and before the old log is gone.  Recovery then yields
      the live map exactly when no buffered operation disagrees with the log on a key both write; the
      checkpoint does not flush, so this is up to the caller. */
  lemma CheckpointBeforeRotation(base: KvMap, logged: seq<Op>, buffered: seq<Op>, es: seq<Snapshot.Entry>)
    requires var live := Fold(base, logged + buffered); Snapshot.Enumerates(es, live) && Snapshot.CleanMap(live)
    ensures var live := Fold(base, logged + buffered);
            Fold(Snapshot.Load(map[], Snapshot.Text(es)), logged) == live <==>
              forall k :: SameEffect(logged, buffered, k)
  {
    hide Snapshot.Enumerates, Snapshot.CleanMap, Snapshot.Load, Snapshot.Text, Fold;
    var live := Fold(base, logged + buffered);
    Snapshot.SnapshotRoundTrip(live, es);
    RedoExact(live, logged);
    forall k ensures RedoneAlready(live, logged, k) <==> SameEffect(logged, buffered, k) {
      LoggedVersusBuffered(base, logged, buffered, k);
    }
  }

  /** With an empty buffer, recovery yields the live map from the new snapshot and the old log, and
      from the new snapshot and the empty log. */
  lemma CheckpointWithEmptyBuffer(base: KvMap, logged: seq<Op>, es: seq<Snapshot.Entry>)
    requires var live := Fold(base, logged); Snapshot.Enumerates(es, live) && Snapshot.CleanMap(live)
    ensures var live, loaded := Fold(base, logged), Snapshot.Load(map[], Snapshot.Text(es));
            Fold(loaded, logged) == live && Recovered(loaded, []) == live
  {
    hide Snapshot.Enumerates, Snapshot.CleanMap, Snapshot.Load, Snapshot.Text;
    assert logged + [] == logged;
    CheckpointBeforeRotation(base, logged, [], es);
    Snapshot.SnapshotRoundTrip(Fold(base, logged), es);
    NothingToRead(ParseOne);
  }

  /** With buffered operations the recovered map need not even be one the store ever had. */
  lemma CheckpointMixesVersions()
    ensures var logged, buffered := [Put([1], [1])], [Put([1], [2]), Put([3], [4])];
            var all := logged + buffered;
            forall j :: 0 <= j <= |all| ==> Fold(Fold(map[], all), logged) != Fold(map[], all[..j])
  {
    var logged, buffered := [Put([1], [1])], [Put([1], [2]), Put([3], [4])];
    var all := logged + buffered;
    var mixed := Fold(Fold(map[], all), logged);
    assert all[..0] == [] && all[..1] == logged && all[..2] == logged + [buffered[0]] && all[..3] == all;
    FoldSnoc(map[], [], logged[0]);
    FoldSnoc(map[], logged, buffered[0]);
    FoldSnoc(map[], logged + [buffered[0]], buffered[1]);
    assert all == logged + [buffered[0]] + [buffered[1]];
    FoldSnoc(Fold(map[], all), [], logged[0]);
    assert [] + logged == logged;
    assert Lookup(mixed, [1]) == Some([1]) && Lookup(mixed, [3]) == Some([4]);
    forall j | 0 <= j <= |all| ensures mixed != Fold(map[], all[..j]) {
      assert j == 0 || j == 1 || j == 2 || j == 3;
      assert Lookup(Fold(map[], all[..j]), [1]) != Some([1]) || Lookup(Fold(map[], all[..j]), [3]) != Some([4]);
    }
  }
}
