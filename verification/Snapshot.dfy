/** The text snapshot: one line `key TAB value NEWLINE` per entry, in whatever order the map yields
    them, read back by whitespace-separated extraction into an empty map. */
module Snapshot {
  import opened KvOps

  const TAB: byte := 9
  const NEWLINE: byte := 10

  /** isspace in the default locale. */
  predicate IsSpace(b: byte) {
    b == 32 || 9 <= b <= 13
  }

  lemma WhiteSpace(b: byte)
    ensures IsSpace(b) <==> b in Ascii(" \t\n\r") + [11, 12]
  {
    assert Ascii(" \t\n\r") == [32, 9, 10, 13];
  }

  /** Non-empty and free of white space. */
  predicate Clean(s: Bytes) {
    s != [] && forall i :: 0 <= i < |s| ==> !IsSpace(s[i])
  }

  ghost predicate CleanMap(m: KvMap) {
    forall k :: k in m ==> Clean(k) && Clean(m[k])
  }

  datatype Entry = Entry(key: Bytes, value: Bytes)

  function Line(e: Entry): Bytes {
    e.key + [TAB] + e.value + [NEWLINE]
  }

  function Text(es: seq<Entry>): Bytes {
    if es == [] then [] else Line(es[0]) + Text(es[1..])
  }

  /** Two entries as they stand in the file. */
  lemma SnapshotLayout(k: Bytes, v: Bytes, k': Bytes, v': Bytes)
    ensures Text([Entry(k, v), Entry(k', v')]) ==
            k + Ascii("\t") + v + Ascii("\n") + (k' + Ascii("\t") + v' + Ascii("\n"))
  {
    hide Text;
    var es := [Entry(k, v), Entry(k', v')];
    FirstLine(es);
    FirstLine(es[1..]);
    assert es[1..][1..] == [];
    NoLines(es[1]);
    assert Ascii("\t") == [TAB] && Ascii("\n") == [NEWLINE];
  }

  // ---- Extraction ----

  function SkipSpace(s: Bytes): (r: Bytes)
    ensures |r| <= |s| && (r != [] ==> !IsSpace(r[0]))
  {
    if s != [] && IsSpace(s[0]) then SkipSpace(s[1..]) else s
  }

  function WordLength(s: Bytes): (n: nat)
    ensures n <= |s| && (forall i :: 0 <= i < n ==> !IsSpace(s[i])) && (n < |s| ==> IsSpace(s[n]))
  {
    if s == [] || IsSpace(s[0]) then 0 else 1 + WordLength(s[1..])
  }

  function Tokens(s: Bytes): (r: seq<Bytes>)
    ensures forall i :: 0 <= i < |r| ==> Clean(r[i])
    decreases |s|
  {
    var t := SkipSpace(s);
    if t == [] then [] else
      var n := WordLength(t);
      [t[..n]] + Tokens(t[n..])
  }

  /** `while (in >> k >> v) map_[k] = v;` -- a last key without a value is dropped. */
  function StorePairs(m: KvMap, toks: seq<Bytes>): KvMap
    decreases |toks|
  {
    if |toks| < 2 then m else StorePairs(m[toks[0] := toks[1]], toks[2..])
  }

  function Load(m: KvMap, text: Bytes): KvMap {
    StorePairs(m, Tokens(text))
  }

  // ---- Saving then loading ----

  /** The entries of a map, each key once. */
  ghost predicate Enumerates(es: seq<Entry>, m: KvMap) {
    && (forall i :: 0 <= i < |es| ==> es[i].key in m && m[es[i].key] == es[i].value)
    && DistinctKeys(es)
    && (forall k :: k in m ==> Names(es, k))
  }

  function Flatten(es: seq<Entry>): seq<Bytes> {
    if es == [] then [] else [es[0].key, es[0].value] + Flatten(es[1..])
  }

  lemma WordThenSpace(w: Bytes, sp: byte, rest: Bytes)
    requires Clean(w) && IsSpace(sp)
    ensures Tokens(w + [sp] + rest) == [w] + Tokens([sp] + rest)
  {
    var s := w + [sp] + rest;
    assert s[0] == w[0];
    var n := WordLength(s);
    assert forall i :: 0 <= i < |w| ==> s[i] == w[i];
    assert s[|w|] == sp;
    assert s[..n] == w && s[n..] == [sp] + rest;
  }

  lemma LeadingSpace(sp: byte, rest: Bytes)
    requires IsSpace(sp)
    ensures Tokens([sp] + rest) == Tokens(rest)
  {
    assert ([sp] + rest)[1..] == rest;
  }

  lemma LineSplit(e: Entry, rest: Bytes)
    ensures Line(e) + rest == e.key + [TAB] + (e.value + [NEWLINE] + rest)
  {
  }

  lemma Separators()
    ensures IsSpace(TAB) && IsSpace(NEWLINE)
  {
  }

  lemma LineTokens(e: Entry, rest: Bytes)
    requires Clean(e.key) && Clean(e.value)
    ensures Tokens(Line(e) + rest) == [e.key, e.value] + Tokens(rest)
  {
    hide Tokens, Line, Clean, IsSpace;
    var after := e.value + [NEWLINE] + rest;
    Separators();
    LineSplit(e, rest);
    WordThenSpace(e.key, TAB, after);
    LeadingSpace(TAB, after);
    WordThenSpace(e.value, NEWLINE, rest);
    LeadingSpace(NEWLINE, rest);
  }

  lemma {:induction false} TextTokens(es: seq<Entry>)
    requires forall i :: 0 <= i < |es| ==> Clean(es[i].key) && Clean(es[i].value)
    ensures Tokens(Text(es)) == Flatten(es)
  {
    if es != [] {
      TextTokens(es[1..]);
      LineTokens(es[0], Text(es[1..]));
    }
  }

  ghost predicate DistinctKeys(es: seq<Entry>) {
    forall i, j :: 0 <= i < j < |es| ==> es[i].key != es[j].key
  }

  ghost predicate Names(es: seq<Entry>, k: Bytes) {
    exists i :: 0 <= i < |es| && es[i].key == k
  }

  lemma StoreFirst(m: KvMap, es: seq<Entry>)
    requires es != []
    ensures StorePairs(m, Flatten(es)) == StorePairs(m[es[0].key := es[0].value], Flatten(es[1..]))
  {
    assert Flatten(es)[2..] == Flatten(es[1..]);
  }

  /** Storing entries over a map keeps the keys they do not name ... */
  lemma {:induction false} StoreKeeps(m: KvMap, es: seq<Entry>, k: Bytes)
    requires !Names(es, k)
    ensures Lookup(StorePairs(m, Flatten(es)), k) == Lookup(m, k)
    decreases |es|
  {
    if es != [] {
      hide Flatten, StorePairs;
      assert es[0].key != k;
      assert !Names(es[1..], k) by {
        assert forall i :: 0 <= i < |es[1..]| ==> es[1..][i] == es[i + 1];
      }
      StoreFirst(m, es);
      StoreKeeps(m[es[0].key := es[0].value], es[1..], k);
    }
  }

  /** ... and gives each key they name its value. */
  lemma {:induction false} StoreGives(m: KvMap, es: seq<Entry>, i: nat)
    requires DistinctKeys(es) && i < |es|
    ensures Lookup(StorePairs(m, Flatten(es)), es[i].key) == Some(es[i].value)
    decreases |es|
  {
    hide Flatten, StorePairs;
    var m1 := m[es[0].key := es[0].value];
    StoreFirst(m, es);
    if i == 0 {
      assert !Names(es[1..], es[0].key) by {
        assert forall j :: 0 <= j < |es[1..]| ==> es[1..][j] == es[j + 1];
      }
      StoreKeeps(m1, es[1..], es[0].key);
    } else {
      StoreGives(m1, es[1..], i - 1);
    }
  }

  lemma {:induction false} LoadedIsClean(m: KvMap, toks: seq<Bytes>)
    requires CleanMap(m) && forall i :: 0 <= i < |toks| ==> Clean(toks[i])
    ensures CleanMap(StorePairs(m, toks))
    decreases |toks|
  {
    if |toks| >= 2 {
      LoadedIsClean(m[toks[0] := toks[1]], toks[2..]);
    }
  }

  lemma LoadsClean(text: Bytes)
    ensures CleanMap(Load(map[], text))
  {
    LoadedIsClean(map[], Tokens(text));
  }

  lemma CleanRoundTrip(m: KvMap, es: seq<Entry>)
    requires Enumerates(es, m) && CleanMap(m)
    ensures Load(map[], Text(es)) == m
  {
    TextTokens(es);
    var r := Load(map[], Text(es));
    forall k ensures Lookup(r, k) == Lookup(m, k) {
      if k in m {
        assert Names(es, k);
        var i :| 0 <= i < |es| && es[i].key == k;
        StoreGives(map[], es, i);
      } else {
        StoreKeeps(map[], es, k);
      }
    }
    LookupsDetermine(r, m);
  }

  /** A snapshot reads back as the map it was taken from exactly when every key and value is
      non-empty and free of white space. */
  lemma SnapshotRoundTrip(m: KvMap, es: seq<Entry>)
    requires Enumerates(es, m)
    ensures Load(map[], Text(es)) == m <==> CleanMap(m)
  {
    hide Load, Text, Enumerates, Clean;
    LoadsClean(Text(es));
    if CleanMap(m) {
      CleanRoundTrip(m, es);
    }
  }

  // ---- As the store does it ----

  /** save_to_file_unlocked: writes the entries in whatever order the map yields them. */
  method Save(m: KvMap) returns (text: Bytes, ghost es: seq<Entry>)
    ensures Enumerates(es, m) && text == Text(es)
  {
    text, es := [], [];
    var rest := m.Keys;
    while rest != {}
      invariant rest <= m.Keys
      invariant text == Text(es)
      invariant forall i :: 0 <= i < |es| ==> es[i].key in m && es[i].key !in rest && m[es[i].key] == es[i].value
      invariant DistinctKeys(es)
      invariant forall k :: k in m && k !in rest ==> Names(es, k)
      decreases |rest|
    {
      var k := AnyOf(rest);
      ghost var before := es;
      TextSnoc(es, Entry(k, m[k]));
      text := text + k + [TAB] + m[k] + [NEWLINE];
      es := es + [Entry(k, m[k])];
      rest := rest - {k};
      forall x | x in m && x !in rest ensures Names(es, x) {
        if x == k {
          assert es[|before|].key == x;
        } else {
          assert Names(before, x);
          var i :| 0 <= i < |before| && before[i].key == x;
          assert es[i].key == x;
        }
      }
    }
  }

  lemma {:induction false} TextSnoc(es: seq<Entry>, e: Entry)
    ensures Text(es + [e]) == Text(es) + e.key + [TAB] + e.value + [NEWLINE]
  {
    hide Text, Line;
    FirstLine(es + [e]);
    if es == [] {
      assert (es + [e])[1..] == [];
      NoLines(e);
    } else {
      TextSnoc(es[1..], e);
      FirstLine(es);
      assert (es + [e])[1..] == es[1..] + [e] && (es + [e])[0] == es[0];
      var text := Text(es[1..]);
      assert Line(es[0]) + (text + e.key + [TAB] + e.value + [NEWLINE])
          == Line(es[0]) + text + e.key + [TAB] + e.value + [NEWLINE];
    }
  }

  lemma FirstLine(es: seq<Entry>)
    requires es != []
    ensures Text(es) == Line(es[0]) + Text(es[1..])
  {
  }

  lemma NoLines(e: Entry)
    ensures Text([]) == [] && Line(e) + [] == [] + e.key + [TAB] + e.value + [NEWLINE]
  {
  }

  /** load_from_file_unlocked. */
  method LoadInto(m: KvMap, text: Bytes) returns (r: KvMap)
    ensures r == Load(m, text)
  {
    r := m;
    var rest := text;
    while true
      invariant Load(m, text) == StorePairs(r, Tokens(rest))
      decreases |rest|
    {
      var s := SkipSpace(rest);
      if s == [] { break; }
      var n := WordLength(s);
      var k, afterKey := s[..n], SkipSpace(s[n..]);
      if afterKey == [] {
        assert Tokens(s[n..]) == [];
        break;
      }
      var i := WordLength(afterKey);
      var v := afterKey[..i];
      assert Tokens(rest) == [k] + Tokens(s[n..]);
      assert Tokens(s[n..]) == [v] + Tokens(afterKey[i..]);
      assert Tokens(rest)[2..] == Tokens(afterKey[i..]);
      r := r[k := v];
      rest := afterKey[i..];
    }
  }
}
