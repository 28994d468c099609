/** An object's metadata and its one-line text form, fields separated by tabs. */
module ObjectMetadata {
  import opened KvOps
  import opened ObjectKeys

  /** The enumeration is stored in one byte, so a reader may meet any byte. */
  const PENDING: byte := 0
  const COMMITTED: byte := 1
  const DELETED: byte := 2

  datatype Metadata = Metadata(
    objectId: Bytes,
    bucket: Bytes,
    key: Bytes,
    size: nat,
    chunkCount: nat,
    chunkSize: nat,
    contentType: Bytes,
    etag: Bytes,
    created: nat,
    updated: nat,
    state: byte)

  /** The widths of the integer fields. */
  predicate InRange(m: Metadata) {
    m.size < TWO_64 && m.chunkCount < TWO_32 && m.chunkSize < TWO_32 && m.created < TWO_64 && m.updated < TWO_64
  }

  predicate TabFree(m: Metadata) {
    NoTab(m.objectId) && NoTab(m.bucket) && NoTab(m.key) && NoTab(m.contentType) && NoTab(m.etag)
  }

  // ---- Lines of fields ----

  function Joined(fields: seq<Bytes>): Bytes {
    if fields == [] then []
    else if |fields| == 1 then fields[0]
    else fields[0] + [TAB] + Joined(fields[1..])
  }

  /** Up to the first tab. */
  function FieldLength(s: Bytes): (n: nat)
    ensures n <= |s| && NoTab(s[..n]) && (n < |s| ==> s[n] == TAB)
  {
    if s == [] || s[0] == TAB then 0
    else
      var n := 1 + FieldLength(s[1..]);
      assert s[..n] == [s[0]] + s[1..][..n - 1];
      n
  }

  /** std::getline `n` times; it fails when nothing is left to extract. */
  function Fields(s: Bytes, n: nat): (r: Option<seq<Bytes>>)
    ensures r.Some? ==> |r.value| == n && forall i :: 0 <= i < n ==> NoTab(r.value[i])
    decreases n
  {
    if n == 0 then Some([])
    else if s == [] then None
    else
      var i := FieldLength(s);
      match Fields(if i < |s| then s[i + 1..] else [], n - 1)
      case None => None
      case Some(rest) => Some([s[..i]] + rest)
  }

  lemma FieldBeforeTab(f: Bytes, rest: Bytes)
    requires NoTab(f)
    ensures FieldLength(f + [TAB] + rest) == |f| && FieldLength(f) == |f|
    ensures (f + [TAB] + rest)[..|f|] == f && (f + [TAB] + rest)[|f| + 1..] == rest && f[..|f|] == f
  {
    var s := f + [TAB] + rest;
    var n := FieldLength(s);
    assert s[|f|] == TAB;
    assert forall i :: 0 <= i < |f| ==> s[i] == f[i];
    assert forall i :: 0 <= i < n ==> s[i] == s[..n][i];
  }

  lemma FieldsStep(f: Bytes, rest: Bytes, n: nat)
    requires NoTab(f) && Fields(rest, n).Some?
    ensures Fields(f + [TAB] + rest, n + 1) == Some([f] + Fields(rest, n).value)
  {
    hide FieldLength, NoTab;
    FieldBeforeTab(f, rest);
  }

  lemma LastField(f: Bytes)
    requires NoTab(f) && f != []
    ensures Fields(f, 1) == Some([f])
  {
    hide FieldLength, NoTab;
    FieldBeforeTab(f, []);
    assert Fields([], 0) == Some([]);
    assert Fields(f, 1) == Some([f] + []);
    assert [f] + [] == [f];
  }

  lemma {:induction false} FieldsOfJoined(fields: seq<Bytes>)
    requires fields != [] && fields[|fields| - 1] != []
    requires forall i :: 0 <= i < |fields| ==> NoTab(fields[i])
    ensures Fields(Joined(fields), |fields|) == Some(fields)
  {
    hide Fields, NoTab;
    if |fields| == 1 {
      LastField(fields[0]);
      assert fields == [fields[0]];
    } else {
      FieldsOfJoined(fields[1..]);
      FieldsStep(fields[0], Joined(fields[1..]), |fields| - 1);
      assert fields == [fields[0]] + fields[1..];
    }
  }

  // ---- Metadata ----

  function MetadataFields(m: Metadata): (r: seq<Bytes>)
    ensures |r| == 11
  {
    [m.objectId, m.bucket, m.key, Decimal(m.size), Decimal(m.chunkCount), Decimal(m.chunkSize),
     m.contentType, m.etag, Decimal(m.created), Decimal(m.updated), Decimal(m.state)]
  }

  function Serialize(m: Metadata): Bytes {
    Joined(MetadataFields(m))
  }

  lemma JoinedFrom(fields: seq<Bytes>, i: nat)
    requires i < |fields|
    ensures Joined(fields[i..]) ==
            if i + 1 == |fields| then fields[i] else fields[i] + Ascii("\t") + Joined(fields[i + 1..])
  {
    Prefixes();
    assert fields[i..][1..] == fields[i + 1..];
  }

  /** The line as the code writes it. */
  lemma MetadataLayout(m: Metadata)
    ensures Serialize(m) ==
            m.objectId + Ascii("\t") + (m.bucket + Ascii("\t") + (m.key + Ascii("\t") + (Decimal(m.size) + Ascii("\t")
            + (Decimal(m.chunkCount) + Ascii("\t") + (Decimal(m.chunkSize) + Ascii("\t") + (m.contentType + Ascii("\t")
            + (m.etag + Ascii("\t") + (Decimal(m.created) + Ascii("\t") + (Decimal(m.updated) + Ascii("\t")
            + Decimal(m.state))))))))))
  {
    hide Decimal, Joined;
    var f := MetadataFields(m);
    assert f[0..] == f;
    JoinedFrom(f, 0);
    JoinedFrom(f, 1);
    JoinedFrom(f, 2);
    JoinedFrom(f, 3);
    JoinedFrom(f, 4);
    JoinedFrom(f, 5);
    JoinedFrom(f, 6);
    JoinedFrom(f, 7);
    JoinedFrom(f, 8);
    JoinedFrom(f, 9);
    JoinedFrom(f, 10);
  }

  /** The conversions after the fields are split: 32-bit fields are truncated, and so is the state. */
  function FromFields(f: seq<Bytes>): Option<Metadata>
    requires |f| == 11
  {
    var size, count, chunk := ReadUnsigned(f[3]), ReadUnsigned(f[4]), ReadUnsigned(f[5]);
    var created, updated, state := ReadUnsigned(f[8]), ReadUnsigned(f[9]), ReadInt(f[10]);
    if size.None? || count.None? || chunk.None? || created.None? || updated.None? || state.None? then None
    else Some(Metadata(f[0], f[1], f[2], size.value, count.value % TWO_32, chunk.value % TWO_32, f[6], f[7],
                       created.value, updated.value, state.value % 256))
  }

  function Deserialize(s: Bytes): Option<Metadata> {
    match Fields(s, 11)
    case None => None
    case Some(f) => FromFields(f)
  }

  lemma FieldsConvertBack(m: Metadata)
    requires InRange(m)
    ensures FromFields(MetadataFields(m)) == Some(m)
  {
    hide Decimal, ReadUnsigned, ReadInt;
    NumberRoundTrip(m.size);
    NumberRoundTrip(m.chunkCount);
    NumberRoundTrip(m.chunkSize);
    NumberRoundTrip(m.created);
    NumberRoundTrip(m.updated);
    NumberRoundTrip(m.state);
  }

  lemma FieldsTabFree(m: Metadata)
    requires TabFree(m)
    ensures forall i :: 0 <= i < 11 ==> NoTab(MetadataFields(m)[i])
  {
    hide NoTab, Decimal;
    DecimalPlain(m.size);
    DecimalPlain(m.chunkCount);
    DecimalPlain(m.chunkSize);
    DecimalPlain(m.created);
    DecimalPlain(m.updated);
    DecimalPlain(m.state);
  }

  /** Metadata is read back as it was written exactly when no text field has a tab. */
  lemma MetadataRoundTrip(m: Metadata)
    requires InRange(m)
    ensures Deserialize(Serialize(m)) == Some(m) <==> TabFree(m)
  {
    hide Fields, Joined, Decimal, ReadUnsigned, ReadInt, NoTab, InRange;
    if TabFree(m) {
      FieldsTabFree(m);
      FieldsOfJoined(MetadataFields(m));
      FieldsConvertBack(m);
    }
  }

  /** What deserialization yields can be written again: it is in range and free of tabs. */
  lemma ReadMetadataIsWritable(s: Bytes)
    requires Deserialize(s).Some?
    ensures InRange(Deserialize(s).value) && TabFree(Deserialize(s).value)
  {
    hide Fields, LeadingDigits, ValueOf, NoTab, Unsigned, Negative, ReadInt;
  }
}
