/**
The record format of the redo log: a magic word, two format bytes and two length-prefixed blobs.  The first half
is the format as functions over byte sequences with its laws; the second half is the cursor that reads and
writes it.
*/
module RedoLog {
  import opened Prelude

  /** "Ate", then the version byte '1'. */
  const MAGIC: seq<Byte> := [65, 116, 101, 49]

  /** raw, json, mpack, bincode, yaml and xml: the formats of the default build. */
  type Format = f: int | 0 <= f < 6

  datatype Record = Record(metaFormat: Format, dataFormat: Format, meta: seq<Byte>, data: Option<seq<Byte>>)

  /** What reading a record yields: the offset at which the reader started, and the record. */
  datatype LogEntry = LogEntry(offset: nat, record: Record)

  datatype Parsed<T> = Ok(value: T, next: nat) | Err

  datatype ReadResult = End | Broken | Entry(entry: LogEntry, next: nat)

  // ---------------------------------------------------------------- big-endian numbers

  function Pow256(w: nat): (r: nat)
    ensures r > 0
  {
    if w == 0 then 1 else 256 * Pow256(w - 1)
  }

  function BeBytes(v: nat, w: nat): (r: seq<Byte>)
    ensures |r| == w
  {
    if w == 0 then [] else BeBytes(v / 256, w - 1) + [v % 256]
  }

  function BeNat(s: seq<Byte>): nat {
    if s == [] then 0 else BeNat(s[..|s| - 1]) * 256 + s[|s| - 1]
  }

  lemma {:induction false} BeRoundTrip(v: nat, w: nat)
    requires v < Pow256(w)
    ensures BeNat(BeBytes(v, w)) == v
  {
    if w == 0 {
    } else {
      BeRoundTrip(v / 256, w - 1);
      assert BeBytes(v, w)[..w - 1] == BeBytes(v / 256, w - 1);
    }
  }

  lemma SmallMultiple(n: int, d: int)
    requires -n < n * d < n
    ensures d == 0
  {
  }

  lemma QuotientIs(v: nat, n: nat, q: nat, rest: nat)
    requires v == n * q + rest && rest < n
    ensures v / n == q
  {
    assert v == n * (v / n) + v % n;
    assert n * (v / n - q) == n * (v / n) - n * q;
    SmallMultiple(n, v / n - q);
  }

  lemma Regroup(b: nat, q: nat)
    ensures 256 * (b * q) == (256 * b) * q
  {
  }

  lemma DivTwice(v: nat, b: nat)
    requires b > 0
    ensures v / 256 / b == v / (256 * b)
  {
    var x := v / 256;
    var q, r := x / b, x % b;
    assert x == b * q + r && r < b;
    Regroup(b, q);
    QuotientIs(v, 256 * b, q, 256 * r + v % 256);
  }

  /** Digit i of a number of w digits to the base 256, the most significant first. */
  function Digit(v: nat, w: nat, i: nat): Byte
    requires i < w
  {
    v / Pow256(w - 1 - i) % 256
  }

  /** The most significant byte comes first. */
  lemma {:induction false} BeBytesAt(v: nat, w: nat, i: nat)
    requires i < w
    ensures BeBytes(v, w)[i] == Digit(v, w, i)
  {
    hide Pow256;
    if i == w - 1 {
      PowSteps(0);
    } else {
      BeBytesAt(v / 256, w - 1, i);
      PowSteps(w - 1 - i);
      DivTwice(v, Pow256(w - 2 - i));
    }
  }

  lemma PowSteps(w: nat)
    ensures Pow256(w) == if w == 0 then 1 else 256 * Pow256(w - 1)
  {
  }

  // ---------------------------------------------------------------- blob lengths

  const U8_MAX: nat := 0xff
  const U16_MAX: nat := 0xffff
  const U32_MAX: nat := 0xffff_ffff
  const U64_MAX: nat := 0xffff_ffff_ffff_ffff

  /** The code that announces the width of a length: 1, 2, 3, 4 for one, two, four and eight bytes. */
  function SizeCode(val: nat): (c: Byte)
    ensures 1 <= c <= 4
  {
    if val < U8_MAX then 1 else if val < U16_MAX then 2 else if val < U32_MAX then 3 else if val < U64_MAX then 4 else 3
  }

  function Width(code: Byte): nat
    requires 1 <= code <= 4
  {
    if code == 1 then 1 else if code == 2 then 2 else if code == 3 then 4 else 8
  }

  /** A length on the wire; a value too wide for the chosen width is truncated. */
  function SizeBytes(val: nat): seq<Byte> {
    var w := Width(SizeCode(val));
    [SizeCode(val)] + BeBytes(val % Pow256(w), w)
  }

  function ParseBe(s: seq<Byte>, pos: nat, w: nat): Parsed<nat> {
    if pos + w <= |s| then Ok(BeNat(s[pos..pos + w]), pos + w) else Err
  }

  function ParseSize(s: seq<Byte>, pos: nat): Parsed<nat> {
    if pos < |s| && 1 <= s[pos] <= 4 then ParseBe(s, pos + 1, Width(s[pos])) else Err
  }

  lemma PowWidths()
    ensures Pow256(1) == U8_MAX + 1 && Pow256(2) == U16_MAX + 1 && Pow256(4) == U32_MAX + 1 && Pow256(8) == U64_MAX + 1
  {
    assert Pow256(3) == 256 * Pow256(2) && Pow256(5) == 256 * Pow256(4) && Pow256(7) == 256 * Pow256(6);
  }

  /** A 64-bit length is read back as written, except the one value that falls through every test. */
  lemma SizeRoundTrip(pre: seq<Byte>, val: nat, post: seq<Byte>)
    requires val <= U64_MAX
    ensures ParseSize(pre + SizeBytes(val) + post, |pre|) ==
            Ok(if val == U64_MAX then U32_MAX else val, |pre| + |SizeBytes(val)|)
  {
    hide Pow256, BeBytes, BeNat, SizeCode, Width;
    var s, w := pre + SizeBytes(val) + post, Width(SizeCode(val));
    SizeFits(val);
    BeRoundTrip(val % Pow256(w), w);
    assert s[|pre| + 1..|pre| + 1 + w] == BeBytes(val % Pow256(w), w);
  }

  lemma SizeFits(val: nat)
    requires val <= U64_MAX
    ensures val % Pow256(Width(SizeCode(val))) == if val == U64_MAX then U32_MAX else val
  {
    hide Pow256;
    PowWidths();
    assert U64_MAX % (U32_MAX + 1) == U32_MAX;
  }

  // ---------------------------------------------------------------- the magic word

  predicate MagicAt(s: seq<Byte>, i: nat) {
    i + 4 <= |s| && s[i..i + 4] == MAGIC
  }

  /** The first position at or after pos where the magic word stands. */
  function FindMagic(s: seq<Byte>, pos: nat): (r: Option<nat>)
    ensures r.Some? ==> pos <= r.value && MagicAt(s, r.value) && forall i :: pos <= i < r.value ==> !MagicAt(s, i)
    ensures r.None? ==> forall i :: pos <= i ==> !MagicAt(s, i)
    decreases |s| - pos
  {
    if pos + 4 > |s| then None else if MagicAt(s, pos) then Some(pos) else FindMagic(s, pos + 1)
  }

  /** The magic word cannot overlap itself, so garbage that does not contain it hides no record behind it. */
  lemma MagicAfterGarbage(pre: seq<Byte>, garbage: seq<Byte>, post: seq<Byte>)
    requires forall i :: 0 <= i ==> !MagicAt(garbage, i)
    ensures FindMagic(pre + garbage + MAGIC + post, |pre|) == Some(|pre| + |garbage|)
  {
    var s, at := pre + garbage + MAGIC + post, |pre| + |garbage|;
    assert s[at..at + 4] == MAGIC;
    assert MagicAt(s, at);
    forall i | |pre| <= i < at
      ensures !MagicAt(s, i)
    {
      if i + 4 <= at {
        assert s[i..i + 4] == garbage[i - |pre|..i - |pre| + 4];
        assert !MagicAt(garbage, i - |pre|);
      } else {
        assert s[at] == 65;
        assert s[i..i + 4][at - i] == s[at];
      }
    }
  }

  // ---------------------------------------------------------------- records

  function BlobBytes(blob: seq<Byte>): seq<Byte> {
    SizeBytes(|blob|) + blob
  }

  function DataOf(r: Record): seq<Byte> {
    if r.data.Some? then r.data.value else []
  }

  function Encode(r: Record): seq<Byte> {
    MAGIC + [r.metaFormat] + BlobBytes(r.meta) + [r.dataFormat] + BlobBytes(DataOf(r))
  }

  /** How many bytes a length takes, by its range. */
  function LengthWidth(n: nat): nat {
    if n <= 0xfe then 1 else if n <= 0xfffe then 2 else if n <= 0xffff_fffe then 4 else 8
  }

  /** A format byte, a length with its width before it and the most significant byte first, and the blob. */
  predicate PartAt(s: seq<Byte>, at: nat, format: Format, blob: seq<Byte>) {
    var n, w := |blob|, LengthWidth(|blob|);
    && at + 2 + w + n <= |s|
    && s[at] == format && s[at + 1] == (if w == 1 then 1 else if w == 2 then 2 else if w == 4 then 3 else 4)
    && IsLength(s[at + 2..at + 2 + w], n)
    && s[at + 2 + w..at + 2 + w + n] == blob
  }

  predicate IsLength(s: seq<Byte>, n: nat) {
    forall i: nat :: i < |s| ==> s[i] == Digit(n, |s|, i)
  }

  lemma LengthIs(n: nat)
    requires n < U64_MAX
    ensures Width(SizeCode(n)) == LengthWidth(n) && IsLength(BeBytes(n, LengthWidth(n)), n)
    ensures SizeBytes(n) == [SizeCode(n)] + BeBytes(n, LengthWidth(n))
  {
    hide BeBytes, Pow256, Digit;
    SizeFits(n);
    var w := LengthWidth(n);
    forall i: nat | i < w
      ensures BeBytes(n, w)[i] == Digit(n, w, i)
    {
      BeBytesAt(n, w, i);
    }
  }

  lemma PartIsAt(pre: seq<Byte>, format: Format, blob: seq<Byte>, post: seq<Byte>)
    requires |blob| < U64_MAX
    ensures PartAt(pre + ([format] + BlobBytes(blob)) + post, |pre|, format, blob)
    ensures |BlobBytes(blob)| == 1 + LengthWidth(|blob|) + |blob|
  {
    hide BeBytes, SizeBytes, IsLength;
    var n, w := |blob|, LengthWidth(|blob|);
    LengthIs(n);
    var s := pre + ([format] + BlobBytes(blob)) + post;
    assert s == pre + [format, SizeCode(n)] + BeBytes(n, w) + blob + post;
    assert s[|pre| + 2..|pre| + 2 + w] == BeBytes(n, w);
    assert s[|pre| + 2 + w..|pre| + 2 + w + n] == blob;
  }

  /** Every byte of a record: the magic, the part with the metadata and the part with the data, and nothing else. */
  lemma RecordLayout(r: Record)
    requires Encodable(r)
    ensures var s, at := Encode(r), 6 + LengthWidth(|r.meta|) + |r.meta|;
            && 4 <= |s| && s[..4] == [65, 116, 101, 49]
            && PartAt(s, 4, r.metaFormat, r.meta) && PartAt(s, at, r.dataFormat, DataOf(r))
            && |s| == at + 2 + LengthWidth(|DataOf(r)|) + |DataOf(r)|
  {
    hide BlobBytes, PartAt;
    var s, data := Encode(r), DataOf(r);
    var meta := [r.metaFormat] + BlobBytes(r.meta);
    var rest := [r.dataFormat] + BlobBytes(data);
    PartIsAt(MAGIC, r.metaFormat, r.meta, rest);
    assert s == MAGIC + meta + rest;
    PartIsAt(MAGIC + meta, r.dataFormat, data, []);
    assert s == MAGIC + meta + rest + [];
  }

  function ParseBlob(s: seq<Byte>, pos: nat): Parsed<seq<Byte>> {
    var n := ParseSize(s, pos);
    if n.Ok? && n.next + n.value <= |s| then Ok(s[n.next..n.next + n.value], n.next + n.value) else Err
  }

  /** A format byte and the blob it describes. */
  function ParsePart(s: seq<Byte>, pos: nat): Parsed<(Format, seq<Byte>)> {
    if pos < |s| && s[pos] < 6 then
      var blob := ParseBlob(s, pos + 1);
      if blob.Ok? then Ok((s[pos], blob.value), blob.next) else Err
    else Err
  }

  function ParseEntry(s: seq<Byte>, pos: nat): ReadResult {
    var at := FindMagic(s, pos);
    if at.None? then End
    else
      var meta := ParsePart(s, at.value + 4);
      if meta.Err? then Broken
      else
        var data := ParsePart(s, meta.next);
        if data.Err? then Broken
        else
          Entry(LogEntry(pos, Record(meta.value.0, data.value.0, meta.value.1,
                                     if |data.value.1| > 0 then Some(data.value.1) else None)), data.next)
  }

  /** The lengths of a record's blobs are below 2^64 - 1, so that they survive the length encoding. */
  predicate Encodable(r: Record) {
    |r.meta| < U64_MAX && |DataOf(r)| < U64_MAX
  }

  /** What a written record reads back as: empty data comes back as none. */
  function Normal(r: Record): Record {
    if r.data == Some([]) then r.(data := None) else r
  }

  lemma BlobRoundTrip(pre: seq<Byte>, blob: seq<Byte>, post: seq<Byte>)
    requires |blob| < U64_MAX
    ensures ParseBlob(pre + BlobBytes(blob) + post, |pre|) == Ok(blob, |pre| + |BlobBytes(blob)|)
  {
    hide SizeBytes, ParseSize;
    var s := pre + BlobBytes(blob) + post;
    SizeRoundTrip(pre, |blob|, blob + post);
    assert s == pre + SizeBytes(|blob|) + (blob + post);
    var at := |pre| + |SizeBytes(|blob|)|;
    assert s[at..at + |blob|] == blob;
  }

  lemma PartRoundTrip(pre: seq<Byte>, f: Format, blob: seq<Byte>, post: seq<Byte>)
    requires |blob| < U64_MAX
    ensures ParsePart(pre + [f] + BlobBytes(blob) + post, |pre|) == Ok((f, blob), |pre| + 1 + |BlobBytes(blob)|)
  {
    hide BlobBytes, ParseBlob;
    BlobRoundTrip(pre + [f], blob, post);
  }

  /** A record is read back from any log that holds it, past any garbage without the magic word. */
  lemma RecordRoundTrip(pre: seq<Byte>, garbage: seq<Byte>, r: Record, post: seq<Byte>)
    requires Encodable(r)
    requires forall i :: 0 <= i ==> !MagicAt(garbage, i)
    ensures ParseEntry(pre + garbage + Encode(r) + post, |pre|) ==
            Entry(LogEntry(|pre|, Normal(r)), |pre| + |garbage| + |Encode(r)|)
  {
    hide BlobBytes, ParsePart, FindMagic;
    var s := pre + garbage + Encode(r) + post;
    var part1, part2 := [r.metaFormat] + BlobBytes(r.meta), [r.dataFormat] + BlobBytes(DataOf(r));
    MagicAfterGarbage(pre, garbage, part1 + part2 + post);
    assert s == pre + garbage + MAGIC + (part1 + part2 + post);
    var head1 := pre + garbage + MAGIC;
    PartRoundTrip(head1, r.metaFormat, r.meta, part2 + post);
    assert s == head1 + [r.metaFormat] + BlobBytes(r.meta) + (part2 + post);
    var head2 := head1 + part1;
    PartRoundTrip(head2, r.dataFormat, DataOf(r), post);
    assert s == head2 + [r.dataFormat] + BlobBytes(DataOf(r)) + post;
  }

  // ---------------------------------------------------------------- growing and truncated logs

  lemma {:induction false} FindMagicStable(s: seq<Byte>, t: seq<Byte>, pos: nat)
    requires FindMagic(s, pos).Some?
    ensures FindMagic(s + t, pos) == FindMagic(s, pos)
  {
    var at := FindMagic(s, pos).value;
    assert (s + t)[at..at + 4] == s[at..at + 4];
    assert MagicAt(s + t, at);
    forall i | pos <= i < at
      ensures !MagicAt(s + t, i)
    {
      assert (s + t)[i..i + 4] == s[i..i + 4];
      assert !MagicAt(s, i);
    }
  }

  lemma PartStable(s: seq<Byte>, t: seq<Byte>, pos: nat)
    requires ParsePart(s, pos).Ok?
    ensures ParsePart(s + t, pos) == ParsePart(s, pos) && pos < ParsePart(s, pos).next <= |s|
  {
    hide BeNat;
    var n := ParseSize(s, pos + 1);
    assert (s + t)[pos + 2..n.next] == s[pos + 2..n.next];
    assert ParseSize(s + t, pos + 1) == n;
    assert (s + t)[n.next..n.next + n.value] == s[n.next..n.next + n.value];
  }

  /** An entry once readable stays readable, unchanged, however the log grows. */
  lemma EntryStable(s: seq<Byte>, t: seq<Byte>, pos: nat)
    requires ParseEntry(s, pos).Entry?
    ensures ParseEntry(s + t, pos) == ParseEntry(s, pos) && pos < ParseEntry(s, pos).next <= |s|
  {
    hide ParsePart, FindMagic;
    FindMagicStable(s, t, pos);
    var at := FindMagic(s, pos).value;
    PartStable(s, t, at + 4);
    PartStable(s, t, ParsePart(s, at + 4).next);
  }

  /** Reading record after record until the end of the log or an error. */
  function ReadAll(s: seq<Byte>, pos: nat): seq<LogEntry>
    decreases |s| - pos
  {
    var r := ParseEntry(s, pos);
    if r.Entry? then
      EntryStable(s, [], pos);
      [r.entry] + ReadAll(s, r.next)
    else []
  }

  function EncodeAll(rs: seq<Record>): seq<Byte> {
    if rs == [] then [] else Encode(rs[0]) + EncodeAll(rs[1..])
  }

  /** How many records lie wholly within the first m bytes. */
  function Whole(rs: seq<Record>, m: nat): (n: nat)
    ensures n <= |rs|
  {
    if rs == [] || |Encode(rs[0])| > m then 0 else 1 + Whole(rs[1..], m - |Encode(rs[0])|)
  }

  function EntriesAt(rs: seq<Record>, offset: nat): seq<LogEntry> {
    if rs == [] then [] else [LogEntry(offset, Normal(rs[0]))] + EntriesAt(rs[1..], offset + |Encode(rs[0])|)
  }

  lemma NoEntryInCutRecord(pre: seq<Byte>, r: Record, m: nat)
    requires Encodable(r) && m < |Encode(r)|
    ensures !ParseEntry(pre + Encode(r)[..m], |pre|).Entry?
  {
    hide ParseEntry, Encode, Normal;
    var cut, all := pre + Encode(r)[..m], pre + Encode(r);
    assert cut + Encode(r)[m..] == all;
    assert pre + [] + Encode(r) + [] == all;
    RecordRoundTrip(pre, [], r, []);
    if ParseEntry(cut, |pre|).Entry? {
      EntryStable(cut, Encode(r)[m..], |pre|);
    }
  }

  /**
   Whatever records were written, reading any byte prefix of the log yields exactly the records that lie wholly
   inside it, in order, and then stops: never a false record.
   */
  lemma {:induction false} PrefixRecovers(pre: seq<Byte>, rs: seq<Record>, m: nat)
    requires forall r :: r in rs ==> Encodable(r)
    requires m <= |EncodeAll(rs)|
    ensures ReadAll(pre + EncodeAll(rs)[..m], |pre|) == EntriesAt(rs[..Whole(rs, m)], |pre|)
    decreases |rs|
  {
    hide ParseEntry, Encode, Normal;
    var s := pre + EncodeAll(rs)[..m];
    if rs == [] {
      assert s == pre;
      EmptyAtEnd(pre);
    } else {
      var r, n := rs[0], |Encode(rs[0])|;
      if n <= m {
        var rest := EncodeAll(rs[1..])[..m - n];
        assert s == (pre + Encode(r)) + rest;
        assert s == pre + [] + Encode(r) + rest;
        RecordRoundTrip(pre, [], r, rest);
        PrefixRecovers(pre + Encode(r), rs[1..], m - n);
        assert rs[..Whole(rs, m)][1..] == rs[1..][..Whole(rs[1..], m - n)];
      } else {
        assert s == pre + Encode(r)[..m];
        NoEntryInCutRecord(pre, r, m);
        assert rs[..0] == [];
      }
    }
  }

  lemma EmptyAtEnd(s: seq<Byte>)
    ensures ParseEntry(s, |s|) == End
  {
  }

  /** A whole log reads back as the records written. */
  lemma LogRoundTrip(pre: seq<Byte>, rs: seq<Record>)
    requires forall r :: r in rs ==> Encodable(r)
    ensures ReadAll(pre + EncodeAll(rs), |pre|) == EntriesAt(rs, |pre|)
  {
    hide Encode, ReadAll, EntriesAt;
    AllWhole(rs);
    PrefixRecovers(pre, rs, |EncodeAll(rs)|);
    assert EncodeAll(rs)[..|EncodeAll(rs)|] == EncodeAll(rs) && rs[..|rs|] == rs;
  }

  lemma {:induction false} AllWhole(rs: seq<Record>)
    ensures Whole(rs, |EncodeAll(rs)|) == |rs|
  {
    hide Encode;
    if rs == [] {
    } else {
      AllWhole(rs[1..]);
    }
  }

  // ---------------------------------------------------------------- the cursor

  /** A log and a position in it. */
  class LogCursor {
    var bytes: seq<Byte>
    var offset: nat

    constructor (bytes: seq<Byte>, offset: nat)
      ensures this.bytes == bytes && this.offset == offset
    {
      this.bytes, this.offset := bytes, offset;
    }

    method Seek(to: nat)
      modifies this`offset
      ensures offset == to
    {
      offset := to;
    }

    /** One byte, or none at the end of the log. */
    method ReadU8() returns (r: Option<Byte>)
      modifies this`offset
      ensures if old(offset) < |bytes| then r == Some(bytes[old(offset)]) && offset == old(offset) + 1
              else r.None? && offset == old(offset)
    {
      if offset < |bytes| {
        r := Some(bytes[offset]);
        offset := offset + 1;
      } else {
        r := None;
      }
    }

    /** Exactly n bytes, or none if the log ends before. */
    method ReadExact(n: nat) returns (r: Option<seq<Byte>>)
      modifies this`offset
      ensures if old(offset) + n <= |bytes|
              then r == Some(bytes[old(offset)..old(offset) + n]) && offset == old(offset) + n
              else r.None? && offset == old(offset)
    {
      if offset + n <= |bytes| {
        r := Some(bytes[offset..offset + n]);
        offset := offset + n;
      } else {
        r := None;
      }
    }

    /** Scan for the magic word: the cursor stops right behind its first occurrence, or at the end. */
    method ReadVersion() returns (found: bool)
      modifies this`offset
      ensures var at := FindMagic(bytes, old(offset));
              && found == at.Some?
              && offset == if found then at.value + 4 else if old(offset) < |bytes| then |bytes| else old(offset)
    {
      hide FindMagic, Matched, MagicAt;
      var n := 0;
      ghost var start := offset;
      MatchStart(bytes, start);
      var cur := ReadU8();
      while cur.Some?
        invariant n <= 3
        invariant cur.Some? ==> start < offset <= |bytes| && cur.value == bytes[offset - 1]
        invariant cur.Some? ==> Matched(bytes, start, offset - 1, n) && NoMagicBefore(bytes, start, offset - 1)
        invariant cur.None? ==>
                    offset == (if start < |bytes| then |bytes| else start) && NoMagicBefore(bytes, start, offset)
        decreases |bytes| - offset, cur.Some?
      {
        MatchStep(bytes, start, offset - 1, n);
        var hit: bool;
        n, hit := MatchByte(n, cur.value);
        if hit {
          FoundMagic(bytes, start, offset - 4);
          return true;
        }
        cur := ReadU8();
      }
      NotFoundMagic(bytes, start, offset);
      return false;
    }

    /** A big-endian number of w bytes. */
    method ReadBe(w: nat) returns (r: Option<nat>)
      modifies this`offset
      ensures var p := ParseBe(bytes, old(offset), w);
              if p.Ok? then r == Some(p.value) && offset == p.next else r.None?
    {
      var b := ReadExact(w);
      if b.None? {
        return None;
      }
      return Some(BeNat(b.value));
    }

    method ReadBlobSize() returns (r: Option<nat>)
      modifies this`offset
      ensures var p := ParseSize(bytes, old(offset));
              if p.Ok? then r == Some(p.value) && offset == p.next else r.None?
    {
      var code := ReadU8();
      if code.None? {
        return None;
      }
      match code.value {
        case 1 => r := ReadBe(1);
        case 2 => r := ReadBe(2);
        case 3 => r := ReadBe(4);
        case 4 => r := ReadBe(8);
        case _ => r := None;
      }
    }

    method ReadFormat() returns (r: Option<Format>)
      modifies this`offset
      ensures if old(offset) < |bytes| && bytes[old(offset)] < 6
              then r == Some(bytes[old(offset)]) && offset == old(offset) + 1 else r.None?
    {
      var b := ReadU8();
      if b.Some? && b.value < 6 {
        return Some(b.value);
      }
      return None;
    }

    /** A format byte and the blob that follows it. */
    method ReadPart() returns (r: Option<(Format, seq<Byte>)>)
      modifies this`offset
      ensures var p := ParsePart(bytes, old(offset));
              if p.Ok? then r == Some(p.value) && offset == p.next else r.None?
    {
      var format := ReadFormat();
      if format.None? {
        return None;
      }
      var size := ReadBlobSize();
      if size.None? {
        return None;
      }
      var blob := ReadExact(size.value);
      if blob.None? {
        return None;
      }
      return Some((format.value, blob.value));
    }

    /** The next record, from wherever the cursor stands. */
    method Read() returns (r: ReadResult)
      modifies this`offset
      ensures r == ParseEntry(bytes, old(offset))
      ensures r.Entry? ==> offset == r.next
    {
      hide ParsePart, FindMagic;
      var start := offset;
      var found := ReadVersion();
      if !found {
        return End;
      }
      var meta := ReadPart();
      if meta.None? {
        return Broken;
      }
      var data := ReadPart();
      if data.None? {
        return Broken;
      }
      var blob := if |data.value.1| > 0 then Some(data.value.1) else None;
      return Entry(LogEntry(start, Record(meta.value.0, data.value.0, meta.value.1, blob)), offset);
    }

    /** Bytes are written at the end of the log. */
    method WriteExact(b: seq<Byte>)
      requires offset == |bytes|
      modifies this
      ensures bytes == old(bytes) + b && offset == |bytes|
    {
      bytes := bytes + b;
      offset := offset + |b|;
    }

    method WriteBlobSize(val: nat)
      requires offset == |bytes|
      modifies this
      ensures bytes == old(bytes) + SizeBytes(val) && offset == |bytes|
    {
      var code: Byte;
      if val < U8_MAX {
        code := 1;
      } else if val < U16_MAX {
        code := 2;
      } else if val < U32_MAX {
        code := 3;
      } else if val < U64_MAX {
        code := 4;
      } else {
        code := 3;
      }
      WriteExact([code]);
      match code {
        case 1 => WriteExact(BeBytes(val % Pow256(1), 1));
        case 2 => WriteExact(BeBytes(val % Pow256(2), 2));
        case 3 => WriteExact(BeBytes(val % Pow256(4), 4));
        case _ => WriteExact(BeBytes(val % Pow256(8), 8));
      }
    }

    /** A format byte, the length of the blob and the blob. */
    method WritePart(format: Format, blob: seq<Byte>)
      requires offset == |bytes|
      modifies this
      ensures bytes == old(bytes) + [format] + BlobBytes(blob) && offset == |bytes|
    {
      hide SizeBytes;
      WriteExact([format]);
      WriteBlobSize(|blob|);
      WriteExact(blob);
    }

    /** Append a record; the header returned is where it starts. */
    method Write(r: Record) returns (header: nat)
      requires offset == |bytes|
      modifies this
      ensures bytes == old(bytes) + Encode(r) && offset == |bytes|
      ensures header == |old(bytes)|
    {
      hide BlobBytes;
      header := offset;
      WriteExact(MAGIC[..3]);
      WriteExact([MAGIC[3]]);
      WritePart(r.metaFormat, r.meta);
      match r.data {
        case Some(data) => WritePart(r.dataFormat, data);
        case None => WritePart(r.dataFormat, []);
      }
    }
  }

  /** Append records to a log: every header returned keeps leading back to its record as the log grows. */
  method WriteAll(pre: seq<Byte>, rs: seq<Record>) returns (bytes: seq<Byte>, headers: seq<nat>)
    requires forall r :: r in rs ==> Encodable(r)
    ensures |headers| == |rs|
    ensures pre <= bytes
    ensures forall i: nat :: i < |rs| ==>
              && ParseEntry(bytes, headers[i]).Entry?
              && ParseEntry(bytes, headers[i]).entry == LogEntry(headers[i], Normal(rs[i]))
  {
    hide ParseEntry, Encode, Normal, Encodable;
    var log := new LogCursor(pre, |pre|);
    headers := [];
    for i := 0 to |rs|
      invariant log.offset == |log.bytes| && pre <= log.bytes && |headers| == i
      invariant forall j: nat :: j < i ==> ReadsBack(log.bytes, headers[j], rs[j])
    {
      ghost var before := log.bytes;
      var h := log.Write(rs[i]);
      forall j: nat | j < i
        ensures ReadsBack(log.bytes, headers[j], rs[j])
      {
        EntryStable(before, Encode(rs[i]), headers[j]);
      }
      RecordRoundTrip(before, [], rs[i], []);
      assert before + [] + Encode(rs[i]) + [] == log.bytes;
      headers := headers + [h];
    }
    bytes := log.bytes;
    assert forall i: nat :: i < |rs| ==> ReadsBack(bytes, headers[i], rs[i]);
  }

  /** Seeking to the header of any record of a written log reads that record again. */
  method WriteThenSeek(pre: seq<Byte>, rs: seq<Record>, i: nat) returns (r: ReadResult)
    requires (forall r :: r in rs ==> Encodable(r)) && i < |rs|
    ensures r.Entry? && r.entry.record == Normal(rs[i])
  {
    hide ParseEntry, Normal, Encodable;
    var bytes, headers := WriteAll(pre, rs);
    var log := new LogCursor(bytes, 0);
    log.Seek(headers[i]);
    r := log.Read();
  }

  predicate ReadsBack(bytes: seq<Byte>, header: nat, r: Record) {
    ParseEntry(bytes, header).Entry? && ParseEntry(bytes, header).entry == LogEntry(header, Normal(r))
  }

  /** Load a log from an offset, record after record, until it ends or breaks. */
  method Load(bytes: seq<Byte>, from: nat) returns (entries: seq<LogEntry>)
    ensures entries == ReadAll(bytes, from)
  {
    hide ParseEntry;
    var log := new LogCursor(bytes, from);
    entries := [];
    var r := log.Read();
    if r.Entry? {
      EntryStable(bytes, [], from);
    }
    while r.Entry?
      invariant log.bytes == bytes
      invariant r.Entry? ==> log.offset == r.next <= |bytes|
      invariant r.Entry? ==> ReadAll(bytes, from) == entries + [r.entry] + ReadAll(bytes, r.next)
      invariant !r.Entry? ==> ReadAll(bytes, from) == entries
      decreases r.Entry?, |bytes| - log.offset
    {
      entries := entries + [r.entry];
      ghost var at := log.offset;
      r := log.Read();
      if r.Entry? {
        EntryStable(bytes, [], at);
      }
    }
  }

  /** One byte through the match counter; a byte that breaks a match is tried again as the start of one. */
  method MatchByte(n0: nat, cur: Byte) returns (n: nat, hit: bool)
    requires n0 <= 3
    ensures hit <==> n0 == 3 && cur == 49
    ensures !hit ==> n == NextCount(n0, cur)
  {
    n := n0;
    while true
      invariant n == n0 || (n == 0 && n0 > 0 && (n0 < 3 ==> cur != MAGIC[n0]) && (n0 == 3 ==> cur != 49))
      decreases n
    {
      if n < 3 {
        if cur == MAGIC[n] {
          return n + 1, false;
        }
        if n > 0 {
          n := 0;
          continue;
        }
        return n, false;
      }
      if cur == 49 {
        return n, true;
      }
      n := 0;
    }
  }

  /** The counter after a byte that does not complete the magic word. */
  function NextCount(n: nat, cur: Byte): nat
    requires n <= 3
  {
    if n < 3 && cur == MAGIC[n] then n + 1 else if cur == MAGIC[0] then 1 else 0
  }

  /** The k bytes before p, all read since start, are the first k bytes of the magic word. */
  predicate Tail(s: seq<Byte>, start: nat, p: nat, k: nat) {
    k <= 4 && start + k <= p <= |s| && forall j :: 0 <= j < k ==> s[p - k + j] == MAGIC[j]
  }

  /** The match counter n is the length of the only such tail. */
  predicate Matched(s: seq<Byte>, start: nat, p: nat, n: nat) {
    && n <= 3
    && (n > 0 ==> Tail(s, start, p, n))
    && forall k :: 1 <= k <= 3 && Tail(s, start, p, k) ==> k == n
  }

  /** No magic word that starts at or after start ends at or before p. */
  ghost predicate NoMagicBefore(s: seq<Byte>, start: nat, p: nat) {
    forall i :: start <= i && i + 4 <= p ==> !MagicAt(s, i)
  }

  lemma MatchStart(s: seq<Byte>, start: nat)
    ensures Matched(s, start, start, 0) && NoMagicBefore(s, start, start)
  {
  }

  lemma TailShrinks(s: seq<Byte>, start: nat, p: nat, k: nat)
    requires p < |s| && 1 <= k <= 4
    ensures Tail(s, start, p + 1, k) <==> s[p] == MAGIC[k - 1] && Tail(s, start, p, k - 1) && start <= p
  {
    if Tail(s, start, p + 1, k) {
      assert s[p + 1 - k + (k - 1)] == MAGIC[k - 1];
      forall j | 0 <= j < k - 1
        ensures s[p - (k - 1) + j] == MAGIC[j]
      {
        assert s[p + 1 - k + j] == MAGIC[j];
      }
    }
  }

  lemma MatchStep(s: seq<Byte>, start: nat, p: nat, n: nat)
    requires start <= p < |s| && n <= 3 && Matched(s, start, p, n) && NoMagicBefore(s, start, p)
    ensures n == 3 && s[p] == 49 ==> start <= p - 3 && MagicAt(s, p - 3)
    ensures !(n == 3 && s[p] == 49) ==>
              Matched(s, start, p + 1, NextCount(n, s[p])) && NoMagicBefore(s, start, p + 1)
  {
    hide Tail;
    TailShrinks(s, start, p, 1);
    TailShrinks(s, start, p, 2);
    TailShrinks(s, start, p, 3);
    TailShrinks(s, start, p, 4);
    TailZero(s, start, p);
    if p >= start + 3 {
      TailMagic(s, start, p + 1);
    }
    assert MAGIC[0] == 65 && MAGIC[1] == 116 && MAGIC[2] == 101 && MAGIC[3] == 49;
    assert Tail(s, start, p, 3) ==> start + 3 <= p by {
      TailLength(s, start, p);
    }
  }

  lemma TailZero(s: seq<Byte>, start: nat, p: nat)
    requires start <= p <= |s|
    ensures Tail(s, start, p, 0)
  {
  }

  lemma TailLength(s: seq<Byte>, start: nat, p: nat)
    ensures Tail(s, start, p, 3) ==> start + 3 <= p
  {
  }

  lemma TailMagic(s: seq<Byte>, start: nat, p: nat)
    requires start + 4 <= p <= |s|
    ensures Tail(s, start, p, 4) <==> MagicAt(s, p - 4)
  {
    if MagicAt(s, p - 4) {
      forall j | 0 <= j < 4
        ensures s[p - 4 + j] == MAGIC[j]
      {
        assert s[p - 4 + j] == s[p - 4..p][j];
      }
    }
    if Tail(s, start, p, 4) {
      assert s[p - 4..p] == MAGIC;
    }
  }

  lemma FoundMagic(s: seq<Byte>, start: nat, at: nat)
    requires start <= at && MagicAt(s, at) && NoMagicBefore(s, start, at + 3)
    ensures FindMagic(s, start) == Some(at)
  {
    assert forall i :: start <= i < at ==> !MagicAt(s, i);
  }

  lemma NotFoundMagic(s: seq<Byte>, start: nat, end: nat)
    requires NoMagicBefore(s, start, end) && |s| <= end
    ensures FindMagic(s, start) == None
  {
  }
}
