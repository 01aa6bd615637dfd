/** The local entries of a packaged theme, written and read back by section 4.3.7
    of the ZIP file format specification (APPNOTE.TXT). */
module Zip {
  import opened Text
  import opened Bytes
  import Crc32

  lemma Powers()
    ensures Power(2) == 0x1_0000 && Power(4) == 0x1_0000_0000
  {
    assert Power(1) == 256;
    assert Power(3) == 0x100_0000;
  }

  /* ---------- records of numbers ---------- */

  function WriteFields(widths: seq<nat>, values: seq<nat>): seq<bv8>
    requires |widths| == |values|
  {
    if widths == [] then [] else LittleEndian(widths[0], values[0]) + WriteFields(widths[1..], values[1..])
  }

  function ReadFields(widths: seq<nat>, s: seq<bv8>): Option<(seq<nat>, seq<bv8>)> {
    if widths == [] then Some(([], s))
    else if |s| < widths[0] then None
    else
      match ReadFields(widths[1..], s[widths[0]..])
      case None => None
      case Some(rest) => Some(([Number(s[..widths[0]])] + rest.0, rest.1))
  }

  function Sum(widths: seq<nat>): nat { if widths == [] then 0 else widths[0] + Sum(widths[1..]) }

  lemma {:induction false} FieldsLength(widths: seq<nat>, values: seq<nat>)
    requires |widths| == |values|
    ensures |WriteFields(widths, values)| == Sum(widths)
  {
    if widths != [] { FieldsLength(widths[1..], values[1..]); }
  }

  predicate Fit(widths: seq<nat>, values: seq<nat>) {
    |widths| == |values| && forall i :: 0 <= i < |widths| ==> values[i] < Power(widths[i])
  }

  lemma {:induction false} FieldsRoundTrip(widths: seq<nat>, values: seq<nat>, rest: seq<bv8>)
    requires Fit(widths, values)
    ensures ReadFields(widths, WriteFields(widths, values) + rest) == Some((values, rest))
  {
    hide LittleEndian, Number, Power;
    if widths == [] {
      assert values == [] && WriteFields(widths, values) + rest == rest;
    } else {
      var head, tail := LittleEndian(widths[0], values[0]), WriteFields(widths[1..], values[1..]);
      var s := WriteFields(widths, values) + rest;
      assert s == head + (tail + rest);
      assert s[..widths[0]] == head && s[widths[0]..] == tail + rest;
      NumberRoundTrip(widths[0], values[0]);
      FieldsRoundTrip(widths[1..], values[1..], rest);
      assert values == [values[0]] + values[1..];
    }
  }

  /* ---------- entries ---------- */

  datatype File = File(name: seq<bv8>, bytes: seq<bv8>)

  function CrcOf(bytes: seq<bv8>): (crc: nat)
    ensures crc < 0x1_0000_0000
  {
    Crc32.Bitwise(bytes) as int
  }

  const LocalWidths: seq<nat> := [4, 2, 2, 2, 2, 2, 4, 4, 4, 2, 2]

  /** Signature, version, flags, method, time, date, CRC, both sizes, and the
      lengths of the name and of the extra field. */
  function LocalValues(f: File): (values: seq<nat>)
    ensures |values| == 11
  {
    [0x04034b50, 20, 0, 0, 0, 0, CrcOf(f.bytes), |f.bytes| % 0x1_0000_0000, |f.bytes| % 0x1_0000_0000,
     |f.name| % 0x1_0000, 0]
  }

  function Entry(f: File): seq<bv8> {
    WriteFields(LocalWidths, LocalValues(f)) + (f.name + f.bytes)
  }

  function Stream(files: seq<File>): seq<bv8> {
    if files == [] then [] else Entry(files[0]) + Stream(files[1..])
  }

  datatype Central = Central(name: seq<bv8>, crc: nat, size: nat, offset: nat)

  /** The remembered records, with 32-bit sizes and offsets. */
  function Records(files: seq<File>, offset: nat): seq<Central> {
    if files == [] then []
    else
      [Central(files[0].name, CrcOf(files[0].bytes), |files[0].bytes| % 0x1_0000_0000, offset)]
      + Records(files[1..], NextOffset(files[0], offset))
  }

  function NextOffset(f: File, offset: nat): nat {
    (offset + 30 + |f.name| + |f.bytes|) % 0x1_0000_0000
  }

  method WriteFieldsTo(out: seq<bv8>, widths: seq<nat>, values: seq<nat>) returns (longer: seq<bv8>)
    requires |widths| == |values|
    ensures longer == out + WriteFields(widths, values)
  {
    longer := out;
    hide LittleEndian;
    for i := 0 to |widths|
      invariant longer + WriteFields(widths[i..], values[i..]) == out + WriteFields(widths, values)
    {
      assert widths[i..][1..] == widths[i + 1..] && values[i..][1..] == values[i + 1..];
      longer := longer + LittleEndian(widths[i], values[i]);
    }
  }

  lemma CrcIs(bytes: seq<bv8>)
    ensures CrcOf(bytes) == Crc32.Bitwise(bytes) as int
  {}

  /** The first loop of `write_zip`. */
  method WriteLocalEntries(files: seq<File>) returns (out: seq<bv8>, central: seq<Central>)
    ensures out == Stream(files) && central == Records(files, 0)
  {
    hide WriteFields, CrcOf;
    out, central := [], [];
    var offset := 0;
    for i := 0 to |files|
      invariant out + Stream(files[i..]) == Stream(files)
      invariant central + Records(files[i..], offset) == Records(files, 0)
    {
      var f := files[i];
      assert files[i..][0] == f && files[i..][1..] == files[i + 1..];
      ghost var before := out;
      var word := Crc32.Crc32(f.bytes);
      var crc: nat := word as int;
      CrcIs(f.bytes);
      out := WriteFieldsTo(out, LocalWidths, LocalValues(f));
      out := out + f.name;
      out := out + f.bytes;
      assert out == before + Entry(f);
      central := central + [Central(f.name, crc, |f.bytes| % 0x1_0000_0000, offset)];
      offset := NextOffset(f, offset);
    }
    assert files[|files|..] == [];
  }

  /* ---------- reading back ---------- */

  lemma LocalSum()
    ensures Sum(LocalWidths) == 30
  {
    hide Sum;
    SumAppend([4, 2, 2, 2], [2, 2, 4, 4, 4, 2, 2]);
    SumAppend([2, 2, 4, 4], [4, 2, 2]);
    assert [4, 2, 2, 2] + [2, 2, 4, 4, 4, 2, 2] == LocalWidths;
    assert [2, 2, 4, 4] + [4, 2, 2] == [2, 2, 4, 4, 4, 2, 2];
    SumFour(4, 2, 2, 2);
    SumFour(2, 2, 4, 4);
    SumThree(4, 2, 2);
  }

  lemma SumThree(a: nat, b: nat, c: nat)
    ensures Sum([a, b, c]) == a + b + c
  {
    assert [a, b, c][1..] == [b, c] && [b, c][1..] == [c] && [c][1..] == [];
    assert Sum([b, c]) == b + Sum([c]) && Sum([c]) == c;
  }

  lemma SumFour(a: nat, b: nat, c: nat, d: nat)
    ensures Sum([a, b, c, d]) == a + b + c + d
  {
    SumThree(b, c, d);
    assert [a, b, c, d][1..] == [b, c, d];
  }

  lemma {:induction false} SumAppend(a: seq<nat>, b: seq<nat>)
    ensures Sum(a + b) == Sum(a) + Sum(b)
  {
    if a == [] {
      assert a + b == b;
    } else {
      assert (a + b)[1..] == a[1..] + b;
      SumAppend(a[1..], b);
    }
  }

  datatype Extracted = Extracted(file: File, crc: nat)

  /** One entry at the front of a stream, and what follows it: a stored file
      without encryption or data descriptor. */
  function ReadEntry(s: seq<bv8>): Option<(Extracted, seq<bv8>)> {
    match ReadFields(LocalWidths, s)
    case None => None
    case Some((v, rest)) =>
      if |v| != 11 || v[0] != 0x04034b50 || v[2] != 0 || v[3] != 0 || |rest| < v[9] + v[10] + v[7] then None
      else
        var start := v[9] + v[10];
        Some((Extracted(File(rest[..v[9]], rest[start..start + v[7]]), v[6]), rest[start + v[7]..]))
  }

  /** `n` entries, and nothing after them. */
  function ReadEntries(s: seq<bv8>, n: nat): Option<seq<Extracted>>
    decreases n
  {
    if n == 0 then (if s == [] then Some([]) else None)
    else
      match ReadEntry(s)
      case None => None
      case Some((e, rest)) =>
        match ReadEntries(rest, n - 1)
        case None => None
        case Some(more) => Some([e] + more)
  }

  /** Names and sizes for which no length is cut off by its cast. */
  predicate Storable(f: File) { |f.name| < 0x1_0000 && |f.bytes| < 0x1_0000_0000 }

  lemma LocalFits(f: File)
    ensures Fit(LocalWidths, LocalValues(f))
  {
    hide CrcOf, Power;
    Powers();
  }

  lemma EntryRoundTrip(f: File, rest: seq<bv8>)
    requires Storable(f)
    ensures ReadEntry(Entry(f) + rest) == Some((Extracted(f, CrcOf(f.bytes)), rest))
  {
    hide ReadFields, WriteFields, Fit, CrcOf;
    LocalFits(f);
    var after := f.name + f.bytes + rest;
    FieldsRoundTrip(LocalWidths, LocalValues(f), after);
    assert Entry(f) + rest == WriteFields(LocalWidths, LocalValues(f)) + after;
    assert after[..|f.name|] == f.name;
    assert after[|f.name|..|f.name| + |f.bytes|] == f.bytes;
    assert after[|f.name| + |f.bytes|..] == rest;
  }

  function Expected(files: seq<File>): seq<Extracted> {
    if files == [] then [] else [Extracted(files[0], CrcOf(files[0].bytes))] + Expected(files[1..])
  }

  /** The stream reads back as the same names, contents and checksums, in order. */
  lemma {:induction false} StreamRoundTrip(files: seq<File>)
    requires forall f :: f in files ==> Storable(f)
    ensures ReadEntries(Stream(files), |files|) == Some(Expected(files))
  {
    hide ReadEntry, Entry, Storable, CrcOf;
    if files != [] {
      EntryRoundTrip(files[0], Stream(files[1..]));
      StreamRoundTrip(files[1..]);
    }
  }

  lemma EntryLength(f: File)
    ensures |Entry(f)| == 30 + |f.name| + |f.bytes|
  {
    hide WriteFields, LocalValues;
    FieldsLength(LocalWidths, LocalValues(f));
    LocalSum();
  }

  /** Every recorded offset is the place of its entry in the stream, as long as
      the stream is shorter than four gigabytes. */
  lemma {:induction false} OffsetsPoint(files: seq<File>, before: seq<bv8>, i: nat)
    requires |before| + |Stream(files)| < 0x1_0000_0000 && i < |files|
    ensures |Records(files, |before|)| == |files|
    ensures var r := Records(files, |before|)[i];
            && r.name == files[i].name && r.crc == CrcOf(files[i].bytes)
            && r.offset <= |before + Stream(files)|
            && (before + Stream(files))[r.offset..] == Stream(files[i..])
    decreases |files|
  {
    hide Entry, CrcOf;
    var f := files[0];
    EntryLength(f);
    var longer := before + Entry(f);
    assert longer + Stream(files[1..]) == before + Stream(files);
    assert NextOffset(f, |before|) == |longer|;
    RecordsLength(files, |before|);
    if i > 0 {
      OffsetsPoint(files[1..], longer, i - 1);
      assert files[1..][i - 1..] == files[i..];
    } else {
      assert files[0..] == files;
    }
  }

  lemma {:induction false} RecordsLength(files: seq<File>, offset: nat)
    ensures |Records(files, offset)| == |files|
  {
    if files != [] { RecordsLength(files[1..], NextOffset(files[0], offset)); }
  }

  /* ---------- the directory ---------- */

  const CentralWidths: seq<nat> := [4, 2, 2, 2, 2, 2, 2, 4, 4, 4, 2, 2, 2, 2, 2, 2, 4, 4]

  /** Signature, versions, four zeros, CRC, sizes, the length of the name, five
      zeros, the attributes and the offset. */
  function CentralValues(r: Central): (values: seq<nat>)
    ensures |values| == 18
  {
    [0x02014b50, 20, 20, 0, 0, 0, 0, r.crc, r.size, r.size, |r.name| % 0x1_0000, 0, 0, 0, 0, 0, 0, r.offset]
  }

  function Directory(records: seq<Central>): seq<bv8> {
    if records == [] then []
    else WriteFields(CentralWidths, CentralValues(records[0])) + records[0].name + Directory(records[1..])
  }

  /** How far the second loop of `write_zip` advances its offset. */
  function CountedLength(records: seq<Central>): nat {
    if records == [] then 0 else 46 + |records[0].name| + CountedLength(records[1..])
  }

  lemma CentralSum()
    ensures Sum(CentralWidths) == 48
  {
    hide Sum;
    SumAppend([4, 2, 2, 2], [2, 2, 2, 4, 4, 4, 2, 2, 2, 2, 2, 2, 4, 4]);
    SumAppend([2, 2, 2, 4], [4, 4, 2, 2, 2, 2, 2, 2, 4, 4]);
    SumAppend([4, 4, 2, 2], [2, 2, 2, 2, 4, 4]);
    SumAppend([2, 2, 2], [2, 4, 4]);
    assert [4, 2, 2, 2] + [2, 2, 2, 4, 4, 4, 2, 2, 2, 2, 2, 2, 4, 4] == CentralWidths;
    assert [2, 2, 2, 4] + [4, 4, 2, 2, 2, 2, 2, 2, 4, 4] == [2, 2, 2, 4, 4, 4, 2, 2, 2, 2, 2, 2, 4, 4];
    assert [4, 4, 2, 2] + [2, 2, 2, 2, 4, 4] == [4, 4, 2, 2, 2, 2, 2, 2, 4, 4];
    assert [2, 2, 2] + [2, 4, 4] == [2, 2, 2, 2, 4, 4];
    SumFour(4, 2, 2, 2);
    SumFour(2, 2, 2, 4);
    SumFour(4, 4, 2, 2);
    SumThree(2, 2, 2);
    SumThree(2, 4, 4);
  }

  /** The directory is two bytes per entry longer than the length the end record
      gives for it, so that length is right only for an empty package. */
  lemma {:induction false} DirectoryIsLonger(records: seq<Central>)
    ensures |Directory(records)| == CountedLength(records) + 2 * |records|
    ensures |Directory(records)| == CountedLength(records) <==> records == []
  {
    hide WriteFields, CentralValues;
    if records != [] {
      CentralSum();
      FieldsLength(CentralWidths, CentralValues(records[0]));
      DirectoryIsLonger(records[1..]);
    }
  }
}
