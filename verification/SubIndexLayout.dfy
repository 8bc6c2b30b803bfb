// A sub-index file as bytes: what write_index puts on disk and what search_subindex reads
// back (indexer/output.c, indexer/search/subindex.c).

module SubIndexLayout {
  import opened Network
  import opened Items
  import opened LeftFilled
  import opened SubIndex
  import opened SubIndexAsWritten

  const HEADER_IDENT: nat := 0x5844_4946
  const VERSION: nat := 1

  // ---- Numbers, which are stored as the machine holds them, the least significant byte first ----

  function Backwards(b: seq<Byte>): (r: seq<Byte>)
    ensures |r| == |b|
  {
    if b == [] then [] else Backwards(b[1..]) + [b[0]]
  }

  lemma {:induction false} BackwardsAppend(b: seq<Byte>, x: Byte)
    ensures Backwards(b + [x]) == [x] + Backwards(b)
  {
    if b != [] {
      BackwardsAppend(b[1..], x);
      assert (b + [x])[1..] == b[1..] + [x];
    }
  }

  lemma {:induction false} BackwardsTwice(b: seq<Byte>)
    ensures Backwards(Backwards(b)) == b
  {
    if b != [] {
      BackwardsAppend(Backwards(b[1..]), b[0]);
      BackwardsTwice(b[1..]);
    }
  }

  // ---- Keys, records, header ----

  predicate IsPort(tt: KeyType) { tt == SRCPORT || tt == DSTPORT }

  // Ports are numbers of the machine, addresses are in network order.
  function KeyBytes(tt: KeyType, key: nat): (b: seq<Byte>)
    requires tt != FLOW
    ensures |b| == KeySize(tt)
  {
    if IsPort(tt) then LittleEndian(key, KeySize(tt)) else Backwards(LittleEndian(key, KeySize(tt)))
  }

  function KeyOf(tt: KeyType, b: seq<Byte>): nat {
    if IsPort(tt) then FromLittleEndian(b) else FromLittleEndian(Backwards(b))
  }

  lemma KeyRoundTrip(tt: KeyType, key: nat)
    requires tt != FLOW && key < Pow256(KeySize(tt))
    ensures KeyOf(tt, KeyBytes(tt, key)) == key
  {
    LittleEndianRoundTrip(key, KeySize(tt));
    BackwardsTwice(LittleEndian(key, KeySize(tt)));
  }

  lemma {:induction false} AddressBackwards(addr: seq<Byte>, n: nat)
    requires n <= |addr|
    ensures Backwards(LittleEndian(BigEndian(addr, n), n)) == addr[..n]
  {
    if n > 0 {
      AddressBackwards(addr, n - 1);
      var q, x := BigEndian(addr, n - 1), addr[n - 1];
      assert BigEndian(addr, n) == 256 * q + x && (256 * q + x) / 256 == q && (256 * q + x) % 256 == x;
      var bytes := LittleEndian(BigEndian(addr, n), n);
      assert bytes[0] == x && bytes[1..] == LittleEndian(q, n - 1);
      assert addr[..n] == addr[..n - 1] + [x];
    }
  }

  // On disk the key of an address is the address, byte for byte, and a port has its low byte first.
  lemma KeysOnDisk(p: PacketRecord)
    ensures KeyBytes(SRCv4, KeyVal(p, SRCv4)) == p.src.addr[..4] && KeyBytes(SRCv6, KeyVal(p, SRCv6)) == p.src.addr
    ensures KeyBytes(DSTv4, KeyVal(p, DSTv4)) == p.dst.addr[..4] && KeyBytes(DSTv6, KeyVal(p, DSTv6)) == p.dst.addr
    ensures KeyBytes(SRCPORT, KeyVal(p, SRCPORT)) == [p.srcport % 256, p.srcport / 256]
    ensures KeyBytes(DSTPORT, KeyVal(p, DSTPORT)) == [p.dstport % 256, p.dstport / 256]
  {
    AddressBackwards(p.src.addr, 4);
    AddressBackwards(p.src.addr, 16);
    AddressBackwards(p.dst.addr, 4);
    AddressBackwards(p.dst.addr, 16);
    assert p.src.addr[..16] == p.src.addr && p.dst.addr[..16] == p.dst.addr;
    TwoBytes(p.srcport);
    TwoBytes(p.dstport);
  }

  lemma TwoBytes(port: Port)
    ensures LittleEndian(port, 2) == [port % 256, port / 256]
  {
    assert LittleEndian(port / 256, 1) == [port / 256 % 256] + LittleEndian(port / 256 / 256, 0);
  }

  function OffsetSize(offset64: bool): nat { if offset64 then 8 else 4 }

  function RecordBytes(h: Header, e: Entry): (b: seq<Byte>)
    requires h.keyType != FLOW
    ensures |b| == RecordSize(h)
  {
    KeyBytes(h.keyType, e.key) + LittleEndian(e.offset, OffsetSize(h.offset64))
  }

  function EntryOf(h: Header, b: seq<Byte>): Entry
    requires h.keyType != FLOW && |b| == RecordSize(h)
  {
    Entry(KeyOf(h.keyType, b[..KeySize(h.keyType)]), FromLittleEndian(b[KeySize(h.keyType)..]))
  }

  lemma RecordRoundTrip(h: Header, e: Entry)
    requires h.keyType != FLOW && RecordsFit(h, [e])
    ensures EntryOf(h, RecordBytes(h, e)) == e
  {
    assert e == [e][0];
    KeyRoundTrip(h.keyType, e.key);
    Pow256Values();
    assert Pow256(8) == 0x1_0000_0000_0000_0000 by { assert Pow256(6) == 0x1_0000_0000_0000; }
    LittleEndianRoundTrip(e.offset, OffsetSize(h.offset64));
    var b := RecordBytes(h, e);
    assert b[..KeySize(h.keyType)] == KeyBytes(h.keyType, e.key);
    assert b[KeySize(h.keyType)..] == LittleEndian(e.offset, OffsetSize(h.offset64));
  }

  function TypeCode(tt: KeyType): Byte {
    match tt
    case FLOW => 0
    case SRCv4 => 1
    case DSTv4 => 2
    case SRCv6 => 3
    case DSTv6 => 4
    case SRCPORT => 5
    case DSTPORT => 6
  }

  type Times = t: seq<Byte> | |t| == 16 witness seq(16, _ => 0)

  // struct fcap_idx_header. The version takes seven bits and offset64 the eighth.
  function HeaderBytes(h: Header, times: Times): (b: seq<Byte>)
    ensures |b| == HEADER_SIZE
  {
    LittleEndian(HEADER_IDENT, 4) + [VERSION + if h.offset64 then 128 else 0] + [TypeCode(h.keyType)]
    + LittleEndian(h.preview, 2) + times + LittleEndian(h.records, 8)
  }

  // "FIDX", version and width of the offsets in one byte, the type, the preview, two times, and
  // the number of records in the last eight bytes.
  lemma HeaderOnDisk(h: Header, times: Times)
    ensures HeaderBytes(h, times)[..4] == [0x46, 0x49, 0x44, 0x58]
    ensures HeaderBytes(h, times)[4] == (if h.offset64 then 129 else 1) &&
            HeaderBytes(h, times)[5] == TypeCode(h.keyType)
    ensures HeaderBytes(h, times)[6..8] == LittleEndian(h.preview, 2)
    ensures HeaderBytes(h, times)[8..24] == times && HeaderBytes(h, times)[24..] == LittleEndian(h.records, 8)
  {
    assert LittleEndian(HEADER_IDENT, 4) == [0x46] + LittleEndian(0x58_4449, 3) == [0x46, 0x49] +
           LittleEndian(0x5844, 2);
    assert LittleEndian(0x5844, 2) == [0x44] + LittleEndian(0x58, 1) == [0x44, 0x58];
  }

  // ---- The file ----

  // Things of one size, one after the other.
  function Joined<X>(s: seq<X>, bytes: X -> seq<Byte>): seq<Byte> {
    if s == [] then [] else Joined(s[..|s| - 1], bytes) + bytes(s[|s| - 1])
  }

  // Where number i (from 0) of them is.
  function Place(i: nat, size: nat): nat {
    if i == 0 then 0 else Place(i - 1, size) + size
  }

  lemma {:induction false} PlaceIs(i: nat, size: nat)
    ensures Place(i, size) == i * size
  {
    if i > 0 {
      PlaceIs(i - 1, size);
      assert i * size == (i - 1) * size + size;
    }
  }

  lemma {:induction false} PlaceGrows(i: nat, n: nat, size: nat)
    requires i <= n
    ensures Place(i, size) <= Place(n, size)
  {
    if i < n {
      PlaceGrows(i, n - 1, size);
    }
  }

  lemma {:induction false} JoinedAt<X>(s: seq<X>, bytes: X -> seq<Byte>, size: nat, i: nat)
    requires forall k :: 0 <= k < |s| ==> |bytes(s[k])| == size
    ensures |Joined(s, bytes)| == Place(|s|, size)
    ensures i < |s| ==> Place(i + 1, size) <= Place(|s|, size) &&
                        Joined(s, bytes)[Place(i, size)..Place(i + 1, size)] == bytes(s[i])
  {
    if s != [] {
      var n := |s| - 1;
      JoinedAt(s[..n], bytes, size, i);
      if i < n {
        PlaceGrows(i + 1, n, size);
        StaysAt(Joined(s[..n], bytes), bytes(s[n]), Place(i, size), Place(i + 1, size));
      } else if i == n {
        LastAt(Joined(s[..n], bytes), bytes(s[n]));
      }
    }
  }

  lemma StaysAt(a: seq<Byte>, b: seq<Byte>, lo: nat, hi: nat)
    requires lo <= hi <= |a|
    ensures (a + b)[lo..hi] == a[lo..hi]
  {
  }

  lemma LastAt(a: seq<Byte>, b: seq<Byte>)
    ensures (a + b)[|a|..|a| + |b|] == b
  {
  }

  function Zeros(n: nat): (b: seq<Byte>)
    ensures |b| == n
  {
    seq(n, _ => 0)
  }

  function PreviewBytes(tt: KeyType, preview: seq<nat>): seq<Byte>
    requires tt != FLOW
  {
    Joined(preview, key requires tt != FLOW => KeyBytes(tt, key))
  }

  function RecordsBytes(h: Header, records: seq<Entry>): seq<Byte>
    requires h.keyType != FLOW
  {
    Joined(records, e requires h.keyType != FLOW => RecordBytes(h, e))
  }

  // What of the first disk block the preview leaves.
  function Padding(f: IndexFile): nat
    requires WellFormedFile(f)
  {
    PreviewFitsBlock(f);
    DISK_BLOCK - HEADER_SIZE - |PreviewBytes(f.header.keyType, f.preview)|
  }

  lemma PreviewFitsBlock(f: IndexFile)
    requires WellFormedFile(f)
    ensures |f.preview| <= PreviewRoom(f.header.keyType)
    ensures |PreviewBytes(f.header.keyType, f.preview)| ==
            |f.preview| * KeySize(f.header.keyType) <= DISK_BLOCK - HEADER_SIZE
  {
    PreviewSize(f.header.keyType, f.preview);
    RoomFits(f.header.keyType, |f.preview|);
  }

  lemma RoomFits(tt: KeyType, n: nat)
    requires tt != FLOW && n <= PreviewRoom(tt)
    ensures n * KeySize(tt) <= DISK_BLOCK - HEADER_SIZE
  {
    if IsPort(tt) {
    } else if KeySize(tt) == 4 {
    }
  }

  lemma PreviewSize(tt: KeyType, preview: seq<nat>)
    requires tt != FLOW
    ensures |PreviewBytes(tt, preview)| == |preview| * KeySize(tt)
  {
    JoinedAt(preview, key requires tt != FLOW => KeyBytes(tt, key), KeySize(tt), 0);
    PlaceIs(|preview|, KeySize(tt));
  }

  // Before the records: the header and, if the file has a preview, the rest of a disk block.
  function Front(f: IndexFile, times: Times): (b: seq<Byte>)
    requires WellFormedFile(f)
    ensures |b| == if HasPreview(f.header.keyType, |f.records|) then DISK_BLOCK else HEADER_SIZE
  {
    HeaderBytes(f.header, times) +
    if HasPreview(f.header.keyType, |f.records|) then PreviewBytes(f.header.keyType, f.preview) + Zeros(Padding(f))
      else []
  }

  function FileBytes(f: IndexFile, times: Times): seq<Byte>
    requires WellFormedFile(f)
  {
    Front(f, times) + RecordsBytes(f.header, f.records)
  }

  // ---- The writer ----

  // A file on disk, with the position of the next read or write.
  class DiskFile {
    var data: seq<Byte>
    var pos: nat

    constructor (data: seq<Byte>)
      ensures this.data == data && pos == 0
    {
      this.data := data;
      pos := 0;
    }

    method Seek(to: nat)
      modifies this`pos
      ensures pos == to
    {
      pos := to;
    }

    // Overwrites what is there and goes on past the end.
    method Write(b: seq<Byte>)
      requires pos <= |data|
      modifies this
      ensures pos == old(pos) + |b|
      ensures data == Overwritten(old(data), old(pos), b)
    {
      data := Overwritten(data, pos, b);
      pos := pos + |b|;
    }

    // As many bytes as there are, up to n.
    method Read(n: nat) returns (b: seq<Byte>)
      modifies this`pos
      ensures b == Taken(data, old(pos), n) && pos == old(pos) + |b|
    {
      b := Taken(data, pos, n);
      pos := pos + |b|;
    }
  }

  function Overwritten(data: seq<Byte>, pos: nat, b: seq<Byte>): seq<Byte>
    requires pos <= |data|
  {
    data[..pos] + b + if pos + |b| <= |data| then data[pos + |b|..] else []
  }

  lemma OverwritesPart(front: seq<Byte>, part: seq<Byte>, back: seq<Byte>, b: seq<Byte>)
    requires |part| == |b|
    ensures Overwritten(front + part + back, |front|, b) == front + b + back
  {
  }

  function Taken(data: seq<Byte>, from: nat, n: nat): seq<Byte> {
    if from >= |data| then [] else if from + n <= |data| then data[from..from + n] else data[from..]
  }

  // The writes of write_index, in their order: blanks, the records, and then from the start
  // again the header and the preview. The blanks are exactly what the header and the preview
  // of the finished file need.
  method WriteFile(f: IndexFile, times: Times) returns (d: DiskFile)
    requires WellFormedFile(f)
    ensures fresh(d) && d.data == FileBytes(f, times)
  {
    var hasPreview := HasPreview(f.header.keyType, |f.records|);
    var blankLength := if hasPreview then DISK_BLOCK else HEADER_SIZE;
    d := new DiskFile([]);
    var blank := [0xaa] + Zeros(blankLength - 1);
    d.Write(blank);
    WriteRecords(d, f.header, f.records, blank);
    d.Seek(0);
    d.Write(HeaderBytes(f.header, times));
    ghost var records := RecordsBytes(f.header, f.records);
    HeaderWritten(HeaderBytes(f.header, times), blank, records);
    if hasPreview {
      d.Write(PreviewBytes(f.header.keyType, f.preview));
      PreviewWritten(f, times, blank, records);
    }
  }

  // The header takes the place of the first blanks, and the preview of those after it.
  lemma HeaderWritten(header: seq<Byte>, blank: seq<Byte>, records: seq<Byte>)
    requires |blank| >= HEADER_SIZE == |header|
    ensures Overwritten(blank + records, 0, header) == header + blank[HEADER_SIZE..] + records
  {
    OverwritesPart([], blank[..HEADER_SIZE], blank[HEADER_SIZE..] + records, header);
    assert blank + records == [] + blank[..HEADER_SIZE] + (blank[HEADER_SIZE..] + records);
  }

  lemma PreviewWritten(f: IndexFile, times: Times, blank: seq<Byte>, records: seq<Byte>)
    requires WellFormedFile(f) && HasPreview(f.header.keyType, |f.records|) && blank == [0xaa] + Zeros(DISK_BLOCK - 1)
    ensures var data := HeaderBytes(f.header, times) + blank[HEADER_SIZE..] + records;
      |data| >= HEADER_SIZE &&
      Overwritten(data, HEADER_SIZE, PreviewBytes(f.header.keyType, f.preview)) == Front(f, times) + records
  {
    PreviewFitsBlock(f);
    FrontWritten(HeaderBytes(f.header, times), PreviewBytes(f.header.keyType, f.preview), blank, records);
  }

  lemma FrontWritten(header: seq<Byte>, preview: seq<Byte>, blank: seq<Byte>, records: seq<Byte>)
    requires |header| == HEADER_SIZE && HEADER_SIZE + |preview| <= DISK_BLOCK && blank == [0xaa] + Zeros(DISK_BLOCK - 1)
    ensures Overwritten(header + blank[HEADER_SIZE..] + records, HEADER_SIZE, preview) ==
            header + (preview + Zeros(DISK_BLOCK - HEADER_SIZE - |preview|)) + records
  {
    var part, rest := blank[HEADER_SIZE..HEADER_SIZE + |preview|], Zeros(DISK_BLOCK - HEADER_SIZE - |preview|);
    assert blank[HEADER_SIZE..] == part + rest;
    OverwritesPart(header, part, rest + records, preview);
    assert header + blank[HEADER_SIZE..] + records == header + part + (rest + records);
    assert header + (preview + rest) + records == header + preview + (rest + records);
  }

  method WriteRecords(d: DiskFile, h: Header, records: seq<Entry>, ghost blank: seq<Byte>)
    requires h.keyType != FLOW && d.data == blank && d.pos == |blank|
    modifies d
    ensures d.data == blank + RecordsBytes(h, records)
  {
    var i := 0;
    while i < |records|
      invariant 0 <= i <= |records|
      invariant d.data == blank + RecordsBytes(h, records[..i]) && d.pos == |d.data|
    {
      WriteRecord(d, h, records[i]);
      OneMoreRecord(h, records, i);
      i := i + 1;
    }
    assert records[..i] == records;
  }

  method WriteRecord(d: DiskFile, h: Header, e: Entry)
    requires h.keyType != FLOW && d.pos == |d.data|
    modifies d
    ensures d.data == old(d.data) + RecordBytes(h, e) && d.pos == |d.data|
  {
    d.Write(KeyBytes(h.keyType, e.key));
    d.Write(LittleEndian(e.offset, OffsetSize(h.offset64)));
  }

  lemma OneMoreRecord(h: Header, records: seq<Entry>, i: nat)
    requires h.keyType != FLOW && i < |records|
    ensures RecordsBytes(h, records[..i + 1]) == RecordsBytes(h, records[..i]) + RecordBytes(h, records[i])
  {
    assert records[..i + 1][..i] == records[..i];
  }

  // ---- The reader ----

  datatype RawHeader = RawHeader(ident: nat, version: nat, offset64: bool, typeCode: nat, preview: nat, records: nat)

  function RawHeaderOf(b: seq<Byte>): RawHeader
    requires |b| >= HEADER_SIZE
  {
    RawHeader(FromLittleEndian(b[..4]), b[4] % 128, b[4] >= 128, b[5], FromLittleEndian(b[6..8]),
              FromLittleEndian(b[24..32]))
  }

  datatype Opening = Opened(header: Header) | Refused

  // Where the records start, as the reader works it out.
  function RecordsStart(preview: nat): nat { if preview != 0 then DISK_BLOCK else HEADER_SIZE }

  // The checks at the start of search_subindex, in their order.
  function OpenedAs(data: seq<Byte>, tt: KeyType): Opening
    requires tt != FLOW
  {
    if |data| < HEADER_SIZE then Refused
    else
      var raw := RawHeaderOf(data);
      if |data| != (KeySize(tt) + OffsetSize(raw.offset64)) * raw.records + RecordsStart(raw.preview) then Refused
      else if raw.ident != HEADER_IDENT then Refused
      else if raw.typeCode != TypeCode(tt) then Refused
      else if raw.version > 1 then Refused
      else Opened(Header(tt, raw.offset64, raw.preview, raw.records))
  }

  method OpenIndex(d: DiskFile, tt: KeyType) returns (o: Opening, buffer: seq<Byte>)
    requires tt != FLOW && d.pos == 0
    modifies d`pos
    ensures o == OpenedAs(d.data, tt) && buffer == Taken(d.data, 0, DISK_BLOCK)
  {
    buffer := d.Read(DISK_BLOCK);
    if |buffer| < HEADER_SIZE {
      return Refused, buffer;
    }
    var raw := RawHeaderOf(buffer);
    assert raw == RawHeaderOf(d.data) by {
      assert buffer[..4] == d.data[..4] && buffer[6..8] == d.data[6..8] && buffer[24..32] == d.data[24..32];
    }
    var fileDataSize := (KeySize(tt) + OffsetSize(raw.offset64)) * raw.records;
    var fileHdrSize := RecordsStart(raw.preview);
    if |d.data| != fileDataSize + fileHdrSize {
      return Refused, buffer;
    }
    if raw.ident != HEADER_IDENT {
      return Refused, buffer;
    }
    if raw.typeCode != TypeCode(tt) {
      return Refused, buffer;
    }
    if raw.version > 1 {
      return Refused, buffer;
    }
    o := Opened(Header(tt, raw.offset64, raw.preview, raw.records));
  }

  // ---- Both sides agree ----

  lemma HeaderRoundTrip(h: Header, times: Times, b: seq<Byte>)
    requires h.preview < 0x1_0000 && h.records < 0x1_0000_0000_0000_0000
    requires |b| >= HEADER_SIZE && b[..HEADER_SIZE] == HeaderBytes(h, times)
    ensures RawHeaderOf(b) == RawHeader(HEADER_IDENT, VERSION, h.offset64, TypeCode(h.keyType), h.preview, h.records)
  {
    HeaderParts(h, times, b);
    PartsRead(h, b);
  }

  ghost predicate HasParts(b: seq<Byte>, h: Header) {
    && |b| >= HEADER_SIZE && b[4] == VERSION + (if h.offset64 then 128 else 0) && b[5] == TypeCode(h.keyType)
    && b[..4] == LittleEndian(HEADER_IDENT, 4) && b[6..8] == LittleEndian(h.preview, 2) &&
       b[24..32] == LittleEndian(h.records, 8)
  }

  lemma PartsRead(h: Header, b: seq<Byte>)
    requires h.preview < 0x1_0000 && h.records < 0x1_0000_0000_0000_0000 && HasParts(b, h)
    ensures RawHeaderOf(b) == RawHeader(HEADER_IDENT, VERSION, h.offset64, TypeCode(h.keyType), h.preview, h.records)
  {
    HeaderNumbers(h.preview, h.records);
    FieldsRead(h, b, LittleEndian(HEADER_IDENT, 4), LittleEndian(h.preview, 2), LittleEndian(h.records, 8));
  }

  lemma FieldsRead(h: Header, b: seq<Byte>, ident: seq<Byte>, preview: seq<Byte>, records: seq<Byte>)
    requires |b| >= HEADER_SIZE && b[..4] == ident && b[6..8] == preview && b[24..32] == records
    requires FromLittleEndian(ident) == HEADER_IDENT && FromLittleEndian(preview) == h.preview &&
             FromLittleEndian(records) == h.records
    requires b[4] == VERSION + (if h.offset64 then 128 else 0) && b[5] == TypeCode(h.keyType)
    ensures RawHeaderOf(b) == RawHeader(HEADER_IDENT, VERSION, h.offset64, TypeCode(h.keyType), h.preview, h.records)
  {
  }

  lemma HeaderParts(h: Header, times: Times, b: seq<Byte>)
    requires |b| >= HEADER_SIZE && b[..HEADER_SIZE] == HeaderBytes(h, times)
    ensures HasParts(b, h)
  {
    var f := b[..HEADER_SIZE];
    assert b[..4] == f[..4] && b[6..8] == f[6..8] && b[24..32] == f[24..32] && b[4] == f[4] && b[5] == f[5];
  }

  lemma HeaderNumbers(preview: nat, records: nat)
    requires preview < 0x1_0000 && records < 0x1_0000_0000_0000_0000
    ensures FromLittleEndian(LittleEndian(HEADER_IDENT, 4)) == HEADER_IDENT
    ensures FromLittleEndian(LittleEndian(preview, 2)) == preview &&
            FromLittleEndian(LittleEndian(records, 8)) == records
  {
    Pow256Values();
    assert Pow256(2) == 0x1_0000 && Pow256(6) == 0x1_0000_0000_0000;
    assert Pow256(8) == 0x1_0000_0000_0000_0000;
    LittleEndianRoundTrip(HEADER_IDENT, 4);
    LittleEndianRoundTrip(preview, 2);
    LittleEndianRoundTrip(records, 8);
  }

  // The records start where the reader expects them: it goes by the header, the writer by
  // the number of records.
  lemma RecordsStartAgrees(f: IndexFile, times: Times)
    requires WellFormedFile(f)
    ensures |Front(f, times)| == RecordsStart(f.header.preview)
    ensures |FileBytes(f, times)| == RecordsStart(f.header.preview) + |f.records| * RecordSize(f.header)
    ensures FileBytes(f, times)[RecordsStart(f.header.preview)..] == RecordsBytes(f.header, f.records)
  {
    PreviewWhenSaid(f);
    RecordAt(f.header, f.records, 0);
  }

  lemma RecordAt(h: Header, records: seq<Entry>, i: nat)
    requires h.keyType != FLOW
    ensures |RecordsBytes(h, records)| == |records| * RecordSize(h)
    ensures i < |records| ==>
      var at := i * RecordSize(h);
      && at + RecordSize(h) <= |RecordsBytes(h, records)|
      && RecordsBytes(h, records)[at..at + RecordSize(h)] == RecordBytes(h, records[i])
  {
    JoinedAt(records, e requires h.keyType != FLOW => RecordBytes(h, e), RecordSize(h), i);
    PlaceIs(i, RecordSize(h));
    PlaceIs(|records|, RecordSize(h));
  }

  // What the reader sees of a header in front of n bytes in all.
  lemma HeaderSeen(h: Header, times: Times, b: seq<Byte>, tt: KeyType)
    requires h.keyType != FLOW && tt != FLOW && h.preview < 0x1_0000 && h.records < 0x1_0000_0000_0000_0000
    requires |b| >= HEADER_SIZE && b[..HEADER_SIZE] == HeaderBytes(h, times)
    ensures OpenedAs(b, tt) ==
            if tt == h.keyType && |b| == RecordsStart(h.preview) + h.records * RecordSize(h) then Opened(h) else Refused
  {
    HeaderRoundTrip(h, times, b);
    TimesSwap(h.records, RecordSize(h));
  }

  lemma TimesSwap(a: nat, b: nat)
    ensures a * b == b * a
  {
  }

  // A file as written is opened by a search for its own type of key and by no other.
  lemma OpensForItsType(f: IndexFile, times: Times, tt: KeyType)
    requires WellFormedFile(f) && tt != FLOW
    ensures OpenedAs(FileBytes(f, times), tt) == if tt == f.header.keyType then Opened(f.header) else Refused
  {
    RecordsStartAgrees(f, times);
    PreviewFitsBlock(f);
    HeaderSeen(f.header, times, FileBytes(f, times), tt);
  }

  // A file that was cut short is not opened.
  lemma CutShortIsRefused(f: IndexFile, times: Times, n: nat, tt: KeyType)
    requires WellFormedFile(f) && tt != FLOW && n < |FileBytes(f, times)|
    ensures OpenedAs(FileBytes(f, times)[..n], tt) == Refused
  {
    var b := FileBytes(f, times)[..n];
    if n >= HEADER_SIZE {
      RecordsStartAgrees(f, times);
      PreviewFitsBlock(f);
      assert b[..HEADER_SIZE] == HeaderBytes(f.header, times);
      HeaderSeen(f.header, times, b, tt);
    }
  }

  // A read from inside the part of a file that starts at `start`.
  lemma TakenFrom(data: seq<Byte>, start: nat, part: seq<Byte>, lo: nat, n: nat)
    requires start + |part| <= |data| && data[start..start + |part|] == part && lo + n <= |part| && n > 0
    ensures Taken(data, start + lo, n) == part[lo..lo + n]
  {
    var a, b := data[start + lo..start + lo + n], part[lo..lo + n];
    forall i | 0 <= i < |a| ensures a[i] == b[i] {
      assert data[start..start + |part|][lo + i] == part[lo + i];
    }
  }

  lemma TakenPart(data: seq<Byte>, start: nat, part: seq<Byte>, lo: nat, piece: seq<Byte>)
    requires start <= |data| && data[start..] == part && lo + |piece| <= |part| && piece == part[lo..lo + |piece|] &&
             piece != []
    ensures Taken(data, start + lo, |piece|) == piece
  {
    assert |data[start..]| == |part| && data[start..] == data[start..start + |part|];
    TakenFrom(data, start, part, lo, |piece|);
  }

  function SeekPlace(h: Header, ahead: nat): nat
    requires h.keyType != FLOW
  {
    RecordsStart(h.preview) + ahead * RecordSize(h)
  }

  // Data whose records start where the header says.
  ghost predicate HoldsRecords(data: seq<Byte>, h: Header, records: seq<Entry>) {
    && h.keyType != FLOW && RecordsFit(h, records) && RecordsStart(h.preview) <= |data|
    && data[RecordsStart(h.preview)..] == RecordsBytes(h, records)
  }

  lemma FileHoldsRecords(f: IndexFile, times: Times)
    requires WellFormedFile(f)
    ensures HoldsRecords(FileBytes(f, times), f.header, f.records)
  {
    RecordsStartAgrees(f, times);
  }

  // Positions count from 1: the seek to index - 1 records past the start reads record `index`.
  lemma SeekFindsRecord(data: seq<Byte>, h: Header, records: seq<Entry>, index: nat)
    requires HoldsRecords(data, h, records) && 1 <= index <= |records|
    ensures var b := Taken(data, SeekPlace(h, index - 1), RecordSize(h));
      b == RecordBytes(h, records[index - 1]) && EntryOf(h, b) == records[index - 1]
  {
    ReadsRecord(data, h, records, index - 1);
    assert RecordsFit(h, [records[index - 1]]);
    RecordRoundTrip(h, records[index - 1]);
  }

  lemma ReadsRecord(data: seq<Byte>, h: Header, records: seq<Entry>, i: nat)
    requires HoldsRecords(data, h, records) && i < |records|
    ensures Taken(data, SeekPlace(h, i), RecordSize(h)) == RecordBytes(h, records[i])
  {
    RecordAt(h, records, i);
    TakenPart(data, RecordsStart(h.preview), RecordsBytes(h, records), i * RecordSize(h), RecordBytes(h, records[i]));
  }

  // The seek of the slow walk as written goes `index` records past the start: it compares with
  // the record after the one it stands on, and at the last record it finds nothing to read.
  lemma SeekAsWritten(data: seq<Byte>, h: Header, records: seq<Entry>, index: nat)
    requires HoldsRecords(data, h, records) && 1 <= index <= |records|
    ensures var b := Taken(data, SeekPlace(h, index), KeySize(h.keyType));
      if index == |records| then b == [] else KeyOf(h.keyType, b) == records[index].key
  {
    if index < |records| {
      ReadsRecord(data, h, records, index);
      KeyFirst(data, SeekPlace(h, index), h, records[index]);
      KeyRoundTrip(h.keyType, records[index].key);
    } else {
      RecordAt(h, records, 0);
    }
  }

  lemma KeyFirst(data: seq<Byte>, at: nat, h: Header, e: Entry)
    requires h.keyType != FLOW && Taken(data, at, RecordSize(h)) == RecordBytes(h, e)
    ensures Taken(data, at, KeySize(h.keyType)) == RecordBytes(h, e)[..KeySize(h.keyType)]
  {
  }

  // A first disk block with a preview behind the header.
  ghost predicate HoldsPreview(buffer: seq<Byte>, tt: KeyType, preview: seq<nat>) {
    && tt != FLOW && HEADER_SIZE + |PreviewBytes(tt, preview)| <= |buffer|
    && buffer[HEADER_SIZE..HEADER_SIZE + |PreviewBytes(tt, preview)|] == PreviewBytes(tt, preview)
    && forall i :: 0 <= i < |preview| ==> preview[i] < Pow256(KeySize(tt))
  }

  lemma FileHoldsPreview(f: IndexFile, times: Times)
    requires WellFormedFile(f) && f.header.preview > 0
    ensures HoldsPreview(Taken(FileBytes(f, times), 0, DISK_BLOCK), f.header.keyType, f.preview)
  {
    FirstBlock(f, times);
    forall i | 0 <= i < |f.preview| ensures f.preview[i] < Pow256(KeySize(f.header.keyType)) {
      var k := PreviewEntry(f, i + 1);
    }
  }

  lemma FirstBlock(f: IndexFile, times: Times)
    requires WellFormedFile(f) && f.header.preview > 0
    ensures var buffer := Taken(FileBytes(f, times), 0, DISK_BLOCK);
      var preview := PreviewBytes(f.header.keyType, f.preview);
      && |buffer| == DISK_BLOCK && HEADER_SIZE + |preview| <= DISK_BLOCK
      && buffer[HEADER_SIZE..HEADER_SIZE + |preview|] == preview
  {
    PreviewWhenSaid(f);
    PreviewFitsBlock(f);
    var front, preview := Front(f, times), PreviewBytes(f.header.keyType, f.preview);
    assert Taken(FileBytes(f, times), 0, DISK_BLOCK) == front;
    assert front == HeaderBytes(f.header, times) + preview + Zeros(Padding(f));
  }

  // The keys of the preview are where search_preview looks for them in it.
  lemma PreviewKeyAt(buffer: seq<Byte>, tt: KeyType, preview: seq<nat>, n: nat)
    requires HoldsPreview(buffer, tt, preview) && 1 <= n <= |preview|
    ensures KeyOf(tt, Taken(buffer, HEADER_SIZE + (n - 1) * KeySize(tt), KeySize(tt))) == preview[n - 1]
  {
    KeyRoundTrip(tt, preview[n - 1]);
    PreviewKey(tt, preview, n - 1);
    TakenFrom(buffer, HEADER_SIZE, PreviewBytes(tt, preview), (n - 1) * KeySize(tt), KeySize(tt));
  }

  lemma PreviewKey(tt: KeyType, preview: seq<nat>, i: nat)
    requires tt != FLOW && i < |preview|
    ensures i * KeySize(tt) + KeySize(tt) <= |PreviewBytes(tt, preview)|
    ensures PreviewBytes(tt, preview)[i * KeySize(tt)..i * KeySize(tt) + KeySize(tt)] == KeyBytes(tt, preview[i])
  {
    JoinedAt(preview, key requires tt != FLOW => KeyBytes(tt, key), KeySize(tt), i);
    PlaceIs(i, KeySize(tt));
  }
}
