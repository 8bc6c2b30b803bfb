// The flow index as bytes: what write_flow puts on disk and what flow_fetch reads back
// (indexer/output.c, indexer/search/search_lib.c).

module FlowIndexLayout {
  import opened Sequences
  import opened Network
  import opened Keys
  import opened Items
  import opened SubIndex
  import opened SubIndexLayout
  import F = FlowFile
  import A = Archive
  import FlowFetch

  // ---- One entry ----

  // struct fcap_flow_key: the fields of a flow record but for the offset.
  const KEY_WIDTHS: seq<nat> := FLOW_WIDTHS[..14]

  function KeyFields(k: FlowKey): (f: seq<nat>)
    ensures |f| == |KEY_WIDTHS|
  {
    FlowFields(k, 0)[..14]
  }

  function KeyOnDisk(k: FlowKey): seq<Byte> { PackFields(KeyFields(k), KEY_WIDTHS, 0) }

  function OffsetWidth(offset64: bool): nat { if offset64 then 8 else 4 }

  function EntryBytes(r: FlowRec, offset64: bool): seq<Byte> {
    KeyOnDisk(r.key) + LittleEndian(r.flowOffset, OffsetWidth(offset64))
  }

  lemma WidthsFrom()
    ensures WidthFrom(KEY_WIDTHS, 0) == 64 && WidthFrom(KEY_WIDTHS, 2) == 56 && WidthFrom(KEY_WIDTHS, 4) == 48
    ensures WidthFrom(KEY_WIDTHS, 5) == 32 && WidthFrom(KEY_WIDTHS, 6) == 31 && WidthFrom(KEY_WIDTHS, 7) == 30
    ensures WidthFrom(KEY_WIDTHS, 8) == 28 && WidthFrom(KEY_WIDTHS, 9) == 24 && WidthFrom(KEY_WIDTHS, 10) == 8
    ensures WidthFrom(KEY_WIDTHS, 12) == 6 && WidthFrom(KEY_WIDTHS, 13) == 4
  {
    assert WidthFrom(KEY_WIDTHS, 14) == 0;
    assert WidthFrom(KEY_WIDTHS, 13) == 4;
    assert WidthFrom(KEY_WIDTHS, 12) == 6;
    assert WidthFrom(KEY_WIDTHS, 10) == 8;
    assert WidthFrom(KEY_WIDTHS, 8) == 28;
    assert WidthFrom(KEY_WIDTHS, 6) == 31;
    assert WidthFrom(KEY_WIDTHS, 4) == 48;
    assert WidthFrom(KEY_WIDTHS, 2) == 56;
  }

  lemma EntrySizeIs(r: FlowRec, offset64: bool)
    ensures |KeyOnDisk(r.key)| == 64 && |EntryBytes(r, offset64)| == F.EntrySize(offset64)
  {
    WidthsFrom();
  }

  function ReadKey(b: seq<Byte>): FlowKey
    requires |b| == 64
  {
    WidthsFrom();
    FlowFromFields(UnpackFields(b, KEY_WIDTHS, 0) + [0]).key
  }

  lemma KeyReadsBack(k: FlowKey)
    ensures |KeyOnDisk(k)| == 64 && ReadKey(KeyOnDisk(k)) == k
  {
    WidthsFrom();
    FlowFieldsFit(k, 0);
    UnpackPacked(KeyFields(k), KEY_WIDTHS, 0);
    assert KeyFields(k)[0..] == KeyFields(k);
    assert KeyFields(k) + [0] == FlowFields(k, 0);
    FlowFieldsRoundTrip(k, 0);
  }

  // ---- The whole index ----

  function EntriesBytes(entries: seq<FlowRec>, offset64: bool): seq<Byte> {
    Joined(entries, e => EntryBytes(e, offset64))
  }

  function IndexBytes(entries: seq<FlowRec>, offset64: bool, times: Times): seq<Byte> {
    HeaderBytes(Header.Header(FLOW, offset64, 0, |entries|), times) + EntriesBytes(entries, offset64)
  }

  // write_flow puts one entry behind those that are there.
  lemma OneMoreEntry(entries: seq<FlowRec>, e: FlowRec, offset64: bool)
    ensures EntriesBytes(entries + [e], offset64) == EntriesBytes(entries, offset64) + EntryBytes(e, offset64)
  {
    assert (entries + [e])[..|entries|] == entries;
  }

  // An entry is at its place, behind the header and the entries before it.
  lemma EntryIsAt(entries: seq<FlowRec>, offset64: bool, times: Times, k: nat)
    requires k < |entries|
    ensures var data, place := IndexBytes(entries, offset64, times), A.EntryPlace(k, offset64);
      place + F.EntrySize(offset64) <= |data| &&
      data[place..place + F.EntrySize(offset64)] == EntryBytes(entries[k], offset64)
  {
    var size := F.EntrySize(offset64);
    forall i | 0 <= i < |entries| ensures |EntryBytes(entries[i], offset64)| == size {
      EntrySizeIs(entries[i], offset64);
    }
    JoinedAt(entries, e => EntryBytes(e, offset64), size, k);
    PlaceIs(k, size);
    PlaceIs(k + 1, size);
    var header, body := HeaderBytes(Header.Header(FLOW, offset64, 0, |entries|), times),
      EntriesBytes(entries, offset64);
    Behind(header, body, k * size, k * size + size);
  }

  lemma Behind(a: seq<Byte>, b: seq<Byte>, lo: nat, hi: nat)
    requires lo <= hi <= |b|
    ensures (a + b)[|a| + lo..|a| + hi] == b[lo..hi]
  {
  }

  // ---- Reading an entry ----

  // flow_fetch reads the key and then the offset: four bytes of it, as it is written.
  function ReadAt(data: seq<Byte>, place: nat, offset64: bool, written: bool): FlowRec
    requires place + F.EntrySize(offset64) <= |data|
  {
    var width := if written then 4 else OffsetWidth(offset64);
    Entry(data[place..place + 64], data[place + 64..place + 64 + width])
  }

  function Entry(key: seq<Byte>, offset: seq<Byte>): FlowRec
    requires |key| == 64
  {
    FlowRec(ReadKey(key), FromLittleEndian(offset) % 0x1_0000_0000_0000_0000)
  }

  lemma {:induction false} LittleEndianLow(n: nat, width: nat, low: nat)
    requires low <= width
    ensures LittleEndian(n, width)[..low] == LittleEndian(n, low)
    ensures Pow256(low) > 0 && FromLittleEndian(LittleEndian(n, low)) == n % Pow256(low)
  {
    if low > 0 {
      LittleEndianLow(n / 256, width - 1, low - 1);
      assert LittleEndian(n, width)[..low] == [n % 256] + LittleEndian(n / 256, width - 1)[..low - 1];
      ModTwice(n, Pow256(low - 1));
    }
  }

  lemma ModTwice(n: nat, a: nat)
    requires a > 0
    ensures n % (256 * a) == n % 256 + 256 * ((n / 256) % a)
  {
    var q, x := n / 256, n % 256;
    var u, y := q / a, q % a;
    assert n == 256 * q + x && q == a * u + y;
    assert n == (256 * a) * u + (256 * y + x);
    assert 256 * y + x < 256 * a;
    QuotientIs(n, 256 * a, u, 256 * y + x);
  }

  // What is read is the entry, but for the upper half of its offset as it is written.
  lemma ReadsTheEntry(entries: seq<FlowRec>, offset64: bool, times: Times, k: nat, written: bool)
    requires k < |entries| && (offset64 || entries[k].flowOffset < 0x1_0000_0000)
    ensures A.EntryPlace(k, offset64) + F.EntrySize(offset64) <= |IndexBytes(entries, offset64, times)|
    ensures ReadAt(IndexBytes(entries, offset64, times), A.EntryPlace(k, offset64), offset64, written) ==
            FlowFetch.Cut(entries[k], written)
  {
    EntryIsAt(entries, offset64, times, k);
    ReadsBack(IndexBytes(entries, offset64, times), A.EntryPlace(k, offset64), entries[k], offset64, written);
  }

  lemma ReadsBack(data: seq<Byte>, place: nat, r: FlowRec, offset64: bool, written: bool)
    requires place + F.EntrySize(offset64) <= |data| && (offset64 || r.flowOffset < 0x1_0000_0000)
    requires data[place..place + F.EntrySize(offset64)] == EntryBytes(r, offset64)
    ensures ReadAt(data, place, offset64, written) == FlowFetch.Cut(r, written)
  {
    var width := if written then 4 else OffsetWidth(offset64);
    PartsOfEntry(data, place, r, offset64, width);
    KeyReadsBack(r.key);
    EntryReadsBack(data[place..place + 64], r, offset64, written, width);
  }

  lemma EntryReadsBack(key: seq<Byte>, r: FlowRec, offset64: bool, written: bool, width: nat)
    requires width == (if written then 4 else OffsetWidth(offset64)) && (offset64 || r.flowOffset < 0x1_0000_0000)
    requires |key| == 64 && ReadKey(key) == r.key
    ensures Entry(key, LittleEndian(r.flowOffset, width)) == FlowFetch.Cut(r, written)
  {
    OffsetReadsBack(r.flowOffset, width);
  }

  lemma PartsOfEntry(data: seq<Byte>, place: nat, r: FlowRec, offset64: bool, width: nat)
    requires place + F.EntrySize(offset64) <= |data| && width <= OffsetWidth(offset64)
    requires data[place..place + F.EntrySize(offset64)] == EntryBytes(r, offset64)
    ensures data[place..place + 64] == KeyOnDisk(r.key)
    ensures data[place + 64..place + 64 + width] == LittleEndian(r.flowOffset, width)
  {
    EntrySizeIs(r, offset64);
    var entry := data[place..place + F.EntrySize(offset64)];
    Inner(data, place, F.EntrySize(offset64), 0, 64);
    Inner(data, place, F.EntrySize(offset64), 64, 64 + width);
    InFront(KeyOnDisk(r.key), LittleEndian(r.flowOffset, OffsetWidth(offset64)));
    LittleEndianLow(r.flowOffset, OffsetWidth(offset64), width);
    Behind(KeyOnDisk(r.key), LittleEndian(r.flowOffset, OffsetWidth(offset64)), 0, width);
  }

  lemma Inner(data: seq<Byte>, place: nat, size: nat, lo: nat, hi: nat)
    requires place + size <= |data| && lo <= hi <= size
    ensures data[place..place + size][lo..hi] == data[place + lo..place + hi]
  {
    var a, b := data[place..place + size][lo..hi], data[place + lo..place + hi];
    assert forall k :: 0 <= k < hi - lo ==> a[k] == b[k];
    assert a == b;
  }

  lemma OffsetReadsBack(offset: U64, width: nat)
    requires width == 4 || width == 8
    ensures var back := FromLittleEndian(LittleEndian(offset, width)) % 0x1_0000_0000_0000_0000;
      && (width == 4 ==> back == offset % 0x1_0000_0000)
      && (width == 8 || offset < 0x1_0000_0000 ==> back == offset)
  {
    LittleEndianLow(offset, width, width);
    var size := Pow256(width);
    assert size == if width == 4 then 0x1_0000_0000 else 0x1_0000_0000_0000_0000 by {
      Pow256Values();
      assert Pow256(6) == 0x1_0000_0000_0000;
    }
    Reduced(offset);
  }

  lemma Reduced(offset: U64)
    ensures offset % 0x1_0000_0000_0000_0000 == offset
    ensures offset % 0x1_0000_0000 % 0x1_0000_0000_0000_0000 == offset % 0x1_0000_0000
    ensures offset < 0x1_0000_0000 ==> offset % 0x1_0000_0000 == offset
  {
  }

  // ---- Where the fields are ----

  // Where field j of a row of integers is, from field i on.
  function FieldPlace(widths: seq<nat>, i: nat, j: nat): (at: nat)
    requires i <= j < |widths|
    ensures at + WidthFrom(widths, j) == WidthFrom(widths, i) && at + widths[j] <= WidthFrom(widths, i)
    decreases j - i
  {
    if i == j then 0 else widths[i] + FieldPlace(widths, i + 1, j)
  }

  lemma {:induction false} FieldsBefore(fields: seq<nat>, widths: seq<nat>, i: nat, j: nat) returns (before: seq<Byte>)
    requires i <= j < |fields| == |widths|
    ensures |before| == FieldPlace(widths, i, j)
    ensures PackFields(fields, widths, i) == before + PackFields(fields, widths, j)
    decreases j - i
  {
    if i == j {
      before := [];
    } else {
      var rest := FieldsBefore(fields, widths, i + 1, j);
      before := LittleEndian(fields[i], widths[i]) + rest;
      Associates(LittleEndian(fields[i], widths[i]), rest, PackFields(fields, widths, j));
    }
  }

  lemma FieldAt(fields: seq<nat>, widths: seq<nat>, j: nat)
    requires j < |fields| == |widths|
    ensures var at := FieldPlace(widths, 0, j);
      PackFields(fields, widths, 0)[at..at + widths[j]] == LittleEndian(fields[j], widths[j])
  {
    var before := FieldsBefore(fields, widths, 0, j);
    FieldBehind(before, PackFields(fields, widths, 0), fields, widths, j);
  }

  lemma FieldBehind(before: seq<Byte>, all: seq<Byte>, fields: seq<nat>, widths: seq<nat>, j: nat)
    requires j < |fields| == |widths| && all == before + PackFields(fields, widths, j)
    ensures |before| + widths[j] <= |all|
    ensures all[|before|..|before| + widths[j]] == LittleEndian(fields[j], widths[j])
  {
    InMiddle(before, LittleEndian(fields[j], widths[j]), PackFields(fields, widths, j + 1), all);
  }

  lemma InMiddle(a: seq<Byte>, b: seq<Byte>, c: seq<Byte>, all: seq<Byte>)
    requires all == a + (b + c)
    ensures |all| == |a| + |b| + |c| && all[|a|..|a| + |b|] == b
  {
    assert forall k :: 0 <= k < |b| ==> all[|a| + k] == b[k];
  }

  lemma InFront(a: seq<Byte>, b: seq<Byte>)
    ensures (a + b)[0..|a|] == a
  {
  }

  // The addresses are at bytes 16 and 40 as they are, each with its version behind it.
  lemma AddressesOnDisk(k: FlowKey)
    ensures |KeyOnDisk(k)| == 64
    ensures KeyOnDisk(k)[16..32] == k.src.addr && KeyOnDisk(k)[32] == k.src.vers
    ensures KeyOnDisk(k)[40..56] == k.dst.addr && KeyOnDisk(k)[56] == k.dst.vers
  {
    WidthsFrom();
    var fields := KeyFields(k);
    FieldAt(fields, KEY_WIDTHS, 4);
    FieldAt(fields, KEY_WIDTHS, 5);
    FieldAt(fields, KEY_WIDTHS, 9);
    FieldAt(fields, KEY_WIDTHS, 10);
    BytesRoundTrip(k.src.addr);
    BytesRoundTrip(k.dst.addr);
    OneByte(KeyOnDisk(k), 32, k.src.vers);
    OneByte(KeyOnDisk(k), 56, k.dst.vers);
  }

  lemma OneByte(b: seq<Byte>, at: nat, x: Byte)
    requires at < |b| && b[at..at + 1] == LittleEndian(x, 1)
    ensures b[at] == x
  {
    assert LittleEndian(x, 1) == [x];
    assert b[at] == b[at..at + 1][0];
  }

  // The times, the packet count, the size and the ports are numbers at these bytes.
  lemma NumbersOnDisk(k: FlowKey)
    ensures |KeyOnDisk(k)| == 64
    ensures KeyOnDisk(k)[0..4] == LittleEndian(k.firstTs.sec, 4) && KeyOnDisk(k)[8..12] == LittleEndian(k.lastTs.sec, 4)
    ensures KeyOnDisk(k)[36..40] == LittleEndian(k.packets, 4) && KeyOnDisk(k)[60..64] == LittleEndian(k.size, 4)
    ensures KeyOnDisk(k)[34..36] == LittleEndian(k.srcport, 2) && KeyOnDisk(k)[58..60] == LittleEndian(k.dstport, 2)
  {
    WidthsFrom();
    var fields := KeyFields(k);
    FieldAt(fields, KEY_WIDTHS, 0);
    FieldAt(fields, KEY_WIDTHS, 2);
    FieldAt(fields, KEY_WIDTHS, 7);
    FieldAt(fields, KEY_WIDTHS, 8);
    FieldAt(fields, KEY_WIDTHS, 12);
    FieldAt(fields, KEY_WIDTHS, 13);
  }
}
