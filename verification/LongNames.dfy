/** Directory entries with long names: the records that are written and how they are read back. */
module LongNames {
  import opened FatLayout
  import R = Ranges

  /** A name in UTF-16 code units. */
  type Name = seq<Short>

  datatype Option<T> = None | Some(value: T)

  const UNITS: nat := 13

  const RECORD: nat := 32

  const LFN_ATTRIBUTES: Byte := 15

  const DEL_MARKER: Byte := 0xe5

  const ESCAPE_DEL_MARKER: Byte := 0x05

  const DOT: Byte := 0x2e

  ghost predicate NoNul(name: Name) {
    forall i :: 0 <= i < |name| ==> name[i] != 0
  }

  // Characters outside of the basic plane take two units.

  predicate IsHigh(u: Short): (r: bool)
    ensures r <==> u / 0x400 == 0x36
  {
    0xD800 <= u < 0xDC00
  }

  predicate IsLow(u: Short): (r: bool)
    ensures r <==> u / 0x400 == 0x37
  {
    0xDC00 <= u < 0xE000
  }

  /** Every first half of a pair has its second half behind it, and there are no other second halves. */
  predicate WellPaired(s: Name) {
    s == []
    || (if IsHigh(s[0]) then |s| >= 2 && IsLow(s[1]) && WellPaired(s[2..]) else !IsLow(s[0]) && WellPaired(s[1..]))
  }

  /** Two parts decode on their own exactly if the whole does and no pair is cut in two. */
  lemma {:induction false} PairedConcat(a: Name, b: Name)
    ensures WellPaired(a) && WellPaired(b) <==> WellPaired(a + b) && (a == [] || !IsHigh(a[|a| - 1]))
  {
    if a == [] {
      assert a + b == b;
    } else if !IsHigh(a[0]) {
      assert (a + b)[1..] == a[1..] + b;
      PairedConcat(a[1..], b);
    } else if |a| >= 2 {
      assert (a + b)[2..] == a[2..] + b;
      PairedConcat(a[2..], b);
    }
  }

  lemma {:induction false} PairedZeros(name: Name, n: nat)
    ensures WellPaired(name + seq(n, _ => 0)) <==> WellPaired(name)
    decreases |name| + n
  {
    var zeros: Name := seq(n, _ => 0);
    if name == [] {
      if n > 0 {
        assert (name + zeros)[1..] == [] + seq(n - 1, _ => 0);
        PairedZeros([], n - 1);
      }
    } else if !IsHigh(name[0]) {
      assert (name + zeros)[1..] == name[1..] + zeros;
      PairedZeros(name[1..], n);
    } else if |name| >= 2 {
      assert (name + zeros)[2..] == name[2..] + zeros;
      PairedZeros(name[2..], n);
    }
  }

  // Units as bytes.

  function Encode(name: Name): (b: Bytes)
    ensures |b| == 2 * |name|
  {
    if name == [] then [] else Encode(name[..|name| - 1]) + Pack(name[|name| - 1])
  }

  function Decode(b: Bytes): (n: Name)
    requires |b| % 2 == 0
    ensures |n| == |b| / 2
  {
    seq(|b| / 2, i requires 0 <= i < |b| / 2 => ShortAt(b, 2 * i))
  }

  lemma {:induction false} EncodeAt(name: Name, i: nat)
    requires i < |name|
    ensures ShortAt(Encode(name), 2 * i) == name[i]
  {
    var init, last := name[..|name| - 1], name[|name| - 1];
    PackUnpack(last);
    if i < |init| {
      EncodeAt(init, i);
    }
  }

  lemma DecodeEncode(name: Name)
    ensures Decode(Encode(name)) == name
  {
    hide Encode;
    forall k | 0 <= k < |name| ensures Decode(Encode(name))[k] == name[k] {
      EncodeAt(name, k);
    }
  }

  // Records.

  /** The sequence number of a last record has bit 6 set. */
  function SetLast(n: Byte): (r: Byte)
    ensures (r / 64) % 2 == 1 && r % 64 == n % 64 && r / 128 == n / 128
  {
    if (n / 64) % 2 == 1 then n else n + 64
  }

  function Record(number: Byte, c: Bytes, checksum: Byte): (r: Bytes)
    requires |c| == 2 * UNITS
    ensures |r| == RECORD
  {
    [number] + c[..10] + [LFN_ATTRIBUTES, 0, checksum] + c[10..22] + [0, 0] + c[22..]
  }

  /** The part of a record that holds the name. */
  ghost function ChunkOf(r: Bytes): (c: Bytes)
    requires |r| == RECORD
    ensures |c| == 2 * UNITS
  {
    r[1..11] + r[14..26] + r[28..32]
  }

  lemma ChunkRecord(number: Byte, c: Bytes, checksum: Byte)
    requires |c| == 2 * UNITS
    ensures var r := Record(number, c, checksum); r[0] == number && r[11] == LFN_ATTRIBUTES && ChunkOf(r) == c
  {
    assert c[..10] + c[10..22] + c[22..] == c;
  }

  /** Where the `k`-th unit of a record is. */
  ghost function UnitAt(k: nat): (p: nat)
    requires k < UNITS
    ensures 1 <= p <= RECORD - 2
  {
    if k < 5 then 1 + 2 * k else if k < 11 then 14 + 2 * (k - 5) else 28 + 2 * (k - 11)
  }

  /** The bytes of a record: 13 units, each with its low byte first, the attributes, the checksum and three zeros. */
  ghost predicate LaidOut(r: Bytes, number: Byte, units: Name, checksum: Byte)
    requires |units| == UNITS
  {
    && |r| == RECORD
    && r[0] == number && r[11] == LFN_ATTRIBUTES && r[12] == 0 && r[13] == checksum && r[26] == 0 && r[27] == 0
    && forall k :: 0 <= k < UNITS ==> r[UnitAt(k)] == units[k] % 256 && r[UnitAt(k) + 1] == units[k] / 256
  }

  lemma {:induction false} EncodeBytes(name: Name, i: nat)
    requires i < |name|
    ensures Encode(name)[2 * i] == name[i] % 256 && Encode(name)[2 * i + 1] == name[i] / 256
  {
    var init := name[..|name| - 1];
    if i < |init| {
      EncodeBytes(init, i);
    }
  }

  lemma RecordLaidOut(number: Byte, units: Name, checksum: Byte)
    requires |units| == UNITS
    ensures LaidOut(Record(number, Encode(units), checksum), number, units, checksum)
  {
    hide Encode;
    var r, c := Record(number, Encode(units), checksum), Encode(units);
    forall k | 0 <= k < UNITS
      ensures r[UnitAt(k)] == units[k] % 256 && r[UnitAt(k) + 1] == units[k] / 256
    {
      EncodeBytes(units, k);
      assert r[UnitAt(k)] == c[2 * k] && r[UnitAt(k) + 1] == c[2 * k + 1];
    }
  }

  /** How many records a name takes: there is always at least one NUL at the end. */
  ghost function RecordCount(name: Name): (n: nat)
    ensures n >= 1 && n * UNITS > |name| && (n - 1) * UNITS <= |name|
  {
    |name| / UNITS + 1
  }

  ghost function Padded(name: Name): (p: Name)
    ensures |p| == RecordCount(name) * UNITS
  {
    name + seq(RecordCount(name) * UNITS - |name|, _ => 0)
  }

  /** The i-th group of 13 units. */
  ghost function Group(name: Name, i: nat): (g: Name)
    requires i < RecordCount(name)
    ensures |g| == UNITS
  {
    GroupBounds(i, RecordCount(name));
    Padded(name)[UNITS * i..UNITS * i + UNITS]
  }

  lemma GroupBounds(i: nat, n: nat)
    requires i < n
    ensures UNITS * i + UNITS <= n * UNITS
  {
  }

  ghost function Number(i: nat, n: nat): Byte
    requires i < n <= 255
  {
    if i == n - 1 then SetLast(n) else i + 1
  }

  /** The records as they are to be stored: the last group first. */
  ghost predicate RecordsOf(name: Name, checksum: Byte, records: seq<Bytes>) {
    && |records| == RecordCount(name) <= 255
    && forall i :: 0 <= i < |records| ==>
         records[i] == Record(Number(|records| - 1 - i, |records|), Encode(Group(name, |records| - 1 - i)), checksum)
  }

  lemma {:induction false} EncodeConcat(a: Name, b: Name)
    ensures Encode(a + b) == Encode(a) + Encode(b)
  {
    if b == [] {
      assert a + b == a;
    } else {
      assert (a + b)[..|a + b| - 1] == a + b[..|b| - 1];
      EncodeConcat(a, b[..|b| - 1]);
    }
  }

  lemma {:induction false} EncodeZeros(n: nat)
    ensures Encode(seq(n, _ => 0)) == seq(2 * n, _ => 0)
  {
    if n > 0 {
      EncodeZeros(n - 1);
      assert seq<Short>(n, _ => 0)[..n - 1] == seq<Short>(n - 1, _ => 0);
      assert Pack(0) == [0, 0];
    }
  }

  lemma {:induction false} EncodePart(name: Name, i: nat, j: nat)
    requires i <= j <= |name|
    ensures Encode(name)[2 * i..2 * j] == Encode(name[i..j])
  {
    assert name == name[..i] + name[i..j] + name[j..];
    EncodeConcat(name[..i] + name[i..j], name[j..]);
    EncodeConcat(name[..i], name[i..j]);
  }

  function Reversed(s: seq<Bytes>): (r: seq<Bytes>)
    ensures |r| == |s| && forall i :: 0 <= i < |s| ==> r[i] == s[|s| - 1 - i]
  {
    seq(|s|, i requires 0 <= i < |s| => s[|s| - 1 - i])
  }

  /** The long-name records of a name; none for an empty one. */
  method LongnameRecords(name: Name, checksum: Byte) returns (records: seq<Bytes>)
    requires RecordCount(name) <= 255
    ensures name == [] ==> records == []
    ensures name != [] ==> RecordsOf(name, checksum, records)
    ensures name != [] ==> forall i :: 0 <= i < |records| ==>
              LaidOut(records[i], Number(|records| - 1 - i, |records|), Group(name, |records| - 1 - i), checksum)
  {
    hide Record, Encode, LaidOut;
    records := [];
    if name == [] {
      return;
    }
    var encoded := Encode(name);
    var padding: Bytes := seq(2 * UNITS - |encoded| % (2 * UNITS), _ => 0);
    var padded := encoded + padding;
    ghost var n := RecordCount(name);
    PaddedEncode(name);
    assert padded == Encode(Padded(name));
    var number := 1;
    var p := 0;
    while p < |padded|
      invariant p == 2 * UNITS * (number - 1) && 1 <= number <= n + 1 && p <= |padded| == 2 * UNITS * n
      invariant |records| == number - 1
      invariant forall i :: 0 <= i < |records| ==> records[i] == Record(i + 1, Encode(Group(name, i)), checksum)
      decreases |padded| - p
    {
      EncodeGroup(name, number - 1);
      records := records + [Record(number, padded[p..p + 2 * UNITS], checksum)];
      number := number + 1;
      p := p + 2 * UNITS;
    }
    assert |records| == n;
    var last := records[|records| - 1];
    LastRecord(n, Encode(Group(name, n - 1)), checksum);
    last := [SetLast(last[0])] + last[1..];
    records := records[..|records| - 1] + [last];
    records := Reversed(records);
    RecordsLaidOut(name, checksum, records);
  }

  lemma RecordsLaidOut(name: Name, checksum: Byte, records: seq<Bytes>)
    requires RecordsOf(name, checksum, records)
    ensures forall i :: 0 <= i < |records| ==>
              LaidOut(records[i], Number(|records| - 1 - i, |records|), Group(name, |records| - 1 - i), checksum)
  {
    hide Record, Encode, LaidOut, Group, Number;
    forall i | 0 <= i < |records|
      ensures LaidOut(records[i], Number(|records| - 1 - i, |records|), Group(name, |records| - 1 - i), checksum)
    {
      RecordLaidOut(Number(|records| - 1 - i, |records|), Group(name, |records| - 1 - i), checksum);
    }
  }

  lemma LastRecord(n: Byte, c: Bytes, checksum: Byte)
    requires |c| == 2 * UNITS
    ensures Record(n, c, checksum)[0] == n
    ensures [SetLast(n)] + Record(n, c, checksum)[1..] == Record(SetLast(n), c, checksum)
  {
  }

  lemma PaddedEncode(name: Name)
    ensures |Encode(Padded(name))| == 2 * UNITS * RecordCount(name)
    ensures Encode(Padded(name)) == Encode(name) + seq(2 * UNITS - |Encode(name)| % (2 * UNITS), _ => 0)
  {
    hide Encode;
    var n := RecordCount(name) * UNITS - |name|;
    EncodeConcat(name, seq(n, _ => 0));
    EncodeZeros(n);
    assert 2 * n == 2 * UNITS - |Encode(name)| % (2 * UNITS);
  }

  lemma EncodeGroup(name: Name, i: nat)
    requires i < RecordCount(name)
    ensures 2 * UNITS * i + 2 * UNITS <= |Encode(Padded(name))|
    ensures Encode(Padded(name))[2 * UNITS * i..2 * UNITS * i + 2 * UNITS] == Encode(Group(name, i))
  {
    GroupBounds(i, RecordCount(name));
    EncodePart(Padded(name), UNITS * i, UNITS * i + UNITS);
  }

  // Reading entries.

  datatype Dentry = Dentry(attributes: Byte, shortname: Bytes, ext: Bytes, longname: Option<Name>,
                           firstCluster: Short, size: nat)

  /** What a read gives: an entry, nothing for a free one, or a failure to decode a record or the first byte. */
  datatype Result = Entry(d: Dentry) | Skipped | Undecodable | NotAscii

  function CutAtNul(s: Name): (r: Name) {
    if s == [] || s[0] == 0 then [] else [s[0]] + CutAtNul(s[1..])
  }

  predicate IsBlank(b: Byte) {
    b == 32 || 9 <= b <= 13
  }

  /** The bytes up to the last one that is no white space. */
  function Stripped(s: Bytes): (r: Bytes)
    ensures r <= s && (forall i :: |r| <= i < |s| ==> s[i] in {9, 10, 11, 12, 13, 32})
    ensures r == [] || r[|r| - 1] !in {9, 10, 11, 12, 13, 32}
  {
    if s == [] || !IsBlank(s[|s| - 1]) then s else Stripped(s[..|s| - 1])
  }

  function LongAt(b: Bytes, p: nat): nat
    requires p + 4 <= |b|
  {
    (ShortAt(b, p) as int) + 65536 * (ShortAt(b, p + 2) as int)
  }

  ghost predicate IsLong(r: Bytes)
    requires |r| == RECORD
  {
    r[11] % 16 == LFN_ATTRIBUTES
  }

  ghost function RecordAt(data: Bytes, p: nat): (r: Bytes)
    requires p + RECORD <= |data|
    ensures |r| == RECORD
  {
    data[p..p + RECORD]
  }

  /** The parts of the name found in the first `m` records, by number. */
  ghost function PartsOf(data: Bytes, start: nat, m: nat): map<nat, Name>
    requires start + RECORD * m <= |data|
  {
    if m == 0 then map[]
    else
      var r := RecordAt(data, start + RECORD * (m - 1));
      PartsOf(data, start, m - 1)[r[0] := Decode(ChunkOf(r))]
  }

  ghost function PartAt(data: Bytes, start: nat, i: nat): Name
    requires start + RECORD * (i + 1) <= |data|
  {
    Decode(ChunkOf(RecordAt(data, start + RECORD * i)))
  }

  /** Each of the first `m` records can be decoded by itself. */
  ghost predicate PartsDecode(data: Bytes, start: nat, m: nat)
    requires start + RECORD * m <= |data|
  {
    forall i :: 0 <= i < m ==> WellPaired(PartAt(data, start, i))
  }

  ghost predicate KeysOf(parts: map<nat, Name>, keys: seq<nat>) {
    forall k :: k in keys ==> k in parts
  }

  ghost function JoinParts(parts: map<nat, Name>, keys: seq<nat>): Name
    requires KeysOf(parts, keys)
  {
    if keys == [] then [] else JoinParts(parts, keys[..|keys| - 1]) + parts[keys[|keys| - 1]]
  }

  lemma JoinNone(parts: map<nat, Name>, keys: seq<nat>)
    ensures KeysOf(parts, keys[..0]) && JoinParts(parts, keys[..0]) == []
  {
  }

  lemma KeyAt(parts: map<nat, Name>, keys: seq<nat>, k: nat)
    requires k < |keys| && KeysOf(parts, keys)
    ensures keys[k] in parts
  {
  }

  lemma JoinStep(parts: map<nat, Name>, keys: seq<nat>, k: nat)
    requires k < |keys| && KeysOf(parts, keys[..k]) && keys[k] in parts
    ensures KeysOf(parts, keys[..k + 1])
    ensures JoinParts(parts, keys[..k + 1]) == JoinParts(parts, keys[..k]) + parts[keys[k]]
  {
    assert keys[..k + 1] == keys[..k] + [keys[k]];
    assert keys[..k + 1][..k] == keys[..k];
  }

  ghost function Joined(parts: map<nat, Name>): Name {
    R.SortedIncreasing(parts.Keys);
    assert forall k :: k in R.Sorted(parts.Keys) ==> k in R.Elements(R.Sorted(parts.Keys));
    JoinParts(parts, R.Sorted(parts.Keys))
  }

  /** Long-name records, then an entry of another kind. */
  ghost predicate EntryAt(data: Bytes, start: nat, m: nat) {
    && start + RECORD * (m + 1) <= |data|
    && (forall i :: 0 <= i < m ==> IsLong(RecordAt(data, start + RECORD * i)))
    && !IsLong(RecordAt(data, start + RECORD * m))
  }

  /** What the records and the entry after them stand for. */
  ghost function Parsed(data: Bytes, start: nat, m: nat): Result
    requires EntryAt(data, start, m)
  {
    var r := RecordAt(data, start + RECORD * m);
    var first := if r[0] == ESCAPE_DEL_MARKER then DEL_MARKER else r[0];
    var lfn := Joined(PartsOf(data, start, m));
    if !PartsDecode(data, start, m) then Undecodable
    else if r[0] == 0 || r[0] == DEL_MARKER then Skipped
    else if first >= 128 then NotAscii
    else if first == DOT then Skipped
    else Entry(Dentry(r[11], [first] + Stripped(r[1..8]), Stripped(r[8..11]),
                      if lfn == [] then None else Some(CutAtNul(lfn)), ShortAt(r, 26), LongAt(r, 28)))
  }

  /** A directory as a file. */
  class DirFile {
    const data: Bytes
    var idx: nat

    constructor (data: Bytes)
      ensures this.data == data && idx == 0
    {
      this.data := data;
      idx := 0;
    }

    method Skip(amount: int)
      modifies this
      ensures var to := old(idx) + amount; idx == if to < 0 then 0 else if to > |data| then |data| else to
    {
      var to := idx + amount;
      idx := if to < 0 then 0 else if to > |data| then |data| else to;
    }

    method Read(n: nat) returns (got: Bytes)
      requires idx + n <= |data|
      modifies this
      ensures got == data[old(idx)..old(idx) + n] && idx == old(idx) + n
    {
      got := data[idx..idx + n];
      idx := idx + n;
    }

    method ReadByte() returns (b: Byte)
      requires idx < |data|
      modifies this
      ensures b == data[old(idx)] && idx == old(idx) + 1
    {
      b := data[idx];
      idx := idx + 1;
    }

    /** The attribute byte of the record at the position, which does not move. */
    method PeekAttributes() returns (b: Byte)
      requires idx + RECORD <= |data|
      modifies this
      ensures b == RecordAt(data, old(idx))[11] && idx == old(idx)
    {
      Skip(11);
      b := ReadByte();
      Skip(-12);
    }

    /** One long-name record: its number and its part of the name, unless that cannot be decoded. */
    method ReadLongRecord() returns (number: Byte, part: Option<Name>)
      requires idx + RECORD <= |data|
      modifies this
      ensures idx == old(idx) + RECORD
      ensures var r := RecordAt(data, old(idx));
              var units := Decode(ChunkOf(r));
              number == r[0] && part == if WellPaired(units) then Some(units) else None
    {
      hide Decode, WellPaired;
      ghost var p := idx;
      number := ReadByte();
      var chars := Read(10);
      Skip(3);
      var more := Read(12);
      chars := chars + more;
      Skip(2);
      more := Read(4);
      chars := chars + more;
      ChunkPieces(data, p);
      var units := Decode(chars);
      part := if WellPaired(units) then Some(units) else None;
    }

    lemma ChunkPieces(data: Bytes, p: nat)
      requires p + RECORD <= |data|
      ensures ChunkOf(RecordAt(data, p)) == data[p + 1..p + 11] + data[p + 14..p + 26] + data[p + 28..p + 32]
    {
      assert RecordAt(data, p)[1..11] == data[p + 1..p + 11];
      assert RecordAt(data, p)[14..26] == data[p + 14..p + 26];
      assert RecordAt(data, p)[28..32] == data[p + 28..p + 32];
    }
  
    /** Reads one entry with the long-name records in front of it; the position moves behind it, unless the read fails. */
    method ReadDentry(ghost m: nat) returns (r: Result, consumed: nat)
      requires EntryAt(data, idx, m)
      modifies this
      ensures r == Parsed(data, old(idx), m)
      ensures r.Entry? || r.Skipped? ==> consumed == m + 1 && idx == old(idx) + RECORD * (m + 1)
    {
      hide WellPaired, PartsOf, PartsDecode, PartAt, Joined, Decode, ChunkOf, RecordAt, Stripped, CutAtNul, IsLong,
           LongAt, ShortAt;
      ghost var start := idx;
      consumed := 1;
      var parts: map<nat, Name> := map[];
      PartsNone(data, start);
      var attributes := PeekAttributes();
      AttributesAt(data, start, m, 0);
      while attributes % 16 == LFN_ATTRIBUTES
        invariant 1 <= consumed <= m + 1 && idx == start + RECORD * (consumed - 1)
        invariant parts == PartsOf(data, start, consumed - 1) && PartsDecode(data, start, consumed - 1)
        invariant attributes == RecordAt(data, idx)[11]
        decreases m + 1 - consumed
      {
        AttributesAt(data, start, m, consumed - 1);
        consumed := consumed + 1;
        var number, part := ReadLongRecord();
        PartsNext(data, start, consumed - 2);
        if part == None {
          CannotDecode(data, start, m, consumed - 2);
          return Undecodable, consumed;
        }
        parts := parts[number := part.value];
        attributes := PeekAttributes();
      }
      AttributesAt(data, start, m, consumed - 1);
      r := ReadShort(attributes, parts, start, m);
    }

    lemma PartsNone(data: Bytes, start: nat)
      requires start <= |data|
      ensures PartsOf(data, start, 0) == map[] && PartsDecode(data, start, 0)
    {
    }

    lemma CannotDecode(data: Bytes, start: nat, m: nat, i: nat)
      requires EntryAt(data, start, m) && i < m
      requires !WellPaired(Decode(ChunkOf(RecordAt(data, start + RECORD * i))))
      ensures Parsed(data, start, m) == Undecodable
    {
      hide WellPaired, Decode, ChunkOf, RecordAt, Joined, PartsOf;
      assert !WellPaired(PartAt(data, start, i));
    }

    lemma PartsNext(data: Bytes, start: nat, m: nat)
      requires start + RECORD * (m + 1) <= |data|
      ensures var r := RecordAt(data, start + RECORD * m);
              && PartsOf(data, start, m + 1) == PartsOf(data, start, m)[r[0] := Decode(ChunkOf(r))]
              && (PartsDecode(data, start, m + 1) <==> PartsDecode(data, start, m) && WellPaired(Decode(ChunkOf(r))))
    {
      hide WellPaired, Decode, ChunkOf, RecordAt;
      assert PartAt(data, start, m) == Decode(ChunkOf(RecordAt(data, start + RECORD * m)));
    }

    lemma AttributesAt(data: Bytes, start: nat, m: nat, i: nat)
      requires EntryAt(data, start, m) && i <= m
      ensures start + RECORD * i + RECORD <= |data|
      ensures RecordAt(data, start + RECORD * i)[11] % 16 == LFN_ATTRIBUTES <==> i < m
    {
    }

    lemma SortedKeys(parts: map<nat, Name>)
      ensures KeysOf(parts, R.Sorted(parts.Keys))
    {
      hide R.Sorted, R.Increasing;
      R.SortedIncreasing(parts.Keys);
      forall k | k in R.Sorted(parts.Keys) ensures k in parts {
        assert k in R.Elements(R.Sorted(parts.Keys));
      }
    }

    /** The parts of the name in the order of their numbers. */
    method Join(parts: map<nat, Name>) returns (lfn: Name)
      ensures lfn == Joined(parts)
    {
      hide KeysOf, JoinParts;
      var keys := R.Sorted(parts.Keys);
      SortedKeys(parts);
      lfn := [];
      JoinNone(parts, keys);
      for k := 0 to |keys|
        invariant KeysOf(parts, keys[..k]) && lfn == JoinParts(parts, keys[..k])
      {
        KeyAt(parts, keys, k);
        JoinStep(parts, keys, k);
        lfn := lfn + parts[keys[k]];
      }
      assert keys[..|keys|] == keys;
    }

    /** The entry itself, behind its long-name records. */
    method ReadShort(attributes: Byte, parts: map<nat, Name>, ghost start: nat, ghost m: nat) returns (r: Result)
      requires EntryAt(data, start, m) && idx == start + RECORD * m && parts == PartsOf(data, start, m)
      requires PartsDecode(data, start, m)
      requires attributes == RecordAt(data, idx)[11]
      modifies this
      ensures r == Parsed(data, start, m)
      ensures r.Entry? || r.Skipped? ==> idx == old(idx) + RECORD
    {
      hide PartsOf, PartsDecode, Joined, Stripped, CutAtNul, JoinParts;
      ghost var p := idx;
      ShortPieces(data, p);
      var ind := ReadByte();
      if ind == 0 || ind == DEL_MARKER {
        Skip(31);
        return Skipped;
      }
      if ind == ESCAPE_DEL_MARKER {
        ind := DEL_MARKER;
      }
      if ind >= 128 {
        return NotAscii;
      }
      if ind == DOT {
        Skip(31);
        return Skipped;
      }
      var rest := Read(7);
      var ext := Read(3);
      Skip(15);
      var cluster := Read(2);
      var size := Read(4);
      var lfn := Join(parts);
      r := Entry(Dentry(attributes, [ind] + Stripped(rest), Stripped(ext),
                        if |lfn| == 0 then None else Some(CutAtNul(lfn)), ShortAt(cluster, 0), LongAt(size, 0)));
    }

    lemma ShortPieces(data: Bytes, p: nat)
      requires p + RECORD <= |data|
      ensures var r := RecordAt(data, p);
              && r[0] == data[p] && r[1..8] == data[p + 1..p + 8] && r[8..11] == data[p + 8..p + 11]
              && ShortAt(r, 26) == ShortAt(data[p + 26..p + 28], 0) && LongAt(r, 28) == LongAt(data[p + 28..p + 32], 0)
    {
      assert RecordAt(data, p)[1..8] == data[p + 1..p + 8];
      assert RecordAt(data, p)[8..11] == data[p + 8..p + 11];
    }
  }

  // From a name to records and back.

  /** The record of an entry itself. */
  ghost function ShortRecord(name: Bytes, attributes: Byte, firstCluster: Short, size: nat): (r: Bytes)
    requires |name| == 11 && size < 0x1_0000_0000
    ensures |r| == RECORD
  {
    name + [attributes, 0, 0] + seq(12, _ => 0) + Pack(firstCluster) + Pack(size % 65536) + Pack(size / 65536)
  }

  lemma ShortRecordParts(name: Bytes, attributes: Byte, firstCluster: Short, size: nat)
    requires |name| == 11 && size < 0x1_0000_0000
    ensures var r := ShortRecord(name, attributes, firstCluster, size);
            && r[0] == name[0] && r[1..8] == name[1..8] && r[8..11] == name[8..11] && r[11] == attributes
            && ShortAt(r, 26) == firstCluster && LongAt(r, 28) == size
  {
    PackUnpack(firstCluster);
    PackUnpack(size % 65536);
    PackUnpack(size / 65536);
  }

  /** The numbers 1 to n, the last one marked: already in order. */
  ghost function Numbers(n: nat): (q: seq<nat>)
    requires n <= 255
    ensures |q| == n
  {
    seq(n, i requires 0 <= i < n => Number(i, n))
  }

  lemma NumbersSorted(n: nat)
    requires n <= 255
    ensures R.Increasing(Numbers(n)) && R.Sorted(R.Elements(Numbers(n))) == Numbers(n)
  {
    R.SortedUnique(Numbers(n));
  }

  /** The records are stored at `start`, with the entry behind them. */
  ghost predicate StoredAt(data: Bytes, start: nat, records: seq<Bytes>, short: Bytes) {
    && start + RECORD * (|records| + 1) <= |data|
    && (forall i :: 0 <= i < |records| ==> RecordAt(data, start + RECORD * i) == records[i])
    && RecordAt(data, start + RECORD * |records|) == short
  }

  /** After the first `m` of the reversed records the last `m` groups are known. */
  ghost predicate LastGroups(name: Name, parts: map<nat, Name>, n: nat, m: nat)
    requires m <= n == RecordCount(name) <= 255
  {
    && (forall i :: n - m <= i < n ==> Number(i, n) in parts && parts[Number(i, n)] == Group(name, i))
    && (forall k :: k in parts ==> exists i :: n - m <= i < n && k == Number(i, n))
  }

  lemma {:induction false} PartsOfRecords(data: Bytes, start: nat, name: Name, checksum: Byte, records: seq<Bytes>,
                                          short: Bytes, m: nat)
    requires RecordsOf(name, checksum, records) && StoredAt(data, start, records, short) && m <= |records|
    ensures LastGroups(name, PartsOf(data, start, m), |records|, m)
  {
    hide Record, Encode, Decode, ChunkOf, Group, SetLast;
    if m > 0 {
      PartsOfRecords(data, start, name, checksum, records, short, m - 1);
      var n := |records|;
      var i := n - m;
      var c := Encode(Group(name, i));
      assert records[m - 1] == Record(Number(i, n), c, checksum);
      ChunkRecord(Number(i, n), c, checksum);
      DecodeEncode(Group(name, i));
      NumbersDiffer(n);
    }
  }

  lemma NumbersDiffer(n: nat)
    requires n <= 255
    ensures forall i, j :: 0 <= i < j < n ==> Number(i, n) != Number(j, n)
  {
  }

  lemma {:induction false} JoinGroups(name: Name, parts: map<nat, Name>, n: nat, k: nat)
    requires k <= n == RecordCount(name) <= 255 && LastGroups(name, parts, n, n)
    ensures KeysOf(parts, Numbers(n)[..k])
    ensures UNITS * k <= |Padded(name)| && JoinParts(parts, Numbers(n)[..k]) == Padded(name)[..UNITS * k]
  {
    hide SetLast, KeysOf, JoinParts;
    if k == 0 {
      JoinNone(parts, Numbers(n));
    } else {
      JoinGroups(name, parts, n, k - 1);
      assert Numbers(n)[k - 1] == Number(k - 1, n);
      GroupBounds(k - 1, n);
      JoinStep(parts, Numbers(n), k - 1);
    }
  }

  lemma {:induction false} CutPadded(name: Name, zeros: Name)
    requires zeros != [] && zeros[0] == 0
    ensures CutAtNul(name + zeros) == CutAtNul(name)
  {
    if name == [] {
      assert name + zeros == zeros;
    } else {
      assert (name + zeros)[1..] == name[1..] + zeros;
      CutPadded(name[1..], zeros);
    }
  }

  lemma {:induction false} CutNothing(name: Name)
    ensures CutAtNul(name) == name <==> NoNul(name)
  {
    if name != [] {
      CutNothing(name[1..]);
      assert name == [name[0]] + name[1..];
      if name[0] != 0 {
        assert NoNul(name) <==> NoNul(name[1..]) by {
          forall i | 0 <= i < |name[1..]| ensures name[1..][i] == name[i + 1] {
          }
        }
      } else {
        assert !NoNul(name);
      }
    }
  }

  lemma JoinedAs(parts: map<nat, Name>, keys: seq<nat>)
    requires R.Sorted(parts.Keys) == keys && KeysOf(parts, keys)
    ensures Joined(parts) == JoinParts(parts, keys)
  {
    hide JoinParts, R.Sorted;
  }

  lemma KeysAreNumbers(name: Name, parts: map<nat, Name>, n: nat)
    requires n == RecordCount(name) <= 255 && LastGroups(name, parts, n, n)
    ensures parts.Keys == R.Elements(Numbers(n))
  {
    hide Number, Group;
    forall k: nat ensures k in parts.Keys <==> k in R.Elements(Numbers(n)) {
      if k in parts.Keys {
        var i :| 0 <= i < n && k == Number(i, n);
        assert Numbers(n)[i] == k;
      }
      if k in R.Elements(Numbers(n)) {
        var i :| 0 <= i < n && Numbers(n)[i] == k;
      }
    }
  }

  /** The parts put together are the padded name again. */
  lemma JoinedName(name: Name, parts: map<nat, Name>, n: nat)
    requires n == RecordCount(name) <= 255 && LastGroups(name, parts, n, n)
    ensures Joined(parts) == Padded(name)
  {
    hide *;
    NumbersSorted(n);
    KeysAreNumbers(name, parts, n);
    JoinGroups(name, parts, n, n);
    Whole(Numbers(n));
    JoinedAs(parts, Numbers(n));
    Whole(Padded(name));
  }

  lemma Whole<T>(s: seq<T>)
    ensures s[..|s|] == s
  {
  }

  /** No group of 13 units holds half of a pair without the other half. */
  ghost predicate GroupsPaired(name: Name) {
    forall i :: 0 <= i < RecordCount(name) ==> WellPaired(Group(name, i))
  }

  /** Stated about the name itself: its pairs are whole, and none of them lies across two groups. */
  lemma PairedGroups(name: Name)
    ensures GroupsPaired(name) <==>
            WellPaired(name) && forall i :: 0 < i < RecordCount(name) ==> !IsHigh(name[UNITS * i - 1])
  {
    var n := RecordCount(name);
    hide WellPaired, Group, Padded, IsHigh;
    PairedPrefix(name, n);
    PaddedParts(name);
    PairedZeros(name, n * UNITS - |name|);
  }

  lemma PaddedParts(name: Name)
    ensures var n := RecordCount(name);
            && Padded(name)[..UNITS * n] == Padded(name) == name + seq(n * UNITS - |name|, _ => 0)
            && forall i :: 0 < i < n ==> UNITS * i - 1 < |name| && Padded(name)[UNITS * i - 1] == name[UNITS * i - 1]
  {
  }

  lemma {:induction false} PairedPrefix(name: Name, k: nat)
    requires k <= RecordCount(name)
    ensures (forall i :: 0 <= i < k ==> WellPaired(Group(name, i))) <==>
            (WellPaired(Padded(name)[..UNITS * k]) && forall i :: 0 < i < k ==> !IsHigh(Padded(name)[UNITS * i - 1]))
  {
    hide WellPaired, Padded, IsHigh;
    if k == 0 {
      NothingPaired(Padded(name));
    } else {
      PairedPrefix(name, k - 1);
      var before, group := Padded(name)[..UNITS * (k - 1)], Group(name, k - 1);
      assert Padded(name)[..UNITS * k] == before + group;
      PairedConcat(before, group);
    }
  }

  lemma NothingPaired(s: Name)
    ensures WellPaired(s[..0])
  {
  }

  /** Twelve ordinary characters and one that takes two units: the pair is cut in two, and the name is lost. */
  lemma CutPairLost() returns (name: Name)
    ensures WellPaired(name) && NoNul(name) && |name| == 14 && !GroupsPaired(name)
  {
    name := seq(12, _ => 0x61) + [0xD83D, 0xDE00];
    PairedConcat(seq(12, _ => 0x61), [0xD83D, 0xDE00]);
    PairedSame(12, 0x61);
    assert WellPaired([0xD83D, 0xDE00]) by {
      assert [0xD83D, 0xDE00][2..] == [];
    }
    PairedGroups(name);
    assert IsHigh(name[UNITS * 1 - 1]);
  }

  lemma {:induction false} PairedSame(n: nat, u: Short)
    requires !IsHigh(u) && !IsLow(u)
    ensures WellPaired(seq(n, _ => u))
  {
    if n > 0 {
      PairedSame(n - 1, u);
      assert seq(n, _ => u)[1..] == seq(n - 1, _ => u);
    }
  }

  /** The first bytes of a short record with which an entry is read: not those of a free entry, the dot, the mark of an
      escaped byte, or one that is not ASCII. */
  ghost predicate ReadableFirst(b: Byte) {
    b != 0 && b != DEL_MARKER && b != ESCAPE_DEL_MARKER && b != DOT && b < 128
  }

  /** An entry is read exactly if all its records can be decoded and its first byte is readable. Its name comes back as it
      was written exactly if, besides, there is no NUL in it; otherwise it comes back up to its first NUL. The rest of the
      entry comes back as well, and the records are counted right. */
  lemma RoundTrip(data: Bytes, start: nat, name: Name, checksum: Byte, records: seq<Bytes>,
                  short: Bytes, attributes: Byte, firstCluster: Short, size: nat)
    requires name != [] && RecordsOf(name, checksum, records)
    requires |short| == 11 && size < 0x1_0000_0000 && attributes % 16 != LFN_ATTRIBUTES
    requires StoredAt(data, start, records, ShortRecord(short, attributes, firstCluster, size))
    ensures EntryAt(data, start, |records|)
    ensures var r := Parsed(data, start, |records|);
            && (r == Undecodable <==> !GroupsPaired(name))
            && (r.Entry? <==> GroupsPaired(name) && ReadableFirst(short[0]))
            && (r.Entry? ==> r.d == Dentry(attributes, [short[0]] + Stripped(short[1..8]), Stripped(short[8..11]),
                                           Some(CutAtNul(name)), firstCluster, size))
            && (r.Entry? && r.d.longname == Some(name) <==>
                GroupsPaired(name) && ReadableFirst(short[0]) && NoNul(name))
  {
    hide Record, Encode, Decode, ChunkOf, Group, SetLast, ShortRecord, ShortAt, LongAt, Stripped,
         CutAtNul, Joined, PartsOf, LastGroups, NoNul, GroupsPaired, PartsDecode, WellPaired;
    var n := |records|;
    ShortRecordParts(short, attributes, firstCluster, size);
    forall i | 0 <= i < n ensures IsLong(RecordAt(data, start + RECORD * i)) {
      ChunkRecord(Number(n - 1 - i, n), Encode(Group(name, n - 1 - i)), checksum);
      assert RecordAt(data, start + RECORD * i) == records[i];
    }
    PartsOfRecords(data, start, name, checksum, records, ShortRecord(short, attributes, firstCluster, size), n);
    RecordsDecode(data, start, name, checksum, records, ShortRecord(short, attributes, firstCluster, size));
    JoinedName(name, PartsOf(data, start, n), n);
    CutPadded(name, seq(n * UNITS - |name|, _ => 0));
    CutNothing(name);
  }

  /** The records that are written can be decoded exactly if no group holds half of a pair. */
  lemma RecordsDecode(data: Bytes, start: nat, name: Name, checksum: Byte, records: seq<Bytes>, short: Bytes)
    requires RecordsOf(name, checksum, records) && StoredAt(data, start, records, short)
    ensures start + RECORD * |records| <= |data|
    ensures PartsDecode(data, start, |records|) <==> GroupsPaired(name)
  {
    hide Record, Encode, Decode, ChunkOf, Group, SetLast, WellPaired;
    var n := |records|;
    forall i | 0 <= i < n ensures PartAt(data, start, i) == Group(name, n - 1 - i) {
      var g := n - 1 - i;
      assert RecordAt(data, start + RECORD * i) == records[i] == Record(Number(g, n), Encode(Group(name, g)), checksum);
      ChunkRecord(Number(g, n), Encode(Group(name, g)), checksum);
      DecodeEncode(Group(name, g));
    }
    forall g | 0 <= g < n ensures PartAt(data, start, n - 1 - g) == Group(name, g) {
      assert n - 1 - (n - 1 - g) == g;
    }
  }
}
