/** The Protocol Buffers wire format as `api.pb.go` reads and writes it: base 128 varints,
    records, groups, and the loop all `Unmarshal` methods share. Lengths are mathematical
    integers; values are truncated to 64 and field numbers to 32 bits as the code does. */
module Wire {
  import opened Arithmetic

  type byte = x: int | 0 <= x < 256
  type bytes = seq<byte>

  const TWO_31: nat := 0x8000_0000
  const TWO_32: nat := 0x1_0000_0000
  const TWO_63: nat := 0x8000_0000_0000_0000
  const TWO_64: nat := 0x1_0000_0000_0000_0000
  const MAX_VARINT: nat := 10  // shifts 0, 7, ... 63

  datatype Error =
    | IntOverflow | UnexpectedEOF | InvalidLength | EndGroup | IllegalTag | WrongWireType | IllegalWireType

  // ----- Varints

  function EncodeVarint(v: nat): (r: bytes)
    ensures r != []
  {
    if v < 128 then [v] else [v % 128 + 128] + EncodeVarint(v / 128)
  }

  /** `sovApi`. */
  function VarintSize(v: nat): nat {
    if v < 128 then 1 else 1 + VarintSize(v / 128)
  }

  lemma {:induction false} VarintSizeExact(v: nat)
    ensures |EncodeVarint(v)| == VarintSize(v)
  {
    if v >= 128 {
      VarintSizeExact(v / 128);
    }
  }

  /** A number and how many bytes it took, or an error. */
  datatype Read = Read(value: nat, size: nat) | Fail(error: Error)

  /** The digits of a varint, the `k`-th byte first; the sum is not yet truncated. */
  function ReadDigits(d: bytes, k: nat): (r: Read)
    ensures r.Read? ==> 1 <= r.size <= |d|
  {
    if k >= MAX_VARINT then Fail(IntOverflow)
    else if d == [] then Fail(UnexpectedEOF)
    else if d[0] < 128 then Read(d[0], 1)
    else match ReadDigits(d[1..], k + 1)
      case Read(v, n) => Read(d[0] - 128 + 128 * v, n + 1)
      case Fail(e) => Fail(e)
  }

  function ReadVarint(d: bytes): (r: Read)
    ensures r.Read? ==> 1 <= r.size <= |d| && r.value < TWO_64
  {
    match ReadDigits(d, 0)
    case Read(v, n) => Read(v % TWO_64, n)
    case Fail(e) => Fail(e)
  }

  function Power128(k: nat): (p: nat)
    ensures p > 0
  {
    if k == 0 then 1 else 128 * Power128(k - 1)
  }

  /** Byte `i` of a varint carries the `i`-th base 128 digit of the number, least significant
      first, and is flagged unless it is the last; there are no more bytes than needed. */
  lemma {:induction false} VarintBytes(v: nat, i: nat)
    requires i < |EncodeVarint(v)|
    ensures EncodeVarint(v)[i] == v / Power128(i) % 128 + if i + 1 < |EncodeVarint(v)| then 128 else 0
    ensures |EncodeVarint(v)| > 1 ==> Power128(|EncodeVarint(v)| - 1) <= v
    decreases v
  {
    if v >= 128 {
      VarintBytes(v / 128, if i > 0 then i - 1 else 0);
      if i > 0 {
        DivideTwice(v, 128, Power128(i - 1));
      }
      if |EncodeVarint(v / 128)| == 1 { assert Power128(1) == 128; }
    }
  }

  lemma {:induction false} ReadDigitsEncoded(v: nat, k: nat, rest: bytes)
    requires k < MAX_VARINT && v < Power128(MAX_VARINT - k)
    ensures ReadDigits(EncodeVarint(v) + rest, k) == Read(v, VarintSize(v))
    decreases v
  {
    if v >= 128 {
      assert Power128(MAX_VARINT - k) == 128 * Power128(MAX_VARINT - k - 1);
      assert Power128(1) == 128;
      ReadDigitsEncoded(v / 128, k + 1, rest);
      assert (EncodeVarint(v) + rest)[1..] == EncodeVarint(v / 128) + rest;
    }
  }

  /** Every 64-bit number is read back from its encoding, whatever follows it. */
  lemma VarintRoundTrip(v: nat, rest: bytes)
    requires v < TWO_64
    ensures ReadVarint(EncodeVarint(v) + rest) == Read(v, |EncodeVarint(v)|)
  {
    assert Power128(4) == 0x1000_0000 && Power128(8) == 0x100_0000_0000_0000 && Power128(10) == 0x40_0000_0000_0000_0000;
    ReadDigitsEncoded(v, 0, rest);
    VarintSizeExact(v);
  }

  /** A larger number that still fits ten bytes is read modulo 2 to the 64. */
  lemma VarintWraps(v: nat, rest: bytes)
    requires v < Power128(MAX_VARINT)
    ensures ReadVarint(EncodeVarint(v) + rest) == Read(v % TWO_64, |EncodeVarint(v)|)
  {
    ReadDigitsEncoded(v, 0, rest);
    VarintSizeExact(v);
  }

  /** A number is refused exactly if it has no last byte among the first ten: for being too
      long if there are ten, and for ending early otherwise. */
  lemma {:induction false} VarintErrors(d: bytes, k: nat)
    requires k <= MAX_VARINT
    ensures ReadDigits(d, k).Read? <==> exists i :: 0 <= i < |d| && i < MAX_VARINT - k && d[i] < 128
    ensures ReadDigits(d, k).Fail? ==>
              ReadDigits(d, k).error == if |d| >= MAX_VARINT - k then IntOverflow else UnexpectedEOF
    decreases |d|
  {
    if k < MAX_VARINT && d != [] && d[0] >= 128 {
      VarintErrors(d[1..], k + 1);
      if i :| 0 <= i < |d[1..]| && i < MAX_VARINT - (k + 1) && d[1..][i] < 128 {
        assert d[i + 1] < 128;
      }
      if i :| 0 <= i < |d| && i < MAX_VARINT - k && d[i] < 128 {
        assert d[1..][i - 1] < 128;
      }
    }
  }

  lemma {:induction false} ReadDigitsCut(d: bytes, k: nat, n: nat)
    requires ReadDigits(d, k).Read? && n < ReadDigits(d, k).size
    ensures ReadDigits(d[..n], k) == Fail(UnexpectedEOF)
    decreases |d|
  {
    if n > 0 {
      ReadDigitsCut(d[1..], k + 1, n - 1);
      assert d[..n][1..] == d[1..][..n - 1];
    }
  }

  /** A number cut short is an unexpected end. */
  lemma VarintCut(d: bytes, n: nat)
    requires ReadVarint(d).Read? && n < ReadVarint(d).size
    ensures ReadVarint(d[..n]) == Fail(UnexpectedEOF)
  {
    ReadDigitsCut(d, 0, n);
  }

  lemma {:induction false} ReadDigitsAppend(a: bytes, b: bytes, k: nat)
    requires ReadDigits(a, k).Read?
    ensures ReadDigits(a + b, k) == ReadDigits(a, k)
    decreases |a|
  {
    if a[0] >= 128 {
      ReadDigitsAppend(a[1..], b, k + 1);
      assert (a + b)[1..] == a[1..] + b;
    }
  }

  /** A varint that was read does not depend on what follows it. */
  lemma ReadVarintAppend(a: bytes, b: bytes)
    requires ReadVarint(a).Read?
    ensures ReadVarint(a + b) == ReadVarint(a)
  {
    ReadDigitsAppend(a, b, 0);
  }

  // ----- Skipping unknown records

  datatype Skipped = Skipped(size: nat) | NotSkipped(error: Error)

  /** `skipApi`. The size may lie beyond the input: the fixed-width and length-delimited cases
      leave that to the caller. */
  function Skip(d: bytes): (r: Skipped)
    ensures r.Skipped? ==> r.size >= 1
    decreases |d|, 0
  {
    match ReadVarint(d)
    case Fail(e) => NotSkipped(e)
    case Read(wire, i) =>
      if wire % 8 == 0 then
        match ReadVarint(d[i..]) case Fail(e) => NotSkipped(e) case Read(_, j) => Skipped(i + j)
      else if wire % 8 == 1 then Skipped(i + 8)
      else if wire % 8 == 2 then
        match ReadVarint(d[i..])
        case Fail(e) => NotSkipped(e)
        case Read(length, j) => if length >= TWO_63 then NotSkipped(InvalidLength) else Skipped(i + j + length)
      else if wire % 8 == 3 then
        match SkipGroup(d[i..]) case NotSkipped(e) => NotSkipped(e) case Skipped(n) => Skipped(i + n)
      else if wire % 8 == 4 then Skipped(i)
      else if wire % 8 == 5 then Skipped(i + 4)
      else NotSkipped(IllegalWireType)
  }

  /** The records of a group up to and including its end tag. */
  function SkipGroup(d: bytes): (r: Skipped)
    ensures r.Skipped? ==> 1 <= r.size <= |d|
    decreases |d|, 1
  {
    match ReadVarint(d)
    case Fail(e) => NotSkipped(e)
    case Read(wire, i) =>
      if wire % 8 == 4 then Skipped(i)
      else match Skip(d)
        case NotSkipped(e) => NotSkipped(e)
        case Skipped(n) =>
          if n > |d| then NotSkipped(UnexpectedEOF)
          else match SkipGroup(d[n..]) case NotSkipped(e) => NotSkipped(e) case Skipped(m) => Skipped(n + m)
  }

  /** A record skipped within the input does not depend on what follows it. */
  lemma {:induction false} SkipAppend(a: bytes, b: bytes)
    requires Skip(a).Skipped? && Skip(a).size <= |a|
    ensures Skip(a + b) == Skip(a)
    decreases |a|, 0
  {
    ReadVarintAppend(a, b);
    var i := ReadVarint(a).size;
    assert (a + b)[i..] == a[i..] + b;
    if ReadVarint(a).value % 8 == 0 || ReadVarint(a).value % 8 == 2 {
      ReadVarintAppend(a[i..], b);
    } else if ReadVarint(a).value % 8 == 3 {
      SkipGroupAppend(a[i..], b);
    }
  }

  lemma {:induction false} SkipGroupAppend(a: bytes, b: bytes)
    requires SkipGroup(a).Skipped?
    ensures SkipGroup(a + b) == SkipGroup(a)
    decreases |a|, 1
  {
    ReadVarintAppend(a, b);
    if ReadVarint(a).value % 8 != 4 {
      SkipAppend(a, b);
      var n := Skip(a).size;
      SkipGroupAppend(a[n..], b);
      assert (a + b)[n..] == a[n..] + b;
    }
  }

  // ----- Well-formed records

  /** The grammar of a record. Tags, numbers and lengths are any byte strings that read as
      varints, canonical or not. */
  datatype Record =
    | VarintRecord(tag: bytes, number: bytes)
    | Fixed64Record(tag: bytes, content: bytes)
    | DelimitedRecord(tag: bytes, length: bytes, content: bytes)
    | GroupRecord(tag: bytes, items: seq<Record>, end: bytes)
    | Fixed32Record(tag: bytes, content: bytes)

  predicate IsVarint(d: bytes) {
    ReadVarint(d).Read? && ReadVarint(d).size == |d|
  }

  predicate IsTag(d: bytes, wireType: nat) {
    IsVarint(d) && ReadVarint(d).value % 8 == wireType
  }

  predicate WellFormed(r: Record) {
    match r
    case VarintRecord(tag, number) => IsTag(tag, 0) && IsVarint(number)
    case Fixed64Record(tag, content) => IsTag(tag, 1) && |content| == 8
    case DelimitedRecord(tag, length, content) => IsTag(tag, 2) && IsVarint(length) && ReadVarint(length).value == |content| < TWO_63
    case GroupRecord(tag, items, end) => IsTag(tag, 3) && IsTag(end, 4) && forall x :: x in items ==> WellFormed(x)
    case Fixed32Record(tag, content) => IsTag(tag, 5) && |content| == 4
  }

  function RecordBytes(r: Record): bytes
    decreases r
  {
    match r
    case VarintRecord(tag, number) => tag + number
    case Fixed64Record(tag, content) => tag + content
    case DelimitedRecord(tag, length, content) => tag + (length + content)
    case GroupRecord(tag, items, end) => tag + ItemsBytes(items, end)
    case Fixed32Record(tag, content) => tag + content
  }

  /** The records of a group and its end tag. */
  function ItemsBytes(items: seq<Record>, end: bytes): bytes
    decreases items
  {
    if items == [] then end else RecordBytes(items[0]) + ItemsBytes(items[1..], end)
  }

  lemma TagReads(tag: bytes, rest: bytes)
    requires IsVarint(tag)
    ensures ReadVarint(tag + rest) == ReadVarint(tag) && (tag + rest)[|tag|..] == rest
  {
    ReadVarintAppend(tag, rest);
  }

  /** An end tag by itself is skipped as a record. */
  lemma EndTagSkipped(tag: bytes, rest: bytes)
    requires IsTag(tag, 4)
    ensures Skip(tag + rest) == Skipped(|tag|) && SkipGroup(tag + rest) == Skipped(|tag|)
  {
    TagReads(tag, rest);
  }

  lemma LengthReads(length: bytes, content: bytes, rest: bytes)
    requires IsVarint(length)
    ensures ReadVarint((length + content) + rest) == ReadVarint(length)
  {
    assert (length + content) + rest == length + (content + rest);
    TagReads(length, content + rest);
  }

  /** Every well-formed record, nested groups included, is skipped exactly. */
  lemma {:induction false} SkipsWellFormed(r: Record, rest: bytes)
    requires WellFormed(r)
    ensures Skip(RecordBytes(r) + rest) == Skipped(|RecordBytes(r)|)
    decreases r
  {
    var body := RecordBytes(r)[|r.tag|..];
    assert RecordBytes(r) + rest == r.tag + (body + rest);
    TagReads(r.tag, body + rest);
    match r
    case VarintRecord(tag, number) => TagReads(number, rest);
    case DelimitedRecord(tag, length, content) => LengthReads(length, content, rest);
    case GroupRecord(tag, items, end) => SkipsItems(items, end, rest);
    case _ =>
  }

  lemma {:induction false} SkipsItems(items: seq<Record>, end: bytes, rest: bytes)
    requires IsTag(end, 4) && forall x :: x in items ==> WellFormed(x)
    ensures SkipGroup(ItemsBytes(items, end) + rest) == Skipped(|ItemsBytes(items, end)|)
    decreases items
  {
    if items == [] {
      TagReads(end, rest);
    } else {
      var first, others := RecordBytes(items[0]), ItemsBytes(items[1..], end);
      assert ItemsBytes(items, end) + rest == first + (others + rest);
      SkipsWellFormed(items[0], others + rest);
      SkipsItems(items[1..], end, rest);
      NotAnEndTag(items[0], others + rest);
      assert (first + (others + rest))[|first|..] == others + rest;
    }
  }

  lemma NotAnEndTag(r: Record, rest: bytes)
    requires WellFormed(r)
    ensures ReadVarint(RecordBytes(r) + rest).Read? && ReadVarint(RecordBytes(r) + rest).value % 8 != 4
  {
    var body := RecordBytes(r)[|r.tag|..];
    assert RecordBytes(r) + rest == r.tag + (body + rest);
    TagReads(r.tag, body + rest);
  }

  /** A record cut short anywhere is refused as an unexpected end, by the skipper or, where
      that leaves it to its caller, by its size. */
  ghost predicate CutShort(d: bytes) {
    Skip(d) == NotSkipped(UnexpectedEOF) || (Skip(d).Skipped? && Skip(d).size > |d|)
  }

  lemma {:induction false} RecordCut(r: Record, k: nat)
    requires WellFormed(r) && k < |RecordBytes(r)|
    ensures CutShort(RecordBytes(r)[..k])
    decreases r
  {
    var d, body := RecordBytes(r), RecordBytes(r)[|r.tag|..];
    assert d == r.tag + body;
    if k < |r.tag| {
      assert d[..k] == r.tag[..k];
      VarintCut(r.tag, k);
    } else {
      var rest := body[..k - |r.tag|];
      assert d[..k] == r.tag + rest;
      TagReads(r.tag, rest);
      match r
      case VarintRecord(tag, number) =>
        assert rest == number[..k - |tag|];
        VarintCut(number, k - |tag|);
      case DelimitedRecord(tag, length, content) => DelimitedCut(length, content, k - |tag|);
      case GroupRecord(tag, items, end) => ItemsCut(items, end, k - |tag|);
      case _ =>
    }
  }

  lemma DelimitedCut(length: bytes, content: bytes, k: nat)
    requires IsVarint(length) && ReadVarint(length).value == |content| && k < |length + content|
    ensures var rest := (length + content)[..k];
            ReadVarint(rest) == if k < |length| then Fail(UnexpectedEOF) else ReadVarint(length)
  {
    var rest := (length + content)[..k];
    if k < |length| {
      assert rest == length[..k];
      VarintCut(length, k);
    } else {
      assert rest == length + content[..k - |length|];
      ReadVarintAppend(length, content[..k - |length|]);
    }
  }

  lemma {:induction false} ItemsCut(items: seq<Record>, end: bytes, k: nat)
    requires IsTag(end, 4) && (forall x :: x in items ==> WellFormed(x)) && k < |ItemsBytes(items, end)|
    ensures SkipGroup(ItemsBytes(items, end)[..k]) == NotSkipped(UnexpectedEOF)
    decreases items
  {
    var d := ItemsBytes(items, end);
    if items == [] {
      VarintCut(end, k);
    } else {
      var first, others := RecordBytes(items[0]), ItemsBytes(items[1..], end);
      assert d == first + others;
      if k < |first| {
        assert d[..k] == first[..k];
        RecordCut(items[0], k);
        CutNotEnd(items[0], k);
      } else {
        var rest := others[..k - |first|];
        assert d[..k] == first + rest;
        SkipsWellFormed(items[0], rest);
        NotAnEndTag(items[0], rest);
        ItemsCut(items[1..], end, k - |first|);
        assert (first + rest)[|first|..] == rest;
      }
    }
  }

  lemma CutNotEnd(r: Record, k: nat)
    requires WellFormed(r) && k < |RecordBytes(r)|
    ensures var d := RecordBytes(r)[..k];
            ReadVarint(d) == Fail(UnexpectedEOF) || (ReadVarint(d).Read? && ReadVarint(d).value % 8 != 4)
  {
    var d, body := RecordBytes(r), RecordBytes(r)[|r.tag|..];
    assert d == r.tag + body;
    if k < |r.tag| {
      assert d[..k] == r.tag[..k];
      VarintCut(r.tag, k);
    } else {
      assert d[..k] == r.tag + body[..k - |r.tag|];
      TagReads(r.tag, body[..k - |r.tag|]);
    }
  }

  lemma ReadPrefix(d: bytes)
    requires ReadVarint(d).Read?
    ensures IsVarint(d[..ReadVarint(d).size]) && ReadVarint(d[..ReadVarint(d).size]) == ReadVarint(d)
  {
    ReadDigitsPrefix(d, 0);
  }

  lemma {:induction false} ReadDigitsPrefix(d: bytes, k: nat)
    requires ReadDigits(d, k).Read?
    ensures ReadDigits(d[..ReadDigits(d, k).size], k) == ReadDigits(d, k)
    decreases |d|
  {
    var n := ReadDigits(d, k).size;
    if d[0] >= 128 {
      ReadDigitsPrefix(d[1..], k + 1);
      assert d[..n][1..] == d[1..][..n - 1];
    }
  }

  /** Conversely, whatever is skipped within the input is a well-formed record: outside an end
      tag, the skipper accepts exactly the grammar. */
  lemma {:induction false} SkippedIsWellFormed(d: bytes) returns (r: Record)
    requires Skip(d).Skipped? && Skip(d).size <= |d| && ReadVarint(d).value % 8 != 4
    ensures WellFormed(r) && RecordBytes(r) == d[..Skip(d).size]
    decreases |d|, 0
  {
    var i, n := ReadVarint(d).size, Skip(d).size;
    ReadPrefix(d);
    match ReadVarint(d).value % 8
    case 0 => r := SkippedVarint(d);
    case 1 => r := Fixed64Record(d[..i], d[i..n]); assert d[..n] == d[..i] + d[i..n];
    case 2 => r := SkippedDelimited(d);
    case 3 =>
      var items, end := SkippedItems(d[i..]);
      r := GroupRecord(d[..i], items, end);
      assert d[..n] == d[..i] + d[i..][..n - i];
    case _ => r := Fixed32Record(d[..i], d[i..n]); assert d[..n] == d[..i] + d[i..n];
  }

  lemma SkippedVarint(d: bytes) returns (r: Record)
    requires Skip(d).Skipped? && ReadVarint(d).value % 8 == 0
    ensures WellFormed(r) && Skip(d).size <= |d| && RecordBytes(r) == d[..Skip(d).size]
  {
    var i, n := ReadVarint(d).size, Skip(d).size;
    ReadPrefix(d);
    ReadPrefix(d[i..]);
    r := VarintRecord(d[..i], d[i..][..n - i]);
    assert d[..n] == d[..i] + d[i..][..n - i];
  }

  lemma SkippedDelimited(d: bytes) returns (r: Record)
    requires Skip(d).Skipped? && Skip(d).size <= |d| && ReadVarint(d).value % 8 == 2
    ensures WellFormed(r) && RecordBytes(r) == d[..Skip(d).size]
  {
    var i, n := ReadVarint(d).size, Skip(d).size;
    var j := ReadVarint(d[i..]).size;
    ReadPrefix(d);
    ReadPrefix(d[i..]);
    r := DelimitedRecord(d[..i], d[i..][..j], d[i + j..n]);
    assert d[..n] == d[..i] + (d[i..][..j] + d[i + j..n]);
  }

  lemma {:induction false} SkippedItems(d: bytes) returns (items: seq<Record>, end: bytes)
    requires SkipGroup(d).Skipped?
    ensures IsTag(end, 4) && forall x :: x in items ==> WellFormed(x)
    ensures ItemsBytes(items, end) == d[..SkipGroup(d).size]
    decreases |d|, 1
  {
    if ReadVarint(d).value % 8 == 4 {
      ReadPrefix(d);
      items, end := [], d[..ReadVarint(d).size];
    } else {
      var n := Skip(d).size;
      var first := SkippedIsWellFormed(d);
      var others;
      others, end := SkippedItems(d[n..]);
      items := [first] + others;
      assert items[1..] == others;
      assert d[..SkipGroup(d).size] == d[..n] + d[n..][..SkipGroup(d).size - n];
    }
  }
}
