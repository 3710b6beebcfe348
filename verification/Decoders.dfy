/** The generated `Unmarshal` methods and the skipper as they are written: loops over an index
    into the input that update the message in place. Each is the pure decoding of `Messages`
    and `Wire`. */
module Decoders {
  import opened Options
  import opened Wire
  import opened Messages
  import Codec

  // ----- Varints

  /** `x` after `count` digits were read, given what the rest reads as. */
  ghost function Continued(acc: nat, count: nat, r: Read): Read {
    match r
    case Read(v, n) => Read(acc + Power128(count) * v, count + n)
    case Fail(e) => Fail(e)
  }

  /** The bits of a byte in their place: `(b & 0x7F) << 7 * k`. */
  function Digit(b: byte, k: nat): nat {
    Power128(k) * (b % 128)
  }

  lemma DigitRead(d: bytes, at: nat, count: nat, acc: nat)
    requires count < MAX_VARINT && at < |d|
    ensures Continued(acc, count, ReadDigits(d[at..], count))
            == if d[at] < 128 then Read(acc + Digit(d[at], count), count + 1)
               else Continued(acc + Digit(d[at], count), count + 1, ReadDigits(d[at + 1..], count + 1))
  {
    var rest, b: int := d[at..], d[at];
    assert rest[1..] == d[at + 1..];
    if b >= 128 {
      match ReadDigits(rest[1..], count + 1)
      case Read(v, _) => Distribute(Power128(count), b - 128, v);
      case Fail(_) =>
    }
  }

  lemma Distribute(p: nat, b: int, v: nat)
    ensures p * (b + 128 * v) == p * b + 128 * p * v
  {
  }

  lemma TruncatedSum(a: nat, b: nat)
    ensures (a % TWO_64 + b) % TWO_64 == (a + b) % TWO_64
  {
  }

  /** `uint64(a)`. */
  function Truncated(a: nat): nat {
    a % TWO_64
  }

  /** The loop that reads a varint. `value |= (b & 0x7F) << shift` in 64 bits adds a digit
      above the bits so far and drops what lies beyond bit 63. */
  method ReadVarintAt(dAtA: bytes, start: nat) returns (r: Read)
    ensures r == if start <= |dAtA| then ReadVarint(dAtA[start..]) else Fail(UnexpectedEOF)
  {
    var value, iNdEx, shift := 0, start, 0;
    ghost var acc: nat, count: nat := 0, 0;
    while true
      invariant iNdEx == start + count && shift == 7 * count && count <= MAX_VARINT && value == Truncated(acc)
      invariant count > 0 ==> iNdEx <= |dAtA|
      invariant start <= |dAtA| ==> ReadDigits(dAtA[start..], 0) == Continued(acc, count, ReadDigits(dAtA[iNdEx..], count))
      decreases MAX_VARINT - count
    {
      if shift >= 64 {
        return Fail(IntOverflow);
      }
      if iNdEx >= |dAtA| {
        return Fail(UnexpectedEOF);
      }
      DigitRead(dAtA, iNdEx, count, acc);
      var b := dAtA[iNdEx];
      iNdEx := iNdEx + 1;
      var digit := Digit(b, shift / 7);
      TruncatedSum(acc, digit);
      value := Truncated(value + digit);
      acc, count := acc + digit, count + 1;
      if b < 128 {
        return Read(value, iNdEx - start);
      }
      shift := shift + 7;
    }
  }

  // ----- Skipping

  /** What is left of skipping a group after `at` bytes; an index beyond the input is found
      out by the next read. */
  ghost function GroupFrom(d: bytes, at: nat): Skipped {
    if at > |d| then NotSkipped(UnexpectedEOF)
    else match SkipGroup(d[at..]) case NotSkipped(e) => NotSkipped(e) case Skipped(n) => Skipped(at + n)
  }

  lemma GroupStep(d: bytes, at: nat)
    requires at <= |d| && ReadVarint(d[at..]).Read? && ReadVarint(d[at..]).value % 8 != 4
    ensures GroupFrom(d, at) == match Skip(d[at..]) case NotSkipped(e) => NotSkipped(e) case Skipped(n) => GroupFrom(d, at + n)
  {
  }

  /** `skipApi`, which is only called on what is left of an input. */
  method SkipApi(dAtA: bytes) returns (r: Skipped)
    requires dAtA != []
    ensures r == Skip(dAtA)
    decreases |dAtA|
  {
    var wire := ReadVarintAt(dAtA, 0);
    assert dAtA[0..] == dAtA;
    if wire.Fail? {
      return NotSkipped(wire.error);
    }
    var iNdEx := wire.size;
    match wire.value % 8 {
      case 0 =>
        var number := ReadVarintAt(dAtA, iNdEx);
        return if number.Fail? then NotSkipped(number.error) else Skipped(iNdEx + number.size);
      case 1 => return Skipped(iNdEx + 8);
      case 2 =>
        var length := ReadVarintAt(dAtA, iNdEx);
        if length.Fail? {
          return NotSkipped(length.error);
        }
        iNdEx := iNdEx + length.size;
        return if length.value >= TWO_63 then NotSkipped(InvalidLength) else Skipped(iNdEx + length.value);
      case 3 =>
        r := SkipGroupApi(dAtA, iNdEx);
      case 4 => return Skipped(iNdEx);
      case 5 => return Skipped(iNdEx + 4);
      case _ => return NotSkipped(IllegalWireType);
    }
  }

  /** The inner loop of `skipApi`. */
  method SkipGroupApi(dAtA: bytes, at: nat) returns (r: Skipped)
    requires 1 <= at <= |dAtA|
    ensures r == GroupFrom(dAtA, at)
    decreases |dAtA|, 0
  {
    var iNdEx := at;
    while true
      invariant at <= iNdEx && GroupFrom(dAtA, at) == GroupFrom(dAtA, iNdEx)
      decreases |dAtA| - iNdEx
    {
      var start := iNdEx;
      var inner := ReadVarintAt(dAtA, iNdEx);
      if inner.Fail? {
        return NotSkipped(inner.error);
      }
      iNdEx := iNdEx + inner.size;
      if inner.value % 8 == 4 {
        return Skipped(iNdEx);
      }
      GroupStep(dAtA, start);
      var next := SkipApi(dAtA[start..]);
      if next.NotSkipped? {
        return next;
      }
      iNdEx := start + next.size;
    }
  }

  // ----- One round of the loop

  /** The tag at `preIndex` was read up to `iNdEx`. */
  ghost predicate TagRead(d: bytes, preIndex: nat, iNdEx: nat, fieldNum: int, wireType: nat) {
    preIndex <= |d| &&
    var r := ReadVarint(d[preIndex..]);
    && r.Read? && iNdEx == preIndex + r.size && fieldNum == FieldNumber(r.value) && wireType == r.value % 8
    && wireType != 4 && fieldNum > 0
  }

  method ReadTag<M>(dAtA: bytes, preIndex: nat, ghost h: Handler<M>, ghost m: M)
    returns (fieldNum: int, wireType: nat, iNdEx: nat, error: Option<Error>)
    requires preIndex < |dAtA|
    ensures error.None? ==> TagRead(dAtA, preIndex, iNdEx, fieldNum, wireType)
    ensures error.Some? ==> Decode(h, m, dAtA[preIndex..]) == Decoded(m, error)
  {
    fieldNum, wireType, iNdEx, error := 0, 0, preIndex, None;
    var wire := ReadVarintAt(dAtA, preIndex);
    if wire.Fail? {
      error := Some(wire.error);
      return;
    }
    iNdEx := iNdEx + wire.size;
    fieldNum, wireType := FieldNumber(wire.value), wire.value % 8;
    if wireType == 4 {
      error := Some(EndGroup);
    } else if fieldNum <= 0 {
      error := Some(IllegalTag);
    }
  }

  /** What the loop makes of a payload and the input after it. */
  ghost function Applied<M>(h: Handler<M>, m: M, n: int, payload: bytes, rest: bytes): Decoded<M> {
    var r := h.apply(m, n, payload);
    if r.error.Some? then r else Decode(h, r.msg, rest)
  }

  lemma PayloadApplied<M>(h: Handler<M>, m: M, d: bytes, preIndex: nat, iNdEx: nat, n: int, length: nat, j: nat)
    requires TagRead(d, preIndex, iNdEx, n, 2) && h.known(n)
    requires ReadVarint(d[iNdEx..]) == Read(length, j) && length < TWO_63 && iNdEx + j + length <= |d|
    ensures Decode(h, m, d[preIndex..]) == Applied(h, m, n, d[iNdEx + j..iNdEx + j + length], d[iNdEx + j + length..])
  {
    hide Wire.Skip, Wire.ReadVarint;
    var rest, i := d[preIndex..], iNdEx - preIndex;
    var start, end := iNdEx + j, iNdEx + j + length;
    assert rest[i..] == d[iNdEx..];
    assert rest[i + j..i + j + length] == d[start..end];
    assert rest[i + j + length..] == d[end..];
  }

  /** The length of a payload: where it starts and ends. */
  method ReadLength<M>(dAtA: bytes, preIndex: nat, iNdEx: nat, wireType: nat, ghost n: int, ghost h: Handler<M>, ghost m: M)
    returns (start: nat, postIndex: nat, error: Option<Error>)
    requires TagRead(dAtA, preIndex, iNdEx, n, wireType) && h.known(n)
    ensures error.None? ==> preIndex < start <= postIndex <= |dAtA|
    ensures error.None? ==> Decode(h, m, dAtA[preIndex..]) == Applied(h, m, n, dAtA[start..postIndex], dAtA[postIndex..])
    ensures error.Some? ==> Decode(h, m, dAtA[preIndex..]) == Decoded(m, error)
  {
    start, postIndex := iNdEx, iNdEx;
    assert dAtA[preIndex..][iNdEx - preIndex..] == dAtA[iNdEx..];
    if wireType != 2 {
      error := Some(WrongWireType);
      return;
    }
    var length := ReadVarintAt(dAtA, iNdEx);
    if length.Fail? {
      error := Some(length.error);
      return;
    }
    start := iNdEx + length.size;
    if length.value >= TWO_63 {
      error := Some(InvalidLength);
      return;
    }
    postIndex := start + length.value;
    if postIndex > |dAtA| {
      error := Some(UnexpectedEOF);
      return;
    }
    PayloadApplied(h, m, dAtA, preIndex, iNdEx, n, length.value, length.size);
    error := None;
  }

  /** The default case: the record at `preIndex` is skipped whole. */
  method SkipField<M>(dAtA: bytes, preIndex: nat, ghost tagEnd: nat, ghost n: int, ghost wireType: nat,
                      ghost h: Handler<M>, ghost m: M)
    returns (iNdEx: nat, error: Option<Error>)
    requires TagRead(dAtA, preIndex, tagEnd, n, wireType) && !h.known(n)
    ensures error.None? ==> preIndex < iNdEx <= |dAtA| && Decode(h, m, dAtA[preIndex..]) == Decode(h, m, dAtA[iNdEx..])
    ensures error.Some? ==> Decode(h, m, dAtA[preIndex..]) == Decoded(m, error)
  {
    iNdEx := preIndex;
    var skippy := SkipApi(dAtA[preIndex..]);
    if skippy.NotSkipped? {
      error := Some(skippy.error);
    } else if iNdEx + skippy.size > |dAtA| {
      error := Some(UnexpectedEOF);
    } else {
      iNdEx := iNdEx + skippy.size;
      assert dAtA[preIndex..][skippy.size..] == dAtA[iNdEx..];
      error := None;
    }
  }

  // ----- The messages

  class ContainerDevicesMessage {
    var resourceName: bytes
    var deviceIds: seq<bytes>

    constructor ()
      ensures Value() == ContainerDevices([], [])
    {
      resourceName, deviceIds := [], [];
    }

    function Value(): ContainerDevices
      reads this
    {
      ContainerDevices(resourceName, deviceIds)
    }

    method Unmarshal(dAtA: bytes) returns (error: Option<Error>)
      modifies this
      ensures Decoded(Value(), error) == Decode(DevicesHandler(), old(Value()), dAtA)
    {
      var iNdEx := 0;
      ghost var h := DevicesHandler();
      assert dAtA[0..] == dAtA;
      while iNdEx < |dAtA|
        invariant iNdEx <= |dAtA| && Decode(h, old(Value()), dAtA) == Decode(h, Value(), dAtA[iNdEx..])
      {
        var preIndex, fieldNum, wireType := iNdEx, 0, 0;
        fieldNum, wireType, iNdEx, error := ReadTag(dAtA, preIndex, h, Value());
        if error.Some? {
          return;
        }
        if fieldNum == 1 || fieldNum == 2 {
          var start, postIndex;
          start, postIndex, error := ReadLength(dAtA, preIndex, iNdEx, wireType, fieldNum, h, Value());
          if error.Some? {
            return;
          }
          if fieldNum == 1 {
            resourceName := dAtA[start..postIndex];
          } else {
            deviceIds := deviceIds + [dAtA[start..postIndex]];
          }
          iNdEx := postIndex;
        } else {
          iNdEx, error := SkipField(dAtA, preIndex, iNdEx, fieldNum, wireType, h, Value());
          if error.Some? {
            return;
          }
        }
      }
      error := None;
    }
  }

  class ContainerResourcesMessage {
    var name: bytes
    var devices: seq<ContainerDevices>

    constructor ()
      ensures Value() == ContainerResources([], [])
    {
      name, devices := [], [];
    }

    function Value(): ContainerResources
      reads this
    {
      ContainerResources(name, devices)
    }

    method Unmarshal(dAtA: bytes) returns (error: Option<Error>)
      modifies this
      ensures Decoded(Value(), error) == Decode(ContainerHandler(), old(Value()), dAtA)
    {
      var iNdEx := 0;
      ghost var h := ContainerHandler();
      assert dAtA[0..] == dAtA;
      while iNdEx < |dAtA|
        invariant iNdEx <= |dAtA| && Decode(h, old(Value()), dAtA) == Decode(h, Value(), dAtA[iNdEx..])
      {
        var preIndex, fieldNum, wireType := iNdEx, 0, 0;
        fieldNum, wireType, iNdEx, error := ReadTag(dAtA, preIndex, h, Value());
        if error.Some? {
          return;
        }
        if fieldNum == 1 || fieldNum == 2 {
          var start, postIndex;
          start, postIndex, error := ReadLength(dAtA, preIndex, iNdEx, wireType, fieldNum, h, Value());
          if error.Some? {
            return;
          }
          if fieldNum == 1 {
            name := dAtA[start..postIndex];
          } else {
            var child := new ContainerDevicesMessage();
            error := child.Unmarshal(dAtA[start..postIndex]);
            devices := devices + [child.Value()];
            if error.Some? {
              return;
            }
          }
          iNdEx := postIndex;
        } else {
          iNdEx, error := SkipField(dAtA, preIndex, iNdEx, fieldNum, wireType, h, Value());
          if error.Some? {
            return;
          }
        }
      }
      error := None;
    }
  }

  class PodResourcesMessage {
    var name: bytes
    var namespace: bytes
    var containers: seq<ContainerResources>

    constructor ()
      ensures Value() == PodResources([], [], [])
    {
      name, namespace, containers := [], [], [];
    }

    function Value(): PodResources
      reads this
    {
      PodResources(name, namespace, containers)
    }

    method Unmarshal(dAtA: bytes) returns (error: Option<Error>)
      modifies this
      ensures Decoded(Value(), error) == Decode(PodHandler(), old(Value()), dAtA)
    {
      var iNdEx := 0;
      ghost var h := PodHandler();
      assert dAtA[0..] == dAtA;
      while iNdEx < |dAtA|
        invariant iNdEx <= |dAtA| && Decode(h, old(Value()), dAtA) == Decode(h, Value(), dAtA[iNdEx..])
      {
        var preIndex, fieldNum, wireType := iNdEx, 0, 0;
        fieldNum, wireType, iNdEx, error := ReadTag(dAtA, preIndex, h, Value());
        if error.Some? {
          return;
        }
        if fieldNum == 1 || fieldNum == 2 || fieldNum == 3 {
          var start, postIndex;
          start, postIndex, error := ReadLength(dAtA, preIndex, iNdEx, wireType, fieldNum, h, Value());
          if error.Some? {
            return;
          }
          if fieldNum == 1 {
            name := dAtA[start..postIndex];
          } else if fieldNum == 2 {
            namespace := dAtA[start..postIndex];
          } else {
            var child := new ContainerResourcesMessage();
            error := child.Unmarshal(dAtA[start..postIndex]);
            containers := containers + [child.Value()];
            if error.Some? {
              return;
            }
          }
          iNdEx := postIndex;
        } else {
          iNdEx, error := SkipField(dAtA, preIndex, iNdEx, fieldNum, wireType, h, Value());
          if error.Some? {
            return;
          }
        }
      }
      error := None;
    }
  }

  class ListPodResourcesResponseMessage {
    var podResources: seq<PodResources>

    constructor ()
      ensures Value() == ListResponse([])
    {
      podResources := [];
    }

    function Value(): ListResponse
      reads this
    {
      ListResponse(podResources)
    }

    method Unmarshal(dAtA: bytes) returns (error: Option<Error>)
      modifies this
      ensures Decoded(Value(), error) == Decode(ResponseHandler(), old(Value()), dAtA)
    {
      var iNdEx := 0;
      ghost var h := ResponseHandler();
      assert dAtA[0..] == dAtA;
      while iNdEx < |dAtA|
        invariant iNdEx <= |dAtA| && Decode(h, old(Value()), dAtA) == Decode(h, Value(), dAtA[iNdEx..])
      {
        var preIndex, fieldNum, wireType := iNdEx, 0, 0;
        fieldNum, wireType, iNdEx, error := ReadTag(dAtA, preIndex, h, Value());
        if error.Some? {
          return;
        }
        if fieldNum == 1 {
          var start, postIndex;
          start, postIndex, error := ReadLength(dAtA, preIndex, iNdEx, wireType, fieldNum, h, Value());
          if error.Some? {
            return;
          }
          var child := new PodResourcesMessage();
          error := child.Unmarshal(dAtA[start..postIndex]);
          podResources := podResources + [child.Value()];
          if error.Some? {
            return;
          }
          iNdEx := postIndex;
        } else {
          iNdEx, error := SkipField(dAtA, preIndex, iNdEx, fieldNum, wireType, h, Value());
          if error.Some? {
            return;
          }
        }
      }
      error := None;
    }
  }

  /** What one side marshals the other unmarshals: the message itself and no error. */
  method MarshalAndUnmarshal(m: ListResponse) returns (r: ListPodResourcesResponseMessage, error: Option<Error>)
    requires |ResponseBytes(m)| < TWO_63
    ensures fresh(r) && r.Value() == m && error.None?
  {
    var dAtA := Codec.MarshalResponse(m);
    ResponseRoundTrip(m);
    r := new ListPodResourcesResponseMessage();
    error := r.Unmarshal(dAtA[..]);
  }

  /** A request has no fields, so no object to update: every record is skipped. */
  method UnmarshalRequest(dAtA: bytes) returns (error: Option<Error>)
    ensures Decoded(ListRequest, error) == Decode(RequestHandler(), ListRequest, dAtA)
  {
    var iNdEx := 0;
    ghost var h := RequestHandler();
    assert dAtA[0..] == dAtA;
    while iNdEx < |dAtA|
      invariant iNdEx <= |dAtA| && Decode(h, ListRequest, dAtA) == Decode(h, ListRequest, dAtA[iNdEx..])
    {
      var preIndex, fieldNum, wireType := iNdEx, 0, 0;
      fieldNum, wireType, iNdEx, error := ReadTag(dAtA, preIndex, h, ListRequest);
      if error.Some? {
        return;
      }
      iNdEx, error := SkipField(dAtA, preIndex, iNdEx, fieldNum, wireType, h, ListRequest);
      if error.Some? {
        return;
      }
    }
    error := None;
  }
}
