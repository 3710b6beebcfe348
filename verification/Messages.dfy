/** The messages of the pod resources API as values: their encoding, and their decoding by
    the loop every `Unmarshal` runs, written once for any message. */
module Messages {
  import opened Options
  import opened Wire

  /** The state of a message when decoding stopped, and the error, if any, that stopped it. */
  datatype Decoded<M> = Decoded(msg: M, error: Option<Error>)

  /** What is particular to a message: which field numbers it has, all of them
      length-delimited, and what a payload does to it. */
  datatype Handler<!M> = Handler(known: int -> bool, apply: (M, int, bytes) -> Decoded<M>)

  /** `int32(wire >> 3)`. */
  function FieldNumber(wire: nat): int {
    var n := wire / 8 % TWO_32;
    if n >= TWO_31 then n - TWO_32 else n
  }

  function Decode<M>(h: Handler<M>, m: M, d: bytes): Decoded<M>
    decreases |d|
  {
    if d == [] then Decoded(m, None)
    else match Field(h, m, d)
      case Done(msg, n) => Decode(h, msg, d[n..])
      case Stopped(msg, e) => Decoded(msg, Some(e))
  }

  /** One round of the loop: the message after the first record and the bytes it took. */
  datatype Round<M> = Done(msg: M, size: nat) | Stopped(msg: M, error: Error)

  function Field<M>(h: Handler<M>, m: M, d: bytes): (r: Round<M>)
    ensures r.Done? ==> 1 <= r.size <= |d|
  {
    match ReadVarint(d)
    case Fail(e) => Stopped(m, e)
    case Read(wire, i) =>
      var fieldNum := FieldNumber(wire);
      if wire % 8 == 4 then Stopped(m, EndGroup)
      else if fieldNum <= 0 then Stopped(m, IllegalTag)
      else if h.known(fieldNum) then
        if wire % 8 != 2 then Stopped(m, WrongWireType)
        else match ReadVarint(d[i..])
          case Fail(e) => Stopped(m, e)
          case Read(length, j) =>
            if length >= TWO_63 then Stopped(m, InvalidLength)
            else if i + j + length > |d| then Stopped(m, UnexpectedEOF)
            else
              var r := h.apply(m, fieldNum, d[i + j..i + j + length]);
              if r.error.Some? then Stopped(r.msg, r.error.value) else Done(r.msg, i + j + length)
      else match Skip(d)
        case NotSkipped(e) => Stopped(m, e)
        case Skipped(n) => if n > |d| then Stopped(m, UnexpectedEOF) else Done(m, n)
  }

  /** The field number is the tag without its three low bits, as a signed number of 32 bits. */
  lemma FieldNumberWraps(wire: nat)
    ensures -0x8000_0000 <= FieldNumber(wire) < TWO_31 && (FieldNumber(wire) - wire / 8) % TWO_32 == 0
  {
    var q := wire / 8;
    assert q == TWO_32 * (q / TWO_32) + q % TWO_32;
  }

  // ----- Laws of the decoding loop

  /** What a record may not begin with, whatever follows, and with which error it is refused:
      the end of a group, a field number that is not positive, or another wire type than
      length-delimited for a field the message has. The message is left as it is. */
  lemma RefusedTags<M>(h: Handler<M>, m: M, tag: bytes, rest: bytes)
    requires IsVarint(tag)
    ensures var wire := ReadVarint(tag).value;
            var d := Decode(h, m, tag + rest);
            && (wire % 8 == 4 ==> d == Decoded(m, Some(EndGroup)))
            && (wire % 8 != 4 && FieldNumber(wire) <= 0 ==> d == Decoded(m, Some(IllegalTag)))
            && (wire % 8 != 4 && FieldNumber(wire) > 0 && h.known(FieldNumber(wire)) && wire % 8 != 2 ==>
                  d == Decoded(m, Some(WrongWireType)))
            && (wire % 8 > 5 && FieldNumber(wire) > 0 && !h.known(FieldNumber(wire)) ==>
                  d == Decoded(m, Some(IllegalWireType)))
  {
    hide Wire.ReadVarint;
    TagReads(tag, rest);
  }

  /** Nor may a length have more than 63 bits, whether or not the message has the field. */
  lemma RefusedLength<M>(h: Handler<M>, m: M, tag: bytes, length: bytes, rest: bytes)
    requires IsTag(tag, 2) && FieldNumber(ReadVarint(tag).value) > 0 && IsVarint(length) && ReadVarint(length).value >= TWO_63
    ensures Decode(h, m, tag + (length + rest)) == Decoded(m, Some(InvalidLength))
  {
    hide Wire.ReadVarint;
    TagReads(tag, length + rest);
    TagReads(length, rest);
  }

  /** A field that is cut short anywhere after its first byte is an unexpected end, and changes
      nothing. */
  lemma FieldCut<M>(h: Handler<M>, m: M, n: nat, payload: bytes, k: nat)
    requires 1 <= n < 16 && h.known(n) && |payload| < TWO_63 && 0 < k < |FieldBytes(n, payload)|
    ensures Decode(h, m, FieldBytes(n, payload)[..k]) == Decoded(m, Some(UnexpectedEOF))
  {
    hide Wire.Skip, Wire.ReadVarint;
    var tag, length := EncodeVarint(8 * n + 2), EncodeVarint(|payload|);
    hide Wire.EncodeVarint;
    assert |tag| == 1;
    var body := (length + payload)[..k - 1];
    assert FieldBytes(n, payload)[..k] == tag + body;
    VarintRoundTrip(8 * n + 2, body);
    assert (tag + body)[1..] == body;
    if k - 1 < |length| {
      assert body == length[..k - 1];
      VarintRoundTrip(|payload|, []);
      assert length + [] == length;
      VarintCut(length, k - 1);
    } else {
      var some := payload[..k - 1 - |length|];
      assert body == length + some;
      VarintRoundTrip(|payload|, some);
    }
  }

  lemma FieldAppend<M>(h: Handler<M>, m: M, a: bytes, b: bytes)
    requires Field(h, m, a).Done?
    ensures Field(h, m, a + b) == Field(h, m, a)
  {
    ReadVarintAppend(a, b);
    var Read(wire, i) := ReadVarint(a);
    assert (a + b)[i..] == a[i..] + b;
    if h.known(FieldNumber(wire)) {
      ReadVarintAppend(a[i..], b);
      var Read(length, j) := ReadVarint(a[i..]);
      assert (a + b)[i + j..i + j + length] == a[i + j..i + j + length];
    } else {
      SkipAppend(a, b);
    }
  }

  /** Concatenation is merge: once `a` is decoded, decoding `b` after it is decoding `b` into
      the result. */
  lemma {:induction false} DecodeConcat<M>(h: Handler<M>, m: M, a: bytes, b: bytes)
    requires Decode(h, m, a).error.None?
    ensures Decode(h, m, a + b) == Decode(h, Decode(h, m, a).msg, b)
    decreases |a|
  {
    hide Field;
    if a == [] {
      assert a + b == b;
    } else {
      FieldAppend(h, m, a, b);
      var Done(msg, n) := Field(h, m, a);
      DecodeConcat(h, msg, a[n..], b);
      assert (a + b)[n..] == a[n..] + b;
    }
  }

  /** A record of a field the message does not have. */
  predicate Unknown<M>(h: Handler<M>, r: Record) {
    WellFormed(r) && FieldNumber(ReadVarint(r.tag).value) > 0 && !h.known(FieldNumber(ReadVarint(r.tag).value))
  }

  lemma UnknownSkipped<M>(h: Handler<M>, m: M, r: Record, rest: bytes)
    requires Unknown(h, r)
    ensures Decode(h, m, RecordBytes(r) + rest) == Decode(h, m, rest)
  {
    hide Wire.ReadVarint;
    var d := RecordBytes(r) + rest;
    var body := RecordBytes(r)[|r.tag|..];
    assert d == r.tag + (body + rest);
    TagReads(r.tag, body + rest);
    SkipsWellFormed(r, rest);
    assert d[|RecordBytes(r)|..] == rest;
  }

  /** Inserting a well-formed record of an unknown field between records, nested groups and
      all, leaves the decoded message and the error unchanged. */
  lemma UnknownInserted<M>(h: Handler<M>, m: M, a: bytes, r: Record, b: bytes)
    requires Decode(h, m, a).error.None? && Unknown(h, r)
    ensures Decode(h, m, a + RecordBytes(r) + b) == Decode(h, m, a + b)
  {
    hide Decode, Wire.RecordBytes;
    DecodeConcat(h, m, a, b);
    DecodeConcat(h, m, a, RecordBytes(r) + b);
    UnknownSkipped(h, Decode(h, m, a).msg, r, b);
    assert a + RecordBytes(r) + b == a + (RecordBytes(r) + b);
  }

  /** An unknown record cut short anywhere is an unexpected end, nested groups and all. */
  lemma UnknownCut<M>(h: Handler<M>, m: M, r: Record, k: nat)
    requires Unknown(h, r) && 0 < k < |RecordBytes(r)|
    ensures Decode(h, m, RecordBytes(r)[..k]) == Decoded(m, Some(UnexpectedEOF))
  {
    hide Wire.Skip, Wire.ReadVarint;
    var d, body := RecordBytes(r), RecordBytes(r)[|r.tag|..];
    hide Wire.RecordBytes;
    RecordCut(r, k);
    assert d == r.tag + body;
    if k < |r.tag| {
      assert d[..k] == r.tag[..k];
      VarintCut(r.tag, k);
    } else {
      assert d[..k] == r.tag + body[..k - |r.tag|];
      TagReads(r.tag, body[..k - |r.tag|]);
    }
  }

  /** One length-delimited field as the encoder writes it. */
  function FieldBytes(n: nat, payload: bytes): bytes {
    EncodeVarint(8 * n + 2) + (EncodeVarint(|payload|) + payload)
  }

  lemma FieldReads<M>(h: Handler<M>, m: M, n: nat, payload: bytes, rest: bytes)
    requires 1 <= n < 16 && h.known(n) && |payload| < TWO_63 && h.apply(m, n, payload).error.None?
    ensures Field(h, m, FieldBytes(n, payload) + rest) == Done(h.apply(m, n, payload).msg, |FieldBytes(n, payload)|)
  {
    hide Wire.Skip, Wire.ReadVarint, Wire.EncodeVarint;
    var tag, length := EncodeVarint(8 * n + 2), EncodeVarint(|payload|);
    var d, body := FieldBytes(n, payload) + rest, length + (payload + rest);
    assert d == tag + body;
    VarintRoundTrip(8 * n + 2, body);
    assert d[|tag|..] == body;
    VarintRoundTrip(|payload|, payload + rest);
    assert d[|tag| + |length|..|tag| + |length| + |payload|] == payload;
  }

  lemma DecodeField<M>(h: Handler<M>, m: M, n: nat, payload: bytes, rest: bytes, after: M)
    requires 1 <= n < 16 && h.known(n) && |payload| < TWO_63 && h.apply(m, n, payload) == Decoded(after, None)
    ensures Decode(h, m, FieldBytes(n, payload) + rest) == Decode(h, after, rest)
  {
    FieldReads(h, m, n, payload, rest);
    assert (FieldBytes(n, payload) + rest)[|FieldBytes(n, payload)|..] == rest;
  }

  // ----- Messages

  datatype ContainerDevices = ContainerDevices(resourceName: bytes, deviceIds: seq<bytes>)
  datatype ContainerResources = ContainerResources(name: bytes, devices: seq<ContainerDevices>)
  datatype PodResources = PodResources(name: bytes, namespace: bytes, containers: seq<ContainerResources>)
  datatype ListResponse = ListResponse(podResources: seq<PodResources>)
  datatype ListRequest = ListRequest

  function DevicesHandler(): Handler<ContainerDevices> {
    Handler(n => n == 1 || n == 2,
            (m: ContainerDevices, n, p) =>
              if n == 1 then Decoded(m.(resourceName := p), None) else Decoded(m.(deviceIds := m.deviceIds + [p]), None))
  }

  function ContainerHandler(): Handler<ContainerResources> {
    Handler(n => n == 1 || n == 2,
            (m: ContainerResources, n, p) =>
              if n == 1 then Decoded(m.(name := p), None)
              else
                var r := Decode(DevicesHandler(), ContainerDevices([], []), p);
                Decoded(m.(devices := m.devices + [r.msg]), r.error))
  }

  function PodHandler(): Handler<PodResources> {
    Handler(n => n == 1 || n == 2 || n == 3,
            (m: PodResources, n, p) =>
              if n == 1 then Decoded(m.(name := p), None)
              else if n == 2 then Decoded(m.(namespace := p), None)
              else
                var r := Decode(ContainerHandler(), ContainerResources([], []), p);
                Decoded(m.(containers := m.containers + [r.msg]), r.error))
  }

  function ResponseHandler(): Handler<ListResponse> {
    Handler(n => n == 1,
            (m: ListResponse, n, p) =>
              var r := Decode(PodHandler(), PodResources([], [], []), p);
              Decoded(m.(podResources := m.podResources + [r.msg]), r.error))
  }

  function RequestHandler(): Handler<ListRequest> {
    Handler(n => false, (m: ListRequest, n, p) => Decoded(m, None))
  }

  /** A nested message that does not decode stops the outer one with its error, and is kept in
      it as far as it was decoded, whatever follows. */
  lemma NestedErrors(c: ContainerResources, p: PodResources, l: ListResponse, payload: bytes, rest: bytes)
    requires |payload| < TWO_63
    ensures var d := Decode(DevicesHandler(), ContainerDevices([], []), payload);
            d.error.Some? ==> Decode(ContainerHandler(), c, FieldBytes(2, payload) + rest)
                              == Decoded(c.(devices := c.devices + [d.msg]), d.error)
    ensures var d := Decode(ContainerHandler(), ContainerResources([], []), payload);
            d.error.Some? ==> Decode(PodHandler(), p, FieldBytes(3, payload) + rest)
                              == Decoded(p.(containers := p.containers + [d.msg]), d.error)
    ensures var d := Decode(PodHandler(), PodResources([], [], []), payload);
            d.error.Some? ==> Decode(ResponseHandler(), l, FieldBytes(1, payload) + rest)
                              == Decoded(ListResponse(l.podResources + [d.msg]), d.error)
  {
    hide Decode, FieldBytes;
    FieldStops(ContainerHandler(), c, 2, payload, rest);
    FieldStops(PodHandler(), p, 3, payload, rest);
    FieldStops(ResponseHandler(), l, 1, payload, rest);
  }

  lemma FieldStops<M>(h: Handler<M>, m: M, n: nat, payload: bytes, rest: bytes)
    requires 1 <= n < 16 && h.known(n) && |payload| < TWO_63
    ensures h.apply(m, n, payload).error.Some? ==> Decode(h, m, FieldBytes(n, payload) + rest) == h.apply(m, n, payload)
  {
    hide Wire.Skip, Wire.ReadVarint, Wire.EncodeVarint;
    var tag, length := EncodeVarint(8 * n + 2), EncodeVarint(|payload|);
    var d, body := FieldBytes(n, payload) + rest, length + (payload + rest);
    assert d == tag + body;
    VarintRoundTrip(8 * n + 2, body);
    assert d[|tag|..] == body;
    VarintRoundTrip(|payload|, payload + rest);
    assert d[|tag| + |length|..|tag| + |length| + |payload|] == payload;
  }

  // ----- Encoding

  /** A scalar string is written unless it is empty. */
  function StringBytes(n: nat, s: bytes): bytes {
    if s == [] then [] else FieldBytes(n, s)
  }

  /** Every element of a repeated field is written, empty ones too. */
  function Repeated(n: nat, payloads: seq<bytes>): bytes {
    if payloads == [] then [] else FieldBytes(n, payloads[0]) + Repeated(n, payloads[1..])
  }

  function DevicesBytes(m: ContainerDevices): bytes {
    StringBytes(1, m.resourceName) + Repeated(2, m.deviceIds)
  }

  function DevicePayloads(ms: seq<ContainerDevices>): seq<bytes> {
    seq(|ms|, i requires 0 <= i < |ms| => DevicesBytes(ms[i]))
  }

  function ContainerBytes(m: ContainerResources): bytes {
    StringBytes(1, m.name) + Repeated(2, DevicePayloads(m.devices))
  }

  function ContainerPayloads(ms: seq<ContainerResources>): seq<bytes> {
    seq(|ms|, i requires 0 <= i < |ms| => ContainerBytes(ms[i]))
  }

  function PodBytes(m: PodResources): bytes {
    StringBytes(1, m.name) + (StringBytes(2, m.namespace) + Repeated(3, ContainerPayloads(m.containers)))
  }

  function PodPayloads(ms: seq<PodResources>): seq<bytes> {
    seq(|ms|, i requires 0 <= i < |ms| => PodBytes(ms[i]))
  }

  function ResponseBytes(m: ListResponse): bytes {
    Repeated(1, PodPayloads(m.podResources))
  }

  /** The layout of short messages, byte by byte: field numbers, order, lengths, and empty
      strings left out only where they are not list elements. */
  lemma DevicesLayout(a: byte, b: byte)
    ensures DevicesBytes(ContainerDevices([a], [[b], []])) == [10, 1, a, 18, 1, b, 18, 0]
    ensures DevicesBytes(ContainerDevices([], [])) == []
  {
    assert [[b], []][1..] == [[]];
    OneElement(2, []);
    ShortField(1, [a]);
    ShortField(2, [b]);
    ShortField(2, []);
  }

  lemma ContainerLayout(a: byte, devices: ContainerDevices)
    requires |DevicesBytes(devices)| < 128
    ensures ContainerBytes(ContainerResources([a], [devices]))
            == [10, 1, a] + ([18, |DevicesBytes(devices)|] + DevicesBytes(devices))
  {
    hide DevicesBytes;
    assert DevicePayloads([devices]) == [DevicesBytes(devices)];
    OneElement(2, DevicesBytes(devices));
    ShortField(1, [a]);
    ShortField(2, DevicesBytes(devices));
  }

  lemma PodLayout(a: byte, b: byte, container: ContainerResources)
    requires |ContainerBytes(container)| < 128
    ensures PodBytes(PodResources([a], [b], [container]))
            == [10, 1, a] + ([18, 1, b] + ([26, |ContainerBytes(container)|] + ContainerBytes(container)))
  {
    hide ContainerBytes;
    assert ContainerPayloads([container]) == [ContainerBytes(container)];
    OneElement(3, ContainerBytes(container));
    ShortField(1, [a]);
    ShortField(2, [b]);
    ShortField(3, ContainerBytes(container));
  }

  lemma ResponseLayout(pod: PodResources)
    requires |PodBytes(pod)| < 128
    ensures ResponseBytes(ListResponse([pod])) == [10, |PodBytes(pod)|] + PodBytes(pod)
  {
    hide PodBytes;
    assert PodPayloads([pod]) == [PodBytes(pod)];
    OneElement(1, PodBytes(pod));
    ShortField(1, PodBytes(pod));
  }

  lemma ShortField(n: nat, payload: bytes)
    requires n < 16 && |payload| < 128
    ensures FieldBytes(n, payload) == [8 * n + 2, |payload|] + payload
  {
  }

  lemma OneElement(n: nat, payload: bytes)
    ensures Repeated(n, [payload]) == FieldBytes(n, payload)
  {
    assert [payload][1..] == [];
  }

  // ----- Round trip

  lemma {:induction false} PayloadBound(n: nat, payloads: seq<bytes>, i: nat)
    requires i < |payloads|
    ensures |payloads[i]| < |Repeated(n, payloads)|
  {
    if i > 0 {
      PayloadBound(n, payloads[1..], i - 1);
    }
  }

  /** The payload adds `x` to the list in the message. */
  ghost predicate Appends<M, T>(h: Handler<M>, n: nat, with: seq<T> -> M, ys: seq<T>, x: T, payload: bytes) {
    h.apply(with(ys), n, payload) == Decoded(with(ys + [x]), None)
  }

  /** A repeated field appends its elements one by one. `with` puts a list into the message. */
  lemma {:induction false} DecodeRepeated<M, T>(h: Handler<M>, n: nat, with: seq<T> -> M, base: seq<T>, xs: seq<T>,
                                                payloads: seq<bytes>)
    requires 1 <= n < 16 && h.known(n) && |payloads| == |xs|
    requires |Repeated(n, payloads)| < TWO_63
    requires forall i, ys :: 0 <= i < |xs| ==> Appends(h, n, with, ys, xs[i], payloads[i])
    ensures Decode(h, with(base), Repeated(n, payloads)) == Decoded(with(base + xs), None)
    decreases |xs|
  {
    hide Field, FieldBytes;
    if xs == [] {
      assert base + xs == base;
    } else {
      PayloadBound(n, payloads, 0);
      assert Appends(h, n, with, base, xs[0], payloads[0]);
      var rest, more := Repeated(n, payloads[1..]), base + [xs[0]];
      assert Repeated(n, payloads) == FieldBytes(n, payloads[0]) + rest;
      DecodeField(h, with(base), n, payloads[0], rest, with(more));
      forall i, ys | 0 <= i < |xs| - 1 ensures Appends(h, n, with, ys, xs[1..][i], payloads[1..][i]) {
        assert Appends(h, n, with, ys, xs[i + 1], payloads[i + 1]);
      }
      DecodeRepeated(h, n, with, more, xs[1..], payloads[1..]);
      assert base + [xs[0]] + xs[1..] == base + xs;
    }
  }

  /** A scalar string replaces the field unless it is empty. */
  lemma DecodeString<M>(h: Handler<M>, m: M, n: nat, s: bytes, rest: bytes, after: M)
    requires 1 <= n < 16 && h.known(n) && |s| < TWO_63
    requires if s == [] then after == m else h.apply(m, n, s) == Decoded(after, None)
    ensures Decode(h, m, StringBytes(n, s) + rest) == Decode(h, after, rest)
  {
    if s == [] {
      assert StringBytes(n, s) + rest == rest;
    } else {
      DecodeField(h, m, n, s, rest, after);
    }
  }

  function Last(first: bytes, s: bytes): bytes {
    if s == [] then first else s
  }

  /** Decoding an encoding into any message: strings are replaced unless empty, repeated
      fields append. */
  lemma DevicesInto(m: ContainerDevices, x: ContainerDevices)
    requires |DevicesBytes(x)| < TWO_63
    ensures Decode(DevicesHandler(), m, DevicesBytes(x))
            == Decoded(ContainerDevices(Last(m.resourceName, x.resourceName), m.deviceIds + x.deviceIds), None)
  {
    var h, name := DevicesHandler(), Last(m.resourceName, x.resourceName);
    DecodeString(h, m, 1, x.resourceName, Repeated(2, x.deviceIds), m.(resourceName := name));
    DecodeRepeated(h, 2, ids => ContainerDevices(name, ids), m.deviceIds, x.deviceIds, x.deviceIds);
  }

  lemma ApplyDevices(m: ContainerResources, x: ContainerDevices)
    requires |DevicesBytes(x)| < TWO_63
    ensures ContainerHandler().apply(m, 2, DevicesBytes(x)) == Decoded(m.(devices := m.devices + [x]), None)
  {
    DevicesInto(ContainerDevices([], []), x);
    assert [] + x.deviceIds == x.deviceIds;
  }

  lemma ContainerInto(m: ContainerResources, x: ContainerResources)
    requires |ContainerBytes(x)| < TWO_63
    ensures Decode(ContainerHandler(), m, ContainerBytes(x))
            == Decoded(ContainerResources(Last(m.name, x.name), m.devices + x.devices), None)
  {
    var h, name, payloads := ContainerHandler(), Last(m.name, x.name), DevicePayloads(x.devices);
    DecodeString(h, m, 1, x.name, Repeated(2, payloads), m.(name := name));
    var with := (ms: seq<ContainerDevices>) => ContainerResources(name, ms);
    forall i, ys | 0 <= i < |payloads| ensures Appends(h, 2, with, ys, x.devices[i], payloads[i]) {
      PayloadBound(2, payloads, i);
      ApplyDevices(with(ys), x.devices[i]);
    }
    DecodeRepeated(h, 2, with, m.devices, x.devices, payloads);
  }

  lemma ApplyContainer(m: PodResources, x: ContainerResources)
    requires |ContainerBytes(x)| < TWO_63
    ensures PodHandler().apply(m, 3, ContainerBytes(x)) == Decoded(m.(containers := m.containers + [x]), None)
  {
    ContainerInto(ContainerResources([], []), x);
    assert [] + x.devices == x.devices;
  }

  lemma PodInto(m: PodResources, x: PodResources)
    requires |PodBytes(x)| < TWO_63
    ensures Decode(PodHandler(), m, PodBytes(x))
            == Decoded(PodResources(Last(m.name, x.name), Last(m.namespace, x.namespace), m.containers + x.containers), None)
  {
    var h, payloads := PodHandler(), ContainerPayloads(x.containers);
    var name, namespace := Last(m.name, x.name), Last(m.namespace, x.namespace);
    DecodeString(h, m, 1, x.name, StringBytes(2, x.namespace) + Repeated(3, payloads), m.(name := name));
    DecodeString(h, m.(name := name), 2, x.namespace, Repeated(3, payloads), m.(name := name, namespace := namespace));
    var with := (ms: seq<ContainerResources>) => PodResources(name, namespace, ms);
    forall i, ys | 0 <= i < |payloads| ensures Appends(h, 3, with, ys, x.containers[i], payloads[i]) {
      PayloadBound(3, payloads, i);
      ApplyContainer(with(ys), x.containers[i]);
    }
    DecodeRepeated(h, 3, with, m.containers, x.containers, payloads);
  }

  lemma ApplyPod(m: ListResponse, x: PodResources)
    requires |PodBytes(x)| < TWO_63
    ensures ResponseHandler().apply(m, 1, PodBytes(x)) == Decoded(ListResponse(m.podResources + [x]), None)
  {
    PodInto(PodResources([], [], []), x);
    assert [] + x.containers == x.containers;
  }

  lemma ResponseInto(m: ListResponse, x: ListResponse)
    requires |ResponseBytes(x)| < TWO_63
    ensures Decode(ResponseHandler(), m, ResponseBytes(x)) == Decoded(ListResponse(m.podResources + x.podResources), None)
  {
    var h, payloads := ResponseHandler(), PodPayloads(x.podResources);
    var with := (ms: seq<PodResources>) => ListResponse(ms);
    forall i, ys | 0 <= i < |payloads| ensures Appends(h, 1, with, ys, x.podResources[i], payloads[i]) {
      PayloadBound(1, payloads, i);
      ApplyPod(with(ys), x.podResources[i]);
    }
    DecodeRepeated(h, 1, with, m.podResources, x.podResources, payloads);
  }

  /** Every response that fits a byte slice is decoded from its encoding exactly, however
      deeply filled, empty device ids included. */
  lemma ResponseRoundTrip(x: ListResponse)
    requires |ResponseBytes(x)| < TWO_63
    ensures Decode(ResponseHandler(), ListResponse([]), ResponseBytes(x)) == Decoded(x, None)
  {
    ResponseInto(ListResponse([]), x);
    assert [] + x.podResources == x.podResources;
  }

  /** Encodings one after the other decode to the merge: responses concatenate, and of two
      pods' strings the last non-empty ones win. */
  lemma MergedEncodings(a: ListResponse, b: ListResponse, p: PodResources, q: PodResources)
    requires |ResponseBytes(a)| < TWO_63 && |ResponseBytes(b)| < TWO_63 && |PodBytes(p)| < TWO_63 && |PodBytes(q)| < TWO_63
    ensures Decode(ResponseHandler(), ListResponse([]), ResponseBytes(a) + ResponseBytes(b))
            == Decoded(ListResponse(a.podResources + b.podResources), None)
    ensures Decode(PodHandler(), PodResources([], [], []), PodBytes(p) + PodBytes(q))
            == Decoded(PodResources(Last(p.name, q.name), Last(p.namespace, q.namespace), p.containers + q.containers), None)
  {
    ResponseRoundTrip(a);
    DecodeConcat(ResponseHandler(), ListResponse([]), ResponseBytes(a), ResponseBytes(b));
    ResponseInto(a, b);
    PodInto(PodResources([], [], []), p);
    assert [] + p.containers == p.containers;
    DecodeConcat(PodHandler(), PodResources([], [], []), PodBytes(p), PodBytes(q));
    PodInto(p, q);
  }
}
