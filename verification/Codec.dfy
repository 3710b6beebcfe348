/** The writing half of the generated code: `Size`, and `MarshalTo` into a byte buffer. */
module Codec {
  import opened Wire
  import opened Messages

  // ----- Sizes

  /** `sovApi`. */
  method Sov(x: nat) returns (n: nat)
    ensures n == |EncodeVarint(x)|
  {
    n := 0;
    var rest := x;
    while true
      invariant n + VarintSize(rest) == VarintSize(x)
      decreases rest
    {
      n := n + 1;
      if rest / 128 == 0 {
        break;
      }
      rest := rest / 128;
    }
    VarintSizeExact(x);
  }

  lemma FieldSize(n: nat, payload: bytes)
    requires 1 <= n < 16
    ensures |FieldBytes(n, payload)| == 1 + |EncodeVarint(|payload|)| + |payload|
  {
  }

  lemma {:induction false} RepeatedSnoc(n: nat, ps: seq<bytes>, p: bytes)
    ensures Repeated(n, ps + [p]) == Repeated(n, ps) + FieldBytes(n, p)
  {
    if ps == [] {
      assert (ps + [p])[1..] == [];
    } else {
      RepeatedSnoc(n, ps[1..], p);
      assert (ps + [p])[1..] == ps[1..] + [p];
    }
  }

  method FieldLength(n: nat, l: nat, ghost payload: bytes) returns (size: nat)
    requires 1 <= n < 16 && l == |payload|
    ensures size == |FieldBytes(n, payload)|
  {
    var s := Sov(l);
    FieldSize(n, payload);
    size := 1 + l + s;
  }

  method SizeDevices(m: ContainerDevices) returns (n: nat)
    ensures n == |DevicesBytes(m)|
  {
    n := 0;
    if |m.resourceName| > 0 {
      n := FieldLength(1, |m.resourceName|, m.resourceName);
    }
    for i := 0 to |m.deviceIds|
      invariant n == |StringBytes(1, m.resourceName)| + |Repeated(2, m.deviceIds[..i])|
    {
      var size := FieldLength(2, |m.deviceIds[i]|, m.deviceIds[i]);
      RepeatedSnoc(2, m.deviceIds[..i], m.deviceIds[i]);
      assert m.deviceIds[..i + 1] == m.deviceIds[..i] + [m.deviceIds[i]];
      n := n + size;
    }
    assert m.deviceIds[..|m.deviceIds|] == m.deviceIds;
  }

  method SizeContainer(m: ContainerResources) returns (n: nat)
    ensures n == |ContainerBytes(m)|
  {
    hide FieldBytes, DevicesBytes;
    n := 0;
    if |m.name| > 0 {
      n := FieldLength(1, |m.name|, m.name);
    }
    ghost var ps := DevicePayloads(m.devices);
    for i := 0 to |m.devices|
      invariant n == |StringBytes(1, m.name)| + |Repeated(2, ps[..i])|
    {
      var l := SizeDevices(m.devices[i]);
      var size := FieldLength(2, l, ps[i]);
      RepeatedSnoc(2, ps[..i], ps[i]);
      assert ps[..i + 1] == ps[..i] + [ps[i]];
      n := n + size;
    }
    assert ps[..|ps|] == ps;
  }

  method SizePod(m: PodResources) returns (n: nat)
    ensures n == |PodBytes(m)|
  {
    hide FieldBytes, ContainerBytes;
    n := 0;
    if |m.name| > 0 {
      n := FieldLength(1, |m.name|, m.name);
    }
    if |m.namespace| > 0 {
      var size := FieldLength(2, |m.namespace|, m.namespace);
      n := n + size;
    }
    ghost var ps := ContainerPayloads(m.containers);
    for i := 0 to |m.containers|
      invariant n == |StringBytes(1, m.name)| + |StringBytes(2, m.namespace)| + |Repeated(3, ps[..i])|
    {
      var l := SizeContainer(m.containers[i]);
      var size := FieldLength(3, l, ps[i]);
      RepeatedSnoc(3, ps[..i], ps[i]);
      assert ps[..i + 1] == ps[..i] + [ps[i]];
      n := n + size;
    }
    assert ps[..|ps|] == ps;
  }

  method SizeResponse(m: ListResponse) returns (n: nat)
    ensures n == |ResponseBytes(m)|
  {
    hide FieldBytes, PodBytes;
    n := 0;
    ghost var ps := PodPayloads(m.podResources);
    for i := 0 to |m.podResources|
      invariant n == |Repeated(1, ps[..i])|
    {
      var l := SizePod(m.podResources[i]);
      var size := FieldLength(1, l, ps[i]);
      RepeatedSnoc(1, ps[..i], ps[i]);
      assert ps[..i + 1] == ps[..i] + [ps[i]];
      n := n + size;
    }
    assert ps[..|ps|] == ps;
  }

  // ----- Writing

  /** `before` with `data` in place of what stood at `at`. */
  ghost function Spliced(before: bytes, at: nat, data: bytes): bytes
    requires at + |data| <= |before|
  {
    before[..at] + data + before[at + |data|..]
  }

  /** `data` was written at `at` and nothing else changed. */
  ghost predicate Wrote(before: bytes, after: bytes, at: nat, data: bytes) {
    at + |data| <= |before| && after == Spliced(before, at, data)
  }

  lemma WroteBoth(a: bytes, b: bytes, c: bytes, at: nat, x: bytes, y: bytes)
    requires Wrote(a, b, at, x) && Wrote(b, c, at + |x|, y)
    ensures Wrote(a, c, at, x + y)
  {
  }

  lemma WroteThree(a: bytes, b: bytes, c: bytes, d: bytes, at: nat, x: bytes, y: bytes, z: bytes)
    requires Wrote(a, b, at, x) && Wrote(b, c, at + |x|, y) && Wrote(c, d, at + |x| + |y|, z)
    ensures Wrote(a, d, at, x + (y + z))
  {
  }

  method PutByte(dAtA: array<byte>, i: nat, b: byte)
    requires i < dAtA.Length
    modifies dAtA
    ensures Wrote(old(dAtA[..]), dAtA[..], i, [b])
  {
    dAtA[i] := b;
  }

  /** `encodeVarintApi`. */
  method EncodeVarintApi(dAtA: array<byte>, offset: nat, v: nat) returns (next: nat)
    requires offset + |EncodeVarint(v)| <= dAtA.Length
    modifies dAtA
    ensures Wrote(old(dAtA[..]), dAtA[..], offset, EncodeVarint(v)) && next == offset + |EncodeVarint(v)|
  {
    next := offset;
    var rest := v;
    ghost var done: bytes := [];
    while rest >= 128
      invariant done + EncodeVarint(rest) == EncodeVarint(v) && next == offset + |done|
      invariant Wrote(old(dAtA[..]), dAtA[..], offset, done)
      decreases rest
    {
      ghost var before := dAtA[..];
      PutByte(dAtA, next, rest % 128 + 128);
      WroteBoth(old(dAtA[..]), before, dAtA[..], offset, done, [rest % 128 + 128]);
      done := done + [rest % 128 + 128];
      rest := rest / 128;
      next := next + 1;
    }
    ghost var before := dAtA[..];
    PutByte(dAtA, next, rest);
    WroteBoth(old(dAtA[..]), before, dAtA[..], offset, done, [rest]);
    next := next + 1;
  }

  /** `copy(dAtA[i:], s)` with room for all of `s`. */
  method CopyBytes(dAtA: array<byte>, i: nat, s: bytes)
    requires i + |s| <= dAtA.Length
    modifies dAtA
    ensures Wrote(old(dAtA[..]), dAtA[..], i, s)
  {
    for k := 0 to |s|
      invariant Wrote(old(dAtA[..]), dAtA[..], i, s[..k])
    {
      dAtA[i + k] := s[k];
    }
    assert s[..|s|] == s;
  }

  /** Tag and length of a field. */
  function Header(n: nat, l: nat): bytes {
    EncodeVarint(8 * n + 2) + EncodeVarint(l)
  }

  lemma FieldIsHeaderAndPayload(n: nat, payload: bytes)
    ensures FieldBytes(n, payload) == Header(n, |payload|) + payload
  {
  }

  method PutHeader(dAtA: array<byte>, i: nat, n: nat, l: nat) returns (next: nat)
    requires 1 <= n < 16 && i + |Header(n, l)| <= dAtA.Length
    modifies dAtA
    ensures Wrote(old(dAtA[..]), dAtA[..], i, Header(n, l)) && next == i + |Header(n, l)|
  {
    PutByte(dAtA, i, 8 * n + 2);
    ghost var middle := dAtA[..];
    next := EncodeVarintApi(dAtA, i + 1, l);
    WroteBoth(old(dAtA[..]), middle, dAtA[..], i, [8 * n + 2], EncodeVarint(l));
  }

  /** Tag, length and content of a field. `data` names the bytes a method is to write, here
      and below. */
  method PutString(s: bytes, n: nat, dAtA: array<byte>, i: nat, ghost data: bytes) returns (next: nat)
    requires 1 <= n < 16 && data == FieldBytes(n, s) && i + |data| <= dAtA.Length
    modifies dAtA
    ensures Wrote(old(dAtA[..]), dAtA[..], i, data) && next == i + |data|
  {
    FieldIsHeaderAndPayload(n, s);
    next := PutHeader(dAtA, i, n, |s|);
    ghost var middle := dAtA[..];
    CopyBytes(dAtA, next, s);
    WroteBoth(old(dAtA[..]), middle, dAtA[..], i, Header(n, |s|), s);
    next := next + |s|;
  }

  /** A scalar string is written unless it is empty. */
  method PutScalar(s: bytes, n: nat, dAtA: array<byte>, i: nat, ghost data: bytes) returns (next: nat)
    requires 1 <= n < 16 && data == StringBytes(n, s) && i + |data| <= dAtA.Length
    modifies dAtA
    ensures Wrote(old(dAtA[..]), dAtA[..], i, data) && next == i + |data|
  {
    next := i;
    if |s| > 0 {
      next := PutString(s, n, dAtA, i, data);
    }
  }

  /** What stands in the buffer when `k` elements of the repeated field are written. */
  ghost function Upto(n: nat, ps: seq<bytes>, k: nat): bytes
    requires k <= |ps|
  {
    Repeated(n, ps[..k])
  }

  lemma UptoEnds(n: nat, ps: seq<bytes>)
    ensures Upto(n, ps, 0) == [] && Upto(n, ps, |ps|) == Repeated(n, ps)
  {
    assert ps[..|ps|] == ps;
  }

  lemma {:induction false} UptoNext(n: nat, ps: seq<bytes>, k: nat, p: bytes) returns (data: bytes)
    requires k < |ps| && p == ps[k]
    ensures data == FieldBytes(n, p) && Upto(n, ps, k + 1) == Upto(n, ps, k) + data
    ensures |Upto(n, ps, k + 1)| <= |Repeated(n, ps)|
    decreases |ps| - k
  {
    data := FieldBytes(n, p);
    RepeatedSnoc(n, ps[..k], p);
    assert ps[..k + 1] == ps[..k] + [p];
    UptoEnds(n, ps);
    if k + 1 < |ps| {
      var _ := UptoNext(n, ps, k + 1, ps[k + 1]);
    }
  }

  method PutIds(ids: seq<bytes>, dAtA: array<byte>, at: nat, ghost data: bytes) returns (next: nat)
    requires data == Repeated(2, ids) && at + |data| <= dAtA.Length
    modifies dAtA
    ensures Wrote(old(dAtA[..]), dAtA[..], at, data) && next == at + |data|
  {
    hide Upto, Repeated, FieldBytes;
    next := at;
    UptoEnds(2, ids);
    for k := 0 to |ids|
      invariant Wrote(old(dAtA[..]), dAtA[..], at, Upto(2, ids, k)) && next == at + |Upto(2, ids, k)|
    {
      ghost var before, done := dAtA[..], Upto(2, ids, k);
      ghost var element := UptoNext(2, ids, k, ids[k]);
      assert next + |element| <= dAtA.Length;
      next := PutString(ids[k], 2, dAtA, next, element);
      WroteBoth(old(dAtA[..]), before, dAtA[..], at, done, element);
    }
  }

  /** `MarshalTo` of the messages, innermost first: exactly `Size()` bytes are written and
      the rest of the buffer is left alone. */
  method MarshalDevicesTo(m: ContainerDevices, dAtA: array<byte>, at: nat, ghost data: bytes) returns (n: nat)
    requires data == DevicesBytes(m) && at + |data| <= dAtA.Length
    modifies dAtA
    ensures Wrote(old(dAtA[..]), dAtA[..], at, data) && n == |data|
  {
    ghost var x, y := StringBytes(1, m.resourceName), Repeated(2, m.deviceIds);
    var i := PutScalar(m.resourceName, 1, dAtA, at, x);
    ghost var middle := dAtA[..];
    i := PutIds(m.deviceIds, dAtA, i, y);
    WroteBoth(old(dAtA[..]), middle, dAtA[..], at, x, y);
    n := i - at;
  }

  method PutDevices(m: ContainerDevices, dAtA: array<byte>, at: nat, ghost data: bytes) returns (next: nat)
    requires data == FieldBytes(2, DevicesBytes(m)) && at + |data| <= dAtA.Length
    modifies dAtA
    ensures Wrote(old(dAtA[..]), dAtA[..], at, data) && next == at + |data|
  {
    var size := SizeDevices(m);
    ghost var content := DevicesBytes(m);
    FieldIsHeaderAndPayload(2, content);
    next := PutHeader(dAtA, at, 2, size);
    ghost var middle := dAtA[..];
    var l := MarshalDevicesTo(m, dAtA, next, content);
    WroteBoth(old(dAtA[..]), middle, dAtA[..], at, Header(2, size), content);
    next := next + l;
  }

  method PutAllDevices(ms: seq<ContainerDevices>, dAtA: array<byte>, at: nat, ghost ps: seq<bytes>, ghost data: bytes)
    returns (next: nat)
    requires |ps| == |ms| && (forall k {:trigger ms[k]} :: 0 <= k < |ms| ==> ps[k] == DevicesBytes(ms[k]))
    requires data == Repeated(2, ps) && at + |data| <= dAtA.Length
    modifies dAtA
    ensures Wrote(old(dAtA[..]), dAtA[..], at, data) && next == at + |data|
  {
    hide Upto, Repeated, FieldBytes, DevicesBytes;
    next := at;
    UptoEnds(2, ps);
    for k := 0 to |ms|
      invariant Wrote(old(dAtA[..]), dAtA[..], at, Upto(2, ps, k)) && next == at + |Upto(2, ps, k)|
    {
      ghost var before, done := dAtA[..], Upto(2, ps, k);
      ghost var p := DevicesBytes(ms[k]);
      ghost var element := UptoNext(2, ps, k, p);
      assert next + |element| <= dAtA.Length;
      next := PutDevices(ms[k], dAtA, next, element);
      WroteBoth(old(dAtA[..]), before, dAtA[..], at, done, element);
    }
  }

  method MarshalContainerTo(m: ContainerResources, dAtA: array<byte>, at: nat, ghost data: bytes) returns (n: nat)
    requires data == ContainerBytes(m) && at + |data| <= dAtA.Length
    modifies dAtA
    ensures Wrote(old(dAtA[..]), dAtA[..], at, data) && n == |data|
  {
    ghost var x, y := StringBytes(1, m.name), Repeated(2, DevicePayloads(m.devices));
    var i := PutScalar(m.name, 1, dAtA, at, x);
    ghost var middle := dAtA[..];
    i := PutAllDevices(m.devices, dAtA, i, DevicePayloads(m.devices), y);
    WroteBoth(old(dAtA[..]), middle, dAtA[..], at, x, y);
    n := i - at;
  }

  method PutContainer(m: ContainerResources, dAtA: array<byte>, at: nat, ghost data: bytes) returns (next: nat)
    requires data == FieldBytes(3, ContainerBytes(m)) && at + |data| <= dAtA.Length
    modifies dAtA
    ensures Wrote(old(dAtA[..]), dAtA[..], at, data) && next == at + |data|
  {
    var size := SizeContainer(m);
    ghost var content := ContainerBytes(m);
    FieldIsHeaderAndPayload(3, content);
    next := PutHeader(dAtA, at, 3, size);
    ghost var middle := dAtA[..];
    var l := MarshalContainerTo(m, dAtA, next, content);
    WroteBoth(old(dAtA[..]), middle, dAtA[..], at, Header(3, size), content);
    next := next + l;
  }

  method PutAllContainers(ms: seq<ContainerResources>, dAtA: array<byte>, at: nat, ghost ps: seq<bytes>, ghost data: bytes)
    returns (next: nat)
    requires |ps| == |ms| && (forall k {:trigger ms[k]} :: 0 <= k < |ms| ==> ps[k] == ContainerBytes(ms[k]))
    requires data == Repeated(3, ps) && at + |data| <= dAtA.Length
    modifies dAtA
    ensures Wrote(old(dAtA[..]), dAtA[..], at, data) && next == at + |data|
  {
    hide Upto, Repeated, FieldBytes, ContainerBytes;
    next := at;
    UptoEnds(3, ps);
    for k := 0 to |ms|
      invariant Wrote(old(dAtA[..]), dAtA[..], at, Upto(3, ps, k)) && next == at + |Upto(3, ps, k)|
    {
      ghost var before, done := dAtA[..], Upto(3, ps, k);
      ghost var p := ContainerBytes(ms[k]);
      ghost var element := UptoNext(3, ps, k, p);
      assert next + |element| <= dAtA.Length;
      next := PutContainer(ms[k], dAtA, next, element);
      WroteBoth(old(dAtA[..]), before, dAtA[..], at, done, element);
    }
  }

  method MarshalPodTo(m: PodResources, dAtA: array<byte>, at: nat, ghost data: bytes) returns (n: nat)
    requires data == PodBytes(m) && at + |data| <= dAtA.Length
    modifies dAtA
    ensures Wrote(old(dAtA[..]), dAtA[..], at, data) && n == |data|
  {
    ghost var x, y, z := StringBytes(1, m.name), StringBytes(2, m.namespace), Repeated(3, ContainerPayloads(m.containers));
    var i := PutScalar(m.name, 1, dAtA, at, x);
    ghost var first := dAtA[..];
    i := PutScalar(m.namespace, 2, dAtA, i, y);
    ghost var second := dAtA[..];
    i := PutAllContainers(m.containers, dAtA, i, ContainerPayloads(m.containers), z);
    WroteThree(old(dAtA[..]), first, second, dAtA[..], at, x, y, z);
    n := i - at;
  }

  method PutPod(m: PodResources, dAtA: array<byte>, at: nat, ghost data: bytes) returns (next: nat)
    requires data == FieldBytes(1, PodBytes(m)) && at + |data| <= dAtA.Length
    modifies dAtA
    ensures Wrote(old(dAtA[..]), dAtA[..], at, data) && next == at + |data|
  {
    var size := SizePod(m);
    ghost var content := PodBytes(m);
    FieldIsHeaderAndPayload(1, content);
    next := PutHeader(dAtA, at, 1, size);
    ghost var middle := dAtA[..];
    var l := MarshalPodTo(m, dAtA, next, content);
    WroteBoth(old(dAtA[..]), middle, dAtA[..], at, Header(1, size), content);
    next := next + l;
  }

  method PutAllPods(ms: seq<PodResources>, dAtA: array<byte>, at: nat, ghost ps: seq<bytes>, ghost data: bytes)
    returns (next: nat)
    requires |ps| == |ms| && (forall k {:trigger ms[k]} :: 0 <= k < |ms| ==> ps[k] == PodBytes(ms[k]))
    requires data == Repeated(1, ps) && at + |data| <= dAtA.Length
    modifies dAtA
    ensures Wrote(old(dAtA[..]), dAtA[..], at, data) && next == at + |data|
  {
    hide Upto, Repeated, FieldBytes, PodBytes;
    next := at;
    UptoEnds(1, ps);
    for k := 0 to |ms|
      invariant Wrote(old(dAtA[..]), dAtA[..], at, Upto(1, ps, k)) && next == at + |Upto(1, ps, k)|
    {
      ghost var before, done := dAtA[..], Upto(1, ps, k);
      ghost var p := PodBytes(ms[k]);
      ghost var element := UptoNext(1, ps, k, p);
      assert next + |element| <= dAtA.Length;
      next := PutPod(ms[k], dAtA, next, element);
      WroteBoth(old(dAtA[..]), before, dAtA[..], at, done, element);
    }
  }

  method MarshalResponseTo(m: ListResponse, dAtA: array<byte>, at: nat, ghost data: bytes) returns (n: nat)
    requires data == ResponseBytes(m) && at + |data| <= dAtA.Length
    modifies dAtA
    ensures Wrote(old(dAtA[..]), dAtA[..], at, data) && n == |data|
  {
    var i := PutAllPods(m.podResources, dAtA, at, PodPayloads(m.podResources), data);
    n := i - at;
  }

  /** `Marshal`: the buffer of exactly `Size()` bytes is filled completely. */
  method MarshalResponse(m: ListResponse) returns (dAtA: array<byte>)
    ensures fresh(dAtA) && dAtA[..] == ResponseBytes(m)
  {
    var size := SizeResponse(m);
    dAtA := new byte[size];
    ghost var data := ResponseBytes(m);
    var n := MarshalResponseTo(m, dAtA, 0, data);
    assert n == dAtA.Length == |data|;
    assert forall k :: 0 <= k < n ==> dAtA[..][k] == data[k];
  }
}
