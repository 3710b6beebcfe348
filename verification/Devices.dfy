/** `types.Device`: a sorted list of device ids with a hash, compared by both; and the search
    of a decoded response for the container that was given a device. Go's strings are byte
    strings, and the hash is any function of the list. */
module Devices {
  import opened Messages
  import opened Options
  import opened Wire

  datatype Device = Device(hash: bytes, list: seq<bytes>, resourceName: bytes)

  // ----- Sorting

  /** Lexicographic order, as `sort.Strings` uses. */
  predicate AtMost(a: bytes, b: bytes) {
    a == [] || (b != [] && (a[0] < b[0] || (a[0] == b[0] && AtMost(a[1..], b[1..]))))
  }

  /** A prefix of the other, or smaller at the first byte that differs. */
  lemma {:induction false} AtMostExactly(a: bytes, b: bytes)
    ensures AtMost(a, b) <==> a <= b || exists k :: SmallerAt(a, b, k)
  {
    if a != [] && b != [] && a[0] == b[0] {
      AtMostExactly(a[1..], b[1..]);
      assert a == [a[0]] + a[1..] && b == [b[0]] + b[1..];
      if k :| SmallerAt(a[1..], b[1..], k) {
        assert SmallerAt(a, b, k + 1);
      }
      if k :| SmallerAt(a, b, k) {
        assert SmallerAt(a[1..], b[1..], k - 1);
      }
    } else if a != [] && b != [] && a[0] < b[0] {
      assert SmallerAt(a, b, 0);
    }
  }

  ghost predicate SmallerAt(a: bytes, b: bytes, k: int) {
    0 <= k < |a| && k < |b| && a[k] < b[k] && forall i :: 0 <= i < k ==> a[i] == b[i]
  }

  lemma {:induction false} AtMostTotal(a: bytes, b: bytes)
    ensures AtMost(a, b) || AtMost(b, a)
    ensures AtMost(a, b) && AtMost(b, a) ==> a == b
  {
    if a != [] && b != [] && a[0] == b[0] {
      AtMostTotal(a[1..], b[1..]);
      assert a == [a[0]] + a[1..] && b == [b[0]] + b[1..];
    }
  }

  lemma {:induction false} AtMostTransitive(a: bytes, b: bytes, c: bytes)
    requires AtMost(a, b) && AtMost(b, c)
    ensures AtMost(a, c)
  {
    if a != [] && a[0] == b[0] == c[0] {
      AtMostTransitive(a[1..], b[1..], c[1..]);
    }
  }

  ghost predicate Sorted(s: seq<bytes>) {
    forall i, j :: 0 <= i < j < |s| ==> AtMost(s[i], s[j])
  }

  function Insert(x: bytes, s: seq<bytes>): seq<bytes> {
    if s == [] then [x] else if AtMost(x, s[0]) then [x] + s else [s[0]] + Insert(x, s[1..])
  }

  function SortStrings(s: seq<bytes>): seq<bytes> {
    if s == [] then [] else Insert(s[0], SortStrings(s[1..]))
  }

  lemma {:induction false} InsertMembers(x: bytes, s: seq<bytes>)
    ensures multiset(Insert(x, s)) == multiset{x} + multiset(s)
  {
    hide AtMost;
    if s != [] {
      RestOf(s);
      InsertMembers(x, s[1..]);
    }
  }

  lemma {:induction false} InsertSorts(x: bytes, s: seq<bytes>)
    requires Sorted(s)
    ensures Sorted(Insert(x, s))
  {
    hide AtMost;
    if s != [] {
      AtMostTotal(x, s[0]);
      if AtMost(x, s[0]) {
        forall y | y in s ensures AtMost(x, y) {
          if y != s[0] { AtMostTransitive(x, s[0], y); }
        }
        LeastFirst(x, s);
      } else {
        var rest := Insert(x, s[1..]);
        InsertSorts(x, s[1..]);
        InsertMembers(x, s[1..]);
        forall y | y in rest ensures AtMost(s[0], y) {
          assert y in multiset(rest);
          assert y == x || y in s[1..];
        }
        LeastFirst(s[0], rest);
      }
    }
  }

  lemma LeastFirst(x: bytes, s: seq<bytes>)
    requires Sorted(s) && forall y :: y in s ==> AtMost(x, y)
    ensures Sorted([x] + s)
  {
  }

  lemma {:induction false} SortStringsSorts(s: seq<bytes>)
    ensures Sorted(SortStrings(s)) && multiset(SortStrings(s)) == multiset(s)
  {
    if s != [] {
      SortStringsSorts(s[1..]);
      InsertSorts(s[0], SortStrings(s[1..]));
      InsertMembers(s[0], SortStrings(s[1..]));
      assert s == [s[0]] + s[1..];
    }
  }

  lemma {:induction false} SortedUnique(a: seq<bytes>, b: seq<bytes>)
    requires Sorted(a) && Sorted(b) && multiset(a) == multiset(b)
    ensures a == b
  {
    assert |a| == |multiset(a)| == |b|;
    if a != [] {
      assert a[0] in multiset(a) && b[0] in multiset(b);
      FirstIsLeast(a, b[0]);
      FirstIsLeast(b, a[0]);
      AtMostTotal(a[0], b[0]);
      RestOf(a);
      RestOf(b);
      SortedUnique(a[1..], b[1..]);
    }
  }

  lemma FirstIsLeast(s: seq<bytes>, x: bytes)
    requires Sorted(s) && x in multiset(s)
    ensures AtMost(s[0], x)
  {
    var i :| 0 <= i < |s| && s[i] == x;
    AtMostTotal(s[0], s[0]);
  }

  lemma RestOf(s: seq<bytes>)
    requires s != []
    ensures s == [s[0]] + s[1..] && multiset(s[1..]) == multiset(s) - multiset{s[0]}
  {
  }

  // ----- Devices

  function NewDevice(hash: seq<bytes> -> bytes, deviceList: seq<bytes>, resourceName: bytes): Device {
    var curr := SortStrings(deviceList);
    Device(hash(curr), curr, resourceName)
  }

  method ListsEqual(a: seq<bytes>, b: seq<bytes>) returns (eq: bool)
    ensures eq <==> a == b
  {
    if |a| != |b| {
      return false;
    }
    for i := 0 to |a|
      invariant a[..i] == b[..i]
    {
      if a[i] != b[i] {
        return false;
      }
    }
    return true;
  }

  method Equals(d: Device, o: Device) returns (eq: bool)
    ensures eq <==> d == o
  {
    var same := ListsEqual(d.list, o.list);
    eq := d.hash == o.hash && same && d.resourceName == o.resourceName;
  }

  /** Two devices are equal exactly when they name the same resource and list the same ids
      equally often, in whatever order. */
  lemma EqualsMeansSameIds(hash: seq<bytes> -> bytes, a: seq<bytes>, b: seq<bytes>, m: bytes, n: bytes)
    ensures NewDevice(hash, a, m) == NewDevice(hash, b, n) <==> m == n && multiset(a) == multiset(b)
  {
    SortStringsSorts(a);
    SortStringsSorts(b);
    if multiset(a) == multiset(b) {
      SortedUnique(SortStrings(a), SortStrings(b));
    }
  }

  // ----- Locate

  datatype PodContainer = PodContainer(namespace: bytes, name: bytes, container: bytes)

  /** All ids of one resource that a container was given, over all its entries. */
  function IdsOf(devices: seq<ContainerDevices>, resource: bytes): seq<bytes> {
    if devices == [] then []
    else
      var last := devices[|devices| - 1];
      IdsOf(devices[..|devices| - 1], resource) + if last.resourceName == resource then last.deviceIds else []
  }

  /** One entry, or all entries together, list exactly the wanted ids. */
  ghost predicate Holds(devices: seq<ContainerDevices>, resource: bytes, ids: seq<bytes>) {
    || (exists i :: 0 <= i < |devices| && devices[i].resourceName == resource && multiset(devices[i].deviceIds) == multiset(ids))
    || multiset(IdsOf(devices, resource)) == multiset(ids)
  }

  ghost predicate HoldsAt(response: seq<PodResources>, resource: bytes, ids: seq<bytes>, p: int, c: int) {
    0 <= p < |response| && 0 <= c < |response[p].containers| && Holds(response[p].containers[c].devices, resource, ids)
  }

  ghost predicate Before(p: int, c: int, q: int, d: int) {
    p < q || (p == q && c < d)
  }

  ghost function Named(response: seq<PodResources>, p: int, c: int): PodContainer
    requires 0 <= p < |response| && 0 <= c < |response[p].containers|
  {
    PodContainer(response[p].namespace, response[p].name, response[p].containers[c].name)
  }

  /** The container examined by one round of the search matches or does not. The wanted
      device may be one of another resource than the locator's. */
  method Examine(hash: seq<bytes> -> bytes, devices: Device, ghost ids: seq<bytes>, ghost wanted: bytes,
                 resource: bytes, container: ContainerResources)
    returns (found: bool)
    requires devices == NewDevice(hash, ids, wanted)
    ensures found <==> wanted == resource && Holds(container.devices, resource, ids)
  {
    var deviceIds: seq<bytes> := [];
    for i := 0 to |container.devices|
      invariant deviceIds == IdsOf(container.devices[..i], resource)
      invariant forall k :: 0 <= k < i ==>
                  !(wanted == container.devices[k].resourceName == resource
                    && multiset(container.devices[k].deviceIds) == multiset(ids))
    {
      assert container.devices[..i + 1][..i] == container.devices[..i];
      var r := container.devices[i];
      if r.resourceName == resource {
        EqualsMeansSameIds(hash, ids, r.deviceIds, wanted, resource);
        var same := Equals(devices, NewDevice(hash, r.deviceIds, r.resourceName));
        if same {
          return true;
        }
        deviceIds := deviceIds + r.deviceIds;
      }
    }
    assert container.devices[..|container.devices|] == container.devices;
    EqualsMeansSameIds(hash, ids, deviceIds, wanted, resource);
    found := Equals(devices, NewDevice(hash, deviceIds, resource));
  }

  /** The first container, pod by pod, that holds exactly the wanted ids; none for a device of
      another resource. */
  method Locate(hash: seq<bytes> -> bytes, devices: Device, ghost ids: seq<bytes>, ghost wanted: bytes,
                resource: bytes, response: seq<PodResources>)
    returns (r: Option<PodContainer>, ghost at: (int, int))
    requires devices == NewDevice(hash, ids, wanted)
    ensures r.Some? ==> wanted == resource && HoldsAt(response, resource, ids, at.0, at.1)
                        && forall p, c :: Before(p, c, at.0, at.1) ==> !HoldsAt(response, resource, ids, p, c)
    ensures r.Some? ==> r.value.namespace == response[at.0].namespace && r.value.name == response[at.0].name
                        && r.value.container == response[at.0].containers[at.1].name
    ensures r.None? ==> wanted != resource || forall p, c :: !HoldsAt(response, resource, ids, p, c)
  {
    at := (0, 0);
    for p := 0 to |response|
      invariant wanted == resource ==> forall q, d :: q < p ==> !HoldsAt(response, resource, ids, q, d)
    {
      var pod := response[p];
      for c := 0 to |pod.containers|
        invariant wanted == resource ==> forall q, d :: Before(q, d, p, c) ==> !HoldsAt(response, resource, ids, q, d)
      {
        var found := Examine(hash, devices, ids, wanted, resource, pod.containers[c]);
        if found {
          at := (p, c);
          return Some(PodContainer(pod.namespace, pod.name, pod.containers[c].name)), at;
        }
      }
    }
    return None, at;
  }

  /** The ids can be cut, in order, into the entries of the resource; the entries of other
      resources among them play no part. */
  ghost predicate SplitInto(ids: seq<bytes>, devices: seq<ContainerDevices>, resource: bytes)
    decreases devices
  {
    if devices == [] then ids == []
    else if devices[0].resourceName != resource then SplitInto(ids, devices[1..], resource)
    else devices[0].deviceIds <= ids && SplitInto(ids[|devices[0].deviceIds|..], devices[1..], resource)
  }

  /** There is exactly one such list. */
  lemma {:induction false} OneSplit(ids: seq<bytes>, devices: seq<ContainerDevices>, resource: bytes)
    ensures SplitInto(ids, devices, resource) <==> ids == IdsOf(devices, resource)
    decreases devices
  {
    if devices != [] {
      var first, rest := devices[0], devices[1..];
      assert devices == [first] + rest;
      IdsConcat([first], rest, resource);
      var own := if first.resourceName == resource then first.deviceIds else [];
      assert [first][..0] == [] && IdsOf([first], resource) == own;
      if own <= ids {
        OneSplit(ids[|own|..], rest, resource);
        assert ids == own + ids[|own|..];
      }
    }
  }

  lemma {:induction false} IdsConcat(a: seq<ContainerDevices>, b: seq<ContainerDevices>, resource: bytes)
    ensures IdsOf(a + b, resource) == IdsOf(a, resource) + IdsOf(b, resource)
    decreases b
  {
    if b == [] {
      assert a + b == a;
    } else {
      IdsConcat(a, b[..|b| - 1], resource);
      assert (a + b)[..|a + b| - 1] == a + b[..|b| - 1];
    }
  }

  /** A container holds the ids exactly when one of its entries lists them, in any order, or
      some order of them can be cut into its entries. */
  lemma HoldsExactly(devices: seq<ContainerDevices>, resource: bytes, ids: seq<bytes>)
    ensures Holds(devices, resource, ids) <==>
            || (exists i :: 0 <= i < |devices| && devices[i].resourceName == resource && multiset(devices[i].deviceIds) == multiset(ids))
            || exists x :: SplitInto(x, devices, resource) && multiset(x) == multiset(ids)
  {
    OneSplit(IdsOf(devices, resource), devices, resource);
    forall x | SplitInto(x, devices, resource) ensures x == IdsOf(devices, resource) {
      OneSplit(x, devices, resource);
    }
  }

  /** In particular with one id to an entry, as newer kubelets report them, in any order. */
  lemma {:induction false} OneIdEach(devices: seq<ContainerDevices>, resource: bytes, ids: seq<bytes>)
    requires |devices| == |ids| && forall i :: 0 <= i < |ids| ==> devices[i] == ContainerDevices(resource, [ids[i]])
    ensures SplitInto(ids, devices, resource)
    ensures forall x :: multiset(x) == multiset(ids) ==> Holds(devices, resource, x)
    decreases |ids|
  {
    if ids != [] {
      OneIdEach(devices[1..], resource, ids[1..]);
    }
    OneSplit(ids, devices, resource);
  }

  /** The container `(p, c)` was given the id, in some entry of the resource. */
  ghost predicate Owns(response: seq<PodResources>, resource: bytes, id: bytes, p: int, c: int) {
    && 0 <= p < |response| && 0 <= c < |response[p].containers|
    && exists i :: 0 <= i < |response[p].containers[c].devices| && Listing(response[p].containers[c].devices[i], resource, id)
  }

  predicate Listing(entry: ContainerDevices, resource: bytes, id: bytes) {
    entry.resourceName == resource && id in entry.deviceIds
  }

  lemma {:induction false} IdInEntry(devices: seq<ContainerDevices>, resource: bytes, id: bytes)
    ensures id in IdsOf(devices, resource) <==> exists i :: 0 <= i < |devices| && Listing(devices[i], resource, id)
  {
    if devices != [] {
      var n := |devices| - 1;
      var front := devices[..n];
      IdInEntry(front, resource, id);
      if i :| 0 <= i < |front| && Listing(front[i], resource, id) {
        assert Listing(devices[i], resource, id);
      }
      if i :| 0 <= i < |devices| && Listing(devices[i], resource, id) && i < n {
        assert Listing(front[i], resource, id);
      }
    }
  }

  /** The id belongs to at most one container. */
  ghost predicate OneOwner(response: seq<PodResources>, resource: bytes, id: bytes) {
    forall i, j, k, l :: Owns(response, resource, id, i, j) && Owns(response, resource, id, k, l) ==> i == k && j == l
  }

  /** A container that holds the ids was given every one of them. */
  lemma HolderOwnsAll(response: seq<PodResources>, resource: bytes, ids: seq<bytes>, p: int, c: int, id: bytes)
    requires HoldsAt(response, resource, ids, p, c) && id in ids
    ensures Owns(response, resource, id, p, c)
  {
    var devices := response[p].containers[c].devices;
    assert id in multiset(ids);
    if i :| 0 <= i < |devices| && devices[i].resourceName == resource && multiset(devices[i].deviceIds) == multiset(ids) {
      assert id in multiset(devices[i].deviceIds);
      assert Listing(devices[i], resource, id);
    } else {
      assert id in multiset(IdsOf(devices, resource));
      IdInEntry(devices, resource, id);
    }
  }

  /** For a non-empty request whose ids each belong to at most one container, at most one
      container holds exactly those ids, so the search returns that one however its ids are
      split into entries. */
  lemma OwnerIsUnique(response: seq<PodResources>, resource: bytes, ids: seq<bytes>, p: int, c: int, q: int, d: int)
    requires ids != []
    requires forall id :: id in ids ==> OneOwner(response, resource, id)
    requires HoldsAt(response, resource, ids, p, c) && HoldsAt(response, resource, ids, q, d)
    ensures p == q && c == d
  {
    HolderOwnsAll(response, resource, ids, p, c, ids[0]);
    HolderOwnsAll(response, resource, ids, q, d, ids[0]);
  }

  /** Some order of the ids can be cut into the entries of the container `(p, c)`. */
  ghost predicate GivenAll(response: seq<PodResources>, resource: bytes, ids: seq<bytes>, p: int, c: int) {
    && 0 <= p < |response| && 0 <= c < |response[p].containers|
    && exists x :: SplitInto(x, response[p].containers[c].devices, resource) && multiset(x) == multiset(ids)
  }

  /** The search finds the owner: see `OwnerIsUnique`. */
  method LocateOwner(hash: seq<bytes> -> bytes, devices: Device, ghost ids: seq<bytes>, resource: bytes,
                     response: seq<PodResources>, ghost p: int, ghost c: int)
    returns (r: Option<PodContainer>)
    requires devices == NewDevice(hash, ids, resource) && ids != []
    requires forall id :: id in ids ==> OneOwner(response, resource, id)
    requires HoldsAt(response, resource, ids, p, c) || GivenAll(response, resource, ids, p, c)
    ensures r == Some(Named(response, p, c))
  {
    ghost var at;
    if GivenAll(response, resource, ids, p, c) {
      ghost var owned := response[p].containers[c].devices;
      ghost var x :| SplitInto(x, owned, resource) && multiset(x) == multiset(ids);
      OneSplit(x, owned, resource);
    }
    assert HoldsAt(response, resource, ids, p, c);
    r, at := Locate(hash, devices, ids, resource, resource, response);
    if r.Some? {
      OwnerIsUnique(response, resource, ids, p, c, at.0, at.1);
    }
  }

  /** An empty request is located in the first container without ids of the resource, which
      is why the request must not be empty. */
  lemma EmptyRequestMatches(resource: bytes, container: ContainerResources)
    requires forall i :: 0 <= i < |container.devices| ==> container.devices[i].resourceName != resource
    ensures Holds(container.devices, resource, [])
  {
    NothingListed(container.devices, resource);
  }

  lemma {:induction false} NothingListed(devices: seq<ContainerDevices>, resource: bytes)
    requires forall i :: 0 <= i < |devices| ==> devices[i].resourceName != resource
    ensures IdsOf(devices, resource) == []
  {
    if devices != [] {
      NothingListed(devices[..|devices| - 1], resource);
    }
  }
}
