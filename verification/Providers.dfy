/** The file provider of the device plugin, the node capacity the plugin publishes from it,
    and what the scheduler makes of that capacity. */
module Providers {
  import opened Options
  import opened Boards
  import opened Pods
  import opened DecimalMaps
  import opened NodeInfos
  import Strconv

  datatype OrinSoc = OrinSoc(id: int, name: string, ip: string)
  datatype Device = Device(id: int, orinSocs: seq<OrinSoc>)

  /** The file lists orin `o` under board `b`, once or more often. */
  ghost predicate Lists(devices: seq<Device>, b: int, o: int) {
    exists i, j :: 0 <= i < |devices| && 0 <= j < |devices[i].orinSocs| && ListsAt(devices, b, o, i, j)
  }

  ghost predicate ListsAt(devices: seq<Device>, b: int, o: int, i: int, j: int)
    requires 0 <= i < |devices| && 0 <= j < |devices[i].orinSocs|
  {
    devices[i].id == b && devices[i].orinSocs[j].id == o
  }

  /** The ids of the socs of a board's entry. */
  function SocIds(socs: seq<OrinSoc>): seq<int> {
    if socs == [] then [] else SocIds(socs[..|socs| - 1]) + [socs[|socs| - 1].id]
  }

  function BoardOrins(devices: seq<Device>, b: int): seq<int> {
    if devices == [] then []
    else
      var d := devices[|devices| - 1];
      BoardOrins(devices[..|devices| - 1], b) + if d.id == b then SocIds(d.orinSocs) else []
  }

  lemma {:induction false} SocIdsAt(socs: seq<OrinSoc>)
    ensures |SocIds(socs)| == |socs| && forall j :: 0 <= j < |socs| ==> SocIds(socs)[j] == socs[j].id
  {
    if socs != [] {
      SocIdsAt(socs[..|socs| - 1]);
    }
  }

  lemma {:induction false} BoardOrinsListed(devices: seq<Device>, b: int, o: int)
    ensures o in BoardOrins(devices, b) <==> Lists(devices, b, o)
  {
    if devices != [] {
      var n := |devices| - 1;
      var front, d := devices[..n], devices[n];
      BoardOrinsListed(front, b, o);
      SocIdsAt(d.orinSocs);
      if Lists(front, b, o) {
        var i, j :| 0 <= i < |front| && 0 <= j < |front[i].orinSocs| && ListsAt(front, b, o, i, j);
        assert ListsAt(devices, b, o, i, j);
      }
      if d.id == b && o in SocIds(d.orinSocs) {
        var j :| 0 <= j < |d.orinSocs| && SocIds(d.orinSocs)[j] == o;
        assert ListsAt(devices, b, o, n, j);
      }
      if Lists(devices, b, o) {
        var i, j :| 0 <= i < |devices| && 0 <= j < |devices[i].orinSocs| && ListsAt(devices, b, o, i, j);
        if i < n {
          assert ListsAt(front, b, o, i, j);
        } else {
          assert SocIds(d.orinSocs)[j] == o;
        }
      }
    }
  }

  method GetBoardOrins(devices: seq<Device>, boardID: int) returns (res: seq<int>)
    ensures res == BoardOrins(devices, boardID)
  {
    res := [];
    for i := 0 to |devices|
      invariant res == BoardOrins(devices[..i], boardID)
    {
      assert devices[..i + 1][..i] == devices[..i];
      if devices[i].id == boardID {
        var socs, before := devices[i].orinSocs, res;
        for j := 0 to |socs|
          invariant res == before + SocIds(socs[..j])
        {
          assert socs[..j + 1][..j] == socs[..j];
          res := res + [socs[j].id];
        }
        assert socs[..|socs|] == socs;
      }
    }
    assert devices[..|devices|] == devices;
  }

  method GetBoards(devices: seq<Device>) returns (res: seq<int>)
    ensures |res| == |devices| && forall i :: 0 <= i < |devices| ==> res[i] == devices[i].id
  {
    res := [];
    for i := 0 to |devices|
      invariant |res| == i && forall k :: 0 <= k < i ==> res[k] == devices[k].id
    {
      res := res + [devices[i].id];
    }
  }

  /** The boards of each orin: the exact inverse of the orins of each board, however often
      the file repeats a board or an orin. */
  method GetOrinClasses(devices: seq<Device>) returns (res: map<int, set<int>>)
    ensures forall b, o :: o in res && b in res[o] <==> Lists(devices, b, o)
    ensures forall b, o :: o in res && b in res[o] <==> o in BoardOrins(devices, b)
    ensures forall o :: o in res ==> exists b :: b in res[o]
  {
    res := map[];
    for i := 0 to |devices|
      invariant forall b, o :: o in res && b in res[o] <==> o in BoardOrins(devices[..i], b)
      invariant forall o :: o in res ==> exists b :: b in res[o]
    {
      var b := devices[i];
      ghost var before := res;
      assert devices[..i + 1][..i] == devices[..i];
      for j := 0 to |b.orinSocs|
        invariant forall o :: o in res <==> o in before || o in SocIds(b.orinSocs[..j])
        invariant forall o :: o in res ==>
                    res[o] == (if o in before then before[o] else {}) + if o in SocIds(b.orinSocs[..j]) then {b.id} else {}
      {
        assert b.orinSocs[..j + 1][..j] == b.orinSocs[..j];
        var soc := b.orinSocs[j];
        if soc.id !in res {
          res := res[soc.id := {b.id}];
        } else {
          res := res[soc.id := res[soc.id] + {b.id}];
        }
      }
      assert b.orinSocs[..|b.orinSocs|] == b.orinSocs;
      forall o | o in res ensures exists x :: x in res[o] {
        if o !in before { assert b.id in res[o]; }
      }
    }
    assert devices[..|devices|] == devices;
    forall b, o ensures o in res && b in res[o] <==> Lists(devices, b, o) {
      BoardOrinsListed(devices, b, o);
    }
  }

  function BoardResource(b: int): string {
    BOARD_PREFIX + Strconv.FormatInt(b)
  }

  function OrinIDs(devices: seq<Device>, b: int): set<int> {
    set o | o in BoardOrins(devices, b)
  }

  ghost predicate IsBoard(devices: seq<Device>, b: int) {
    exists d :: d in devices && d.id == b
  }

  /** The resources the plugin adds to its node's capacity: one entry a board, and a constant
      that is always large enough. */
  ghost predicate Published(devices: seq<Device>, extra: map<string, int>) {
    Covering(devices, extra, set d | d in devices :: d.id)
  }

  ghost predicate Covering(devices: seq<Device>, extra: map<string, int>, boards: set<int>) {
    && BOARD in extra && extra[BOARD] == 1024
    && (forall b :: b in boards ==>
          BoardResource(b) in extra && MayBuild(OrinIDs(devices, b), DEFAULT_ORIN_START_BIT, extra[BoardResource(b)]))
    && (forall name :: name in extra && name != BOARD ==> exists b :: b in boards && name == BoardResource(b))
  }

  /** `patchNodeExtraResource`, up to the call that sends the map. */
  method ExtraResource(devices: seq<Device>, huge: nat -> int) returns (extra: map<string, int>)
    ensures Published(devices, extra)
  {
    hide DecimalMaps.MayBuild, BoardResource;
    extra := map[BOARD := 1024];
    var boards := GetBoards(devices);
    ghost var done: set<int> := {};
    for i := 0 to |boards|
      invariant Covering(devices, extra, done)
      invariant done == set k | 0 <= k < i :: boards[k]
    {
      var bid := boards[i];
      var resourceQ := BoardQuantity(devices, bid, huge);
      OneMoreResource(devices, extra, done, bid, resourceQ);
      extra := extra[BoardResource(bid) := resourceQ];
      done := done + {bid};
    }
    AllBoards(devices, boards);
  }

  lemma AllBoards(devices: seq<Device>, boards: seq<int>)
    requires |boards| == |devices| && forall i :: 0 <= i < |devices| ==> boards[i] == devices[i].id
    ensures (set k | 0 <= k < |boards| :: boards[k]) == set d | d in devices :: d.id
  {
    assert forall k :: 0 <= k < |boards| ==> devices[k] in devices && devices[k].id == boards[k];
  }

  /** The topology of one board as a quantity. */
  method BoardQuantity(devices: seq<Device>, bid: int, huge: nat -> int) returns (resourceQ: int)
    ensures MayBuild(OrinIDs(devices, bid), DEFAULT_ORIN_START_BIT, resourceQ)
  {
    var orinIDs := GetBoardOrins(devices, bid);
    resourceQ := BuildDecimalMap((set o | o in orinIDs), DEFAULT_ORIN_START_BIT, huge);
  }

  lemma OneMoreResource(devices: seq<Device>, extra: map<string, int>, boards: set<int>, b: int, q: int)
    requires Covering(devices, extra, boards) && MayBuild(OrinIDs(devices, b), DEFAULT_ORIN_START_BIT, q)
    ensures Covering(devices, extra[BoardResource(b) := q], boards + {b})
  {
    assert |BoardResource(b)| > |BOARD|;
    forall c | c in boards && BoardResource(c) == BoardResource(b) ensures c == b {
      SameResource(c, b);
    }
    forall name | name in extra && name != BOARD ensures exists c :: c in boards + {b} && name == BoardResource(c) {
      var c :| c in boards && name == BoardResource(c);
      assert c in boards + {b};
    }
    assert b in boards + {b};
  }

  lemma SameResource(b: int, c: int)
    requires BoardResource(b) == BoardResource(c)
    ensures b == c
  {
    assert BoardResource(b)[|BOARD_PREFIX|..] == Strconv.FormatInt(b);
    assert BoardResource(c)[|BOARD_PREFIX|..] == Strconv.FormatInt(c);
    Strconv.FormatIntInjective(b, c);
  }

  lemma BoardResourceParses(b: int)
    requires Strconv.IsInt64(b)
    ensures Strconv.HasPrefix(BoardResource(b), BOARD_PREFIX) && BoardIDFromResourceName(BoardResource(b)) == Some(b)
  {
    assert BoardResource(b)[|BOARD_PREFIX|..] == Strconv.FormatInt(b);
    Strconv.ParseFormat(b);
  }

  /** Some other capacity entry of the node describes board `b`, or gives it orin `o`. */
  ghost predicate StrayBoard(node: NodeObject, extra: map<string, int>, b: int) {
    exists name :: name in node.capacity && name !in extra && IsEntryOf(node, name, b)
  }

  ghost predicate StrayOrin(node: NodeObject, extra: map<string, int>, b: int, o: int) {
    exists name :: name in node.capacity && name !in extra && o in Given(Entries(node.capacity), name, b)
  }

  ghost predicate IsEntryOf(node: NodeObject, name: string, b: int) {
    name in node.capacity && EntryOf(name, node.capacity[name]).BoardEntry? && EntryOf(name, node.capacity[name]).board == b
  }

  /** The node's capacity contains what the plugin published, board numbers being 64-bit. */
  ghost predicate Carries(node: NodeObject, devices: seq<Device>, extra: map<string, int>) {
    && Published(devices, extra)
    && (forall b :: IsBoard(devices, b) ==> Strconv.IsInt64(b))
    && forall name :: name in extra ==> name in node.capacity && node.capacity[name] == extra[name]
  }

  /** End to end: on a node that carries the plugin's resources, the scheduler's total for a
      board whose orin ids are at most 19 is exactly what the file says, except that ids below
      1 are lost, and what other capacity entries of the node add to that board. */
  lemma TotalIsFile(devices: seq<Device>, extra: map<string, int>, node: NodeObject, b: int)
    requires Carries(node, devices, extra) && InRange(OrinIDs(devices, b), DEFAULT_ORIN_START_BIT)
    ensures b in Capacity(node) <==> IsBoard(devices, b) || StrayBoard(node, extra, b)
    ensures forall o :: o in At(Capacity(node), b) <==> (Lists(devices, b, o) && o >= 1) || StrayOrin(node, extra, b, o)
  {
    BoardInTotal(devices, extra, node, b);
    forall o ensures o in At(Capacity(node), b) <==> (Lists(devices, b, o) && o >= 1) || StrayOrin(node, extra, b, o) {
      OrinInTotal(devices, extra, node, b, o);
    }
  }

  /** Without other entries for the board it is the file alone. */
  lemma TotalIsFileAlone(devices: seq<Device>, extra: map<string, int>, node: NodeObject, b: int)
    requires Carries(node, devices, extra) && InRange(OrinIDs(devices, b), DEFAULT_ORIN_START_BIT)
    requires !StrayBoard(node, extra, b)
    ensures b in Capacity(node) <==> IsBoard(devices, b)
    ensures forall o :: o in At(Capacity(node), b) <==> Lists(devices, b, o) && o >= 1
  {
    TotalIsFile(devices, extra, node, b);
    forall o ensures StrayOrin(node, extra, b, o) ==> StrayBoard(node, extra, b) {
      StrayOrinOnBoard(node, extra, b, o);
    }
  }

  lemma StrayOrinOnBoard(node: NodeObject, extra: map<string, int>, b: int, o: int)
    ensures StrayOrin(node, extra, b, o) ==> StrayBoard(node, extra, b)
  {
    if name :| name in node.capacity && name !in extra && o in Given(Entries(node.capacity), name, b) {
      assert IsEntryOf(node, name, b);
    }
  }

  /** The published entry of a board in the file reads back as that board with its ids. */
  lemma PublishedEntry(devices: seq<Device>, extra: map<string, int>, node: NodeObject, b: int)
    requires Carries(node, devices, extra) && InRange(OrinIDs(devices, b), DEFAULT_ORIN_START_BIT) && IsBoard(devices, b)
    ensures var name := BoardResource(b);
            && name in extra && name in node.capacity && node.capacity[name] == extra[name]
            && EntryOf(name, extra[name]) == BoardEntry(b, set o | o in OrinIDs(devices, b) && 1 <= o)
  {
    BoardResourceParses(b);
    ParseOfBuild(OrinIDs(devices, b), DEFAULT_ORIN_START_BIT);
  }

  lemma BoardInTotal(devices: seq<Device>, extra: map<string, int>, node: NodeObject, b: int)
    requires Carries(node, devices, extra) && InRange(OrinIDs(devices, b), DEFAULT_ORIN_START_BIT)
    ensures b in Capacity(node) <==> IsBoard(devices, b) || StrayBoard(node, extra, b)
  {
    var entries, names := Entries(node.capacity), node.capacity.Keys;
    if IsBoard(devices, b) {
      PublishedEntry(devices, extra, node, b);
      assert BoardResource(b) in names && entries[BoardResource(b)].board == b;
    }
    if b in BoardsOf(entries, names) {
      var name :| name in names && name in entries && entries[name].BoardEntry? && entries[name].board == b;
      if name in extra {
        BoardPrefixOnly(devices, extra, name, node.capacity[name]);
      } else {
        assert IsEntryOf(node, name, b);
      }
    }
  }

  lemma OrinInTotal(devices: seq<Device>, extra: map<string, int>, node: NodeObject, b: int, o: int)
    requires Carries(node, devices, extra) && InRange(OrinIDs(devices, b), DEFAULT_ORIN_START_BIT)
    ensures o in At(Capacity(node), b) <==> (Lists(devices, b, o) && o >= 1) || StrayOrin(node, extra, b, o)
  {
    var entries, names := Entries(node.capacity), node.capacity.Keys;
    BoardOrinsListed(devices, b, o);
    OrinsAt(entries, names, b);
    if Lists(devices, b, o) && o >= 1 {
      ListedIsBoard(devices, b, o);
      PublishedEntry(devices, extra, node, b);
      assert o in Given(entries, BoardResource(b), b);
    }
    if o in OrinsOf(entries, names, b) {
      var name :| name in names && o in Given(entries, name, b);
      if name in extra {
        BoardPrefixOnly(devices, extra, name, node.capacity[name]);
        PublishedEntry(devices, extra, node, b);
      }
    }
  }

  lemma OrinsAt(entries: map<string, Entry>, names: set<string>, b: int)
    ensures At(TotalOf(entries, names), b) == OrinsOf(entries, names, b)
  {
    if b !in BoardsOf(entries, names) {
      assert OrinsOf(entries, names, b) == {};
    }
  }

  lemma ListedIsBoard(devices: seq<Device>, b: int, o: int)
    requires Lists(devices, b, o)
    ensures IsBoard(devices, b)
  {
    var i, j :| 0 <= i < |devices| && 0 <= j < |devices[i].orinSocs| && ListsAt(devices, b, o, i, j);
    assert devices[i] in devices;
  }

  lemma BoardPrefixOnly(devices: seq<Device>, extra: map<string, int>, name: string, value: int)
    requires Published(devices, extra) && EntryOf(name, value).BoardEntry? && name in extra
    requires forall b :: IsBoard(devices, b) ==> Strconv.IsInt64(b)
    ensures IsBoard(devices, EntryOf(name, value).board) && name == BoardResource(EntryOf(name, value).board)
  {
    assert name != BOARD by { assert |BOARD_PREFIX| > |BOARD|; }
    var b :| IsBoard(devices, b) && name == BoardResource(b);
    BoardResourceParses(b);
  }

  /** What is published for a file with one board, -1, that holds orin 1. */
  lemma BoardMinusOne() returns (devices: seq<Device>, extra: map<string, int>)
    ensures devices == [Device(-1, [OrinSoc(1, "", "")])] && Published(devices, extra)
    ensures extra == map[BOARD := 1024, BoardResource(-1) := Decimal(OrinIDs(devices, -1), DEFAULT_ORIN_START_BIT)]
  {
    devices := [Device(-1, [OrinSoc(1, "", "")])];
    extra := map[BOARD := 1024, BoardResource(-1) := Decimal(OrinIDs(devices, -1), DEFAULT_ORIN_START_BIT)];
    assert |BoardResource(-1)| > |BOARD|;
    DecimalIsInt64(OrinIDs(devices, -1), DEFAULT_ORIN_START_BIT);
    assert devices[0] in devices;
  }

  lemma TotalOfMinusOne(devices: seq<Device>, extra: map<string, int>, node: NodeObject)
    requires devices == [Device(-1, [OrinSoc(1, "", "")])] && Published(devices, extra) && node.capacity == extra
    ensures Capacity(node) == map[-1 := {1}]
  {
    assert IsBoard(devices, -1) && ListsAt(devices, -1, 1, 0, 0) by { assert devices[0] in devices; }
    forall b ensures b in Capacity(node) <==> b == -1
      ensures forall o :: o in At(Capacity(node), b) <==> b == -1 && o == 1
    {
      OnlyOrin(devices, b);
      TotalIsFileAlone(devices, extra, node, b);
    }
    OneBoard(Capacity(node), -1, {1});
  }

  lemma OneBoard(m: Boards, b: int, orins: set<int>)
    requires m.Keys == {b} && At(m, b) == orins
    ensures m == map[b := orins]
  {
  }

  lemma OnlyOrin(devices: seq<Device>, b: int)
    requires devices == [Device(-1, [OrinSoc(1, "", "")])]
    ensures InRange(OrinIDs(devices, b), DEFAULT_ORIN_START_BIT)
    ensures forall o :: Lists(devices, b, o) ==> b == -1 && o == 1
  {
    forall o | o in BoardOrins(devices, b) ensures o == 1 {
      BoardOrinsListed(devices, b, o);
      var i, j :| 0 <= i < |devices| && 0 <= j < |devices[i].orinSocs| && ListsAt(devices, b, o, i, j);
    }
  }
}
