/** Packets and the queue of one stream. */
module PacketQueue {
  import opened MediaTime

  datatype Packet = Packet(stream: nat, pts: int, dts: int, duration: int, key: bool, size: nat)

  function PtsOrDts(p: Packet): int {
    if p.pts != NOPTS then p.pts else p.dts
  }

  function TotalSize(list: seq<Packet>): (r: nat)
    ensures list == [] ==> r == 0
  {
    if list == [] then 0 else TotalSize(list[..|list| - 1]) + list[|list| - 1].size
  }

  function KeyCount(list: seq<Packet>): (r: nat)
    ensures r <= |list|
  {
    if list == [] then 0 else KeyCount(list[..|list| - 1]) + if list[|list| - 1].key then 1 else 0
  }

  lemma {:induction false} TotalsOfFirst(p: Packet, list: seq<Packet>)
    ensures TotalSize([p] + list) == p.size + TotalSize(list)
    ensures KeyCount([p] + list) == (if p.key then 1 else 0) + KeyCount(list)
  {
    var all := [p] + list;
    if list != [] {
      var n := |list| - 1;
      TotalsOfFirst(p, list[..n]);
      assert all[..|all| - 1] == [p] + list[..n];
    } else {
      assert all == [p] && all[..0] == [];
    }
  }

  lemma TotalsOfLast(list: seq<Packet>, p: Packet)
    ensures TotalSize(list + [p]) == TotalSize(list) + p.size
    ensures KeyCount(list + [p]) == KeyCount(list) + if p.key then 1 else 0
  {
    assert (list + [p])[..|list|] == list;
  }

  const MAX_PACKETS := 999999
  const MAX_SIZE := 50 * 1000000

  /** What a queue stands for. */
  datatype Queue = Queue(enabled: bool, canBeEmpty: bool, list: seq<Packet>)

  function IsFull(list: seq<Packet>): bool {
    |list| > MAX_PACKETS || TotalSize(list) > MAX_SIZE
  }

  /** The stamp of the first packet that has one; none if the packets are empty. */
  ghost predicate IsPosition(list: seq<Packet>, pos: int) {
    if TotalSize(list) > 0 && exists i :: Stamped(list, i) then
      exists i :: Stamped(list, i) && pos == PtsOrDts(list[i]) && forall k :: 0 <= k < i ==> !Stamped(list, k)
    else pos == NOPTS
  }

  predicate Stamped(list: seq<Packet>, i: int) {
    0 <= i < |list| && PtsOrDts(list[i]) != NOPTS
  }

  lemma PositionIsUnique(list: seq<Packet>, p: int, q: int)
    requires IsPosition(list, p) && IsPosition(list, q)
    ensures p == q
  {
    if TotalSize(list) > 0 && exists i :: Stamped(list, i) {
      var i :| Stamped(list, i) && p == PtsOrDts(list[i]) && forall k :: 0 <= k < i ==> !Stamped(list, k);
      var j :| Stamped(list, j) && q == PtsOrDts(list[j]) && forall k :: 0 <= k < j ==> !Stamped(list, k);
      assert i == j;
    }
  }

  /** The position of a list. */
  ghost function StartOf(list: seq<Packet>): (pos: int)
    ensures IsPosition(list, pos)
  {
    PositionExists(list, 0);
    var pos :| IsPosition(list, pos);
    pos
  }

  lemma {:induction false} PositionExists(list: seq<Packet>, i: nat)
    requires i <= |list| && forall k :: 0 <= k < i ==> !Stamped(list, k)
    ensures exists pos :: IsPosition(list, pos)
    decreases |list| - i
  {
    if TotalSize(list) > 0 && exists k :: Stamped(list, k) {
      if Stamped(list, i) {
        assert IsPosition(list, PtsOrDts(list[i]));
      } else {
        PositionExists(list, i + 1);
      }
    } else {
      assert IsPosition(list, NOPTS);
    }
  }

  class PacketQueue {
    var enabled: bool
    const canBeEmpty: bool
    var keyCount: int
    var currentSize: int
    var list: seq<Packet>

    /** The counters are those of the list. */
    ghost predicate Valid()
      reads this
    {
      keyCount == KeyCount(list) && currentSize == TotalSize(list)
    }

    ghost function Value(): Queue
      reads this
    {
      Queue(enabled, canBeEmpty, list)
    }

    constructor (audioOrVideo: bool)
      ensures Valid() && Value() == Queue(true, !audioOrVideo, [])
    {
      enabled, canBeEmpty, keyCount, currentSize, list := true, !audioOrVideo, 0, 0, [];
    }

    method Push(packet: Packet)
      requires Valid()
      modifies this
      ensures Valid() && Value() == old(Value()).(list := old(list) + [packet])
    {
      TotalsOfLast(list, packet);
      list := list + [packet];
      currentSize := currentSize + packet.size;
      keyCount := keyCount + if packet.key then 1 else 0;
    }

    method Pop() returns (packet: Packet)
      requires Valid() && list != []
      modifies this
      ensures Valid() && Value() == old(Value()).(list := old(list)[1..]) && packet == old(list)[0]
    {
      packet := list[0];
      TotalsOfFirst(packet, list[1..]);
      assert list == [packet] + list[1..];
      currentSize := currentSize - packet.size;
      keyCount := keyCount - if packet.key then 1 else 0;
      list := list[1..];
    }

    method Reset()
      modifies this
      ensures Valid() && Value() == old(Value()).(list := [])
    {
      list, currentSize, keyCount := [], 0, 0;
    }

    method SetEnabled(value: bool)
      requires Valid()
      modifies this
      ensures Valid()
      ensures Value() == Queue(value, canBeEmpty, if value then old(list) else [])
    {
      enabled := value;
      if !enabled {
        Reset();
      }
    }

    method Position() returns (pos: int)
      requires Valid()
      ensures IsPosition(list, pos)
    {
      if currentSize <= 0 {
        return NOPTS;
      }
      for i := 0 to |list|
        invariant forall k :: 0 <= k < i ==> !Stamped(list, k)
      {
        var p := PtsOrDts(list[i]);
        if p != NOPTS {
          assert Stamped(list, i);
          return p;
        }
      }
      return NOPTS;
    }

    method Full() returns (full: bool)
      requires Valid()
      ensures full == IsFull(list)
      ensures full <==> |list| > 999999 || TotalSize(list) > 50000000
    {
      return |list| > MAX_PACKETS || currentSize > MAX_SIZE;
    }
  }
}
