/** What reading a stretch of a file does to the queue of one stream. */
module PacketFeed {
  import opened MediaTime
  import opened Options
  import opened PacketQueue

  /** A key packet stamped at or before the seek time makes everything queued before it needless. */
  predicate Drops(p: Packet, seekTime: int) {
    && p.key
    && if p.pts != NOPTS then p.pts <= seekTime && p.duration > 0
       else p.dts != NOPTS && p.dts <= seekTime && p.duration > 0
  }

  function Accepted(q: Queue, p: Packet, seekTime: int): Queue {
    q.(list := if !q.enabled then [] else if Drops(p, seekTime) then [p] else q.list + [p])
  }

  function Fed(q: Queue, ps: seq<Packet>, i: nat, seekTime: int): (r: Queue)
    ensures r.enabled == q.enabled && r.canBeEmpty == q.canBeEmpty
  {
    if ps == [] then q
    else
      var p := ps[|ps| - 1];
      var r := Fed(q, ps[..|ps| - 1], i, seekTime);
      if p.stream == i then Accepted(r, p, seekTime) else r
  }

  function OfStream(ps: seq<Packet>, i: nat): seq<Packet> {
    if ps == [] then []
    else OfStream(ps[..|ps| - 1], i) + if ps[|ps| - 1].stream == i then [ps[|ps| - 1]] else []
  }

  lemma FedLast(q: Queue, ps: seq<Packet>, p: Packet, i: nat, seekTime: int)
    ensures Fed(q, ps + [p], i, seekTime) ==
            if p.stream == i then Accepted(Fed(q, ps, i, seekTime), p, seekTime) else Fed(q, ps, i, seekTime)
  {
    assert (ps + [p])[..|ps|] == ps;
  }

  lemma {:induction false} FedJoins(q: Queue, a: seq<Packet>, b: seq<Packet>, i: nat, seekTime: int)
    ensures Fed(Fed(q, a, i, seekTime), b, i, seekTime) == Fed(q, a + b, i, seekTime)
  {
    if b != [] {
      var n := |b| - 1;
      FedJoins(q, a, b[..n], i, seekTime);
      FedLast(q, a + b[..n], b[n], i, seekTime);
      assert a + b == a + b[..n] + [b[n]];
    } else {
      assert a + b == a;
    }
  }

  lemma {:induction false} OfStreamJoins(a: seq<Packet>, b: seq<Packet>, i: nat)
    ensures OfStream(a + b, i) == OfStream(a, i) + OfStream(b, i)
  {
    if b != [] {
      var n := |b| - 1;
      OfStreamJoins(a, b[..n], i);
      assert (a + b)[..|a + b| - 1] == a + b[..n];
    } else {
      assert a + b == a;
    }
  }

  /** Reading keeps a contiguous rest of what was queued and read. If anything was dropped, then
      up to a key packet that was read now and is stamped at or before the seek time. */
  lemma {:induction false} FedKeepsRest(q: Queue, ps: seq<Packet>, i: nat, seekTime: int) returns (d: nat)
    requires q.enabled
    ensures var all := q.list + OfStream(ps, i);
      && d <= |all| && Fed(q, ps, i, seekTime).list == all[d..]
      && (d > 0 ==> |q.list| <= d < |all| && Drops(all[d], seekTime))
  {
    var all := q.list + OfStream(ps, i);
    if ps == [] {
      d := 0;
    } else {
      var n := |ps| - 1;
      d := FedKeepsRest(q, ps[..n], i, seekTime);
      var before := q.list + OfStream(ps[..n], i);
      if ps[n].stream == i {
        assert all == before + [ps[n]];
        if Drops(ps[n], seekTime) {
          d := |before|;
        }
      }
    }
  }

  /** Nothing but such a key packet empties a queue. */
  lemma {:induction false} FedKeepsWithoutKey(q: Queue, ps: seq<Packet>, i: nat, seekTime: int)
    requires q.enabled && forall k :: 0 <= k < |ps| && ps[k].stream == i ==> !Drops(ps[k], seekTime)
    ensures Fed(q, ps, i, seekTime).list == q.list + OfStream(ps, i)
  {
    if ps != [] {
      FedKeepsWithoutKey(q, ps[..|ps| - 1], i, seekTime);
    }
  }

  // ---------------------------------------------------------------- the latest key packet at or before the seek time

  /** A key packet of positive duration with a stamp at or before the time: its pts, or its dts if it has no pts. */
  ghost predicate KeyBy(p: Packet, time: int) {
    && p.key && p.duration > 0
    && (p.pts != NOPTS ==> p.pts <= time)
    && (p.pts == NOPTS ==> p.dts != NOPTS && p.dts <= time)
  }

  ghost predicate NoneKeyBy(list: seq<Packet>, from: int, time: int) {
    forall j :: 0 <= j < |list| && j >= from ==> !KeyBy(list[j], time)
  }

  /** Once such a packet was read the queue holds exactly what its stream got from the last one on. */
  lemma {:induction false} FedFromLastKey(q: Queue, ps: seq<Packet>, i: nat, seekTime: int, k: int)
    requires q.enabled && 0 <= k < |OfStream(ps, i)|
    requires KeyBy(OfStream(ps, i)[k], seekTime) && NoneKeyBy(OfStream(ps, i), k + 1, seekTime)
    ensures Fed(q, ps, i, seekTime).list == OfStream(ps, i)[k..]
  {
    var n := |ps| - 1;
    var before, sent := OfStream(ps[..n], i), OfStream(ps, i);
    if ps[n].stream != i {
      assert sent == before;
      FedFromLastKey(q, ps[..n], i, seekTime, k);
    } else if k < |before| {
      assert NoneKeyBy(before, k + 1, seekTime) by {
        assert forall j :: 0 <= j < |before| ==> before[j] == sent[j];
      }
      assert !KeyBy(sent[|before|], seekTime);
      FedFromLastKey(q, ps[..n], i, seekTime, k);
      assert sent[k..] == before[k..] + [ps[n]];
    } else {
      assert sent[k..] == [ps[n]];
    }
  }

  /** `list` is what `sent` has from place `d` on: from the last such key packet, or all of it if there is none. */
  ghost predicate StartsAt(list: seq<Packet>, sent: seq<Packet>, d: int, time: int) {
    && 0 <= d <= |sent| && list == sent[d..] && NoneKeyBy(sent, d + 1, time)
    && (d > 0 ==> d < |sent| && KeyBy(sent[d], time))
  }

  /** Behind the first packet of a queue that starts so there is none. */
  lemma NoneBehindFirst(list: seq<Packet>, sent: seq<Packet>, d: int, time: int)
    requires StartsAt(list, sent, d, time)
    ensures NoneKeyBy(list, 1, time)
  {
    forall j | 1 <= j < |list|
      ensures !KeyBy(list[j], time)
    {
      assert list[j] == sent[d + j];
    }
  }

  /** One more packet of the stream. */
  lemma AcceptedStartsAt(q: Queue, sent: seq<Packet>, d: int, p: Packet, time: int) returns (d': int)
    requires q.enabled && StartsAt(q.list, sent, d, time)
    ensures StartsAt(Accepted(q, p, time).list, sent + [p], d', time)
  {
    var all := sent + [p];
    d' := if KeyBy(p, time) then |sent| else d;
    forall j | d' + 1 <= j < |all|
      ensures !KeyBy(all[j], time)
    {
      assert j < |sent| ==> all[j] == sent[j];
    }
  }

  lemma AllFromStart(list: seq<Packet>, time: int)
    requires NoneKeyBy(list, 1, time)
    ensures StartsAt(list, list + [], 0, time)
  {
    assert list + [] == list;
  }

  /** Feeding keeps it so. */
  lemma {:induction false} FedStartsAtKey(q: Queue, ps: seq<Packet>, i: nat, seekTime: int) returns (d: int)
    requires q.enabled && NoneKeyBy(q.list, 1, seekTime)
    ensures StartsAt(Fed(q, ps, i, seekTime).list, q.list + OfStream(ps, i), d, seekTime)
  {
    if ps == [] {
      d := 0;
      AllFromStart(q.list, seekTime);
    } else {
      var n := |ps| - 1;
      var before := q.list + OfStream(ps[..n], i);
      d := FedStartsAtKey(q, ps[..n], i, seekTime);
      if ps[n].stream == i {
        assert q.list + OfStream(ps, i) == before + [ps[n]];
        d := AcceptedStartsAt(Fed(q, ps[..n], i, seekTime), before, d, ps[n], seekTime);
      }
    }
  }

  ghost predicate IsRest(list: seq<Packet>, sent: seq<Packet>) {
    |list| <= |sent| && list == sent[|sent| - |list|..]
  }

  /** The queue is a contiguous rest of what the file gave to its stream; empty if disabled. */
  ghost predicate Agrees(q: Queue, sent: seq<Packet>) {
    IsRest(q.list, sent) && (!q.enabled ==> q.list == [])
  }

  lemma {:induction false} FedAgrees(q: Queue, sent: seq<Packet>, ps: seq<Packet>, i: nat, seekTime: int)
    requires Agrees(q, sent)
    ensures Agrees(Fed(q, ps, i, seekTime), sent + OfStream(ps, i))
  {
    if ps != [] {
      var n := |ps| - 1;
      FedAgrees(q, sent, ps[..n], i, seekTime);
      assert sent + OfStream(ps, i) == sent + OfStream(ps[..n], i) + if ps[n].stream == i then [ps[n]] else [];
      if ps[n].stream == i {
        AcceptedAgrees(Fed(q, ps[..n], i, seekTime), sent + OfStream(ps[..n], i), ps[n], seekTime);
      }
    } else {
      assert sent + [] == sent;
    }
  }

  lemma AcceptedAgrees(q: Queue, sent: seq<Packet>, p: Packet, seekTime: int)
    requires Agrees(q, sent)
    ensures Agrees(Accepted(q, p, seekTime), sent + [p])
  {
    assert q.list + [p] == (sent + [p])[|sent + [p]| - |q.list + [p]|..];
  }

  lemma EmptyAgrees(q: Queue, sent: seq<Packet>)
    requires q.list == []
    ensures Agrees(q, sent)
  {
  }

  /** Taking the first packet leaves a rest; the packet is the one that comes next. */
  lemma PopAgrees(q: Queue, sent: seq<Packet>)
    requires Agrees(q, sent) && q.list != []
    ensures Agrees(q.(list := q.list[1..]), sent) && q.list[0] == sent[|sent| - |q.list|]
  {
  }

  /** How many of the packets sent to the stream are no longer queued: read or dropped. */
  function Head(q: Queue, sent: seq<Packet>): int {
    |sent| - |q.list|
  }

  /** A read never goes back: the packet it finds is the one at the new head, and packets are skipped
      only if that one is a key packet read now and stamped at or before the seek time. */
  lemma ReadGoesForward(q: Queue, sent: seq<Packet>, ps: seq<Packet>, i: nat, seekTime: int)
    requires Agrees(q, sent) && q.enabled
    ensures var fed, sent' := Fed(q, ps, i, seekTime), sent + OfStream(ps, i);
      var head, head' := Head(q, sent), Head(fed, sent');
      && head <= head' && Agrees(fed, sent')
      && (fed.list != [] ==> fed.list[0] == sent'[head'])
      && (head < head' ==> |sent| <= head' < |sent'| && Drops(sent'[head'], seekTime))
  {
    FedAgrees(q, sent, ps, i, seekTime);
    var d := FedKeepsRest(q, ps, i, seekTime);
    var all := q.list + OfStream(ps, i);
    var sent' := sent + OfStream(ps, i);
    assert all == sent'[Head(q, sent)..];
  }

  // ---------------------------------------------------------------- all queues at once

  ghost predicate FedAt(before: seq<Queue>, after: seq<Queue>, ps: seq<Packet>, seekTime: int, i: nat) {
    i < |before| == |after| && after[i] == Fed(before[i], ps, i, seekTime)
  }

  /** Every queue has been fed the stretch `ps`. */
  ghost predicate AllFed(before: seq<Queue>, after: seq<Queue>, ps: seq<Packet>, seekTime: int) {
    && |after| == |before|
    && forall i: nat {:trigger FedAt(before, after, ps, seekTime, i)} :: i < |after| ==>
         FedAt(before, after, ps, seekTime, i)
  }

  lemma AllFedLast(before: seq<Queue>, mid: seq<Queue>, ps: seq<Packet>, p: Packet, seekTime: int)
    requires AllFed(before, mid, ps, seekTime) && p.stream < |mid|
    ensures AllFed(before, mid[p.stream := Accepted(mid[p.stream], p, seekTime)], ps + [p], seekTime)
  {
    var after := mid[p.stream := Accepted(mid[p.stream], p, seekTime)];
    forall i: nat | i < |after|
      ensures FedAt(before, after, ps + [p], seekTime, i)
    {
      FedLast(before[i], ps, p, i, seekTime);
      assert FedAt(before, mid, ps, seekTime, i);
    }
  }

  lemma AllFedJoins(before: seq<Queue>, mid: seq<Queue>, after: seq<Queue>, a: seq<Packet>, b: seq<Packet>,
                    seekTime: int)
    requires AllFed(before, mid, a, seekTime) && AllFed(mid, after, b, seekTime)
    ensures AllFed(before, after, a + b, seekTime)
  {
    forall i: nat | i < |after|
      ensures FedAt(before, after, a + b, seekTime, i)
    {
      FedJoins(before[i], a, b, i, seekTime);
      assert FedAt(before, mid, a, seekTime, i) && FedAt(mid, after, b, seekTime, i);
    }
  }

  ghost predicate AgreesAt(qs: seq<Queue>, read: seq<Packet>, i: nat) {
    i < |qs| && Agrees(qs[i], OfStream(read, i))
  }

  /** Every queue agrees with the stretch that was read. */
  ghost predicate AllAgree(qs: seq<Queue>, read: seq<Packet>) {
    forall i: nat {:trigger AgreesAt(qs, read, i)} :: i < |qs| ==> AgreesAt(qs, read, i)
  }

  lemma FedNothing(qs: seq<Queue>, ps: seq<Packet>, seekTime: int)
    requires ps == []
    ensures AllFed(qs, qs, ps, seekTime)
  {
  }

  lemma AllAgreeWhenEmpty(qs: seq<Queue>, read: seq<Packet>)
    requires forall i {:trigger qs[i]} :: 0 <= i < |qs| ==> qs[i].list == []
    ensures AllAgree(qs, read)
  {
  }

  lemma AllAgreeUpdate(qs: seq<Queue>, read: seq<Packet>, i: nat, q: Queue)
    requires AllAgree(qs, read) && i < |qs| && Agrees(q, OfStream(read, i))
    ensures AllAgree(qs[i := q], read)
  {
    var updated := qs[i := q];
    forall k: nat | k < |qs|
      ensures AgreesAt(updated, read, k)
    {
      assert AgreesAt(qs, read, k);
    }
  }

  lemma AllFedAgree(before: seq<Queue>, after: seq<Queue>, read: seq<Packet>, ps: seq<Packet>, seekTime: int)
    requires AllAgree(before, read) && AllFed(before, after, ps, seekTime)
    ensures AllAgree(after, read + ps)
  {
    forall i: nat | i < |after|
      ensures AgreesAt(after, read + ps, i)
    {
      assert AgreesAt(before, read, i) && FedAt(before, after, ps, seekTime, i);
      FedAgrees(before[i], OfStream(read, i), ps, i, seekTime);
      OfStreamJoins(read, ps, i);
    }
  }

  /** A read feeds all queues and takes the first packet of one of them. */
  ghost predicate Gives(before: seq<Queue>, after: seq<Queue>, stream: nat, ps: seq<Packet>, seekTime: int,
                        packet: Option<Packet>)
  {
    exists fed: seq<Queue> {:trigger AllFed(before, fed, ps, seekTime)} ::
      && AllFed(before, fed, ps, seekTime) && stream < |fed|
      && if fed[stream].list == [] then packet == None && after == fed
         else packet == Some(fed[stream].list[0]) && after == fed[stream := fed[stream].(list := fed[stream].list[1..])]
  }

  lemma {:induction false} FedBound(q: Queue, ps: seq<Packet>, i: nat, seekTime: int)
    ensures |Fed(q, ps, i, seekTime).list| <= |q.list| + |ps|
  {
    if ps != [] {
      FedBound(q, ps[..|ps| - 1], i, seekTime);
    }
  }

  /** A packet read leaves fewer packets to read. */
  lemma GivesLess(before: seq<Queue>, after: seq<Queue>, stream: nat, ps: seq<Packet>, seekTime: int,
                  packet: Option<Packet>)
    requires Gives(before, after, stream, ps, seekTime, packet) && packet.Some?
    ensures stream < |before| == |after| && |after[stream].list| < |before[stream].list| + |ps|
  {
    var fed: seq<Queue> :|
      && AllFed(before, fed, ps, seekTime) && stream < |fed| && fed[stream].list != []
      && after == fed[stream := fed[stream].(list := fed[stream].list[1..])];
    FedBound(before[stream], ps, stream, seekTime);
    assert FedAt(before, fed, ps, seekTime, stream);
  }

  // ---------------------------------------------------------------- the first read after a seek

  /** Nothing was taken from the queue since it was empty and `read` began. */
  ghost predicate Unread(q: Queue, read: seq<Packet>, i: nat, time: int) {
    q == Fed(q.(list := []), read, i, time)
  }

  ghost predicate UnreadAt(qs: seq<Queue>, read: seq<Packet>, time: int, i: nat) {
    i < |qs| && Unread(qs[i], read, i, time)
  }

  ghost predicate AllUnread(qs: seq<Queue>, read: seq<Packet>, time: int) {
    forall i: nat {:trigger UnreadAt(qs, read, time, i)} :: i < |qs| ==> UnreadAt(qs, read, time, i)
  }

  lemma EmptyIsUnread(qs: seq<Queue>, read: seq<Packet>, time: int)
    requires read == [] && forall i {:trigger qs[i]} :: 0 <= i < |qs| ==> qs[i].list == []
    ensures AllUnread(qs, read, time)
  {
  }

  lemma UnreadFed(before: seq<Queue>, after: seq<Queue>, read: seq<Packet>, ps: seq<Packet>, time: int, i: nat)
    requires i < |before| == |after| && UnreadAt(before, read, time, i) && FedAt(before, after, ps, time, i)
    ensures UnreadAt(after, read + ps, time, i)
  {
    FedJoins(before[i].(list := []), read, ps, i, time);
  }

  lemma AllUnreadFed(before: seq<Queue>, after: seq<Queue>, read: seq<Packet>, ps: seq<Packet>, time: int)
    requires AllUnread(before, read, time) && AllFed(before, after, ps, time)
    ensures AllUnread(after, read + ps, time)
  {
    forall i: nat | i < |after|
      ensures UnreadAt(after, read + ps, time, i)
    {
      assert UnreadAt(before, read, time, i) && FedAt(before, after, ps, time, i);
      UnreadFed(before, after, read, ps, time, i);
    }
  }

  /** Of all that was sent to the stream `p` is the last key packet at or before the time, or else the first packet. */
  ghost predicate ComesFirst(p: Packet, sent: seq<Packet>, time: int) {
    exists d :: 0 <= d < |sent| && sent[d] == p && NoneKeyBy(sent, d + 1, time) && (d > 0 ==> KeyBy(p, time))
  }

  /** The first packet a stream reads after its queue was emptied comes first in that sense. */
  lemma FirstReadComesFirst(before: seq<Queue>, after: seq<Queue>, stream: nat, read: seq<Packet>, ps: seq<Packet>,
                            time: int, p: Packet)
    requires UnreadAt(before, read, time, stream) && (!before[stream].enabled ==> before[stream].list == [])
    requires Gives(before, after, stream, ps, time, Some(p))
    ensures ComesFirst(p, OfStream(read + ps, stream), time)
  {
    var fed: seq<Queue> :|
      AllFed(before, fed, ps, time) && stream < |fed| && fed[stream].list != [] && p == fed[stream].list[0];
    assert FedAt(before, fed, ps, time, stream);
    UnreadFed(before, fed, read, ps, time, stream);
    if !before[stream].enabled {
      FedDisabled(before[stream], ps, stream, time);
    }
    var empty := fed[stream].(list := []);
    var sent := OfStream(read + ps, stream);
    var d := FedStartsAtKey(empty, read + ps, stream, time);
    assert empty.list + sent == sent;
    assert sent[d] == p;
  }

  /** Reads of another stream leave it so. */
  lemma OthersUnread(before: seq<Queue>, after: seq<Queue>, stream: nat, read: seq<Packet>, ps: seq<Packet>, time: int,
                     packet: Option<Packet>)
    requires Gives(before, after, stream, ps, time, packet)
    ensures forall i: nat :: i != stream && UnreadAt(before, read, time, i) ==> UnreadAt(after, read + ps, time, i)
  {
    forall i: nat | i != stream && UnreadAt(before, read, time, i)
      ensures UnreadAt(after, read + ps, time, i)
    {
      var fed: seq<Queue> :| AllFed(before, fed, ps, time) && stream < |fed| == |after| && fed[i] == after[i];
      assert FedAt(before, fed, ps, time, i);
      UnreadFed(before, fed, read, ps, time, i);
    }
  }

  /** Disabled queues are empty. */
  ghost predicate DisabledEmpty(qs: seq<Queue>) {
    forall i {:trigger qs[i]} :: 0 <= i < |qs| && !qs[i].enabled ==> qs[i].list == []
  }

  lemma AgreeingDisabledEmpty(qs: seq<Queue>, read: seq<Packet>)
    requires AllAgree(qs, read)
    ensures DisabledEmpty(qs)
  {
    forall i | 0 <= i < |qs| && !qs[i].enabled
      ensures qs[i].list == []
    {
      assert AgreesAt(qs, read, i);
    }
  }

  /** Behind the first packet of no queue is a key packet at or before the time. */
  ghost predicate AllTrimmed(qs: seq<Queue>, time: int) {
    forall i: nat {:trigger TrimmedAt(qs, time, i)} :: i < |qs| ==> TrimmedAt(qs, time, i)
  }

  ghost predicate TrimmedAt(qs: seq<Queue>, time: int, i: nat) {
    i < |qs| && NoneKeyBy(qs[i].list, 1, time)
  }

  lemma TrimmedFed(q: Queue, ps: seq<Packet>, i: nat, time: int)
    requires NoneKeyBy(q.list, 1, time) && (!q.enabled ==> q.list == [])
    ensures NoneKeyBy(Fed(q, ps, i, time).list, 1, time)
  {
    if q.enabled {
      var d := FedStartsAtKey(q, ps, i, time);
      NoneBehindFirst(Fed(q, ps, i, time).list, q.list + OfStream(ps, i), d, time);
    } else {
      FedDisabled(q, ps, i, time);
    }
  }

  lemma UnreadIsTrimmed(qs: seq<Queue>, read: seq<Packet>, time: int)
    requires AllUnread(qs, read, time)
    ensures AllTrimmed(qs, time)
  {
    forall i: nat | i < |qs|
      ensures TrimmedAt(qs, time, i)
    {
      assert UnreadAt(qs, read, time, i);
      TrimmedFed(qs[i].(list := []), read, i, time);
    }
  }

  lemma AllTrimmedFed(before: seq<Queue>, after: seq<Queue>, ps: seq<Packet>, time: int)
    requires AllTrimmed(before, time) && AllFed(before, after, ps, time)
    requires DisabledEmpty(before)
    ensures AllTrimmed(after, time)
  {
    forall i: nat | i < |after|
      ensures TrimmedAt(after, time, i)
    {
      assert FedAt(before, after, ps, time, i) && TrimmedAt(before, time, i);
      TrimmedFed(before[i], ps, i, time);
    }
  }

  lemma AllTrimmedGives(before: seq<Queue>, after: seq<Queue>, stream: nat, ps: seq<Packet>, time: int,
                        packet: Option<Packet>)
    requires AllTrimmed(before, time) && Gives(before, after, stream, ps, time, packet)
    requires DisabledEmpty(before)
    ensures AllTrimmed(after, time)
  {
    var fed: seq<Queue> :|
      && AllFed(before, fed, ps, time) && stream < |fed|
      && if fed[stream].list == [] then after == fed
         else after == fed[stream := fed[stream].(list := fed[stream].list[1..])];
    AllTrimmedFed(before, fed, ps, time);
    forall i: nat | i < |after|
      ensures TrimmedAt(after, time, i)
    {
      assert TrimmedAt(fed, time, i);
    }
  }

  /** What a read means for queues of which nothing, or only the first packet, can be such a key packet. */
  ghost predicate ReadsFirst(before: seq<Queue>, after: seq<Queue>, stream: nat, read: seq<Packet>,
                             now: seq<Packet>, time: int, packet: Option<Packet>)
  {
    && (packet.Some? && UnreadAt(before, read, time, stream) ==> ComesFirst(packet.value, OfStream(now, stream), time))
    && (forall i: nat :: i != stream && UnreadAt(before, read, time, i) ==> UnreadAt(after, now, time, i))
    && (AllTrimmed(before, time) ==> AllTrimmed(after, time))
  }

  lemma GivesReadsFirst(before: seq<Queue>, after: seq<Queue>, stream: nat, read: seq<Packet>, ps: seq<Packet>,
                        time: int, packet: Option<Packet>)
    requires Gives(before, after, stream, ps, time, packet) && AllAgree(before, read)
    ensures ReadsFirst(before, after, stream, read, read + ps, time, packet)
  {
    AgreeingDisabledEmpty(before, read);
    OthersUnread(before, after, stream, read, ps, time, packet);
    if packet.Some? && UnreadAt(before, read, time, stream) {
      FirstReadComesFirst(before, after, stream, read, ps, time, packet.value);
    }
    if AllTrimmed(before, time) {
      AllTrimmedGives(before, after, stream, ps, time, packet);
    }
  }

  // ---------------------------------------------------------------- several reads of one stream

  function Optional(p: Option<Packet>): seq<Packet> {
    if p.Some? then [p.value] else []
  }

  /** Of what was queued and what came in, `skipped` was read first; then `dropped` gave way to the packet read last. */
  ghost predicate Served(before: Queue, after: Queue, got: seq<Packet>, skipped: seq<Packet>, dropped: seq<Packet>,
                         packet: Option<Packet>, seekTime: int) {
    && after.enabled == before.enabled
    && (before.enabled ==> before.list + got == skipped + dropped + Optional(packet) + after.list)
    && (!before.enabled ==> skipped == [] && packet == None && after.list == [])
    && (dropped != [] ==> packet.Some? && Drops(packet.value, seekTime))
  }

  /** All queues but one have been fed the stretch `ps`. */
  ghost predicate OthersFed(before: seq<Queue>, after: seq<Queue>, ps: seq<Packet>, seekTime: int, stream: nat) {
    && |after| == |before|
    && forall i: nat {:trigger FedAt(before, after, ps, seekTime, i)} ::
         i < |after| && i != stream ==> FedAt(before, after, ps, seekTime, i)
  }

  lemma OthersFedJoin(before: seq<Queue>, mid: seq<Queue>, after: seq<Queue>, a: seq<Packet>, b: seq<Packet>,
                      seekTime: int, stream: nat)
    requires OthersFed(before, mid, a, seekTime, stream) && OthersFed(mid, after, b, seekTime, stream)
    ensures OthersFed(before, after, a + b, seekTime, stream)
  {
    forall i: nat | i < |after| && i != stream
      ensures FedAt(before, after, a + b, seekTime, i)
    {
      FedJoins(before[i], a, b, i, seekTime);
      assert FedAt(before, mid, a, seekTime, i) && FedAt(mid, after, b, seekTime, i);
    }
  }

  lemma {:induction false} FedDisabled(q: Queue, ps: seq<Packet>, i: nat, seekTime: int)
    requires !q.enabled && q.list == []
    ensures Fed(q, ps, i, seekTime).list == []
  {
    if ps != [] {
      FedDisabled(q, ps[..|ps| - 1], i, seekTime);
    }
  }

  /** Taking the first packet after feeding serves it. */
  lemma FedServes(q: Queue, ps: seq<Packet>, i: nat, seekTime: int, after: Queue, packet: Option<Packet>)
    returns (dropped: seq<Packet>)
    requires !q.enabled ==> q.list == []
    requires var fed := Fed(q, ps, i, seekTime);
      if fed.list == [] then packet == None && after == fed
      else packet == Some(fed.list[0]) && after == fed.(list := fed.list[1..])
    ensures Served(q, after, OfStream(ps, i), [], dropped, packet, seekTime)
  {
    if q.enabled {
      var d := FedKeepsRest(q, ps, i, seekTime);
      var all := q.list + OfStream(ps, i);
      dropped := all[..d];
      assert all == all[..d] + all[d..];
    } else {
      FedDisabled(q, ps, i, seekTime);
      dropped := [];
    }
  }

  lemma GivesServes(before: seq<Queue>, after: seq<Queue>, stream: nat, ps: seq<Packet>, seekTime: int,
                    packet: Option<Packet>)
    returns (dropped: seq<Packet>)
    requires Gives(before, after, stream, ps, seekTime, packet) && stream < |before|
    requires !before[stream].enabled ==> before[stream].list == []
    ensures OthersFed(before, after, ps, seekTime, stream)
    ensures Served(before[stream], after[stream], OfStream(ps, stream), [], dropped, packet, seekTime)
  {
    var fed: seq<Queue> :|
      && AllFed(before, fed, ps, seekTime) && stream < |fed|
      && if fed[stream].list == [] then packet == None && after == fed
         else packet == Some(fed[stream].list[0])
              && after == fed[stream := fed[stream].(list := fed[stream].list[1..])];
    assert FedAt(before, fed, ps, seekTime, stream);
    dropped := FedServes(before[stream], ps, stream, seekTime, after[stream], packet);
    forall i: nat | i < |after| && i != stream
      ensures FedAt(before, after, ps, seekTime, i)
    {
      assert FedAt(before, fed, ps, seekTime, i);
    }
  }

  /** One more read after some packets were skipped. */
  lemma ServedFurther(before: Queue, mid: Queue, after: Queue, a: seq<Packet>, b: seq<Packet>, skipped: seq<Packet>,
                      dropped: seq<Packet>, packet: Option<Packet>, seekTime: int)
    requires Served(before, mid, a, skipped, [], None, seekTime)
    requires Served(mid, after, b, [], dropped, packet, seekTime)
    ensures Served(before, after, a + b, skipped, dropped, packet, seekTime)
  {
    if before.enabled {
      assert before.list + (a + b) == (before.list + a) + b == skipped + (mid.list + b);
    }
  }

  /** The packet read last counts as skipped too if it dropped nothing. */
  lemma ServedSkips(before: Queue, after: Queue, got: seq<Packet>, skipped: seq<Packet>, p: Packet, seekTime: int)
    requires Served(before, after, got, skipped, [], Some(p), seekTime)
    ensures Served(before, after, got, skipped + [p], [], None, seekTime)
  {
  }
}
