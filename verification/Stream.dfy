/** One stream of a file: it requests seeks from the reader, judges their result and reads packets. */
module Stream {
  import opened DemuxerQueue
  import opened MediaTime
  import opened Options
  import opened PacketFeed
  import opened PacketQueue
  import R = StreamReader

  /** The checker of the stream's user is named first, the stream itself after it. */
  function Requests(time: int, checker: Option<R.Checker>, name: R.Checker): seq<R.Request> {
    (if checker.Some? then [R.Request(time, checker.value)] else []) + [R.Request(time, name)]
  }

  lemma RequestsUnfold(s: R.StreamInfo, time: int, checker: Option<R.Checker>, name: R.Checker)
    ensures R.AllRequested(s, Requests(time, checker, name)) ==
            R.Requested(if checker.Some? then R.Requested(s, time, checker.value) else s, time, name)
  {
    var first := if checker.Some? then [R.Request(time, checker.value)] else [];
    R.LastRequested(s, first, R.Request(time, name));
    if checker.Some? {
      R.LastRequested(s, [], R.Request(time, checker.value));
      assert [] + first == first;
    }
  }

  /** Hence the stream's own check comes first. */
  lemma OwnCheckFirst(time: int, checker: Option<R.Checker>, name: R.Checker)
    requires time > NOPTS
    ensures R.AllRequested(R.IDLE, Requests(time, checker, name)) ==
            R.StreamInfo(true, time,
                         if checker.Some? && checker.value != name then [name, checker.value] else [name], false)
  {
    RequestsUnfold(R.IDLE, time, checker, name);
  }

  ghost predicate NoKeys(ps: seq<Packet>) {
    forall k :: 0 <= k < |ps| ==> !ps[k].key
  }

  lemma OneMoreWithoutKey(ps: seq<Packet>, p: Packet)
    requires NoKeys(ps) && !p.key
    ensures NoKeys(ps + [p])
  {
  }

  class DemuxedStream {
    const demuxer: DemuxerQueue
    const reader: R.Reader
    const id: nat
    /** How the reader's list names this stream. */
    const name: R.Checker
    var position: int
    var seekPosition: int
    var buffered: Option<Packet>
    var lastSeekResult: bool
    var terminated: bool

    constructor (demuxer: DemuxerQueue, reader: R.Reader, id: nat, name: R.Checker)
      ensures this.demuxer == demuxer && this.reader == reader && this.id == id && this.name == name
      ensures position == 0 && seekPosition == 0 && buffered == None && !terminated && !lastSeekResult
    {
      this.demuxer, this.reader, this.id, this.name := demuxer, reader, id, name;
      position, seekPosition, buffered, lastSeekResult, terminated := 0, 0, None, false, false;
    }

    /** Requests a seek in the name of `checker`, if any, and of the stream itself. */
    method RequestSeek(time: int, checker: Option<R.Checker>)
      requires id < |reader.streams|
      modifies this`position, this`seekPosition, this`buffered, this`terminated, reader
      ensures seekPosition == time && buffered == None && position == NOPTS && !terminated
      ensures reader.streams ==
              old(reader.streams)[id := R.AllRequested(old(reader.streams)[id], Requests(time, checker, name))]
    {
      terminated, seekPosition, buffered, position := false, time, None, NOPTS;
      RequestTwice(reader, id, time, checker, name);
    }

    /** Reads the packet the stream would go on with: away from 0 the next key packet. The seek was good
        if there is one and it is a key packet at or before the position sought. */
    method GetSeekResult() returns (ok: bool, ghost skipped: seq<Packet>, ghost dropped: seq<Packet>)
      requires demuxer.Valid() && id < |demuxer.queues|
      modifies this`buffered, this`position, this`lastSeekResult
      modifies demuxer`eof, demuxer.parser`pos, demuxer.queues
      ensures demuxer.Valid() && old(demuxer.parser.pos) <= demuxer.parser.pos
      ensures ServedStretch(old(demuxer.Values()), demuxer.Values(), demuxer.parser.file, old(demuxer.parser.pos),
                            demuxer.parser.pos, id, skipped, dropped, buffered, demuxer.seekTime)
      ensures position == if buffered.Some? then PtsOrDts(buffered.value) else NOPTS
      ensures ok <==> buffered.Some? && buffered.value.key && PtsOrDts(buffered.value) <= seekPosition
      ensures lastSeekResult == if buffered.Some? then ok else old(lastSeekResult)
      ensures seekPosition <= 0 ==> skipped == []
      ensures seekPosition > 0 ==> (buffered.Some? ==> buffered.value.key) && NoKeys(skipped)
      ensures buffered.None? && demuxer.queues[id].enabled && !demuxer.queues[id].canBeEmpty ==>
                demuxer.eof || demuxer.SomeFull()
    {
      var packet;
      packet, skipped, dropped := SkipToKey(demuxer, id, seekPosition);
      ok := Judge(packet);
    }

    method Judge(packet: Option<Packet>) returns (ok: bool)
      modifies this`buffered, this`position, this`lastSeekResult
      ensures buffered == packet && position == if packet.Some? then PtsOrDts(packet.value) else NOPTS
      ensures ok <==> packet.Some? && packet.value.key && PtsOrDts(packet.value) <= seekPosition
      ensures lastSeekResult == if packet.Some? then ok else old(lastSeekResult)
    {
      buffered := packet;
      position := if packet.Some? then PtsOrDts(packet.value) else NOPTS;
      if packet.None? {
        return false;
      }
      lastSeekResult := position <= seekPosition && packet.value.key;
      return lastSeekResult;
    }

    /** The packet looked at by the seek comes first; then those of the queue. */
    method Read() returns (data: Option<Packet>)
      requires demuxer.Valid() && id < |demuxer.queues|
      modifies this`buffered, this`position
      modifies demuxer`eof, demuxer.parser`pos, demuxer.queues
      ensures demuxer.Valid()
      ensures terminated ==> data == None && buffered == old(buffered) && position == old(position)
      ensures !terminated && old(buffered).Some? ==>
                data == old(buffered) && demuxer.Values() == old(demuxer.Values())
                && demuxer.parser.pos == old(demuxer.parser.pos)
      ensures !terminated && old(buffered).None? ==>
                old(demuxer.parser.pos) <= demuxer.parser.pos &&
                Gives(old(demuxer.Values()), demuxer.Values(), id,
                      Stretch(demuxer.parser.file, old(demuxer.parser.pos), demuxer.parser.pos), demuxer.seekTime, data)
      ensures !terminated ==>
                buffered == None && position == if data.None? then old(position)
                                               else if PtsOrDts(data.value) == NOPTS then NOPTS
                                               else PtsOrDts(data.value) + data.value.duration
    {
      if terminated {
        return None;
      }
      if buffered.Some? {
        data := buffered;
      } else {
        var found;
        found, data := demuxer.Read(id);
      }
      Note(data);
    }

    /** Moves the position past the packet read. */
    method Note(data: Option<Packet>)
      requires demuxer.Valid()
      modifies this`buffered, this`position
      ensures demuxer.Valid() && demuxer.Values() == old(demuxer.Values())
              && demuxer.parser.pos == old(demuxer.parser.pos)
      ensures buffered == None
      ensures position == if data.None? then old(position)
                          else if PtsOrDts(data.value) == NOPTS then NOPTS
                          else PtsOrDts(data.value) + data.value.duration
    {
      buffered := None;
      if data.Some? {
        position := PtsOrDts(data.value);
        if position != NOPTS {
          position := position + data.value.duration;
        }
      }
    }
  }

  method RequestTwice(reader: R.Reader, id: nat, time: int, checker: Option<R.Checker>, name: R.Checker)
    requires id < |reader.streams|
    modifies reader
    ensures reader.streams ==
            old(reader.streams)[id := R.AllRequested(old(reader.streams)[id], Requests(time, checker, name))]
  {
    RequestsUnfold(reader.streams[id], time, checker, name);
    if checker.Some? {
      reader.RequestSeek(id, time, checker.value);
    }
    reader.RequestSeek(id, time, name);
  }

  /** What reading from `a` to `b` did: stream `id` was served, all other queues were fed. */
  ghost predicate ServedStretch(before: seq<Queue>, after: seq<Queue>, file: seq<Packet>, a: nat, b: nat, id: nat,
                                skipped: seq<Packet>, dropped: seq<Packet>, packet: Option<Packet>, seekTime: int)
    requires a <= b <= |file| && id < |before| == |after|
  {
    && Served(before[id], after[id], OfStream(Stretch(file, a, b), id), skipped, dropped, packet, seekTime)
    && OthersFed(before, after, Stretch(file, a, b), seekTime, id)
  }

  lemma NothingServed(qs: seq<Queue>, file: seq<Packet>, a: nat, id: nat, seekTime: int)
    requires a <= |file| && id < |qs| && (!qs[id].enabled ==> qs[id].list == [])
    ensures ServedStretch(qs, qs, file, a, a, id, [], [], None, seekTime)
  {
    FedNothing(qs, Stretch(file, a, a), seekTime);
  }

  lemma OneMoreServed(before: seq<Queue>, mid: seq<Queue>, after: seq<Queue>, file: seq<Packet>, a: nat, b: nat, c: nat,
                      id: nat, skipped: seq<Packet>, dropped: seq<Packet>, packet: Option<Packet>, seekTime: int)
    requires a <= b <= c <= |file| && id < |before| == |mid| == |after|
    requires ServedStretch(before, mid, file, a, b, id, skipped, [], None, seekTime)
    requires ServedStretch(mid, after, file, b, c, id, [], dropped, packet, seekTime)
    ensures ServedStretch(before, after, file, a, c, id, skipped, dropped, packet, seekTime)
  {
    var s, t := Stretch(file, a, b), Stretch(file, b, c);
    StretchesJoin(file, a, b, c);
    OfStreamJoins(s, t, id);
    ServedFurther(before[id], mid[id], after[id], OfStream(s, id), OfStream(t, id), skipped, dropped, packet, seekTime);
    OthersFedJoin(before, mid, after, s, t, seekTime, id);
  }

  /** Reads a packet; away from 0, until it is a key packet. */
  method SkipToKey(demuxer: DemuxerQueue, id: nat, seekPosition: int)
    returns (packet: Option<Packet>, ghost skipped: seq<Packet>, ghost dropped: seq<Packet>)
    requires demuxer.Valid() && id < |demuxer.queues|
    modifies demuxer`eof, demuxer.parser`pos, demuxer.queues
    ensures demuxer.Valid() && old(demuxer.parser.pos) <= demuxer.parser.pos
    ensures ServedStretch(old(demuxer.Values()), demuxer.Values(), demuxer.parser.file, old(demuxer.parser.pos),
                          demuxer.parser.pos, id, skipped, dropped, packet, demuxer.seekTime)
    ensures seekPosition <= 0 ==> skipped == []
    ensures seekPosition > 0 ==> (packet.Some? ==> packet.value.key) && NoKeys(skipped)
    ensures packet.None? && demuxer.queues[id].enabled && !demuxer.queues[id].canBeEmpty ==>
              demuxer.eof || demuxer.SomeFull()
  {
    skipped := [];
    ghost var before, seekTime := demuxer.Values(), demuxer.seekTime;
    ghost var file, from := demuxer.parser.file, demuxer.parser.pos;
    DisabledIsEmpty(demuxer, id);
    NothingServed(before, file, from, id, seekTime);
    while true
      invariant demuxer.Valid() && from <= demuxer.parser.pos
      invariant ServedStretch(before, demuxer.Values(), file, from, demuxer.parser.pos, id, skipped, [], None, seekTime)
      invariant skipped != [] ==> seekPosition > 0
      invariant NoKeys(skipped)
      decreases demuxer.Left(id)
    {
      packet, dropped := ReadFurther(demuxer, id, before, from, skipped);
      if packet.None? || seekPosition <= 0 || packet.value.key {
        return;
      }
      skipped := SkipOne(before[id], demuxer.Values()[id], OfStream(Stretch(file, from, demuxer.parser.pos), id),
                         skipped, dropped, packet.value, seekTime);
    }
  }

  /** Reads the packet after those skipped. */
  method ReadFurther(demuxer: DemuxerQueue, id: nat, ghost before: seq<Queue>, ghost from: nat,
                     ghost skipped: seq<Packet>)
    returns (packet: Option<Packet>, ghost dropped: seq<Packet>)
    requires demuxer.Valid() && id < |demuxer.queues| == |before| && from <= demuxer.parser.pos
    requires ServedStretch(before, demuxer.Values(), demuxer.parser.file, from, demuxer.parser.pos, id, skipped, [],
                           None, demuxer.seekTime)
    modifies demuxer`eof, demuxer.parser`pos, demuxer.queues
    ensures demuxer.Valid() && old(demuxer.parser.pos) <= demuxer.parser.pos
    ensures ServedStretch(before, demuxer.Values(), demuxer.parser.file, from, demuxer.parser.pos, id, skipped, dropped,
                          packet, demuxer.seekTime)
    ensures packet.Some? ==> demuxer.Left(id) < old(demuxer.Left(id))
    ensures packet.None? && demuxer.queues[id].enabled && !demuxer.queues[id].canBeEmpty ==>
              demuxer.eof || demuxer.SomeFull()
  {
    ghost var mid, at := demuxer.Values(), demuxer.parser.pos;
    packet, dropped := ReadNext(demuxer, id);
    OneMoreServed(before, mid, demuxer.Values(), demuxer.parser.file, from, at, demuxer.parser.pos, id, skipped,
                  dropped, packet, demuxer.seekTime);
  }

  /** A packet that is not a key packet dropped nothing and is skipped. */
  lemma SkipOne(before: Queue, after: Queue, got: seq<Packet>, skipped: seq<Packet>, dropped: seq<Packet>, p: Packet,
                seekTime: int)
    returns (more: seq<Packet>)
    requires Served(before, after, got, skipped, dropped, Some(p), seekTime) && NoKeys(skipped) && !p.key
    ensures more == skipped + [p] && NoKeys(more)
    ensures Served(before, after, got, more, [], None, seekTime)
  {
    more := skipped + [p];
    OneMoreWithoutKey(skipped, p);
    ServedSkips(before, after, got, skipped, p, seekTime);
  }

  lemma DisabledIsEmpty(demuxer: DemuxerQueue, id: nat)
    requires demuxer.Valid() && id < |demuxer.queues|
    ensures !demuxer.Values()[id].enabled ==> demuxer.Values()[id].list == []
  {
    assert AgreesAt(demuxer.Values(), Stretch(demuxer.parser.file, demuxer.since, demuxer.parser.pos), id);
  }

  method ReadNext(demuxer: DemuxerQueue, id: nat) returns (packet: Option<Packet>, ghost dropped: seq<Packet>)
    requires demuxer.Valid() && id < |demuxer.queues|
    modifies demuxer`eof, demuxer.parser`pos, demuxer.queues
    ensures demuxer.Valid() && old(demuxer.parser.pos) <= demuxer.parser.pos
    ensures ServedStretch(old(demuxer.Values()), demuxer.Values(), demuxer.parser.file, old(demuxer.parser.pos),
                          demuxer.parser.pos, id, [], dropped, packet, demuxer.seekTime)
    ensures packet.Some? ==> demuxer.Left(id) < old(demuxer.Left(id))
    ensures packet.None? && demuxer.queues[id].enabled && !demuxer.queues[id].canBeEmpty ==>
              demuxer.eof || demuxer.SomeFull()
  {
    ghost var before, from := demuxer.Values(), demuxer.parser.pos;
    DisabledIsEmpty(demuxer, id);
    var found;
    found, packet := demuxer.Read(id);
    dropped := GivesServes(before, demuxer.Values(), id, Stretch(demuxer.parser.file, from, demuxer.parser.pos),
                           demuxer.seekTime, packet);
  }

  // ---------------------------------------------------------------- one seek and all its streams

  /** The stream goes on with a key packet at or before the position it sought. */
  ghost predicate Good(s: DemuxedStream)
    reads s`buffered, s`seekPosition
  {
    s.buffered.Some? && s.buffered.value.key && PtsOrDts(s.buffered.value) <= s.seekPosition
  }

  /** Different streams of one demuxer. */
  ghost predicate Together(demuxer: DemuxerQueue, streams: seq<DemuxedStream>) {
    && (forall i :: 0 <= i < |streams| ==> streams[i].demuxer == demuxer && streams[i].id < |demuxer.queues|)
    && (forall i, j :: 0 <= i < j < |streams| ==> streams[i] != streams[j])
  }

  method Ask(s: DemuxedStream) returns (good: bool)
    requires s.demuxer.Valid() && s.id < |s.demuxer.queues|
    modifies s`buffered, s`position, s`lastSeekResult
    modifies s.demuxer`eof, s.demuxer.parser`pos, s.demuxer.queues
    ensures s.demuxer.Valid() && (good <==> Good(s))
  {
    ghost var skipped, dropped;
    good, skipped, dropped := s.GetSeekResult();
  }

  /** Positions the file and asks the streams in turn; away from 0 the first failure ends the asking. */
  method SeekTogether(demuxer: DemuxerQueue, streams: seq<DemuxedStream>, time: int)
    returns (threw: bool, landed: int, ok: bool, asked: nat)
    requires demuxer.Valid() && Together(demuxer, streams) && time >= 0
    modifies demuxer`eof, demuxer`since, demuxer`seekTime, demuxer.parser`pos, demuxer.parser`seeks, demuxer.queues
    modifies streams
    ensures demuxer.Valid() && SamePositions(streams)
    ensures threw ==> !ok && asked == 0
    ensures !threw ==> 0 <= landed <= time && asked <= |streams|
    ensures !threw ==> (ok <==> asked == |streams| && AllGood(streams, |streams|))
    ensures !threw && landed != 0 && asked > 0 ==> AllGood(streams, asked - 1)
    ensures !threw && asked < |streams| ==> landed != 0 && asked > 0 && !Good(streams[asked - 1])
  {
    ghost var tries;
    threw, landed, tries := demuxer.Seek(time);
    ok, asked := false, 0;
    if !threw {
      ok, asked := AskInTurn(demuxer, streams, landed);
    }
  }

  method AskInTurn(demuxer: DemuxerQueue, streams: seq<DemuxedStream>, landed: int) returns (ok: bool, asked: nat)
    requires demuxer.Valid() && Together(demuxer, streams)
    modifies demuxer`eof, demuxer.parser`pos, demuxer.queues
    modifies streams
    ensures demuxer.Valid() && SamePositions(streams) && asked <= |streams|
    ensures ok <==> asked == |streams| && AllGood(streams, |streams|)
    ensures landed != 0 && asked > 0 ==> AllGood(streams, asked - 1)
    ensures asked < |streams| ==> landed != 0 && asked > 0 && !Good(streams[asked - 1])
  {
    ok, asked := true, 0;
    while asked < |streams|
      invariant demuxer.Valid() && asked <= |streams| && SamePositions(streams)
      invariant ok <==> AllGood(streams, asked)
      invariant landed != 0 ==> ok
    {
      var good := Ask(streams[asked]);
      ok, asked := ok && good, asked + 1;
      if !good && landed != 0 {
        return;
      }
    }
  }

  /** The first `n` streams go on with a key packet at or before the position they sought. */
  ghost predicate AllGood(streams: seq<DemuxedStream>, n: int)
    reads streams
  {
    forall i :: 0 <= i < n && i < |streams| ==> Good(streams[i])
  }

  twostate predicate SamePositions(streams: seq<DemuxedStream>)
    reads streams
  {
    forall i :: 0 <= i < |streams| ==> streams[i].seekPosition == old(streams[i].seekPosition)
  }

  // ---------------------------------------------------------------- the whole search

  /** Attempt `k` asked for its target and landed there or before. */
  ghost predicate BackAt(start: int, targets: seq<int>, landed: seq<int>, k: int)
    requires 0 <= k < |targets| == |landed|
  {
    && targets[k] == R.Target(start, if k == 0 then start else landed[k - 1], k)
    && 0 <= landed[k] <= targets[k] <= start
  }

  /** The positions asked for and landed at, none at 0 before the last. */
  ghost predicate BacksOff(start: int, targets: seq<int>, landed: seq<int>) {
    && |targets| == |landed|
    && (forall k {:trigger BackAt(start, targets, landed, k)} :: 0 <= k < |targets| ==>
          BackAt(start, targets, landed, k))
    && forall k :: 0 <= k < |landed| - 1 ==> landed[k] > 0
  }

  lemma OneMoreBack(start: int, targets: seq<int>, landed: seq<int>, target: int, reached: int)
    requires BacksOff(start, targets, landed) && (landed != [] ==> landed[|landed| - 1] > 0)
    requires var pos := if landed == [] then start else landed[|landed| - 1];
      target == R.Target(start, pos, |targets|) && 0 <= reached <= target <= pos
    ensures BacksOff(start, targets + [target], landed + [reached])
    ensures |targets| + 1 <= 9 && (reached > 0 ==> |targets| + 1 <= 8)
  {
    var ts, ls := targets + [target], landed + [reached];
    if landed != [] {
      assert BackAt(start, targets, landed, |landed| - 1);
    }
    forall k | 0 <= k < |ts|
      ensures BackAt(start, ts, ls, k)
    {
      if k < |targets| {
        assert BackAt(start, targets, landed, k);
      }
    }
    NineAttempts(start, ts, ls);
  }

  /** A demuxer that lands there. */
  ghost function LandsAt(landed: seq<int>): R.World {
    R.World((k: nat, p: int) => if k < |landed| then landed[k] else 0, (a: nat, i: nat, c: R.Checker) => true)
  }

  lemma BackOffAttempts(start: int, targets: seq<int>, landed: seq<int>, n: int)
    requires BacksOff(start, targets, landed) && 0 <= n <= |landed|
    ensures R.Attempts(LandsAt(landed), start, targets[..n], landed[..n])
  {
    forall k | 0 <= k < n
      ensures R.AttemptAt(LandsAt(landed), start, targets[..n], landed[..n], k)
    {
      assert BackAt(start, targets, landed, k);
    }
  }

  /** The positions sought are those of a search that goes back from each landing. */
  lemma BackOffIsSought(start: int, targets: seq<int>, landed: seq<int>)
    requires BacksOff(start, targets, landed) && start >= 0
    ensures R.AllSought(start, targets, landed)
  {
    BackOffAttempts(start, targets, landed, |landed|);
    assert targets[..|landed|] == targets && landed[..|landed|] == landed;
    R.SoughtByLandings(LandsAt(landed), start, targets, landed);
  }

  /** At most nine attempts. */
  lemma NineAttempts(start: int, targets: seq<int>, landed: seq<int>)
    requires BacksOff(start, targets, landed)
    ensures |targets| <= 9 && (landed != [] && landed[|landed| - 1] > 0 ==> |targets| <= 8)
  {
    var n := if landed != [] && landed[|landed| - 1] > 0 then |landed| else |landed| - 1;
    if n > 0 {
      BackOffAttempts(start, targets, landed, n);
      R.EightAttempts(LandsAt(landed), start, targets[..n], landed[..n]);
    }
  }

  /** Attempts until every stream goes on with a key packet at or before its position, or until position 0. */
  method SearchTogether(demuxer: DemuxerQueue, streams: seq<DemuxedStream>, start: int)
    returns (threw: bool, targets: seq<int>, landed: seq<int>, asked: nat)
    requires demuxer.Valid() && Together(demuxer, streams)
    modifies demuxer`eof, demuxer`since, demuxer`seekTime, demuxer.parser`pos, demuxer.parser`seeks, demuxer.queues
    modifies streams
    ensures demuxer.Valid() && SamePositions(streams)
    ensures start < 0 ==> !threw && targets == []
    ensures start >= 0 && !threw ==> BacksOff(start, targets, landed) && 1 <= |targets| <= 9 && asked == |streams|
    ensures start >= 0 && !threw ==> R.AllSought(start, targets, landed)
    ensures start >= 0 && !threw ==> AllGood(streams, |streams|) || landed[|landed| - 1] == 0
  {
    threw, targets, landed, asked := false, [], [], 0;
    var pos, step := start, 0;
    while pos >= 0
      invariant demuxer.Valid() && SamePositions(streams) && !threw
      invariant BacksOff(start, targets, landed) && (start < 0 ==> targets == [])
      invariant pos == if landed == [] then start else landed[|landed| - 1]
      invariant landed != [] ==> pos > 0
      invariant step == R.Step(|targets|)
      decreases 9 - |targets|
    {
      var target, next := R.StepBack(|targets|, start, pos, step);
      var reached: int;
      var ok: bool;
      threw, reached, ok, asked := SeekTogether(demuxer, streams, target);
      if threw {
        return;
      }
      OneMoreBack(start, targets, landed, target, reached);
      targets, landed, pos, step := targets + [target], landed + [reached], reached, next;
      if ok || pos == 0 {
        BackOffIsSought(start, targets, landed);
        return;
      }
    }
  }
}
