/** Repair of the decoder's time line: a clock that never goes back, and durations by one frame of look-ahead. */
module Decoder {
  import opened MediaTime
  import opened Options
  import opened PacketQueue

  /** A 64-bit time stamp: nothing lies below NOPTS. */
  type Stamp = x: int | NOPTS <= x witness 0

  /** What the codec reports of a decoded picture. */
  datatype Picture = Picture(bestEffort: Stamp, pts: int, pktDuration: int)

  datatype Frame = Frame(ts: int, duration: int)

  /** The codec's answer to a packet: it refuses (the program throws), fails, or yields pictures. */
  datatype Answer = Refuses | Fails | Yields(pictures: seq<Picture>)

  datatype Rate = Rate(num: int, den: int)

  // ---------------------------------------------------------------- the clock

  datatype Clock = Clock(time: Stamp, first: bool, step: int, pktDuration: int, start: Stamp)

  /** Division that cuts towards zero. */
  function Truncated(a: int, b: int): int
    requires b != 0
  {
    if (a >= 0) == (b > 0) then Abs(a) / Abs(b) else -(Abs(a) / Abs(b))
  }

  function Abs(a: int): nat {
    if a >= 0 then a else -a
  }

  /** The clock after a picture. */
  function Ticked(c: Clock, p: Picture, fps: Rate): (r: Clock)
    requires c.step >= 0
    ensures r.step >= 0 && !r.first
    ensures r.time >= c.time || (c.first && c.time != NOPTS)
  {
    var d := if p.pktDuration == 0 || p.pktDuration == NOPTS
             then (if fps.num == 0 then 0 else Truncated(fps.den * SECOND, fps.num)) else p.pktDuration;
    if p.bestEffort == NOPTS && c.time == NOPTS && c.first then
      Clock(c.start, false, 0, d, c.start)
    else if p.bestEffort >= c.time || c.first then
      Clock(p.bestEffort, false, if c.first then 0 else p.bestEffort - c.time, d, c.start)
    else
      var step := if p.pts == NOPTS && c.pktDuration > 0 then c.pktDuration else c.step;
      Clock(c.time + step, false, step, d, c.start)
  }

  /** Between flushes: the clock is fresh or has ticked. */
  ghost predicate Running(c: Clock) {
    c.step >= 0 && (c.first ==> c.time == NOPTS)
  }

  function AllTicked(c: Clock, ps: seq<Picture>, fps: Rate): (r: Clock)
    requires Running(c)
    ensures Running(r)
  {
    if ps == [] then c else Ticked(AllTicked(c, ps[..|ps| - 1], fps), ps[|ps| - 1], fps)
  }

  /** The frames that stand for the pictures. */
  function FramesOf(c: Clock, ps: seq<Picture>, fps: Rate): (r: seq<Frame>)
    requires Running(c)
    ensures |r| == |ps|
  {
    if ps == [] then []
    else
      var t := AllTicked(c, ps, fps);
      FramesOf(c, ps[..|ps| - 1], fps) + [Frame(t.time, t.pktDuration)]
  }

  ghost predicate InOrder(frames: seq<Frame>) {
    forall i, j :: 0 <= i <= j < |frames| ==> frames[i].ts <= frames[j].ts
  }

  ghost predicate Within(frames: seq<Frame>, low: int, high: int) {
    forall i :: 0 <= i < |frames| ==> low <= frames[i].ts <= high
  }

  /** For any pictures the clock does not go back, and the frames lie in order between old and new clock. */
  lemma {:induction false} ClockNeverGoesBack(c: Clock, ps: seq<Picture>, fps: Rate)
    requires Running(c)
    ensures c.time <= AllTicked(c, ps, fps).time
    ensures InOrder(FramesOf(c, ps, fps)) && Within(FramesOf(c, ps, fps), c.time, AllTicked(c, ps, fps).time)
  {
    if ps != [] {
      ClockNeverGoesBack(c, ps[..|ps| - 1], fps);
    }
  }

  lemma Appended(q: seq<Frame>, fs: seq<Frame>, low: int, mid: int, high: int)
    requires InOrder(q) && InOrder(fs) && Within(q, low, mid) && Within(fs, mid, high) && low <= mid <= high
    ensures InOrder(q + fs) && Within(q + fs, low, high)
    ensures q + fs != [] ==> InOrder((q + fs)[1..]) && Within((q + fs)[1..], (q + fs)[0].ts, high)
  {
  }

  // ---------------------------------------------------------------- which stamp a picture gets

  lemma {:induction false} FramePlace(c: Clock, ps: seq<Picture>, fps: Rate, i: int)
    requires Running(c) && 0 <= i < |ps|
    ensures var t := AllTicked(c, ps[..i + 1], fps);
      FramesOf(c, ps, fps)[i] == Frame(t.time, t.pktDuration) && t == Ticked(AllTicked(c, ps[..i], fps), ps[i], fps)
  {
    assert ps[..i + 1][..i] == ps[..i];
    if i < |ps| - 1 {
      assert ps[..|ps| - 1][..i + 1] == ps[..i + 1] && ps[..|ps| - 1][..i] == ps[..i];
      FramePlace(c, ps[..|ps| - 1], fps, i);
    } else {
      assert ps[..i + 1] == ps;
    }
  }

  /** The clock's time, last step and last duration before picture `n`, told from the frames made so far. */
  ghost predicate Reads(c: Clock, frames: seq<Frame>, n: int, time: int, step: int, duration: int)
    requires 0 <= n <= |frames|
  {
    && time == (if n == 0 then c.time else frames[n - 1].ts)
    && duration == (if n == 0 then c.pktDuration else frames[n - 1].duration)
    && step == if n == 0 then c.step
               else if n == 1 then (if c.first then 0 else frames[0].ts - c.time)
               else frames[n - 1].ts - frames[n - 2].ts
  }

  lemma {:induction false} ClockReads(c: Clock, ps: seq<Picture>, fps: Rate, n: int)
    requires Running(c) && 0 <= n <= |ps|
    ensures var t := AllTicked(c, ps[..n], fps);
      Reads(c, FramesOf(c, ps, fps), n, t.time, t.step, t.pktDuration) && t.start == c.start
      && (t.first <==> c.first && n == 0)
    decreases n
  {
    if n > 0 {
      FramePlace(c, ps, fps, n - 1);
      ClockReads(c, ps, fps, n - 1);
    }
  }

  /** The stamp of frame `n`. The first one after a flush has its picture's best-effort stamp, or the start time if
      there is none. Any other has that stamp unless it lies behind the clock. Then it comes one step after the frame
      before: by that frame's duration if the picture has no pts and the duration is positive, else by the last step. */
  ghost predicate StampedRight(c: Clock, ps: seq<Picture>, frames: seq<Frame>, n: int)
    requires 0 <= n < |ps| == |frames|
  {
    var best := ps[n].bestEffort;
    if n == 0 && c.first then
      frames[n].ts == if best == NOPTS then c.start else best
    else
      forall time, step, duration :: Reads(c, frames, n, time, step, duration) ==>
        frames[n].ts == if best >= time then best
                        else if ps[n].pts == NOPTS && duration > 0 then time + duration else time + step
  }

  /** A frame lasts as long as its packet says, or else one frame at the stream's rate. */
  ghost predicate LastsRight(p: Picture, f: Frame, fps: Rate) {
    if p.pktDuration != 0 && p.pktDuration != NOPTS then f.duration == p.pktDuration
    else if fps.num == 0 then f.duration == 0
    else Quotient(fps.den * SECOND, fps.num, f.duration)
  }

  /** `q` is `a / b` cut towards zero. */
  ghost predicate Quotient(a: int, b: int, q: int) {
    if (a >= 0) == (b > 0) then q >= 0 && Abs(b) * q <= Abs(a) < Abs(b) * (q + 1)
    else q <= 0 && Abs(b) * -q <= Abs(a) < Abs(b) * (1 - q)
  }

  lemma CutQuotient(a: int, b: int)
    requires b != 0
    ensures Quotient(a, b, Truncated(a, b))
  {
    var n, m := Abs(a), Abs(b);
    assert n == m * (n / m) + n % m;
  }

  lemma StampsAndDurations(c: Clock, ps: seq<Picture>, fps: Rate, n: int)
    requires Running(c) && 0 <= n < |ps|
    ensures StampedRight(c, ps, FramesOf(c, ps, fps), n) && LastsRight(ps[n], FramesOf(c, ps, fps)[n], fps)
  {
    ClockReads(c, ps, fps, n);
    FramePlace(c, ps, fps, n);
    if fps.num != 0 {
      CutQuotient(fps.den * SECOND, fps.num);
    }
  }

  /** The codec stamped all pictures, in order and not behind the clock. */
  ghost predicate InStep(c: Clock, ps: seq<Picture>) {
    && (forall i :: 0 <= i < |ps| ==> ps[i].bestEffort != NOPTS)
    && (forall i, j :: 0 <= i <= j < |ps| ==> ps[i].bestEffort <= ps[j].bestEffort)
    && (ps != [] ==> c.first || ps[0].bestEffort >= c.time)
  }

  /** Such stamps are kept. */
  lemma {:induction false} StampsKept(c: Clock, ps: seq<Picture>, fps: Rate, n: int)
    requires Running(c) && InStep(c, ps) && 0 <= n < |ps|
    ensures FramesOf(c, ps, fps)[n].ts == ps[n].bestEffort
    decreases n
  {
    StampsAndDurations(c, ps, fps, n);
    ClockReads(c, ps, fps, n);
    if n > 0 {
      StampsKept(c, ps, fps, n - 1);
    }
  }

  // ---------------------------------------------------------------- what was emitted

  /** A frame handed out; `last` if it was the one left when the stream had ended. */
  datatype Emission = Emission(frame: Frame, last: bool)

  function End(e: Emission): int {
    e.frame.ts + e.frame.duration
  }

  /** Each frame ends where the next one starts, unless it was the last of a drained stream. */
  ghost predicate Joined(es: seq<Emission>) {
    forall i, j :: 0 <= i < j < |es| && j == i + 1 ==>
                     if es[i].last then es[i].frame.ts <= es[j].frame.ts
                     else es[i].frame.duration > 0 && End(es[i]) == es[j].frame.ts
  }

  function Durations(es: seq<Emission>): int {
    if es == [] then 0 else Durations(es[..|es| - 1]) + es[|es| - 1].frame.duration
  }

  /** Up to the last frame of a drained stream time stamps grow strictly, and durations fill the time without gaps. */
  lemma {:induction false} NoGaps(es: seq<Emission>, i: int, j: int)
    requires Joined(es) && 0 <= i < j < |es| && forall k :: i <= k < j ==> !es[k].last
    ensures es[i].frame.ts < es[j].frame.ts
    ensures Durations(es[i..j]) == es[j].frame.ts - es[i].frame.ts
    decreases j
  {
    assert es[i..j][..j - 1 - i] == es[i..j - 1];
    assert End(es[j - 1]) == es[j].frame.ts;
    if i < j - 1 {
      NoGaps(es, i, j - 1);
    } else {
      assert es[i..i] == [];
    }
  }

  lemma JoinedGrows(es: seq<Emission>, e: Emission)
    requires Joined(es)
    requires es != [] ==> if es[|es| - 1].last then es[|es| - 1].frame.ts <= e.frame.ts
                          else es[|es| - 1].frame.duration > 0 && End(es[|es| - 1]) == e.frame.ts
    ensures Joined(es + [e])
  {
  }

  // ---------------------------------------------------------------- the decoder

  /** The duration given to the last frame: one frame at the stream's rate, rounded to the nearest. */
  function AverageDuration(fps: Rate): int {
    if fps.num <= 0 || fps.den < 0 then NOPTS else (SECOND * fps.den + fps.num / 2) / fps.num
  }

  /** For a rate that makes sense it is off by no more than half a unit. */
  lemma AverageIsNearest(fps: Rate)
    requires fps.num > 0 && fps.den >= 0
    ensures 2 * SECOND * fps.den - fps.num <= 2 * (fps.num * AverageDuration(fps)) <= 2 * SECOND * fps.den + fps.num
  {
    var n := SECOND * fps.den + fps.num / 2;
    assert n == fps.num * (n / fps.num) + n % fps.num;
  }

  class DecoderVideo {
    const fps: Rate
    /** The codec's answer to the n-th packet it is sent, which carries the given stamp. */
    const codec: (nat, int) -> Answer
    var clock: Clock
    var clockReset: bool
    var useDts: bool
    var queue: seq<Frame>
    var prevFrame: Option<Frame>
    var sent: nat
    /** What was handed out since the last flush. */
    ghost var emitted: seq<Emission>

    /** No queued frame starts before this. */
    ghost function Low(): int
      reads `prevFrame, `emitted
    {
      if prevFrame.Some? then prevFrame.value.ts
      else if emitted != [] then emitted[|emitted| - 1].frame.ts
      else NOPTS
    }

    ghost predicate Valid()
      reads `clock, `queue, `prevFrame, `emitted
    {
      && Running(clock) && InOrder(queue) && Low() <= clock.time && Within(queue, Low(), clock.time)
      && Joined(emitted) && (emitted != [] ==> Follows(emitted[|emitted| - 1]))
    }

    /** The frame held back starts where the last one emitted ended. */
    ghost predicate Follows(e: Emission)
      reads `prevFrame, `emitted
    {
      if e.last then e.frame.ts <= Low()
      else prevFrame.Some? && e.frame.duration > 0 && prevFrame.value.ts == End(e)
    }

    constructor (fps: Rate, codec: (nat, int) -> Answer)
      ensures Valid() && emitted == [] && this.fps == fps && this.codec == codec && sent == 0
      ensures clock == Clock(NOPTS, true, 0, 0, 0) && queue == [] && prevFrame == None && clockReset && !useDts
    {
      this.fps, this.codec := fps, codec;
      clock, clockReset, useDts := Clock(NOPTS, true, 0, 0, 0), true, false;
      queue, prevFrame, sent, emitted := [], None, 0, [];
    }

    method Flush(start: Stamp)
      modifies this
      ensures Valid() && emitted == [] && clock == Clock(NOPTS, true, 0, 0, start)
      ensures queue == [] && prevFrame == None && clockReset && !useDts && sent == old(sent)
    {
      useDts := false;
      clock := Clock(NOPTS, true, 0, 0, start);
      prevFrame := None;
      clockReset := true;
      queue := [];
      emitted := [];
    }

    /** The stamp the packet is sent with; a key packet after a flush decides which stamp is used. */
    method StampPacket(data: Option<Packet>) returns (stamp: int)
      modifies this`clockReset, this`useDts
      ensures useDts == if data.Some? && data.value.key && old(clockReset)
                        then data.value.pts == NOPTS && data.value.dts != NOPTS else old(useDts)
      ensures clockReset == (old(clockReset) && !(data.Some? && data.value.key))
      ensures stamp == PacketStamp(data, useDts)
      ensures data.Some? ==> stamp == if useDts then data.value.dts else data.value.pts
    {
      stamp := NOPTS;
      if data.Some? {
        var p := data.value;
        stamp := p.pts;
        if p.key && clockReset {
          useDts := p.pts == NOPTS && p.dts != NOPTS;
          clockReset := false;
        }
        if useDts {
          stamp := p.dts;
        }
      }
    }

    /** Sends a packet to the codec, stamps the pictures it yields and takes the next frame of the queue. */
    method DecodeInternal(data: Option<Packet>) returns (threw: bool, frame: Option<Frame>)
      requires Valid()
      modifies this`clock, this`clockReset, this`useDts, this`queue, this`sent
      ensures old(clock.time) <= clock.time && sent == old(sent) + 1
      ensures Valid() && (frame.Some? ==> Fits(frame.value))
      ensures useDts == if data.Some? && data.value.key && old(clockReset)
                        then data.value.pts == NOPTS && data.value.dts != NOPTS else old(useDts)
      ensures clockReset == (old(clockReset) && !(data.Some? && data.value.key))
      ensures var answer := codec(old(sent), PacketStamp(data, useDts));
        threw == answer.Refuses? && Delivers(answer, fps, old(clock), old(queue), clock, queue, frame)
    {
      var stamp := StampPacket(data);
      var answer := codec(sent, stamp);
      sent := sent + 1;
      threw := answer.Refuses?;
      frame := Receive(answer);
    }

    method Receive(answer: Answer) returns (frame: Option<Frame>)
      requires Valid()
      modifies this`clock, this`queue
      ensures Valid() && old(clock.time) <= clock.time && (frame.Some? ==> Fits(frame.value))
      ensures Delivers(answer, fps, old(clock), old(queue), clock, queue, frame)
    {
      if !answer.Yields? {
        return None;
      }
      TakePictures(answer.pictures);
      frame := NextQueuedFrame();
    }

    /** The frame lies between the frame held back and what is still queued. */
    ghost predicate Fits(f: Frame)
      reads `clock, `queue, `prevFrame, `emitted
    {
      Low() <= f.ts <= clock.time && Within(queue, f.ts, clock.time)
    }

    method NextQueuedFrame() returns (frame: Option<Frame>)
      requires Valid()
      modifies this`queue
      ensures Valid() && (frame.Some? ==> Fits(frame.value))
      ensures if old(queue) == [] then frame == None && queue == []
              else frame == Some(old(queue)[0]) && queue == old(queue)[1..]
    {
      if queue == [] {
        return None;
      }
      frame := Some(queue[0]);
      queue := queue[1..];
    }

    method TakePictures(pictures: seq<Picture>)
      requires Valid()
      modifies this`clock, this`queue
      ensures Valid() && old(clock.time) <= clock.time
      ensures clock == AllTicked(old(clock), pictures, fps)
      ensures queue == old(queue) + FramesOf(old(clock), pictures, fps)
    {
      ghost var before, was := clock, queue;
      for i := 0 to |pictures|
        invariant clock == AllTicked(before, pictures[..i], fps)
        invariant queue == was + FramesOf(before, pictures[..i], fps)
      {
        assert pictures[..i + 1][..i] == pictures[..i];
        clock := Ticked(clock, pictures[i], fps);
        queue := queue + [Frame(clock.time, clock.pktDuration)];
      }
      assert pictures[..|pictures|] == pictures;
      ClockNeverGoesBack(before, pictures, fps);
      Appended(was, FramesOf(before, pictures, fps), Low(), before.time, clock.time);
    }

    /** Hands out the frame held back, which ends where the next one starts, and holds that back. */
    method Emit(next: Frame) returns (out: Frame)
      requires Valid() && prevFrame.Some? && Fits(next) && next.ts > prevFrame.value.ts
      modifies this`prevFrame, this`emitted
      ensures Valid() && prevFrame == Some(next)
              && out == Frame(old(prevFrame).value.ts, next.ts - old(prevFrame).value.ts)
      ensures emitted == old(emitted) + [Emission(out, false)]
    {
      out := Frame(prevFrame.value.ts, next.ts - prevFrame.value.ts);
      JoinedGrows(emitted, Emission(out, false));
      prevFrame := Some(next);
      emitted := emitted + [Emission(out, false)];
    }

    /** Hands out the frame held back when the stream has ended. */
    method EmitLast() returns (out: Frame)
      requires Valid() && prevFrame.Some?
      modifies this`prevFrame, this`emitted
      ensures Valid() && prevFrame == None && out == Frame(old(prevFrame).value.ts, AverageDuration(fps))
      ensures emitted == old(emitted) + [Emission(out, true)]
    {
      out := Frame(prevFrame.value.ts, AverageDuration(fps));
      JoinedGrows(emitted, Emission(out, true));
      prevFrame := None;
      emitted := emitted + [Emission(out, true)];
    }

    /** A frame, or nothing if more packets are needed or the stream has ended. */
    method Decode(data: Option<Packet>) returns (threw: bool, frame: Option<Frame>)
      requires Valid()
      modifies this
      ensures Valid() && old(clock.time) <= clock.time
      ensures old(sent) < sent <= old(sent) + 2
      ensures threw ==> frame == None
      ensures sent == old(sent) + 1 ==> threw == codec(old(sent), PacketStamp(data, useDts)).Refuses?
      ensures sent == old(sent) + 2 ==> threw == codec(old(sent) + 1, NOPTS).Refuses?
      ensures threw && sent == old(sent) + 1 ==>
                clock == old(clock) && queue == old(queue) && prevFrame == old(prevFrame)
      ensures !threw && sent == old(sent) + 1 && data.None? && old(prevFrame).None? ==> prevFrame.None?
      ensures !threw && sent == old(sent) + 1 ==>
                Step(codec(old(sent), PacketStamp(data, useDts)), data, fps, old(clock), old(queue), old(prevFrame),
                     clock, queue, prevFrame, frame)
      ensures !threw && sent == old(sent) + 2 ==>
                data.None? && old(prevFrame).None?
                && TwoSteps(codec(old(sent), NOPTS), codec(old(sent) + 1, NOPTS), fps, old(clock), old(queue),
                            old(prevFrame), clock, queue, prevFrame, frame)
      ensures emitted == old(emitted) + if frame.Some? then [Emission(frame.value, prevFrame.None?)] else []
    {
      ghost var c, q, held := clock, queue, prevFrame;
      while true
        invariant Valid() && old(clock.time) <= clock.time && emitted == old(emitted)
        invariant sent == old(sent) ==> clock == old(clock) && queue == old(queue) && prevFrame == old(prevFrame)
        invariant sent != old(sent) ==> sent == old(sent) + 1 && data.None? && held.None? && prevFrame.Some?
                                        && Step(codec(old(sent), NOPTS), None, fps, c, q, held, clock, queue,
                                                prevFrame, None)
        decreases prevFrame.None?
      {
        ghost var mid, waiting, first, second := clock, queue, prevFrame, sent != old(sent);
        var again;
        threw, frame, again := DecodeStep(data);
        if !again {
          if second && !threw {
            StepsMake(codec(old(sent), NOPTS), codec(old(sent) + 1, NOPTS), fps, c, q, held, mid, waiting, first,
                      clock, queue, prevFrame, frame);
          }
          return;
        }
      }
    }

    /** One turn of the loop; `again` if a first frame was found in a stream that has ended. */
    method DecodeStep(data: Option<Packet>) returns (threw: bool, frame: Option<Frame>, again: bool)
      requires Valid()
      modifies this
      ensures Valid() && old(clock.time) <= clock.time && sent == old(sent) + 1
      ensures threw == codec(old(sent), PacketStamp(data, useDts)).Refuses?
      ensures threw ==> frame == None && !again
      ensures threw ==> clock == old(clock) && queue == old(queue) && prevFrame == old(prevFrame)
      ensures !threw ==>
                Step(codec(old(sent), PacketStamp(data, useDts)), data, fps, old(clock), old(queue), old(prevFrame),
                              clock, queue, prevFrame, frame)
      ensures again <==> !threw && data.None? && old(prevFrame).None? && prevFrame.Some?
      ensures emitted == old(emitted) + if frame.Some? then [Emission(frame.value, prevFrame.None?)] else []
    {
      var next;
      threw, next := DecodeInternal(data);
      frame, again := None, false;
      if !threw {
        frame, again := LookAhead(data, next);
      }
    }

    /** Holds the next frame back, drops it, or hands out the one held back. */
    method LookAhead(data: Option<Packet>, next: Option<Frame>) returns (frame: Option<Frame>, again: bool)
      requires Valid() && (next.Some? ==> Fits(next.value))
      modifies this`prevFrame, this`emitted
      ensures Valid() && LooksAhead(data, fps, next, old(prevFrame), prevFrame, frame)
      ensures again <==> data.None? && old(prevFrame).None? && prevFrame.Some?
      ensures emitted == old(emitted) + if frame.Some? then [Emission(frame.value, prevFrame.None?)] else []
    {
      frame, again := None, false;
      if next.Some? {
        if prevFrame.None? {
          prevFrame := next;
          again := data.None?;
          return;
        }
        var duration := next.value.ts - prevFrame.value.ts;
        if duration <= 0 {
          return;
        }
        var out := Emit(next.value);
        frame := Some(out);
      } else {
        if data.Some? || prevFrame.None? {
          return;
        }
        var out := EmitLast();
        frame := Some(out);
      }
    }
  }

  /** What becomes of the next decoded frame, if any: the first one is held back, one that is not later
      than the frame held back is dropped, a later one releases it; at the end of the stream it is released too. */
  ghost predicate LooksAhead(data: Option<Packet>, fps: Rate, next: Option<Frame>, held: Option<Frame>,
                             held': Option<Frame>, frame: Option<Frame>)
  {
    if next.Some? then
      if held.None? then held' == next && frame == None
      else if next.value.ts <= held.value.ts then held' == held && frame == None
      else held' == next && frame == Some(Frame(held.value.ts, next.value.ts - held.value.ts))
    else if data.None? && held.Some? then held' == None && frame == Some(Frame(held.value.ts, AverageDuration(fps)))
    else held' == held && frame == None
  }

  /** The codec's answer delivers a frame or none, with which the decoder looks ahead. */
  ghost predicate Step(answer: Answer, data: Option<Packet>, fps: Rate, c: Clock, q: seq<Frame>, held: Option<Frame>,
                       c': Clock, q': seq<Frame>, held': Option<Frame>, frame: Option<Frame>) {
    Running(c)
    && exists next :: Delivers(answer, fps, c, q, c', q', next) && LooksAhead(data, fps, next, held, held', frame)
  }

  /** Draining with no frame held back: the first frame is held back and the codec asked once more. */
  ghost predicate TwoSteps(a: Answer, b: Answer, fps: Rate, c: Clock, q: seq<Frame>, held: Option<Frame>,
                           c': Clock, q': seq<Frame>, held': Option<Frame>, frame: Option<Frame>) {
    exists mid, queue, first ::
      && Step(a, None, fps, c, q, held, mid, queue, first, None) && first.Some?
      && Step(b, None, fps, mid, queue, first, c', q', held', frame)
  }

  lemma StepsMake(a: Answer, b: Answer, fps: Rate, c: Clock, q: seq<Frame>, held: Option<Frame>, mid: Clock,
                  queue: seq<Frame>, first: Option<Frame>, c': Clock, q': seq<Frame>, held': Option<Frame>,
                  frame: Option<Frame>)
    requires Step(a, None, fps, c, q, held, mid, queue, first, None) && first.Some?
    requires Step(b, None, fps, mid, queue, first, c', q', held', frame)
    ensures TwoSteps(a, b, fps, c, q, held, c', q', held', frame)
  {
  }

  /** Pictures move the clock and join the queue, of which the first frame is taken; other answers change nothing. */
  ghost predicate Delivers(answer: Answer, fps: Rate, c: Clock, q: seq<Frame>, c': Clock, q': seq<Frame>,
                           frame: Option<Frame>)
    requires Running(c)
  {
    if answer.Yields? then
      var all := q + FramesOf(c, answer.pictures, fps);
      && c' == AllTicked(c, answer.pictures, fps)
      && (if all == [] then frame == None && q' == [] else frame == Some(all[0]) && q' == all[1..])
    else
      c' == c && q' == q && frame == None
  }

  /** The stamp a packet is sent to the codec with. */
  function PacketStamp(data: Option<Packet>, useDts: bool): int {
    if data.None? then NOPTS else if useDts then data.value.dts else data.value.pts
  }

  // ---------------------------------------------------------------- draining

  /** What draining a line of frames hands out: each frame lasts until the next one, the last one for the average
      duration; before a frame that is not later nothing is handed out, which ends the drain. */
  function Released(line: seq<Frame>, fps: Rate): seq<Frame> {
    if line == [] then []
    else if |line| == 1 then [Frame(line[0].ts, AverageDuration(fps))]
    else if line[1].ts <= line[0].ts then []
    else [Frame(line[0].ts, line[1].ts - line[0].ts)] + Released(line[1..], fps)
  }

  ghost predicate Rising(line: seq<Frame>) {
    forall i, j :: 0 <= i < j < |line| && j == i + 1 ==> line[i].ts < line[j].ts
  }

  /** Frame `i` was handed out with the time to its successor as duration. */
  ghost predicate HandedOut(line: seq<Frame>, out: seq<Frame>, fps: Rate, i: int) {
    0 <= i < |line| && 0 <= i < |out| && out[i].ts == line[i].ts
    && out[i].duration == if i + 1 < |line| then line[i + 1].ts - line[i].ts else AverageDuration(fps)
  }

  /** The first `k` stamps grow strictly up to that of frame `k`, whose successor has the same one. */
  ghost predicate FirstEqual(line: seq<Frame>, k: int) {
    0 <= k && k + 1 < |line| && Rising(line[..k + 1]) && line[k].ts == line[k + 1].ts
  }

  /** All frames of a line were handed out exactly if their stamps grow strictly; otherwise the drain ended at the
      first two equal ones. */
  ghost predicate Drained(line: seq<Frame>, out: seq<Frame>, fps: Rate) {
    && (|out| == |line| <==> Rising(line)) && (!Rising(line) ==> FirstEqual(line, |out|))
    && forall i :: 0 <= i < |out| ==> HandedOut(line, out, fps, i)
  }

  lemma {:induction false} ReleasedIff(line: seq<Frame>, fps: Rate)
    requires InOrder(line)
    ensures Drained(line, Released(line, fps), fps)
  {
    if |line| >= 2 && line[0].ts < line[1].ts {
      var rest := line[1..];
      var out, later := Released(line, fps), Released(rest, fps);
      ReleasedIff(rest, fps);
      RisingRest(line);
      forall i | 0 <= i < |out|
        ensures HandedOut(line, out, fps, i)
      {
        if i > 0 {
          assert HandedOut(rest, later, fps, i - 1);
        }
      }
      if !Rising(line) {
        FirstEqualRest(line, |later|);
      }
    }
  }

  lemma RisingRest(line: seq<Frame>)
    requires |line| >= 2 && line[0].ts < line[1].ts
    ensures Rising(line) <==> Rising(line[1..])
  {
    var rest := line[1..];
    if Rising(rest) {
      forall i, j | 0 <= i < j < |line| && j == i + 1
        ensures line[i].ts < line[j].ts
      {
        if i > 0 {
          assert rest[i - 1].ts < rest[j - 1].ts;
        }
      }
    }
  }

  lemma FirstEqualRest(line: seq<Frame>, k: int)
    requires |line| >= 2 && line[0].ts < line[1].ts && FirstEqual(line[1..], k)
    ensures FirstEqual(line, k + 1)
  {
    var start := line[..k + 2];
    assert start[1..] == line[1..][..k + 1];
    RisingRest(start);
  }

  /** Frames held back, queued and still in the codec when it has `pictures` left. */
  function LineOf(c: Clock, q: seq<Frame>, held: Option<Frame>, pictures: seq<Picture>, fps: Rate): seq<Frame>
    requires Running(c)
  {
    (if held.Some? then [held.value] else []) + q + FramesOf(c, pictures, fps)
  }

  /** A call without data that has a frame to look ahead from takes the first release off the line. */
  lemma StepReleases(pictures: seq<Picture>, fps: Rate, c: Clock, q: seq<Frame>, held: Option<Frame>, c': Clock,
                     q': seq<Frame>, held': Option<Frame>, frame: Option<Frame>)
    requires Step(Yields(pictures), None, fps, c, q, held, c', q', held', frame)
    requires held.None? ==> held'.None?
    ensures Running(c')
    ensures Released(LineOf(c, q, held, pictures, fps), fps) ==
            if frame.Some? then [frame.value] + Released(LineOf(c', q', held', [], fps), fps) else []
  {
    var line, line' := LineOf(c, q, held, pictures, fps), LineOf(c', q', held', [], fps);
    var all := q + FramesOf(c, pictures, fps);
    if held.Some? {
      assert line == [held.value] + all;
      if all != [] && all[0].ts > held.value.ts {
        assert line' == all && line[1..] == all;
      }
    }
  }

  /** With no frame held back the first one is, and the line stays as it was. */
  lemma StepHolds(pictures: seq<Picture>, fps: Rate, c: Clock, q: seq<Frame>, c': Clock, q': seq<Frame>,
                  held': Option<Frame>)
    requires Step(Yields(pictures), None, fps, c, q, None, c', q', held', None) && held'.Some?
    ensures Running(c')
    ensures LineOf(c', q', held', [], fps) == LineOf(c, q, None, pictures, fps)
  {
  }

  lemma TwoStepsRelease(pictures: seq<Picture>, fps: Rate, c: Clock, q: seq<Frame>, held: Option<Frame>, c': Clock,
                        q': seq<Frame>, held': Option<Frame>, frame: Option<Frame>)
    requires TwoSteps(Yields(pictures), Yields([]), fps, c, q, held, c', q', held', frame) && held.None?
    ensures Running(c')
    ensures Released(LineOf(c, q, held, pictures, fps), fps) ==
            if frame.Some? then [frame.value] + Released(LineOf(c', q', held', [], fps), fps) else []
  {
    var mid, queue, first :|
      && Step(Yields(pictures), None, fps, c, q, held, mid, queue, first, None) && first.Some?
      && Step(Yields([]), None, fps, mid, queue, first, c', q', held', frame);
    StepHolds(pictures, fps, c, q, mid, queue, first);
    StepReleases([], fps, mid, queue, first, c', q', held', frame);
  }

  /** The codec answers the first empty packet with all it has left, and later ones with nothing. */
  ghost predicate Drains(codec: (nat, int) -> Answer, sent: nat, pictures: seq<Picture>) {
    codec(sent, NOPTS) == Yields(pictures) && forall n: nat :: n > sent ==> codec(n, NOPTS) == Yields([])
  }

  /** Asks for frames without data until none comes, as readers do at the end of the stream. */
  method Drain(d: DecoderVideo, ghost pictures: seq<Picture>) returns (out: seq<Frame>)
    requires d.Valid() && Drains(d.codec, d.sent, pictures)
    modifies d
    ensures d.Valid()
    ensures out == Released(old(LineOf(d.clock, d.queue, d.prevFrame, pictures, d.fps)), d.fps)
    ensures Drained(old(LineOf(d.clock, d.queue, d.prevFrame, pictures, d.fps)), out, d.fps)
  {
    LineInOrder(d, pictures);
    ReleasedIff(LineOf(d.clock, d.queue, d.prevFrame, pictures, d.fps), d.fps);
    out := DrainAll(d, Released(LineOf(d.clock, d.queue, d.prevFrame, pictures, d.fps), d.fps));
  }

  /** Draining the decoder will hand out `rest`. */
  ghost predicate WillRelease(d: DecoderVideo, rest: seq<Frame>)
    reads d
  {
    match d.codec(d.sent, NOPTS)
    case Yields(pictures) =>
      && d.Valid() && Drains(d.codec, d.sent, pictures)
      && rest == Released(LineOf(d.clock, d.queue, d.prevFrame, pictures, d.fps), d.fps)
    case _ => false
  }

  lemma FirstMoves(out: seq<Frame>, left: seq<Frame>)
    ensures if left == [] then out + left == out else out + left == out + [left[0]] + left[1..]
  {
  }

  method DrainAll(d: DecoderVideo, ghost rest: seq<Frame>) returns (out: seq<Frame>)
    requires WillRelease(d, rest)
    modifies d
    ensures d.Valid() && out == rest
  {
    out := [];
    ghost var left := rest;
    while true
      invariant WillRelease(d, left) && rest == out + left
      decreases |left|
    {
      FirstMoves(out, left);
      var frame := DrainOne(d, left);
      if frame.None? {
        return;
      }
      out, left := out + [frame.value], left[1..];
    }
  }

  method DrainOne(d: DecoderVideo, ghost rest: seq<Frame>) returns (frame: Option<Frame>)
    requires WillRelease(d, rest)
    modifies d
    ensures frame.None? ==> d.Valid() && rest == []
    ensures frame.Some? ==> rest != [] && frame.value == rest[0] && WillRelease(d, rest[1..])
  {
    ghost var pictures := d.codec(d.sent, NOPTS).pictures;
    ghost var c, q, held, sent := d.clock, d.queue, d.prevFrame, d.sent;
    var threw;
    threw, frame := d.Decode(None);
    if d.sent == sent + 1 {
      StepReleases(pictures, d.fps, c, q, held, d.clock, d.queue, d.prevFrame, frame);
    } else {
      TwoStepsRelease(pictures, d.fps, c, q, held, d.clock, d.queue, d.prevFrame, frame);
    }
  }

  lemma Prepended(held: Frame, all: seq<Frame>, high: int)
    requires InOrder(all) && Within(all, held.ts, high)
    ensures InOrder([held] + all)
  {
    var line := [held] + all;
    forall i, j | 0 <= i <= j < |line|
      ensures line[i].ts <= line[j].ts
    {
      if i > 0 {
        assert line[i] == all[i - 1] && line[j] == all[j - 1];
      } else if j > 0 {
        assert line[j] == all[j - 1];
      }
    }
  }

  /** Frames held back, queued and to come are in the order of their stamps. */
  lemma LineInOrder(d: DecoderVideo, pictures: seq<Picture>)
    requires d.Valid()
    ensures InOrder(LineOf(d.clock, d.queue, d.prevFrame, pictures, d.fps))
  {
    var c, q, high := d.clock, d.queue, AllTicked(d.clock, pictures, d.fps).time;
    var fs := FramesOf(c, pictures, d.fps);
    ClockNeverGoesBack(c, pictures, d.fps);
    Appended(q, fs, d.Low(), c.time, high);
    if d.prevFrame.Some? {
      Prepended(d.prevFrame.value, q + fs, high);
      assert LineOf(c, q, d.prevFrame, pictures, d.fps) == [d.prevFrame.value] + (q + fs);
    } else {
      assert LineOf(c, q, d.prevFrame, pictures, d.fps) == q + fs;
    }
  }

  /** The frames of the first two pictures of any number share a stamp if the pictures do. */
  lemma {:induction false} EqualStamps(c: Clock, ps: seq<Picture>, fps: Rate)
    requires Running(c) && c.first
    requires |ps| >= 2 && NOPTS != ps[0].bestEffort == ps[1].bestEffort
    ensures FramesOf(c, ps, fps)[0].ts == FramesOf(c, ps, fps)[1].ts == ps[0].bestEffort
  {
    var before := ps[..|ps| - 1];
    if |ps| > 2 {
      EqualStamps(c, before, fps);
    } else {
      assert before == [ps[0]] && before[..0] == [];
      assert AllTicked(c, before, fps) == Ticked(c, ps[0], fps);
      assert FramesOf(c, before, fps) == [Frame(ps[0].bestEffort, AllTicked(c, before, fps).pktDuration)];
    }
  }

  /** With nothing decoded yet, every frame is lost if the codec's first two pictures have one stamp. */
  method EqualStampsAreLost(d: DecoderVideo, ghost pictures: seq<Picture>) returns (out: seq<Frame>)
    requires d.Valid() && d.clock.first && d.queue == [] && d.prevFrame == None
    requires |pictures| >= 2 && NOPTS != pictures[0].bestEffort == pictures[1].bestEffort
    requires Drains(d.codec, d.sent, pictures)
    modifies d
    ensures |old(LineOf(d.clock, d.queue, d.prevFrame, pictures, d.fps))| == |pictures|
    ensures out == []
  {
    EqualStamps(d.clock, pictures, d.fps);
    assert LineOf(d.clock, [], None, pictures, d.fps) == FramesOf(d.clock, pictures, d.fps);
    out := Drain(d, pictures);
  }

  /** The frames have the stamps of the pictures, each lasts until the next and the last for the average duration. */
  ghost predicate AsStamped(pictures: seq<Picture>, out: seq<Frame>, fps: Rate) {
    && |out| == |pictures|
    && forall i :: 0 <= i < |out| ==>
         && out[i].ts == pictures[i].bestEffort
         && out[i].duration == if i + 1 < |pictures| then pictures[i + 1].bestEffort - pictures[i].bestEffort
                               else AverageDuration(fps)
  }

  lemma GrowingReleased(c: Clock, pictures: seq<Picture>, fps: Rate)
    requires Running(c) && InStep(c, pictures)
    requires forall i, j :: 0 <= i < j < |pictures| ==> pictures[i].bestEffort < pictures[j].bestEffort
    ensures AsStamped(pictures, Released(FramesOf(c, pictures, fps), fps), fps)
  {
    var line := FramesOf(c, pictures, fps);
    var out := Released(line, fps);
    forall i | 0 <= i < |line|
      ensures line[i].ts == pictures[i].bestEffort
    {
      StampsKept(c, pictures, fps, i);
    }
    ReleasedIff(line, fps);
    assert Rising(line);
    forall i | 0 <= i < |out|
      ensures out[i].ts == pictures[i].bestEffort
      ensures out[i].duration == if i + 1 < |pictures| then pictures[i + 1].bestEffort - pictures[i].bestEffort
                                 else AverageDuration(fps)
    {
      assert HandedOut(line, out, fps, i);
    }
  }

  /** Strictly growing stamps that the codec gave to its pictures are handed out one by one. */
  method DrainGrowing(d: DecoderVideo, ghost pictures: seq<Picture>) returns (out: seq<Frame>)
    requires d.Valid() && d.queue == [] && d.prevFrame == None && InStep(d.clock, pictures)
    requires forall i, j :: 0 <= i < j < |pictures| ==> pictures[i].bestEffort < pictures[j].bestEffort
    requires Drains(d.codec, d.sent, pictures)
    modifies d
    ensures AsStamped(pictures, out, d.fps)
  {
    GrowingReleased(d.clock, pictures, d.fps);
    assert LineOf(d.clock, [], None, pictures, d.fps) == FramesOf(d.clock, pictures, d.fps);
    out := Drain(d, pictures);
  }

  /** A new decoder hands out nothing of a codec that holds one picture twice. */
  method TwoPicturesAreLost(fps: Rate, p: Picture) returns (codec: (nat, int) -> Answer, out: seq<Frame>)
    requires p.bestEffort != NOPTS
    ensures Drains(codec, 0, [p, p]) && out == []
  {
    codec := (n: nat, stamp: int) => if n == 0 then Yields([p, p]) else Yields([]);
    var d := new DecoderVideo(fps, codec);
    out := EqualStampsAreLost(d, [p, p]);
  }

  // ---------------------------------------------------------------- what became of the pictures

  /** All pictures since a flush, and how many of their frames were taken off the queue. */
  datatype History = History(origin: Clock, pictures: seq<Picture>, taken: nat)

  ghost function Stamps(frames: seq<Frame>): set<int> {
    set i | 0 <= i < |frames| :: frames[i].ts
  }

  ghost function EmittedStamps(es: seq<Emission>): set<int> {
    set i | 0 <= i < |es| :: es[i].frame.ts
  }

  ghost function HeldStamp(held: Option<Frame>): set<int> {
    if held.Some? then {held.value.ts} else {}
  }

  ghost function PicturesOf(answer: Answer): seq<Picture> {
    if answer.Yields? then answer.pictures else []
  }

  /** The queue holds the rest of the frames made of all pictures, and no stamp of those taken off it is lost: each was
      handed out or is held back. */
  ghost predicate Accounts(h: History, fps: Rate, c: Clock, q: seq<Frame>, held: Option<Frame>, es: seq<Emission>) {
    match h
    case History(origin, pictures, taken) =>
      && Running(origin) && c == AllTicked(origin, pictures, fps)
      && taken <= |pictures| && q == FramesOf(origin, pictures, fps)[taken..]
      && Stamps(FramesOf(origin, pictures, fps)[..taken]) == EmittedStamps(es) + HeldStamp(held)
  }

  /** More pictures came in. */
  ghost predicate Grew(h: History, h': History, more: seq<Picture>) {
    h'.origin == h.origin && h'.pictures == h.pictures + more
  }

  lemma {:induction false} FramesJoin(c: Clock, a: seq<Picture>, b: seq<Picture>, fps: Rate)
    requires Running(c)
    ensures AllTicked(c, a + b, fps) == AllTicked(AllTicked(c, a, fps), b, fps)
    ensures FramesOf(c, a + b, fps) == FramesOf(c, a, fps) + FramesOf(AllTicked(c, a, fps), b, fps)
  {
    if b != [] {
      FramesJoin(c, a, b[..|b| - 1], fps);
      assert (a + b)[..|a + b| - 1] == a + b[..|b| - 1];
    } else {
      assert a + b == a;
    }
  }

  lemma StampsOneMore(frames: seq<Frame>, f: Frame)
    ensures Stamps(frames + [f]) == Stamps(frames) + {f.ts}
  {
    var all := frames + [f];
    assert forall i :: 0 <= i < |frames| ==> all[i] == frames[i];
    assert all[|frames|] == f;
  }

  lemma EmittedOneMore(es: seq<Emission>, e: Emission)
    ensures EmittedStamps(es + [e]) == EmittedStamps(es) + {e.frame.ts}
  {
    var all := es + [e];
    assert forall i :: 0 <= i < |es| ==> all[i] == es[i];
    assert all[|es|] == e;
  }

  /** Looking ahead loses no stamp: a frame that is dropped has the stamp of the one held back. */
  lemma LookAheadKeepsStamps(data: Option<Packet>, fps: Rate, next: Option<Frame>, held: Option<Frame>,
                             held': Option<Frame>, frame: Option<Frame>, es: seq<Emission>, es': seq<Emission>)
    requires LooksAhead(data, fps, next, held, held', frame) && Emits(es, es', frame)
    requires next.Some? && held.Some? ==> held.value.ts <= next.value.ts
    ensures EmittedStamps(es') + HeldStamp(held') == EmittedStamps(es) + HeldStamp(held) + HeldStamp(next)
  {
    if frame.Some? {
      EmittedOneMore(es, es'[|es|]);
      assert es' == es + [es'[|es|]];
    }
  }

  /** The frame, if any, was handed out. */
  ghost predicate Emits(es: seq<Emission>, es': seq<Emission>, frame: Option<Frame>) {
    if frame.Some? then |es'| == |es| + 1 && es'[..|es|] == es && es'[|es|].frame == frame.value else es' == es
  }

  lemma LineSplits(before: seq<Frame>, more: seq<Frame>, n: nat, q: seq<Frame>)
    requires n <= |before| && q == before[n..]
    ensures (before + more)[n..] == q + more && (before + more)[..n] == before[..n]
  {
  }

  lemma NextOfLine(line: seq<Frame>, n: nat, all: seq<Frame>)
    requires n < |line| && line[n..] == all
    ensures line[..n + 1] == line[..n] + [all[0]] && line[n + 1..] == all[1..]
  {
  }

  /** What the codec yielded was queued; `next` is the frame just taken off the queue. */
  lemma AccountsTaken(h: History, fps: Rate, answer: Answer, c: Clock, q: seq<Frame>, held: Option<Frame>,
                      es: seq<Emission>, c': Clock, q': seq<Frame>, next: Option<Frame>)
    returns (h': History)
    requires Accounts(h, fps, c, q, held, es) && Running(c) && Delivers(answer, fps, c, q, c', q', next)
    ensures Grew(h, h', PicturesOf(answer))
    ensures Running(h.origin) && c' == AllTicked(h.origin, h'.pictures, fps)
    ensures h'.taken <= |h'.pictures| && q' == FramesOf(h.origin, h'.pictures, fps)[h'.taken..]
    ensures Stamps(FramesOf(h.origin, h'.pictures, fps)[..h'.taken])
            == EmittedStamps(es) + HeldStamp(held) + HeldStamp(next)
  {
    var ps := h.pictures + PicturesOf(answer);
    var line, all := FramesOf(h.origin, ps, fps), q + FramesOf(c, PicturesOf(answer), fps);
    FramesJoin(h.origin, h.pictures, PicturesOf(answer), fps);
    LineSplits(FramesOf(h.origin, h.pictures, fps), FramesOf(c, PicturesOf(answer), fps), h.taken, q);
    if next.Some? {
      h' := History(h.origin, ps, h.taken + 1);
      NextOfLine(line, h.taken, all);
      StampsOneMore(line[..h.taken], next.value);
    } else {
      h' := History(h.origin, ps, h.taken);
      assert q + [] == q;
    }
  }

  /** Whatever pictures come, frames held back, queued and to come are in the order of their stamps. */
  ghost predicate Orderly(fps: Rate, c: Clock, q: seq<Frame>, held: Option<Frame>)
    requires Running(c)
  {
    forall pictures :: InOrder(LineOf(c, q, held, pictures, fps))
  }

  lemma NextInOrder(answer: Answer, fps: Rate, c: Clock, q: seq<Frame>, held: Frame, c': Clock, q': seq<Frame>,
                    next: Frame)
    requires Running(c) && Delivers(answer, fps, c, q, c', q', Some(next)) && Orderly(fps, c, q, Some(held))
    ensures held.ts <= next.ts
  {
    var line := LineOf(c, q, Some(held), PicturesOf(answer), fps);
    assert q + [] == q;
    assert line[0] == held && line[1] == next;
  }

  /** One answer of the codec. */
  lemma StepAccounts(h: History, fps: Rate, answer: Answer, data: Option<Packet>, c: Clock, q: seq<Frame>,
                     held: Option<Frame>, es: seq<Emission>, c': Clock, q': seq<Frame>, held': Option<Frame>,
                     frame: Option<Frame>, es': seq<Emission>)
    returns (h': History)
    requires Accounts(h, fps, c, q, held, es) && Step(answer, data, fps, c, q, held, c', q', held', frame)
    requires Orderly(fps, c, q, held) && Emits(es, es', frame)
    ensures Accounts(h', fps, c', q', held', es') && Grew(h, h', PicturesOf(answer))
  {
    var next :| Delivers(answer, fps, c, q, c', q', next) && LooksAhead(data, fps, next, held, held', frame);
    if next.Some? && held.Some? {
      NextInOrder(answer, fps, c, q, held.value, c', q', next.value);
    }
    h' := AccountsTaken(h, fps, answer, c, q, held, es, c', q', next);
    LookAheadKeepsStamps(data, fps, next, held, held', frame, es, es');
  }

  /** Holding the first frame back leaves the line as it was. */
  lemma HeldIsOrderly(fps: Rate, a: Answer, c: Clock, q: seq<Frame>, mid: Clock, queue: seq<Frame>,
                      first: Option<Frame>)
    requires Step(a, None, fps, c, q, None, mid, queue, first, None) && first.Some? && Orderly(fps, c, q, None)
    ensures Running(mid) && Orderly(fps, mid, queue, first)
  {
    var ps := PicturesOf(a);
    var all := q + FramesOf(c, ps, fps);
    assert q + [] == q;
    assert all == [first.value] + queue;
    forall more
      ensures InOrder(LineOf(mid, queue, first, more, fps))
    {
      FramesJoin(c, ps, more, fps);
      assert LineOf(mid, queue, first, more, fps) == LineOf(c, q, None, ps + more, fps);
    }
  }

  /** Two answers, the first of which only gave a frame to hold back. */
  lemma TwoStepsAccount(h: History, fps: Rate, a: Answer, b: Answer, c: Clock, q: seq<Frame>, es: seq<Emission>,
                        c': Clock, q': seq<Frame>, held': Option<Frame>, frame: Option<Frame>, es': seq<Emission>)
    returns (h': History)
    requires Accounts(h, fps, c, q, None, es) && TwoSteps(a, b, fps, c, q, None, c', q', held', frame)
    requires Running(c) && Orderly(fps, c, q, None) && Emits(es, es', frame)
    ensures Accounts(h', fps, c', q', held', es') && Grew(h, h', PicturesOf(a) + PicturesOf(b))
  {
    var mid, queue, first :| Step(a, None, fps, c, q, None, mid, queue, first, None) && first.Some?
                             && Step(b, None, fps, mid, queue, first, c', q', held', frame);
    HeldIsOrderly(fps, a, c, q, mid, queue, first);
    var h1 := StepAccounts(h, fps, a, None, c, q, None, es, mid, queue, first, None, es);
    h' := StepAccounts(h1, fps, b, None, mid, queue, first, es, c', q', held', frame, es');
    assert h.pictures + PicturesOf(a) + PicturesOf(b) == h.pictures + (PicturesOf(a) + PicturesOf(b));
  }

  /** The pictures the codec yields for packets with these stamps, from number `from` on. */
  ghost function Yielded(codec: (nat, int) -> Answer, from: nat, stamps: seq<int>): seq<Picture> {
    if stamps == [] then []
    else Yielded(codec, from, stamps[..|stamps| - 1]) + PicturesOf(codec(from + |stamps| - 1, stamps[|stamps| - 1]))
  }

  /** The stamps of the packets sent in one call. */
  ghost function StampsSent(n: nat, data: Option<Packet>, useDts: bool): seq<int> {
    if n == 1 then [PacketStamp(data, useDts)] else [NOPTS, NOPTS]
  }

  lemma YieldedOnce(codec: (nat, int) -> Answer, from: nat, stamp: int)
    ensures Yielded(codec, from, [stamp]) == PicturesOf(codec(from, stamp))
  {
    assert [stamp][..0] == [];
  }

  lemma YieldedTwice(codec: (nat, int) -> Answer, from: nat, a: int, b: int)
    ensures Yielded(codec, from, [a, b]) == PicturesOf(codec(from, a)) + PicturesOf(codec(from + 1, b))
  {
    YieldedOnce(codec, from, a);
    assert [a, b][..1] == [a];
  }

  /** What a call that sent `n` packets and did not throw did. */
  ghost predicate Called(fps: Rate, codec: (nat, int) -> Answer, from: nat, n: nat, data: Option<Packet>,
                         useDts: bool, c: Clock, q: seq<Frame>, held: Option<Frame>, c': Clock, q': seq<Frame>,
                         held': Option<Frame>, frame: Option<Frame>)
  {
    match data
    case Some(p) =>
      n == 1 && Step(codec(from, PacketStamp(data, useDts)), data, fps, c, q, held, c', q', held', frame)
    case None =>
      if n == 1 then Step(codec(from, NOPTS), data, fps, c, q, held, c', q', held', frame)
      else held.None? && TwoSteps(codec(from, NOPTS), codec(from + 1, NOPTS), fps, c, q, held, c', q', held', frame)
  }

  lemma CallAccounts(h: History, fps: Rate, codec: (nat, int) -> Answer, from: nat, n: nat, data: Option<Packet>,
                     useDts: bool, c: Clock, q: seq<Frame>, held: Option<Frame>, es: seq<Emission>, c': Clock,
                     q': seq<Frame>, held': Option<Frame>, frame: Option<Frame>, es': seq<Emission>)
    returns (h': History)
    requires Accounts(h, fps, c, q, held, es) && Running(c) && Orderly(fps, c, q, held) && Emits(es, es', frame)
    requires Called(fps, codec, from, n, data, useDts, c, q, held, c', q', held', frame)
    ensures Accounts(h', fps, c', q', held', es')
    ensures Grew(h, h', Yielded(codec, from, StampsSent(n, data, useDts)))
  {
    if n == 1 {
      YieldedOnce(codec, from, PacketStamp(data, useDts));
      h' := StepAccounts(h, fps, codec(from, PacketStamp(data, useDts)), data, c, q, held, es, c', q', held', frame,
                         es');
    } else {
      YieldedTwice(codec, from, NOPTS, NOPTS);
      h' := TwoStepsAccount(h, fps, codec(from, NOPTS), codec(from + 1, NOPTS), c, q, es, c', q', held', frame, es');
    }
  }

  lemma DecoderIsOrderly(d: DecoderVideo)
    requires d.Valid()
    ensures Orderly(d.fps, d.clock, d.queue, d.prevFrame)
  {
    forall pictures
      ensures InOrder(LineOf(d.clock, d.queue, d.prevFrame, pictures, d.fps))
    {
      LineInOrder(d, pictures);
    }
  }

  /** Pictures and stamps are accounted for. */
  ghost predicate Accounted(d: DecoderVideo, h: History)
    reads d
  {
    Accounts(h, d.fps, d.clock, d.queue, d.prevFrame, d.emitted)
  }

  lemma NewAccounts(d: DecoderVideo)
    requires Running(d.clock) && d.queue == [] && d.prevFrame == None && d.emitted == []
    ensures Accounted(d, History(d.clock, [], 0))
  {
  }

  method CallDecoder(d: DecoderVideo, data: Option<Packet>) returns (threw: bool, frame: Option<Frame>)
    requires d.Valid()
    modifies d
    ensures d.Valid() && old(d.sent) < d.sent <= old(d.sent) + (if data.Some? && !threw then 1 else 2)
    ensures !threw ==>
              Called(d.fps, d.codec, old(d.sent), d.sent - old(d.sent), data, d.useDts, old(d.clock), old(d.queue),
                     old(d.prevFrame), d.clock, d.queue, d.prevFrame, frame)
    ensures !threw ==> Emits(old(d.emitted), d.emitted, frame)
  {
    threw, frame := d.Decode(data);
  }

  /** One call of the decoder. */
  method DecodeNext(d: DecoderVideo, data: Option<Packet>, ghost h: History)
    returns (threw: bool, frame: Option<Frame>, ghost h': History)
    requires d.Valid() && Accounted(d, h)
    modifies d
    ensures d.Valid() && old(d.sent) < d.sent <= old(d.sent) + (if data.Some? && !threw then 1 else 2)
    ensures !threw ==> Accounted(d, h') && Emits(old(d.emitted), d.emitted, frame)
    ensures !threw ==> Grew(h, h', Yielded(d.codec, old(d.sent), StampsSent(d.sent - old(d.sent), data, d.useDts)))
  {
    ghost var c, q, held, es, from := d.clock, d.queue, d.prevFrame, d.emitted, d.sent;
    DecoderIsOrderly(d);
    threw, frame := CallDecoder(d, data);
    h' := h;
    if !threw {
      h' := CallAccounts(h, d.fps, d.codec, from, d.sent - from, data, d.useDts, c, q, held, es, d.clock, d.queue,
                         d.prevFrame, frame, d.emitted);
    }
  }

  /** `out` are the frames handed out. */
  ghost predicate Shown(es: seq<Emission>, out: seq<Frame>) {
    |es| == |out| && forall i :: 0 <= i < |out| ==> es[i].frame == out[i]
  }

  /** Each packet was sent with its pts or its dts. */
  ghost predicate SentWith(packets: seq<Packet>, stamps: seq<int>) {
    |stamps| <= |packets|
    && forall i :: 0 <= i < |stamps| ==> stamps[i] == packets[i].pts || stamps[i] == packets[i].dts
  }

  /** What the codec yielded for packets with these stamps, sent from number `from` on, and what was handed out. */
  ghost predicate SoFar(codec: (nat, int) -> Answer, sent: nat, es: seq<Emission>, h: History, origin: Clock, from: nat,
                        stamps: seq<int>, out: seq<Frame>)
  {
    match h
    case History(start, pictures, _) =>
      start == origin && pictures == Yielded(codec, from, stamps) && sent == from + |stamps| && Shown(es, out)
  }

  /** A decoder that has just been flushed is given packets one after the other, until it throws. What it hands out and
      holds back has exactly the stamps of the frames taken off the queue; the rest of the frames is queued. */
  method DecodeAll(d: DecoderVideo, packets: seq<Packet>)
    returns (threw: bool, out: seq<Frame>, ghost h: History, ghost stamps: seq<int>)
    requires d.Valid() && d.queue == [] && d.prevFrame == None && d.emitted == []
    modifies d
    ensures d.Valid() && SentWith(packets, stamps)
    ensures !threw ==> |stamps| == |packets| && Accounted(d, h)
    ensures !threw ==> SoFar(d.codec, d.sent, d.emitted, h, old(d.clock), old(d.sent), stamps, out)
  {
    threw, out, stamps, h := false, [], [], History(d.clock, [], 0);
    NewAccounts(d);
    for k := 0 to |packets|
      invariant d.Valid() && |stamps| == k && SentWith(packets, stamps) && !threw && Accounted(d, h)
      invariant SoFar(d.codec, d.sent, d.emitted, h, old(d.clock), old(d.sent), stamps, out)
    {
      threw, out, h, stamps := DecodePacket(d, packets, k, h, old(d.clock), old(d.sent), stamps, out);
      if threw {
        return;
      }
    }
  }

  method DecodePacket(d: DecoderVideo, packets: seq<Packet>, k: nat, ghost h: History, ghost origin: Clock,
                      ghost from: nat, ghost stamps: seq<int>, out: seq<Frame>)
    returns (threw: bool, more: seq<Frame>, ghost h': History, ghost stamps': seq<int>)
    requires d.Valid() && Accounted(d, h) && SoFar(d.codec, d.sent, d.emitted, h, origin, from, stamps, out)
    requires SentWith(packets, stamps) && k == |stamps| < |packets|
    modifies d
    ensures d.Valid() && |stamps'| == k + 1 && SentWith(packets, stamps')
    ensures !threw ==> Accounted(d, h') && SoFar(d.codec, d.sent, d.emitted, h', origin, from, stamps', more)
  {
    ghost var es, sent := d.emitted, d.sent;
    var frame;
    threw, frame, h' := DecodeNext(d, Some(packets[k]), h);
    ghost var stamp := PacketStamp(Some(packets[k]), d.useDts);
    stamps' := stamps + [stamp];
    more := out + if frame.Some? then [frame.value] else [];
    if !threw {
      OnePacketMore(d.codec, from, stamps, stamp, sent, h, h', origin, es, d.emitted, out, frame);
    }
  }

  lemma OnePacketMore(codec: (nat, int) -> Answer, from: nat, stamps: seq<int>, stamp: int, sent: nat, h: History,
                      h': History, origin: Clock, es: seq<Emission>, es': seq<Emission>, out: seq<Frame>,
                      frame: Option<Frame>)
    requires SoFar(codec, sent, es, h, origin, from, stamps, out) && Emits(es, es', frame)
    requires Grew(h, h', Yielded(codec, sent, [stamp]))
    ensures SoFar(codec, sent + 1, es', h', origin, from, stamps + [stamp],
                  out + if frame.Some? then [frame.value] else [])
  {
    YieldedOnce(codec, sent, stamp);
    YieldedOneMore(codec, from, stamps, stamp);
    OneFrameMore(es, es', out, frame);
  }

  lemma OneFrameMore(es: seq<Emission>, es': seq<Emission>, out: seq<Frame>, frame: Option<Frame>)
    requires Shown(es, out) && Emits(es, es', frame)
    ensures Shown(es', out + if frame.Some? then [frame.value] else [])
  {
    if frame.Some? {
      assert forall i :: 0 <= i < |es| ==> es'[i] == es'[..|es|][i];
    } else {
      assert out + [] == out;
    }
  }

  lemma YieldedOneMore(codec: (nat, int) -> Answer, from: nat, stamps: seq<int>, stamp: int)
    ensures Yielded(codec, from, stamps + [stamp])
            == Yielded(codec, from, stamps) + PicturesOf(codec(from + |stamps|, stamp))
  {
    assert (stamps + [stamp])[..|stamps|] == stamps;
  }

  /** Where the codec stamped all pictures in order, these are the pictures' own stamps: none is lost or made up. */
  lemma StampsAccountedFor(h: History, fps: Rate, c: Clock, q: seq<Frame>, held: Option<Frame>, es: seq<Emission>)
    requires Accounts(h, fps, c, q, held, es) && InStep(h.origin, h.pictures)
    ensures forall t :: t in EmittedStamps(es) + HeldStamp(held) <==>
                          exists i :: 0 <= i < h.taken && h.pictures[i].bestEffort == t
  {
    var line := FramesOf(h.origin, h.pictures, fps);
    forall i | 0 <= i < |line|
      ensures line[i].ts == h.pictures[i].bestEffort
    {
      StampsKept(h.origin, h.pictures, fps, i);
    }
    forall t
      ensures t in Stamps(line[..h.taken]) <==> exists i :: 0 <= i < h.taken && h.pictures[i].bestEffort == t
    {
      if t in Stamps(line[..h.taken]) {
        var i :| 0 <= i < h.taken && line[..h.taken][i].ts == t;
        assert h.pictures[i].bestEffort == t;
      }
      if i :| 0 <= i < h.taken && h.pictures[i].bestEffort == t {
        assert line[..h.taken][i].ts == t;
      }
    }
  }
}
