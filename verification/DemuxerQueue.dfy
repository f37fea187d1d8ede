/** The demuxer: one queue per stream, filled from the parser, and its positioning. */
module DemuxerQueue {
  import opened MediaTime
  import opened Options
  import opened PacketFeed
  import opened PacketQueue

  datatype MediaType = Video | Audio | Undefined

  /** The file as a finite sequence of packets. What a seek does to the position is left open:
      `outcomes(n, stream, time)` says whether the n-th seek succeeds and where it leaves the parser. */
  class Parser {
    const file: seq<Packet>
    const outcomes: (nat, nat, int) -> (bool, nat)
    var pos: nat
    var seeks: nat

    constructor (file: seq<Packet>, outcomes: (nat, nat, int) -> (bool, nat))
      ensures this.file == file && this.outcomes == outcomes && pos == 0 && seeks == 0
    {
      this.file, this.outcomes, pos, seeks := file, outcomes, 0, 0;
    }

    method Read() returns (p: Option<Packet>)
      requires pos <= |file|
      modifies this`pos
      ensures old(pos) == |file| ==> p == None && pos == old(pos)
      ensures old(pos) < |file| ==> p == Some(file[old(pos)]) && pos == old(pos) + 1
    {
      if pos == |file| {
        return None;
      }
      p := Some(file[pos]);
      pos := pos + 1;
    }

    method Seek(stream: nat, time: int) returns (ok: bool)
      requires pos <= |file|
      modifies this`pos, this`seeks
      ensures ok == outcomes(old(seeks), stream, time).0 && pos == Landing(old(seeks), stream, time)
              && seeks == old(seeks) + 1
    {
      var outcome := outcomes(seeks, stream, time);
      ok := outcome.0;
      pos := if outcome.1 <= |file| then outcome.1 else |file|;
      seeks := seeks + 1;
    }

    /** Where the n-th seek leaves the parser. */
    ghost function Landing(n: nat, stream: nat, time: int): (r: nat)
      ensures r <= |file|
    {
      if outcomes(n, stream, time).1 <= |file| then outcomes(n, stream, time).1 else |file|
    }
  }

  function Stretch(file: seq<Packet>, from: nat, to: nat): seq<Packet>
    requires from <= to <= |file|
  {
    file[from..to]
  }

  lemma StretchesJoin(file: seq<Packet>, a: nat, b: nat, c: nat)
    requires a <= b <= c <= |file|
    ensures Stretch(file, a, b) + Stretch(file, b, c) == Stretch(file, a, c)
  {
  }

  /** The list's position is known and at or before `time`. */
  ghost predicate StartsBy(list: seq<Packet>, time: int) {
    StartOf(list) != NOPTS && StartOf(list) <= time
  }

  lemma StartsByPosition(list: seq<Packet>, time: int, pos: int)
    requires IsPosition(list, pos)
    ensures StartsBy(list, time) <==> pos != NOPTS && pos <= time
  {
    PositionIsUnique(list, StartOf(list), pos);
  }

  // ---------------------------------------------------------------- going back

  function Pow2(n: nat): (r: nat)
    ensures r >= 1
  {
    if n == 0 then 1 else 2 * Pow2(n - 1)
  }

  /** The step back after try `n`: 4, 8, 16, ... seconds. */
  function StepBack(n: nat): (r: int)
    ensures r >= 4 * SECOND
  {
    if n == 0 then 4 * SECOND else 2 * StepBack(n - 1)
  }

  lemma {:induction false} StepIsPower(n: nat)
    ensures StepBack(n) == 4 * SECOND * Pow2(n)
  {
    if n > 0 {
      StepIsPower(n - 1);
    }
  }

  lemma {:induction false} StepsGrow(m: nat, k: nat)
    ensures m <= k ==> StepBack(m) <= StepBack(k)
  {
    if m < k {
      StepsGrow(m, k - 1);
    }
  }

  /** Try `k` is 4 * 2^k - 4 seconds before the time sought; only the last may be 0 instead. */
  ghost predicate GoesBack(time: int, tries: seq<int>) {
    && (forall k :: 0 <= k < |tries| - 1 ==> tries[k] > 0 && tries[k] == time - StepBack(k) + 4 * SECOND)
    && (tries != [] ==> var n := |tries| - 1; tries[n] == time - StepBack(n) + 4 * SECOND || (n > 0 && tries[n] == 0))
  }

  /** The time sought is tried first, and each later try is 4, 8, 16, ... seconds before the one that failed, or at 0 if
      that would be before the start. */
  ghost predicate StepsDown(time: int, tries: seq<int>) {
    && (tries != [] ==> tries[0] == time)
    && forall k {:trigger StepDownAt(tries, k)} :: 0 < k < |tries| ==> StepDownAt(tries, k)
  }

  ghost predicate StepDownAt(tries: seq<int>, k: int)
    requires 0 < k < |tries|
  {
    var t, step := tries[k - 1], 4 * SECOND * Pow2(k - 1);
    t > 0 && tries[k] == if t < step then 0 else t - step
  }

  lemma StepsDownFurther(time: int, tries: seq<int>, t: int)
    requires tries != [] && tries[|tries| - 1] == t && t > 0 && StepsDown(time, tries)
    ensures StepsDown(time, tries + [if t < StepBack(|tries| - 1) then 0 else t - StepBack(|tries| - 1)])
  {
    var more := tries + [if t < StepBack(|tries| - 1) then 0 else t - StepBack(|tries| - 1)];
    StepIsPower(|tries| - 1);
    forall k | 0 < k < |more|
      ensures StepDownAt(more, k)
    {
      if k < |tries| {
        assert StepDownAt(tries, k);
      }
    }
  }

  /** After a failed try at a positive time the next one is as far back as the steps say, or 0. */
  lemma StepsBack(time: int, tries: seq<int>, t: int)
    requires tries != [] && tries[|tries| - 1] == t && t > 0 && GoesBack(time, tries)
    ensures GoesBack(time, tries + [if t < StepBack(|tries| - 1) then 0 else t - StepBack(|tries| - 1)])
  {
    assert StepBack(|tries|) == 2 * StepBack(|tries| - 1);
  }

  /** At most log2(T / 4 s + 1) + 2 tries, the logarithm rounded down. */
  lemma TriesAreFew(time: int, tries: seq<int>, log: nat)
    requires GoesBack(time, tries) && time >= 0
    requires 4 * SECOND * Pow2(log) <= time + 4 * SECOND < 4 * SECOND * Pow2(log + 1)
    ensures |tries| <= log + 2
  {
    StepIsPower(log + 1);
    if |tries| >= 2 {
      var k := |tries| - 2;
      assert tries[k] > 0 && tries[k] == time - StepBack(k) + 4 * SECOND;
      StepsGrow(log + 1, k);
    }
  }

  /** How the reading of one packet went. */
  datatype Outcome = AtEnd | Skipped | Taken | Filled

  ghost predicate FedOne(before: seq<Queue>, after: seq<Queue>, p: Packet, seekTime: int) {
    p.stream < |before| && after == before[p.stream := Accepted(before[p.stream], p, seekTime)]
  }

  lemma FedOneMore(before: seq<Queue>, mid: seq<Queue>, after: seq<Queue>, file: seq<Packet>, from: nat, to: nat,
                   seekTime: int)
    requires from < to <= |file| && AllFed(before, mid, Stretch(file, from, to - 1), seekTime)
    requires FedOne(mid, after, file[to - 1], seekTime)
    ensures AllFed(before, after, Stretch(file, from, to), seekTime)
  {
    AllFedLast(before, mid, Stretch(file, from, to - 1), file[to - 1], seekTime);
    assert Stretch(file, from, to) == Stretch(file, from, to - 1) + [file[to - 1]];
  }

  /** How many of the packets belong to enabled queues. */
  ghost function Wanted(qs: seq<Queue>, ps: seq<Packet>): nat {
    if ps == [] then 0 else Wanted(qs, ps[..|ps| - 1]) + if IsWanted(qs, ps[|ps| - 1]) then 1 else 0
  }

  ghost predicate IsWanted(qs: seq<Queue>, p: Packet) {
    p.stream < |qs| && qs[p.stream].enabled
  }

  lemma WantedOneMore(before: seq<Queue>, mid: seq<Queue>, file: seq<Packet>, from: nat, to: nat, seekTime: int)
    requires from < to <= |file| && AllFed(before, mid, Stretch(file, from, to - 1), seekTime)
    ensures Wanted(before, Stretch(file, from, to)) ==
            Wanted(before, Stretch(file, from, to - 1)) + if IsWanted(mid, file[to - 1]) then 1 else 0
  {
    var ps := Stretch(file, from, to - 1);
    assert Stretch(file, from, to)[..|ps|] == ps;
    if file[to - 1].stream < |mid| {
      assert FedAt(before, mid, ps, seekTime, file[to - 1].stream);
    }
  }

  lemma FedFurther(before: seq<Queue>, mid: seq<Queue>, after: seq<Queue>, file: seq<Packet>, a: nat, b: nat, c: nat,
                   seekTime: int)
    requires a <= b <= c <= |file|
    requires AllFed(before, mid, Stretch(file, a, b), seekTime) && AllFed(mid, after, Stretch(file, b, c), seekTime)
    ensures AllFed(before, after, Stretch(file, a, c), seekTime)
  {
    AllFedJoins(before, mid, after, Stretch(file, a, b), Stretch(file, b, c), seekTime);
    StretchesJoin(file, a, b, c);
  }

  // ---------------------------------------------------------------- how much is read

  /** An enabled queue has a packet, or two key packets; one that can be empty only matters if `all` do. */
  ghost predicate HasEnough(q: Queue, keys: bool, all: bool) {
    q.enabled && (all || !q.canBeEmpty) ==> q.list != [] && (keys ==> KeyCount(q.list) >= 2)
  }

  ghost predicate SuppliedIn(qs: seq<Queue>, keys: bool, all: bool) {
    forall i {:trigger qs[i]} :: 0 <= i < |qs| ==> HasEnough(qs[i], keys, all)
  }

  /** The last batch was read only because the queues, as they were then, had not enough. */
  ghost predicate LastBatch(before: seq<Queue>, mid: seq<Queue>, file: seq<Packet>, from: nat, at: nat, to: nat,
                            keys: bool, seekTime: int)
    requires from <= at <= to <= |file|
  {
    && AllFed(before, mid, Stretch(file, from, at), seekTime) && Wanted(mid, Stretch(file, at, to)) <= 16
    && !SuppliedIn(mid, keys, at == from)
  }

  /** Nothing was read in vain: either nothing at all, or the last batch was needed. */
  ghost predicate NoneInVain(before: seq<Queue>, file: seq<Packet>, from: nat, to: nat, keys: bool, seekTime: int)
    requires from <= to <= |file|
  {
    from == to || exists mid, at :: from <= at < to && LastBatch(before, mid, file, from, at, to, keys, seekTime)
  }

  // ---------------------------------------------------------------- attempts to seek

  /** A seek by one stream: whether the parser took it, and the queues as they were filled afterwards. */
  datatype Attempt = Attempt(stream: nat, ok: bool, queues: seq<Queue>)

  ghost predicate NoLaterAt(qs: seq<Queue>, positions: seq<int>, i: int) {
    0 <= i < |qs| && i < |positions| && qs[i].enabled && positions[i] != NOPTS ==> StartsBy(qs[i].list, positions[i])
  }

  /** No enabled queue starts later than `positions` says. */
  ghost predicate StartNoLater(qs: seq<Queue>, positions: seq<int>) {
    forall i {:trigger NoLaterAt(qs, positions, i)} :: NoLaterAt(qs, positions, i)
  }

  ghost predicate InTimeAt(qs: seq<Queue>, types: seq<MediaType>, time: int, i: int) {
    0 <= i < |qs| && i < |types| && qs[i].enabled && !types[i].Undefined? ==> StartsBy(qs[i].list, time)
  }

  /** Every enabled queue of audio and video starts by the time. */
  ghost predicate AllStartBy(qs: seq<Queue>, types: seq<MediaType>, time: int) {
    forall i {:trigger InTimeAt(qs, types, time, i)} :: InTimeAt(qs, types, time, i)
  }

  function NoneNoted(n: nat): seq<int> {
    seq(n, i => NOPTS)
  }

  /** The positions with those of the enabled queues noted. */
  ghost function NotedNow(qs: seq<Queue>, positions: seq<int>): (r: seq<int>)
    ensures |r| == |positions|
  {
    seq(|positions|, i requires 0 <= i < |positions| =>
      if i < |qs| && qs[i].enabled then StartOf(qs[i].list) else positions[i])
  }

  /** The last attempt succeeded, and no enabled queue starts later than noted before. */
  ghost predicate Better(attempts: seq<Attempt>, n: nat)
    decreases |attempts|, 0
  {
    && attempts != [] && attempts[|attempts| - 1].ok
    && StartNoLater(attempts[|attempts| - 1].queues, Noted(attempts[..|attempts| - 1], n))
  }

  /** The positions of `n` queues noted by the better attempts. */
  ghost function Noted(attempts: seq<Attempt>, n: nat): (r: seq<int>)
    ensures |r| == n
    decreases |attempts|, 1
  {
    if attempts == [] then NoneNoted(n)
    else
      var before := Noted(attempts[..|attempts| - 1], n);
      if Better(attempts, n) then NotedNow(attempts[|attempts| - 1].queues, before) else before
  }

  /** The stream of the last better attempt, or else of the first attempt. */
  ghost function BestStream(attempts: seq<Attempt>, n: nat): nat
    requires attempts != []
  {
    if |attempts| == 1 || Better(attempts, n) then attempts[|attempts| - 1].stream
    else BestStream(attempts[..|attempts| - 1], n)
  }

  /** The last attempt is better than those before, and every audio and video queue starts by the time sought. */
  ghost predicate Found(attempts: seq<Attempt>, types: seq<MediaType>, time: int) {
    Better(attempts, |types|) && AllStartBy(attempts[|attempts| - 1].queues, types, time)
  }

  /** No attempt before the last one positioned the file. */
  ghost predicate FoundLast(attempts: seq<Attempt>, types: seq<MediaType>, time: int) {
    attempts == []
    || (!Found(attempts[..|attempts| - 1], types, time) && FoundLast(attempts[..|attempts| - 1], types, time))
  }

  /** The parser answered the attempts, of which the first was its seek number `first`. */
  ghost predicate Answered(parser: Parser, attempts: seq<Attempt>, first: nat, time: int) {
    attempts == [] || (
      var k := |attempts| - 1;
      attempts[k].ok == parser.outcomes(first + k, attempts[k].stream, time).0
      && Answered(parser, attempts[..k], first, time))
  }

  /** The audio and video streams from `lo` to `hi`. */
  ghost function Candidates(types: seq<MediaType>, lo: nat, hi: nat): seq<nat>
    requires lo <= hi <= |types|
  {
    if lo == hi then []
    else Candidates(types, lo, hi - 1) + if types[hi - 1].Undefined? then [] else [hi - 1]
  }

  ghost function Streams(attempts: seq<Attempt>): (r: seq<nat>)
    ensures |r| == |attempts|
  {
    if attempts == [] then [] else Streams(attempts[..|attempts| - 1]) + [attempts[|attempts| - 1].stream]
  }

  /** The parser was sought last by stream `last`. */
  ghost predicate Landed(parser: Parser, last: nat, seeks: nat, since: nat, time: int) {
    seeks > 0 && since == parser.Landing(seeks - 1, last, time)
  }

  /** What is known after trying the streams from `lo` to `hi`: the loop's variables, the parser's and the queues. */
  ghost predicate Tried(parser: Parser, attempts: seq<Attempt>, positions: seq<int>, found: bool, best: Option<nat>,
                        last: nat, first: nat, seeks: nat, since: nat, time: int, lo: nat, hi: nat, qs: seq<Queue>,
                        types: seq<MediaType>, seekTime: int)
  {
    match best
    case None =>
      && attempts == [] && seeks == first && positions == NoneNoted(|types|) && !found
      && lo <= hi <= |types| && Candidates(types, lo, hi) == []
    case Some(stream) =>
      && attempts != [] && seeks == first + |attempts| && positions == Noted(attempts, |types|)
      && lo <= hi <= |types| && Streams(attempts) == Candidates(types, lo, hi)
      && stream == BestStream(attempts, |types|) && last == attempts[|attempts| - 1].stream
      && attempts[|attempts| - 1].queues == qs && Landed(parser, last, seeks, since, time)
      && (found <==> Found(attempts, types, seekTime)) && FoundLast(attempts, types, seekTime)
      && Answered(parser, attempts, first, time)
  }

  /** The variables of the loop over the streams. */
  datatype Progress = Progress(attempts: seq<Attempt>, positions: seq<int>, found: bool, best: Option<nat>, last: nat)

  lemma NothingTried(parser: Parser, first: nat, since: nat, time: int, lo: nat, qs: seq<Queue>, types: seq<MediaType>,
                     seekTime: int)
    requires lo <= |types|
    ensures Tried(parser, [], NoneNoted(|types|), false, None, 0, first, first, since, time, lo, lo, qs, types,
                  seekTime)
  {
  }

  /** How one attempt went: the parser's answer, whether it is better than `positions`, what is noted then, and whether
      it positioned the file. */
  ghost predicate Judged(parser: Parser, a: Attempt, idx: nat, positions: seq<int>, noted: seq<int>, better: bool,
                         found: bool, seeks: nat, since: nat, time: int, qs: seq<Queue>, types: seq<MediaType>,
                         seekTime: int) {
    match a
    case Attempt(stream, ok, queues) =>
      && stream == idx && queues == qs && ok == parser.outcomes(seeks, idx, time).0
      && since == parser.Landing(seeks, idx, time)
      && (better <==> ok && StartNoLater(qs, positions))
      && noted == (if better then NotedNow(qs, positions) else positions)
      && (found <==> better && AllStartBy(qs, types, seekTime))
  }

  lemma TriedOneMore(parser: Parser, attempts: seq<Attempt>, a: Attempt, idx: nat, positions: seq<int>, noted: seq<int>,
                     better: bool, found: bool, best: Option<nat>, last: nat, first: nat, seeks: nat, was: nat,
                     since: nat, time: int, lo: nat, before: seq<Queue>, qs: seq<Queue>, types: seq<MediaType>,
                     seekTime: int)
    requires idx < |types| && !types[idx].Undefined?
    requires Tried(parser, attempts, positions, false, best, last, first, seeks, was, time, lo, idx, before, types,
                   seekTime)
    requires Judged(parser, a, idx, positions, noted, better, found, seeks, since, time, qs, types, seekTime)
    ensures |noted| == |positions|
    ensures Tried(parser, attempts + [a], noted, found, if better || best.None? then Some(idx) else best, idx, first,
                  seeks + 1, since, time, lo, idx + 1, qs, types, seekTime)
  {
    var all := attempts + [a];
    assert all[..|attempts|] == attempts;
    assert Better(all, |types|) <==> better;
  }

  /** Other streams are passed over. */
  lemma TriedPasses(parser: Parser, attempts: seq<Attempt>, positions: seq<int>, best: Option<nat>, last: nat,
                    first: nat, seeks: nat, since: nat, time: int, lo: nat, idx: nat, qs: seq<Queue>,
                    types: seq<MediaType>, seekTime: int)
    requires idx < |types| && types[idx].Undefined?
    requires Tried(parser, attempts, positions, false, best, last, first, seeks, since, time, lo, idx, qs, types,
                   seekTime)
    ensures Tried(parser, attempts, positions, false, best, last, first, seeks, since, time, lo, idx + 1, qs, types,
                  seekTime)
  {
  }

  /** The audio and video streams from `lo` to `hi` are tried in turn until one positions the file. */
  ghost predicate Sought(parser: Parser, attempts: seq<Attempt>, types: seq<MediaType>, lo: nat, hi: nat, first: nat,
                         seekTime: int, time: int)
    requires lo <= hi <= |types|
  {
    && Answered(parser, attempts, first, time) && FoundLast(attempts, types, seekTime)
    && exists stop :: lo <= stop <= hi && Streams(attempts) == Candidates(types, lo, stop) &&
                      (stop == hi || (Found(attempts, types, seekTime) && stop == attempts[|attempts| - 1].stream + 1))
  }

  /** If no attempt positioned the file: at time 0 the parser ends where the best stream's seek put it, which is
      repeated if it was not the last; without a stream to try, or if that seek fails, the program throws. */
  ghost predicate Settled(parser: Parser, attempts: seq<Attempt>, n: nat, first: nat, time: int, threw: bool,
                          seeks: nat, since: nat)
  {
    if attempts == [] then threw && seeks == first
    else
      var best := BestStream(attempts, n);
      var again := time == 0 && best != attempts[|attempts| - 1].stream;
      && seeks == first + |attempts| + (if again then 1 else 0)
      && (threw <==> again && !parser.outcomes(seeks - 1, best, time).0)
      && (time == 0 ==> Landed(parser, best, seeks, since, time))
  }

  lemma SettledAfter(parser: Parser, attempts: seq<Attempt>, positions: seq<int>, best: Option<nat>, last: nat,
                     first: nat, was: nat, before: nat, time: int, threw: bool, seeks: nat, since: nat, lo: nat,
                     hi: nat, qs: seq<Queue>, types: seq<MediaType>, seekTime: int)
    requires Tried(parser, attempts, positions, false, best, last, first, was, before, time, lo, hi, qs, types,
                   seekTime)
    requires if best.Some? && time == 0 && best.value != last then
               seeks == was + 1 && threw == !parser.outcomes(was, best.value, time).0
               && since == parser.Landing(was, best.value, time)
             else seeks == was && since == before && threw == best.None?
    ensures Settled(parser, attempts, |types|, first, time, threw, seeks, since)
  {
  }

  lemma {:induction false} BestIsCandidate(attempts: seq<Attempt>, types: seq<MediaType>, lo: nat, hi: nat)
    requires lo <= hi <= |types| && attempts != [] && Streams(attempts) == Candidates(types, lo, hi)
    ensures lo <= BestStream(attempts, |types|) < hi
  {
    BestIsTried(attempts, |types|);
    CandidatesBetween(types, lo, hi, BestStream(attempts, |types|));
  }

  lemma {:induction false} CandidatesBetween(types: seq<MediaType>, lo: nat, hi: nat, stream: nat)
    requires lo <= hi <= |types|
    ensures stream in Candidates(types, lo, hi) <==> lo <= stream < hi && !types[stream].Undefined?
  {
    if lo < hi {
      CandidatesBetween(types, lo, hi - 1, stream);
    }
  }

  /** In the order of their numbers. */
  lemma {:induction false} CandidatesAscend(types: seq<MediaType>, lo: nat, hi: nat, c: seq<nat>)
    requires lo <= hi <= |types| && c == Candidates(types, lo, hi)
    ensures forall i, j :: 0 <= i < j < |c| ==> c[i] < c[j]
  {
    if lo < hi {
      var before := Candidates(types, lo, hi - 1);
      CandidatesAscend(types, lo, hi - 1, before);
      forall i | 0 <= i < |before|
        ensures before[i] < hi - 1
      {
        CandidatesBetween(types, lo, hi - 1, before[i]);
      }
    }
  }

  lemma {:induction false} BestIsTried(attempts: seq<Attempt>, n: nat)
    requires attempts != []
    ensures BestStream(attempts, n) in Streams(attempts)
  {
    var k := |attempts| - 1;
    assert Streams(attempts)[k] == attempts[k].stream;
    if |attempts| > 1 && !Better(attempts, n) {
      BestIsTried(attempts[..k], n);
    }
  }

  class DemuxerQueue {
    const parser: Parser
    const queues: seq<PacketQueue>
    const types: seq<MediaType>
    const seekStream: nat
    var seekTime: int
    var eof: bool
    /** Where reading began after the last reset. */
    ghost var since: nat

    ghost predicate Shape()
      reads this`eof, parser`pos, queues
    {
      && |types| == |queues| && seekStream < |queues|
      && (forall i, j :: 0 <= i < j < |queues| ==> queues[i] != queues[j])
      && (forall i {:trigger queues[i].Valid()} :: 0 <= i < |queues| ==> queues[i].Valid())
      && (forall i {:trigger types[i]} :: 0 <= i < |queues| ==> queues[i].canBeEmpty == types[i].Undefined?)
      && (forall k :: 0 <= k < |parser.file| ==> parser.file[k].stream < |queues|)
      && parser.pos <= |parser.file|
      && (eof ==> parser.pos == |parser.file|)
    }

    ghost function Values(): (r: seq<Queue>)
      reads queues
      ensures |r| == |queues| && forall i {:trigger r[i]} :: 0 <= i < |queues| ==> r[i] == queues[i].Value()
    {
      seq(|queues|, i requires 0 <= i < |queues| reads queues => queues[i].Value())
    }

    /** Every queue agrees with what was read for its stream since the last reset. */
    ghost predicate Valid()
      reads this`eof, this`since, parser`pos, queues
    {
      Shape() && since <= parser.pos && AllAgree(Values(), Stretch(parser.file, since, parser.pos))
    }

    /** No packet of any queue was taken since the last reset. */
    ghost predicate Unread()
      requires since <= parser.pos <= |parser.file|
      reads this`since, this`seekTime, parser`pos, queues
    {
      AllUnread(Values(), Stretch(parser.file, since, parser.pos), seekTime)
    }

    constructor (parser: Parser, types: seq<MediaType>, seekStream: nat)
      requires parser.pos <= |parser.file| && seekStream < |types|
      requires forall k :: 0 <= k < |parser.file| ==> parser.file[k].stream < |types|
      ensures Valid() && this.parser == parser && this.types == types && this.seekStream == seekStream
      ensures fresh(queues) && since == parser.pos
    {
      var qs: seq<PacketQueue> := [];
      while |qs| < |types|
        invariant |qs| <= |types| && fresh(qs)
        invariant forall i, j :: 0 <= i < j < |qs| ==> qs[i] != qs[j]
        invariant forall i :: 0 <= i < |qs| ==> qs[i].Valid() && qs[i].Value() == Queue(true, types[i].Undefined?, [])
        decreases |types| - |qs|
      {
        var q := new PacketQueue(!types[|qs|].Undefined?);
        qs := qs + [q];
      }
      this.parser, this.types, this.seekStream, this.queues := parser, types, seekStream, qs;
      seekTime, eof, since := 0, false, parser.pos;
    }

    method ResetQueues()
      requires Shape()
      modifies this`eof, this`since, queues
      ensures Shape() && !eof && since == parser.pos
      ensures forall i :: 0 <= i < |queues| ==> queues[i].Value() == old(queues[i].Value()).(list := [])
    {
      eof, since := false, parser.pos;
      for i := 0 to |queues|
        invariant Shape() && !eof && since == parser.pos
        invariant forall k :: 0 <= k < i ==> queues[k].Value() == old(queues[k].Value()).(list := [])
        invariant forall k :: i <= k < |queues| ==> queues[k].Value() == old(queues[k].Value())
      {
        queues[i].Reset();
      }
    }

    /** Reads up to `count` packets of enabled streams. */
    method ReadPackets(count: nat) returns (more: bool)
      requires Shape() && count > 0
      modifies this`eof, parser`pos, queues
      ensures Shape() && old(parser.pos) <= parser.pos && (more ==> !eof && parser.pos > old(parser.pos))
      ensures AllFed(old(Values()), Values(), Stretch(parser.file, old(parser.pos), parser.pos), seekTime)
      ensures !more && !eof ==> parser.pos > old(parser.pos) && SomeFull()
      ensures var wanted := Wanted(old(Values()), Stretch(parser.file, old(parser.pos), parser.pos));
        wanted <= count && (more ==> wanted == count) && (!more && eof ==> wanted < count)
    {
      if eof {
        return false;
      }
      var z := 0;
      ghost var before := Values();
      while z < count
        invariant Shape() && old(parser.pos) <= parser.pos && !eof && (z > 0 ==> parser.pos > old(parser.pos))
        invariant AllFed(before, Values(), Stretch(parser.file, old(parser.pos), parser.pos), seekTime)
        invariant z == Wanted(before, Stretch(parser.file, old(parser.pos), parser.pos)) <= count
        decreases |parser.file| - parser.pos
      {
        var outcome := ReadOneMore(before, old(parser.pos));
        if outcome == AtEnd || outcome == Filled {
          return false;
        }
        if outcome == Taken {
          z := z + 1;
        }
      }
      return true;
    }

    method ReadOneMore(ghost before: seq<Queue>, ghost from: nat) returns (outcome: Outcome)
      requires Shape() && !eof && from <= parser.pos
      requires AllFed(before, Values(), Stretch(parser.file, from, parser.pos), seekTime)
      modifies this`eof, parser`pos, queues
      ensures Shape() && old(parser.pos) <= parser.pos
      ensures AllFed(before, Values(), Stretch(parser.file, from, parser.pos), seekTime)
      ensures if outcome == AtEnd then eof && parser.pos == old(parser.pos)
              else !eof && parser.pos == old(parser.pos) + 1
      ensures Wanted(before, Stretch(parser.file, from, parser.pos)) ==
              Wanted(before, Stretch(parser.file, from, old(parser.pos)))
              + if outcome == Taken || outcome == Filled then 1 else 0
      ensures outcome == Filled ==> SomeFull()
    {
      ghost var mid := Values();
      outcome := ReadOne();
      if outcome != AtEnd {
        WantedOneMore(before, mid, parser.file, from, parser.pos, seekTime);
        FedOneMore(before, mid, Values(), parser.file, from, parser.pos, seekTime);
      }
    }

    /** Reads one packet and hands it to its queue; at the end of the file notes that. */
    method ReadOne() returns (outcome: Outcome)
      requires Shape() && !eof
      modifies this`eof, parser`pos, queues
      ensures Shape()
      ensures outcome == AtEnd ==> eof && parser.pos == old(parser.pos) && Values() == old(Values())
      ensures outcome != AtEnd ==> !eof && old(parser.pos) < |parser.file| && parser.pos == old(parser.pos) + 1
                                   && FedOne(old(Values()), Values(), parser.file[old(parser.pos)], seekTime)
                                   && (outcome != Skipped <==> IsWanted(old(Values()), parser.file[old(parser.pos)]))
      ensures outcome == Filled ==> SomeFull()
    {
      var packet := parser.Read();
      if packet.None? {
        eof := true;
        return AtEnd;
      }
      assert Values()[packet.value.stream].enabled == queues[packet.value.stream].enabled;
      Deliver(packet.value);
      var queue := queues[packet.value.stream];
      assert Values()[packet.value.stream].enabled == queue.enabled;
      if !queue.enabled {
        return Skipped;
      }
      var full := queue.Full();
      return if full then Filled else Taken;
    }

    ghost predicate SomeFull()
      reads queues
    {
      exists i :: 0 <= i < |queues| && IsFull(queues[i].list)
    }

    /** Hands a packet to its stream's queue. */
    method Deliver(p: Packet)
      requires Shape() && p.stream < |queues|
      modifies queues
      ensures Shape()
      ensures FedOne(old(Values()), Values(), p, seekTime)
    {
      Accept(queues[p.stream], p, seekTime);
    }

    // -------------------------------------------------------------- filling

    /** Every enabled queue of audio or video has a packet, or two key packets. */
    ghost predicate Supplied(keys: bool)
      reads queues
    {
      forall i :: 0 <= i < |queues| && queues[i].enabled && !queues[i].canBeEmpty ==>
                    queues[i].list != [] && (keys ==> KeyCount(queues[i].list) >= 2)
    }

    ghost predicate AllEmpty()
      reads queues
    {
      forall i :: 0 <= i < |queues| ==> queues[i].list == []
    }

    lemma SuppliedMeans(keys: bool, all: bool)
      requires Shape()
      ensures SuppliedIn(Values(), keys, all) ==> Supplied(keys)
    {
      assert forall i :: 0 <= i < |queues| ==> Values()[i] == queues[i].Value();
    }

    method FirstNeed(keys: bool) returns (need: bool, full: bool)
      requires Shape()
      ensures full <==> SomeFull()
      ensures need <==> !SuppliedIn(Values(), keys, true)
      ensures !need ==> Supplied(keys)
    {
      need, full := false, false;
      ghost var qs := Values();
      for i := 0 to |queues|
        invariant full <==> exists k :: 0 <= k < i && IsFull(queues[k].list)
        invariant !need <==> forall k {:trigger qs[k]} :: 0 <= k < i ==> HasEnough(qs[k], keys, true)
      {
        var queue := queues[i];
        assert qs[i] == queue.Value();
        need := need || (queue.enabled && (|queue.list| == 0 || (keys && queue.keyCount < 2)));
        var f := queue.Full();
        full := full || f;
      }
      SuppliedMeans(keys, true);
    }

    method LaterNeed(keys: bool) returns (need: bool, full: bool)
      requires Shape()
      ensures full <==> SomeFull()
      ensures need <==> !SuppliedIn(Values(), keys, false)
      ensures !need ==> Supplied(keys)
    {
      need, full := false, false;
      ghost var qs := Values();
      for i := 0 to |queues|
        invariant full <==> exists k :: 0 <= k < i && IsFull(queues[k].list)
        invariant !need <==> forall k {:trigger qs[k]} :: 0 <= k < i ==> HasEnough(qs[k], keys, false)
      {
        var queue := queues[i];
        assert qs[i] == queue.Value();
        if !keys {
          need := need || (queue.enabled && |queue.list| == 0 && !queue.canBeEmpty);
        } else {
          need := need || (queue.enabled && queue.keyCount < 2 && !queue.canBeEmpty);
        }
        var f := queue.Full();
        full := full || f;
      }
      SuppliedMeans(keys, false);
    }

    method CountPackets() returns (total: nat)
      ensures total == 0 <==> AllEmpty()
    {
      total := 0;
      for i := 0 to |queues|
        invariant total == 0 <==> forall k :: 0 <= k < i ==> queues[k].list == []
      {
        total := total + |queues[i].list|;
      }
    }

    /** Reads until every queue that may not be empty is supplied, some queue is full or the file ends. */
    method FillQueue(keys: bool) returns (filled: bool)
      requires Valid()
      modifies this`eof, parser`pos, queues
      ensures Valid() && old(parser.pos) <= parser.pos
      ensures AllFed(old(Values()), Values(), Stretch(parser.file, old(parser.pos), parser.pos), seekTime)
      ensures old(Unread()) ==> Unread()
      ensures NoneInVain(old(Values()), parser.file, old(parser.pos), parser.pos, keys, seekTime)
      ensures eof || SomeFull() || Supplied(keys)
      ensures old(eof) || old(SomeFull()) ==> !filled && parser.pos == old(parser.pos)
      ensures !old(eof) && !old(SomeFull()) ==> (filled <==> !(eof && AllEmpty()))
    {
      if eof {
        return false;
      }
      var need, full := FirstNeed(keys);
      if full {
        return false;
      }
      filled := FillLoop(keys, need);
      AllFedAgree(old(Values()), Values(), Stretch(parser.file, since, old(parser.pos)),
                  Stretch(parser.file, old(parser.pos), parser.pos), seekTime);
      StretchesJoin(parser.file, since, old(parser.pos), parser.pos);
      if old(Unread()) {
        AllUnreadFed(old(Values()), Values(), Stretch(parser.file, since, old(parser.pos)),
                     Stretch(parser.file, old(parser.pos), parser.pos), seekTime);
      }
    }

    method FillLoop(keys: bool, needed: bool) returns (filled: bool)
      requires Shape() && !eof && (!needed ==> Supplied(keys)) && (needed ==> !SuppliedIn(Values(), keys, true))
      modifies this`eof, parser`pos, queues
      ensures Shape() && old(parser.pos) <= parser.pos
      ensures AllFed(old(Values()), Values(), Stretch(parser.file, old(parser.pos), parser.pos), seekTime)
      ensures NoneInVain(old(Values()), parser.file, old(parser.pos), parser.pos, keys, seekTime)
      ensures eof || SomeFull() || Supplied(keys)
      ensures filled <==> !(eof && AllEmpty())
    {
      var need, full := needed, false;
      ghost var before := Values();
      while need && !full
        invariant Shape() && !eof && old(parser.pos) <= parser.pos
        invariant AllFed(before, Values(), Stretch(parser.file, old(parser.pos), parser.pos), seekTime)
        invariant NoneInVain(before, parser.file, old(parser.pos), parser.pos, keys, seekTime)
        invariant need ==> !SuppliedIn(Values(), keys, parser.pos == old(parser.pos))
        invariant need || SomeFull() || Supplied(keys)
        invariant full ==> SomeFull()
        decreases need && !full, |parser.file| - parser.pos
      {
        ghost var mid, start := Values(), parser.pos;
        var more := ReadPackets(16);
        FedFurther(before, mid, Values(), parser.file, old(parser.pos), start, parser.pos, seekTime);
        assert start < parser.pos ==>
                 LastBatch(before, mid, parser.file, old(parser.pos), start, parser.pos, keys, seekTime);
        if !more && eof {
          var total := CountPackets();
          return total != 0;
        }
        need, full := false, false;
        if more {
          need, full := LaterNeed(keys);
        }
      }
      return true;
    }

    // -------------------------------------------------------------- reading

    /** The next packet of a stream; fails where the program throws. */
    method Read(stream: nat) returns (ok: bool, packet: Option<Packet>)
      requires Valid()
      modifies this`eof, parser`pos, queues
      ensures Valid() && ok == (stream < |queues|) && old(parser.pos) <= parser.pos
      ensures !ok ==> packet.None? && Values() == old(Values()) && parser.pos == old(parser.pos)
      ensures ok ==> Gives(old(Values()), Values(), stream, Stretch(parser.file, old(parser.pos), parser.pos),
                           seekTime, packet)
      ensures ok ==> ReadsFirst(old(Values()), Values(), stream, Stretch(parser.file, since, old(parser.pos)),
                                Stretch(parser.file, since, parser.pos), seekTime, packet)
      ensures ok && old(Values())[stream].list != [] ==> parser.pos == old(parser.pos) && packet.Some?
      ensures ok && packet.None? && queues[stream].enabled && !queues[stream].canBeEmpty ==> eof || SomeFull()
      ensures ok && packet.Some? ==> Left(stream) < old(Left(stream))
    {
      if stream >= |queues| {
        return false, None;
      }
      Supply(stream);
      ghost var fed := Values();
      assert AllFed(old(Values()), fed, Stretch(parser.file, old(parser.pos), parser.pos), seekTime);
      StretchesJoin(parser.file, since, old(parser.pos), parser.pos);
      if |queues[stream].list| == 0 {
        GivesReadsFirst(old(Values()), Values(), stream, Stretch(parser.file, since, old(parser.pos)),
                        Stretch(parser.file, old(parser.pos), parser.pos), seekTime, None);
        return true, None;
      }
      packet := TakeFirst(stream);
      ok := true;
      GivesReadsFirst(old(Values()), Values(), stream, Stretch(parser.file, since, old(parser.pos)),
                      Stretch(parser.file, old(parser.pos), parser.pos), seekTime, packet);
      GivesLess(old(Values()), Values(), stream, Stretch(parser.file, old(parser.pos), parser.pos), seekTime, packet);
    }

    /** At most so many packets of the stream can still be read. */
    ghost function Left(stream: nat): nat
      requires stream < |queues| && parser.pos <= |parser.file|
      reads parser`pos, queues
    {
      |parser.file| - parser.pos + |queues[stream].list|
    }

    /** Fills the queues if the one of `stream` has run dry. */
    method Supply(stream: nat)
      requires Valid() && stream < |queues|
      modifies this`eof, parser`pos, queues
      ensures Valid() && old(parser.pos) <= parser.pos
      ensures AllFed(old(Values()), Values(), Stretch(parser.file, old(parser.pos), parser.pos), seekTime)
      ensures old(queues[stream].list) != [] ==> parser.pos == old(parser.pos) && queues[stream].list != []
      ensures queues[stream].list == [] && queues[stream].enabled && !queues[stream].canBeEmpty ==> eof || SomeFull()
    {
      if |queues[stream].list| == 0 {
        var _ := FillQueue(false);
      } else {
        FedNothing(Values(), Stretch(parser.file, parser.pos, parser.pos), seekTime);
      }
    }

    method TakeFirst(stream: nat) returns (packet: Option<Packet>)
      requires Valid() && stream < |queues| && queues[stream].list != []
      modifies queues
      ensures Valid() && packet == Some(old(queues[stream].list)[0])
      ensures Values() == old(Values())[stream := old(Values())[stream].(list := old(Values())[stream].list[1..])]
    {
      ghost var sent := Stretch(parser.file, since, parser.pos);
      ghost var before := Values();
      ghost var q := before[stream];
      assert AgreesAt(before, sent, stream);
      PopAgrees(q, OfStream(sent, stream));
      AllAgreeUpdate(before, sent, stream, q.(list := q.list[1..]));
      var p := queues[stream].Pop();
      assert Values() == before[stream := q.(list := q.list[1..])];
      return Some(p);
    }

    method EnableStream(stream: nat, value: bool) returns (ok: bool)
      requires Valid()
      modifies queues
      ensures Valid() && ok == (stream < |queues|)
      ensures Values() == if ok then old(Values())[stream := Queue(value, old(Values())[stream].canBeEmpty,
                                                                   if value then old(Values())[stream].list else [])]
                          else old(Values())
    {
      if stream >= |queues| {
        return false;
      }
      ghost var before := Values();
      ghost var q := Queue(value, before[stream].canBeEmpty, if value then before[stream].list else []);
      ghost var sent := Stretch(parser.file, since, parser.pos);
      assert AgreesAt(before, sent, stream);
      AllAgreeUpdate(before, sent, stream, q);
      queues[stream].SetEnabled(value);
      assert Values() == before[stream := q];
      return true;
    }

    method ReleaseInternalData(stream: nat)
      requires Valid() && stream < |queues|
      modifies queues
      ensures Valid()
      ensures Values() ==
              old(Values())[stream := Queue(old(Values())[stream].enabled, old(Values())[stream].canBeEmpty, [])]
    {
      EmptyAgrees(Queue(Values()[stream].enabled, Values()[stream].canBeEmpty, []),
                  OfStream(Stretch(parser.file, since, parser.pos), stream));
      AllAgreeUpdate(Values(), Stretch(parser.file, since, parser.pos), stream,
                     Queue(Values()[stream].enabled, Values()[stream].canBeEmpty, []));
      ResetOne(stream);
    }

    method ResetOne(stream: nat)
      requires Shape() && stream < |queues|
      modifies queues
      ensures Shape()
      ensures Values() ==
              old(Values())[stream := Queue(old(Values())[stream].enabled, old(Values())[stream].canBeEmpty, [])]
    {
      queues[stream].Reset();
    }

    // -------------------------------------------------------------- seeking

    /** Every enabled queue of audio or video starts with a packet at or before `time`. */
    ghost predicate Positioned(time: int)
      requires Shape()
      reads this`eof, parser`pos, queues
    {
      forall i :: 0 <= i < |queues| && queues[i].enabled && !types[i].Undefined? ==> StartsBy(queues[i].list, time)
    }

    method CheckStreamsPosition(time: int) returns (good: bool)
      requires Shape()
      ensures good <==> Positioned(time)
    {
      good := true;
      for i := 0 to |queues|
        invariant good <==> forall k :: 0 <= k < i && queues[k].enabled && !types[k].Undefined? ==>
                                          StartsBy(queues[k].list, time)
      {
        var queue := queues[i];
        if queue.enabled && !queue.canBeEmpty {
          var pos := queue.Position();
          StartsByPosition(queue.list, time, pos);
          good := good && pos != NOPTS && pos <= time;
        }
      }
    }

    /** No enabled queue starts later than `positions` says. */
    method IsBetter(positions: seq<int>) returns (better: bool)
      requires Shape() && |positions| == |queues|
      ensures better <==> forall i :: 0 <= i < |queues| && queues[i].enabled && positions[i] != NOPTS ==>
                                        StartsBy(queues[i].list, positions[i])
    {
      better := true;
      for i := 0 to |queues|
        invariant better <==> forall k :: 0 <= k < i && queues[k].enabled && positions[k] != NOPTS ==>
                                            StartsBy(queues[k].list, positions[k])
      {
        var queue := queues[i];
        if queue.enabled {
          var pos := queue.Position();
          if positions[i] != NOPTS {
            StartsByPosition(queue.list, positions[i], pos);
            if pos != NOPTS {
              if pos > positions[i] {
                better := false;
              }
            } else {
              better := false;
            }
          }
        }
      }
    }

    /** Notes the improved positions and says whether the seek is done. */
    method NotePositions(positions: seq<int>) returns (noted: seq<int>, done: bool)
      requires Shape() && |positions| == |queues|
      ensures noted == NotedNow(Values(), positions) && (done <==> Positioned(seekTime))
      ensures forall i :: 0 <= i < |queues| ==>
                noted[i] == if queues[i].enabled then StartOf(queues[i].list) else positions[i]
    {
      noted, done := positions, true;
      for i := 0 to |queues|
        invariant |noted| == |queues|
        invariant done <==> forall k :: 0 <= k < i && queues[k].enabled && !types[k].Undefined? ==>
                                          StartsBy(queues[k].list, seekTime)
        invariant forall k :: 0 <= k < |queues| ==>
                                noted[k] == if k < i && queues[k].enabled then StartOf(queues[k].list) else positions[k]
      {
        var queue := queues[i];
        if queue.enabled {
          var pos := queue.Position();
          PositionIsUnique(queue.list, StartOf(queue.list), pos);
          noted := noted[i := pos];
          if !types[i].Undefined? {
            StartsByPosition(queue.list, seekTime, pos);
            if pos != NOPTS {
              done := done && pos <= seekTime;
            } else {
              done := false;
            }
          }
        }
      }
    }

    /** Positions the parser by one stream and empties the queues; false if the parser throws. */
    method SeekBy(stream: nat, time: int) returns (ok: bool)
      requires Shape() && stream < |queues|
      modifies this`eof, this`since, parser`pos, parser`seeks, queues
      ensures Valid() && Unread()
      ensures parser.seeks == old(parser.seeks) + 1 && ok == parser.outcomes(old(parser.seeks), stream, time).0
      ensures since == parser.pos == parser.Landing(old(parser.seeks), stream, time)
    {
      ResetQueues();
      ok := parser.Seek(stream, time);
      since := parser.pos;
      AllAgreeWhenEmpty(Values(), Stretch(parser.file, since, parser.pos));
      EmptyIsUnread(Values(), Stretch(parser.file, since, parser.pos), seekTime);
    }

    /** Fills quickly, and with key packets if the positions are good. */
    method FillAfterSeek()
      requires Valid() && Unread()
      modifies this`eof, parser`pos, queues
      ensures Valid() && Unread()
    {
      var _ := FillQueue(false);
      var valid := CheckStreamsPosition(seekTime);
      if valid {
        var _ := FillQueue(true);
      }
    }

    /** Whether the queues are better than `positions`, what is noted then, and whether the seek is done. */
    method Compare(positions: seq<int>) returns (better: bool, noted: seq<int>, done: bool)
      requires Shape() && |positions| == |queues|
      ensures better <==> StartNoLater(Values(), positions)
      ensures noted == if better then NotedNow(Values(), positions) else positions
      ensures done <==> better && AllStartBy(Values(), types, seekTime)
    {
      better := IsBetter(positions);
      BetterMeans(positions);
      noted, done := positions, false;
      if better {
        noted, done := NotePositions(positions);
        PositionedMeans(seekTime);
      }
    }

    lemma BetterMeans(positions: seq<int>)
      requires Shape() && |positions| == |queues|
      ensures StartNoLater(Values(), positions) <==>
              forall i :: 0 <= i < |queues| && queues[i].enabled && positions[i] != NOPTS ==>
                            StartsBy(queues[i].list, positions[i])
    {
      var qs := Values();
      if StartNoLater(qs, positions) {
        forall i | 0 <= i < |queues| && queues[i].enabled && positions[i] != NOPTS
          ensures StartsBy(queues[i].list, positions[i])
        {
          assert NoLaterAt(qs, positions, i) && qs[i] == queues[i].Value();
        }
      }
    }

    lemma PositionedMeans(time: int)
      requires Shape()
      ensures AllStartBy(Values(), types, time) <==> Positioned(time)
    {
      var qs := Values();
      if AllStartBy(qs, types, time) {
        forall i | 0 <= i < |queues| && queues[i].enabled && !types[i].Undefined?
          ensures StartsBy(queues[i].list, time)
        {
          assert InTimeAt(qs, types, time, i) && qs[i] == queues[i].Value();
        }
      }
    }

    /** One attempt by one stream: whether it improved the positions, and whether the seek is done. */
    method TryStream(stream: nat, time: int, positions: seq<int>)
      returns (better: bool, noted: seq<int>, done: bool, ghost attempt: Attempt)
      requires Valid() && stream < |queues| && |positions| == |queues|
      modifies this`eof, this`since, parser`pos, parser`seeks, queues
      ensures Valid() && Unread() && parser.seeks == old(parser.seeks) + 1
      ensures Judged(parser, attempt, stream, positions, noted, better, done, old(parser.seeks), since, time, Values(),
                     types, seekTime)
    {
      var ok := SeekBy(stream, time);
      if !ok {
        return false, positions, false, Attempt(stream, false, Values());
      }
      FillAfterSeek();
      attempt := Attempt(stream, true, Values());
      better, noted, done := Compare(positions);
    }

    /** What holds between the turns of the loop over the streams. */
    ghost predicate Going(p: Progress, first: nat, time: int, lo: nat, hi: nat)
      reads this`eof, this`since, this`seekTime, parser`pos, parser`seeks, queues
    {
      match p
      case Progress(attempts, positions, found, best, last) =>
        && Valid() && UnreadIfSome(best) && |positions| == |types| && lo <= hi <= |types|
        && Tried(parser, attempts, positions, found, best, last, first, parser.seeks, since, time, lo, hi, Values(),
                 types, seekTime)
    }

    /** After an attempt nothing was taken from the queues since the reset. */
    ghost predicate UnreadIfSome(best: Option<nat>)
      requires Valid()
      reads this`eof, this`since, this`seekTime, parser`pos, queues
    {
      match best
      case None => true
      case Some(_) => Unread()
    }

    lemma StartsGoing(first: nat, time: int, lo: nat)
      requires Valid() && lo <= |types| && first == parser.seeks
      ensures Going(Progress([], NoneNoted(|types|), false, None, 0), first, time, lo, lo)
    {
      NothingTried(parser, parser.seeks, since, time, lo, Values(), types, seekTime);
    }

    lemma PassesOver(p: Progress, first: nat, time: int, lo: nat, idx: nat)
      requires Going(p, first, time, lo, idx) && !p.found && idx < |types| && types[idx].Undefined?
      ensures Going(p, first, time, lo, idx + 1)
    {
      TriedPasses(parser, p.attempts, p.positions, p.best, p.last, first, parser.seeks, since, time, lo, idx, Values(),
                  types, seekTime);
    }

    /** The loop's turn for one stream of audio or video. */
    method TryNext(idx: nat, time: int, positions: seq<int>, best: Option<nat>, ghost last: nat,
                   ghost attempts: seq<Attempt>, ghost first: nat, ghost lo: nat)
      returns (noted: seq<int>, newBest: Option<nat>, found: bool, ghost more: seq<Attempt>)
      requires Going(Progress(attempts, positions, false, best, last), first, time, lo, idx)
      requires idx < |types| && !types[idx].Undefined?
      modifies this`eof, this`since, parser`pos, parser`seeks, queues
      ensures Going(Progress(more, noted, found, newBest, idx), first, time, lo, idx + 1)
    {
      ghost var before, seeks, was := Values(), parser.seeks, since;
      var better;
      ghost var attempt;
      better, noted, found, attempt := TryStream(idx, time, positions);
      newBest := if better || best.None? then Some(idx) else best;
      more := attempts + [attempt];
      TriedOneMore(parser, attempts, attempt, idx, positions, noted, better, found, best, last, first, seeks, was,
                   since, time, lo, before, Values(), types, seekTime);
    }

    /** Tries the streams from `start` to `stop`, until one positions the file. */
    method TryStreams(start: nat, stop: nat, time: int)
      returns (found: bool, best: Option<nat>, last: nat, positions: seq<int>, ghost attempts: seq<Attempt>)
      requires Valid() && start <= stop <= |types|
      modifies this`eof, this`since, parser`pos, parser`seeks, queues
      ensures found ==> start <= last < stop
      ensures Going(Progress(attempts, positions, found, best, last), old(parser.seeks), time, start,
                    if found then last + 1 else stop)
    {
      positions := NoneNoted(|types|);
      best, last, attempts, found := None, 0, [], false;
      ghost var first := parser.seeks;
      StartsGoing(first, time, start);
      for idx := start to stop
        invariant Going(Progress(attempts, positions, found, best, last), first, time, start, idx) && !found
      {
        if types[idx].Undefined? {
          PassesOver(Progress(attempts, positions, found, best, last), first, time, start, idx);
          continue;
        }
        positions, best, found, attempts := TryNext(idx, time, positions, best, last, attempts, first, start);
        last := idx;
        if found {
          return;
        }
      }
    }

    /** Tries the seek stream, or at time 0 all streams; `threw` where the program throws. */
    method SeekInternal(time: int) returns (threw: bool, done: bool, ghost attempts: seq<Attempt>)
      requires Valid() && time >= 0
      modifies this`eof, this`since, parser`pos, parser`seeks, queues
      ensures Valid() && (!threw ==> Unread())
      ensures !threw && time == 0 ==> done
      ensures !threw && time > 0 && done ==> Positioned(seekTime)
      ensures !threw && !Found(attempts, types, seekTime) ==> (done <==> time == 0)
      ensures Sought(parser, attempts, types, if time > 0 then seekStream else 0,
                     if time > 0 then seekStream + 1 else |types|, old(parser.seeks), seekTime, time)
      ensures Found(attempts, types, seekTime) ==> !threw && done && Values() == attempts[|attempts| - 1].queues
      ensures !Found(attempts, types, seekTime) ==>
                Settled(parser, attempts, |types|, old(parser.seeks), time, threw, parser.seeks, since)
    {
      ghost var first := parser.seeks;
      var start, stop := if time > 0 then seekStream else 0, if time > 0 then seekStream + 1 else |types|;
      var found, best, last, positions;
      found, best, last, positions, attempts := TryStreams(start, stop, time);
      if found {
        PositionedMeans(seekTime);
        return false, true, attempts;
      }
      threw := Settle(time, best, last, positions, attempts, first, start, stop);
      done := !threw && time == 0;
    }

    /** At time 0 the best stream's seek is repeated if it was not the last. */
    method Settle(time: int, best: Option<nat>, last: nat, ghost positions: seq<int>, ghost attempts: seq<Attempt>,
                  ghost first: nat, ghost lo: nat, ghost hi: nat)
      returns (threw: bool)
      requires Going(Progress(attempts, positions, false, best, last), first, time, lo, hi)
      modifies this`eof, this`since, parser`pos, parser`seeks, queues
      ensures Valid() && (!threw ==> Unread())
      ensures Settled(parser, attempts, |types|, first, time, threw, parser.seeks, since)
    {
      ghost var was, before, qs := parser.seeks, since, Values();
      if best.Some? {
        BestIsCandidate(attempts, types, lo, hi);
      }
      threw := best.None?;
      if best.Some? && time == 0 && best.value != last {
        threw := SeekAgain(best.value, time);
      }
      SettledAfter(parser, attempts, positions, best, last, first, was, before, time, threw, parser.seeks, since, lo,
                   hi, qs, types, seekTime);
    }

    method SeekAgain(stream: nat, time: int) returns (threw: bool)
      requires Valid() && stream < |queues|
      modifies this`eof, this`since, parser`pos, parser`seeks, queues
      ensures Valid() && Unread() && parser.seeks == old(parser.seeks) + 1
      ensures threw == !parser.outcomes(old(parser.seeks), stream, time).0
      ensures since == parser.Landing(old(parser.seeks), stream, time)
    {
      var ok := SeekBy(stream, time);
      if ok {
        var _ := FillQueue(true);
      }
      threw := !ok;
    }

    /** Seeks to `time`, going back by 4, 8, 16, ... seconds until the streams are positioned or 0 is reached.
        `tries` are the times tried. */
    method Seek(time: int) returns (threw: bool, landed: int, tries: seq<int>)
      requires Valid()
      modifies this`eof, this`since, this`seekTime, parser`pos, parser`seeks, queues
      ensures Valid() && seekTime == if time > 0 then time else 0
      ensures time < 0 ==> !threw && landed == time && tries == []
      ensures time >= 0 ==> GoesBack(time, tries) && StepsDown(time, tries) && |tries| >= 1
      ensures time >= 0 && !threw ==> 0 <= landed <= time && landed == tries[|tries| - 1]
      ensures time >= 0 && !threw ==> landed == 0 || Positioned(time)
      ensures time >= 0 && !threw ==> Unread() && AllTrimmed(Values(), seekTime)
    {
      seekTime := if time > 0 then time else 0;
      var t, step := time, 4 * SECOND;
      threw, tries := false, [];
      while t >= 0
        invariant Valid() && seekTime == (if time > 0 then time else 0) && !threw && t <= time
        invariant GoesBack(time, tries + [t]) && StepsDown(time, tries + [t]) && step == StepBack(|tries|)
        invariant time >= 0 ==> t >= 0
        decreases t
      {
        tries := tries + [t];
        var done;
        ghost var attempts;
        threw, done, attempts := SeekInternal(t);
        if threw {
          return true, t, tries;
        }
        if done || t == 0 {
          UnreadIsTrimmed(Values(), Stretch(parser.file, since, parser.pos), seekTime);
          return false, t, tries;
        }
        StepsBack(time, tries, t);
        StepsDownFurther(time, tries, t);
        t := if t < step then 0 else t - step;
        step := step * 2;
      }
      landed := t;
    }
  }

  method Accept(queue: PacketQueue, p: Packet, seekTime: int)
    requires queue.Valid()
    modifies queue
    ensures queue.Valid() && queue.Value() == Accepted(old(queue.Value()), p, seekTime)
    ensures queue.list ==
            if !queue.enabled then [] else if KeyBy(p, seekTime) then [p] else old(queue.list) + [p]
  {
    if !queue.enabled {
      queue.Reset();
      return;
    }
    var drop := false;
    if p.key {
      if p.pts != NOPTS {
        drop := p.pts <= seekTime && p.duration > 0;
      } else if p.dts != NOPTS {
        drop := p.dts <= seekTime && p.duration > 0;
      }
      if drop {
        queue.Reset();
      }
    }
    queue.Push(p);
  }
}
