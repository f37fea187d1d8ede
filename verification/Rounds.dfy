/** One frame of association: confirmed and lost tracks against high-score detections,
    tracked leftovers against low-score ones, unconfirmed tracks against what is left of the
    high-score ones. `Log` records who was matched with whom.
 */
module Rounds {
  import opened Boxes
  import opened PartialMatching
  import opened LinearAssignment
  import opened TrackLists
  import opened Associations

  const MATCH_THRESH := 0.8
  const SECOND_THRESH := 0.5
  const UNCONFIRMED_THRESH := 0.7

  /** Pools and matchings of the three rounds; `w` is a matching seen from the detections,
      `left` the high-score detections that the first round did not use and `rest` those tracks. */
  datatype Log = Log(pool: seq<Slot>, m1: seq<int>, w1: seq<int>, left: seq<int>, rest: seq<STrack>,
                     retry: seq<Slot>, m2: seq<int>, w2: seq<int>,
                     unconfirmed: seq<Slot>, m3: seq<int>, w3: seq<int>)

  /** Slot `s` was left over by the first round and holds a Tracked track. */
  ghost predicate LeftTracked(l: Lists, pool: seq<Slot>, m: seq<int>, s: Slot)
    requires Pool(l, pool) && |m| == |pool|
  {
    exists p :: 0 <= p < |pool| && pool[p] == s && m[p] < 0 && Get(l, pool[p]).state == Tracked
  }

  /** The retry pool: confirmed tracks that the first round left over. */
  ghost predicate IsRetry(l: Lists, pool: seq<Slot>, m: seq<int>, retry: seq<Slot>)
    requires Pool(l, pool) && |m| == |pool|
  {
    && Pool(l, retry)
    && (forall q :: 0 <= q < |retry| ==> LeftTracked(l, pool, m, retry[q]))
    && (forall p :: 0 <= p < |pool| && m[p] < 0 && Get(l, pool[p]).state == Tracked ==> pool[p] in retry)
  }

  ghost predicate Selected(dets: seq<STrack>, idx: seq<int>, r: seq<STrack>) {
    && |r| == |idx|
    && forall k :: 0 <= k < |r| ==> 0 <= idx[k] < |dets| && r[k] == dets[idx[k]]
  }

  ghost predicate WellFormed(l: Lists, high: seq<STrack>, low: seq<STrack>, g: Log) {
    match g
    case Log(pool, m1, w1, left, rest, retry, m2, w2, unconfirmed, m3, w3) =>
      && unconfirmed == TrackedSlots(l.tracked, false, |l.tracked|)
      && pool == TrackedSlots(l.tracked, true, |l.tracked|) + LostSlots(|l.lost|)
      && Pool(l, pool) && Pool(l, unconfirmed)
      && IsInverse(m1, w1, |pool|, |high|)
      && left == Holes(w1, |high|) && Selected(high, left, rest)
      && IsRetry(l, pool, m1, retry)
      && IsInverse(m2, w2, |retry|, |low|)
      && IsInverse(m3, w3, |unconfirmed|, |rest|)
  }

  /** The boxes predicted for the tracks in a pool. */
  ghost function PredictedBoxes(l: Lists, pool: seq<Slot>, f: Filter): (r: seq<Box>)
    requires Pool(l, pool)
    ensures |r| == |pool| && forall p :: 0 <= p < |pool| ==> r[p] == Get(l, pool[p]).Predict(f).box
  {
    seq(|pool|, p requires 0 <= p < |pool| => Get(l, pool[p]).Predict(f).box)
  }

  /** Each round matched as well as its threshold allows: predicted boxes in the first two rounds,
      the boxes last seen in the third. */
  ghost predicate Optimal(l: Lists, high: seq<STrack>, low: seq<STrack>, g: Log, f: Filter)
    requires WellFormed(l, high, low, g)
  {
    && BestMatching(PredictedBoxes(l, g.pool, f), BoxesOf(high), MATCH_THRESH, g.m1)
    && BestMatching(PredictedBoxes(l, g.retry, f), BoxesOf(low), SECOND_THRESH, g.m2)
    && BestMatching(PoolBoxes(l, g.unconfirmed), BoxesOf(g.rest), UNCONFIRMED_THRESH, g.m3)
  }

  /** In no round is a matched pair farther apart than the threshold or a leftover pair nearer than it. */
  ghost predicate WithinThresholds(l: Lists, high: seq<STrack>, low: seq<STrack>, g: Log, f: Filter)
    requires WellFormed(l, high, low, g)
  {
    && Bounded(PredictedBoxes(l, g.pool, f), BoxesOf(high), 0.8, g.m1)
    && Bounded(PredictedBoxes(l, g.retry, f), BoxesOf(low), 0.5, g.m2)
    && Bounded(PoolBoxes(l, g.unconfirmed), BoxesOf(g.rest), 0.7, g.m3)
  }

  lemma OptimalIsWithin(l: Lists, high: seq<STrack>, low: seq<STrack>, g: Log, f: Filter)
    requires WellFormed(l, high, low, g) && Optimal(l, high, low, g, f)
    ensures WithinThresholds(l, high, low, g, f)
  {
    BestIsBounded(PredictedBoxes(l, g.pool, f), BoxesOf(high), MATCH_THRESH, g.m1);
    BestIsBounded(PredictedBoxes(l, g.retry, f), BoxesOf(low), SECOND_THRESH, g.m2);
    BestIsBounded(PoolBoxes(l, g.unconfirmed), BoxesOf(g.rest), UNCONFIRMED_THRESH, g.m3);
  }

  /** First round: matched slots took their detections; lost ones left over have only been predicted. */
  ghost predicate FirstDone(l: Lists, r: Lists, pool: seq<Slot>, dets: seq<STrack>, m: seq<int>, f: Filter, frame: int)
    requires Pool(l, pool) && SameSize(l, r) && IsPartial(m, |pool|, |dets|)
  {
    && (forall p :: 0 <= p < |pool| && m[p] >= 0 ==>
          Get(r, pool[p]) == Hit(f, Get(l, pool[p]).Predict(f), dets[m[p]], frame))
    && (forall p :: 0 <= p < |pool| && m[p] < 0 && Get(l, pool[p]).state != Tracked ==>
          Get(r, pool[p]) == Get(l, pool[p]).Predict(f))
  }

  /** Second round: the retry pool took low-score detections or was lost. */
  ghost predicate RetryDone(l: Lists, r: Lists, pool: seq<Slot>, dets: seq<STrack>, m: seq<int>, f: Filter, frame: int)
    requires Pool(l, pool) && SameSize(l, r) && IsPartial(m, |pool|, |dets|)
  {
    forall q :: 0 <= q < |pool| ==>
      Get(r, pool[q]) == if m[q] >= 0 then Hit(f, Get(l, pool[q]).Predict(f), dets[m[q]], frame)
                         else Get(l, pool[q]).Predict(f).MarkLost()
  }

  /** Third round: unconfirmed tracks took leftover detections or were removed. */
  ghost predicate ConfirmDone(l: Lists, r: Lists, pool: seq<Slot>, dets: seq<STrack>, m: seq<int>, f: Filter,
                              frame: int)
    requires Pool(l, pool) && SameSize(l, r) && IsPartial(m, |pool|, |dets|)
  {
    forall u :: 0 <= u < |pool| ==>
      Get(r, pool[u]) == if m[u] >= 0 then Get(l, pool[u]).Update(f, dets[m[u]], frame)
                         else Get(l, pool[u]).MarkRemoved()
  }

  /** What became of every entry, slot by slot. */
  ghost predicate Explains(l: Lists, r: Lists, high: seq<STrack>, low: seq<STrack>, g: Log, f: Filter, frame: int)
    requires WellFormed(l, high, low, g)
  {
    && SameSize(l, r)
    && FirstDone(l, r, g.pool, high, g.m1, f, frame)
    && RetryDone(l, r, g.retry, low, g.m2, f, frame)
    && ConfirmDone(l, r, g.unconfirmed, g.rest, g.m3, f, frame)
  }

  /** What the tracker guarantees about its lists between frames, as far as the rounds rely on it. */
  ghost predicate Ready(l: Lists) {
    && UniqueIds(l)
    && (forall i :: 0 <= i < |l.tracked| ==> l.tracked[i].state == Tracked)
    && (forall j :: 0 <= j < |l.lost| ==> l.lost[j].state in {Lost, Removed} && l.lost[j].isActivated)
  }

  // ---------------------------------------------------------------- fates

  /** A previously tracked entry is tracked again, lost or removed. */
  ghost predicate TrackedFate(t: STrack, r: STrack, frame: int) {
    && r.id == t.id && r.startFrame == t.startFrame
    && (|| (r.state == Tracked && r.frameId == frame && r.isActivated)
        || (t.isActivated && r.state == Lost && r.frameId == t.frameId && r.isActivated)
        || (!t.isActivated && r.state == Removed && r.frameId == t.frameId))
  }

  /** A lost entry is revived or waits on. */
  ghost predicate LostFate(t: STrack, r: STrack, frame: int) {
    && r.id == t.id && r.startFrame == t.startFrame && r.isActivated
    && ((r.state == Tracked && r.frameId == frame) || (r.state == t.state && r.frameId == t.frameId))
  }

  lemma FateOfTracked(l: Lists, r: Lists, high: seq<STrack>, low: seq<STrack>, g: Log, f: Filter, frame: int, i: int)
    requires Ready(l) && WellFormed(l, high, low, g) && Explains(l, r, high, low, g, f, frame) && 0 <= i < |l.tracked|
    ensures TrackedFate(l.tracked[i], r.tracked[i], frame)
  {
    var s := InTracked(i);
    PoolsPartition(l);
    assert Has(l, s) && Get(l, s) == l.tracked[i] && Get(r, s) == r.tracked[i];
    if s in g.pool {
      FateOfConfirmed(l, r, high, low, g, f, frame, s);
    } else {
      var u :| 0 <= u < |g.unconfirmed| && g.unconfirmed[u] == s;
      assert s in g.unconfirmed;
    }
  }

  lemma FateOfConfirmed(l: Lists, r: Lists, high: seq<STrack>, low: seq<STrack>, g: Log, f: Filter, frame: int, s: Slot)
    requires WellFormed(l, high, low, g) && Explains(l, r, high, low, g, f, frame)
    requires s in g.pool && s.InTracked? && Has(l, s) && Get(l, s).state == Tracked
    ensures TrackedFate(Get(l, s), Get(r, s), frame)
  {
    var p :| 0 <= p < |g.pool| && g.pool[p] == s;
    assert p < |TrackedSlots(l.tracked, true, |l.tracked|)|;
    assert s in TrackedSlots(l.tracked, true, |l.tracked|);
    if g.m1[p] < 0 {
      assert s in g.retry;
      var q :| 0 <= q < |g.retry| && g.retry[q] == s;
    }
  }

  lemma FateOfLost(l: Lists, r: Lists, high: seq<STrack>, low: seq<STrack>, g: Log, f: Filter, frame: int, j: int)
    requires Ready(l) && WellFormed(l, high, low, g) && Explains(l, r, high, low, g, f, frame) && 0 <= j < |l.lost|
    ensures LostFate(l.lost[j], r.lost[j], frame)
  {
    var p := |TrackedSlots(l.tracked, true, |l.tracked|)| + j;
    assert g.pool[p] == InLost(j);
    FateOfWaiting(l, r, g.pool, high, g.m1, f, frame, p);
  }

  /** Without detections a lost entry is not matched. */
  lemma UnseenStaysLost(l: Lists, r: Lists, high: seq<STrack>, low: seq<STrack>, g: Log, f: Filter, frame: int, j: int)
    requires Ready(l) && WellFormed(l, high, low, g) && Explains(l, r, high, low, g, f, frame) && 0 <= j < |l.lost|
    requires high == []
    ensures r.lost[j].state != Tracked
  {
    var p := |TrackedSlots(l.tracked, true, |l.tracked|)| + j;
    assert g.pool[p] == InLost(j);
    assert g.m1[p] < 0;
  }

  lemma FateOfWaiting(l: Lists, r: Lists, pool: seq<Slot>, dets: seq<STrack>, m: seq<int>, f: Filter, frame: int,
                      p: int)
    requires Pool(l, pool) && SameSize(l, r) && IsPartial(m, |pool|, |dets|) && FirstDone(l, r, pool, dets, m, f, frame)
    requires 0 <= p < |pool| && Get(l, pool[p]).state in {Lost, Removed} && Get(l, pool[p]).isActivated
    ensures LostFate(Get(l, pool[p]), Get(r, pool[p]), frame)
  {
    assert m[p] >= 0 ==> Get(r, pool[p]) == Hit(f, Get(l, pool[p]).Predict(f), dets[m[p]], frame);
  }

  // ---------------------------------------------------------------- running the rounds

  /** `list` holds copies of exactly the entries of `s` that are in state `st`. */
  ghost predicate CopiesOf(s: seq<STrack>, st: TrackState, list: seq<STrack>) {
    forall e :: e in list <==> e in s && e.state == st
  }

  method FirstRound(l: Lists, high: seq<STrack>, f: Filter, frame: int)
    returns (r: Lists, unconfirmed: seq<Slot>, pool: seq<Slot>, activated: seq<STrack>, refound: seq<STrack>,
             unmatched: seq<int>, left: seq<int>, ghost m: seq<int>, ghost w: seq<int>)
    requires Ready(l)
    ensures unconfirmed == TrackedSlots(l.tracked, false, |l.tracked|)
    ensures pool == TrackedSlots(l.tracked, true, |l.tracked|) + LostSlots(|l.lost|)
    ensures Pool(l, pool) && IsInverse(m, w, |pool|, |high|)
    ensures BestMatching(PredictedBoxes(l, pool, f), BoxesOf(high), MATCH_THRESH, m)
    ensures Untouched(l, r, pool)
    ensures forall p :: 0 <= p < |pool| ==>
      Get(r, pool[p]) == if m[p] >= 0 then Hit(f, Get(l, pool[p]).Predict(f), high[m[p]], frame)
                         else Get(l, pool[p]).Predict(f)
    ensures Copies(l, r, pool, m, true, activated) && Copies(l, r, pool, m, false, refound)
    ensures unmatched == Holes(m, |pool|) && left == Holes(w, |high|)
  {
    unconfirmed, pool := BuildPools(l);
    PoolsPartition(l);
    var predicted := PredictAll(l, pool, f);
    var matches;
    matches, unmatched, left, m, w := Match(predicted, pool, high, MATCH_THRESH);
    assert PoolBoxes(predicted, pool) == PredictedBoxes(l, pool, f);
    r, activated, refound := Associate(predicted, pool, high, matches, f, frame, m);
    assert forall p :: 0 <= p < |pool| ==> (Get(predicted, pool[p]).state == Get(l, pool[p]).state);
    assert Copies(predicted, r, pool, m, true, activated) && Copies(predicted, r, pool, m, false, refound);
  }

  /** `list` holds copies of exactly the slots of `pool` that `m` matches, or does not. */
  ghost predicate SlotCopies(r: Lists, pool: seq<Slot>, m: seq<int>, matched: bool, list: seq<STrack>)
    requires Pool(r, pool) && |m| == |pool|
  {
    && (forall q :: 0 <= q < |pool| && (m[q] >= 0) == matched ==> Get(r, pool[q]) in list)
    && (forall e :: e in list ==> exists q :: 0 <= q < |pool| && (m[q] >= 0) == matched && Get(r, pool[q]) == e)
  }

  ghost predicate SlotIdsDiffer(l: Lists, pool: seq<Slot>)
    requires Pool(l, pool)
  {
    forall p, q :: 0 <= p < q < |pool| ==> Get(l, pool[p]).id != Get(l, pool[q]).id
  }

  lemma HolesArePositions(pool: seq<Slot>, m: seq<int>)
    requires |m| == |pool|
    ensures Positions(pool, Holes(m, |pool|))
    ensures forall q :: 0 <= q < |pool| ==> (q in Holes(m, |pool|) <==> m[q] < 0)
  {
    var h := Holes(m, |pool|);
    assert forall k :: 0 <= k < |h| ==> h[k] in h;
  }

  /** `list` is what the slots at the given positions hold, in order. */
  ghost predicate Listed(r: Lists, pool: seq<Slot>, idx: seq<int>, list: seq<STrack>)
    requires Pool(r, pool)
  {
    && Positions(pool, idx) && |list| == |idx|
    && forall k :: 0 <= k < |idx| ==> list[k] == Get(r, pool[idx[k]])
  }

  /** Matched slots hit, leftover slots marked: the outcome of a whole round over Tracked slots. */
  lemma RoundOutcome(l: Lists, hit: Lists, r: Lists, pool: seq<Slot>, dets: seq<STrack>, m: seq<int>, f: Filter,
                     frame: int, to: TrackState, activated: seq<STrack>, marked: seq<STrack>)
    requires Pool(l, pool) && IsPartial(m, |pool|, |dets|) && Associated(l, hit, pool, dets, m, f, frame)
    requires Copies(l, hit, pool, m, true, activated)
    requires forall q :: 0 <= q < |pool| ==> Get(l, pool[q]).state == Tracked
    requires Positions(pool, Holes(m, |pool|)) && Marked(hit, r, pool, Holes(m, |pool|), to, marked)
    ensures Untouched(l, r, pool)
    ensures forall q :: 0 <= q < |pool| ==>
      Get(r, pool[q]) == if m[q] >= 0 then Get(l, pool[q]).Update(f, dets[m[q]], frame)
                         else Get(l, pool[q]).(state := to)
    ensures SlotCopies(r, pool, m, true, activated) && Listed(r, pool, Holes(m, |pool|), marked)
  {
    HolesArePositions(pool, m);
    assert forall q :: 0 <= q < |pool| && m[q] >= 0 ==> Get(r, pool[q]) == Get(hit, pool[q]);
  }

  lemma ListedHoles(r: Lists, pool: seq<Slot>, m: seq<int>, list: seq<STrack>)
    requires Pool(r, pool) && |m| == |pool| && Listed(r, pool, Holes(m, |pool|), list)
    ensures SlotCopies(r, pool, m, false, list)
    ensures SlotIdsDiffer(r, pool) ==> DistinctIds(list)
  {
    var idx := Holes(m, |pool|);
    HolesArePositions(pool, m);
    forall e | e in list
      ensures exists q :: 0 <= q < |pool| && (m[q] >= 0) == false && Get(r, pool[q]) == e
    {
      var k :| 0 <= k < |list| && list[k] == e;
      assert idx[k] in idx;
    }
    forall q | 0 <= q < |pool| && m[q] < 0
      ensures Get(r, pool[q]) in list
    {
      assert q in idx;
      var k :| 0 <= k < |idx| && idx[k] == q;
      assert list[k] == Get(r, pool[q]);
    }
  }

  method PlayRetry(l: Lists, retry: seq<Slot>, low: seq<STrack>, matches: seq<(int, int)>, over: seq<int>, f: Filter,
                   frame: int, ghost m: seq<int>)
    returns (r: Lists, activated: seq<STrack>, refound: seq<STrack>, lost: seq<STrack>)
    requires Pool(l, retry) && IsPartial(m, |retry|, |low|)
    requires matches == Pairs(m, |retry|) && over == Holes(m, |retry|)
    requires forall q :: 0 <= q < |retry| ==> Get(l, retry[q]).state == Tracked
    ensures Untouched(l, r, retry)
    ensures forall q :: 0 <= q < |retry| ==>
      Get(r, retry[q]) == if m[q] >= 0 then Get(l, retry[q]).Update(f, low[m[q]], frame)
                          else Get(l, retry[q]).MarkLost()
    ensures SlotCopies(r, retry, m, true, activated) && Listed(r, retry, over, lost)
    ensures forall e :: e !in refound
  {
    var hit;
    hit, activated, refound := Associate(l, retry, low, matches, f, frame, m);
    LeftoversStillTracked(l, hit, retry, low, m, f, frame);
    r, lost := LoseUnmatched(hit, retry, over);
    NothingRefound(l, hit, retry, m, refound);
    RoundOutcome(l, hit, r, retry, low, m, f, frame, Lost, activated, lost);
  }

  lemma LeftoversStillTracked(l: Lists, hit: Lists, pool: seq<Slot>, dets: seq<STrack>, m: seq<int>, f: Filter,
                              frame: int)
    requires Pool(l, pool) && IsPartial(m, |pool|, |dets|) && Associated(l, hit, pool, dets, m, f, frame)
    requires forall q :: 0 <= q < |pool| ==> Get(l, pool[q]).state == Tracked
    ensures Pool(hit, pool) && Positions(pool, Holes(m, |pool|))
    ensures forall k :: 0 <= k < |Holes(m, |pool|)| ==> Get(hit, pool[Holes(m, |pool|)[k]]).state == Tracked
  {
    HolesArePositions(pool, m);
    var h := Holes(m, |pool|);
    assert forall k :: 0 <= k < |h| ==> h[k] in h;
  }

  method SecondRound(l: Lists, pool: seq<Slot>, unmatched: seq<int>, low: seq<STrack>, f: Filter, frame: int,
                     ghost m1: seq<int>)
    returns (r: Lists, activated: seq<STrack>, refound: seq<STrack>, lost: seq<STrack>, ghost retry: seq<Slot>,
             ghost m: seq<int>, ghost w: seq<int>)
    requires Pool(l, pool) && |m1| == |pool| && unmatched == Holes(m1, |pool|)
    ensures IsRetry(l, pool, m1, retry) && IsInverse(m, w, |retry|, |low|) && Untouched(l, r, retry)
    ensures BestMatching(PoolBoxes(l, retry), BoxesOf(low), SECOND_THRESH, m)
    ensures forall q :: 0 <= q < |retry| ==>
      Get(r, retry[q]) == if m[q] >= 0 then Get(l, retry[q]).Update(f, low[m[q]], frame)
                          else Get(l, retry[q]).MarkLost()
    ensures SlotCopies(r, retry, m, true, activated) && Listed(r, retry, Holes(m, |retry|), lost)
    ensures forall e :: e !in refound
  {
    HolesArePositions(pool, m1);
    var slots, at := StillTracked(l, pool, unmatched);
    retry := slots;
    RetrySlots(l, pool, m1, retry, at);
    var matches, over, leftover;
    matches, over, leftover, m, w := Match(l, slots, low, SECOND_THRESH);
    r, activated, refound, lost := PlayRetry(l, slots, low, matches, over, f, frame, m);
  }

  lemma NothingRefound(l: Lists, r: Lists, pool: seq<Slot>, m: seq<int>, refound: seq<STrack>)
    requires Pool(l, pool) && SameSize(l, r) && |m| == |pool| && Copies(l, r, pool, m, false, refound)
    requires forall q :: 0 <= q < |pool| ==> Get(l, pool[q]).state == Tracked
    ensures forall e :: e !in refound
  {
  }

  lemma RetrySlots(l: Lists, pool: seq<Slot>, m: seq<int>, retry: seq<Slot>, at: seq<int>)
    requires Pool(l, pool) && Pool(l, retry) && |m| == |pool| && Positions(pool, at) && |at| == |retry|
    requires forall k :: 0 <= k < |retry| ==> retry[k] == pool[at[k]]
    requires forall p :: p in at <==> p in Holes(m, |pool|) && Get(l, pool[p]).state == Tracked
    ensures IsRetry(l, pool, m, retry)
    ensures forall q :: 0 <= q < |retry| ==> Get(l, retry[q]).state == Tracked
  {
    forall q | 0 <= q < |retry|
      ensures LeftTracked(l, pool, m, retry[q])
    {
      assert at[q] in at;
    }
    forall p | 0 <= p < |pool| && m[p] < 0 && Get(l, pool[p]).state == Tracked
      ensures pool[p] in retry
    {
      assert p in at;
      var k :| 0 <= k < |at| && at[k] == p;
      assert retry[k] == pool[p];
    }
  }

  method ThirdRound(l: Lists, unconfirmed: seq<Slot>, rest: seq<STrack>, f: Filter, frame: int)
    returns (r: Lists, activated: seq<STrack>, removed: seq<STrack>, left: seq<int>, ghost m: seq<int>,
             ghost w: seq<int>)
    requires Pool(l, unconfirmed) && forall u :: 0 <= u < |unconfirmed| ==> Get(l, unconfirmed[u]).state == Tracked
    ensures IsInverse(m, w, |unconfirmed|, |rest|) && left == Holes(w, |rest|)
    ensures BestMatching(PoolBoxes(l, unconfirmed), BoxesOf(rest), UNCONFIRMED_THRESH, m)
    ensures Untouched(l, r, unconfirmed) && ConfirmDone(l, r, unconfirmed, rest, m, f, frame)
    ensures SlotCopies(r, unconfirmed, m, true, activated) && Listed(r, unconfirmed, Holes(m, |unconfirmed|), removed)
  {
    var matches, over;
    matches, over, left, m, w := Match(l, unconfirmed, rest, UNCONFIRMED_THRESH);
    var hit;
    hit, activated := UpdateMatched(l, unconfirmed, rest, matches, f, frame, m);
    HolesArePositions(unconfirmed, m);
    r, removed := RemoveUnmatched(hit, unconfirmed, over);
    RoundOutcome(l, hit, r, unconfirmed, rest, m, f, frame, Removed, activated, removed);
  }

  // ---------------------------------------------------------------- all three rounds

  /** The lists after each round. */
  ghost predicate Played(l: Lists, r1: Lists, r2: Lists, r: Lists, high: seq<STrack>, low: seq<STrack>, g: Log,
                         f: Filter, frame: int)
    requires WellFormed(l, high, low, g)
  {
    match g
    case Log(pool, m1, _, _, rest, retry, m2, _, unconfirmed, m3, _) =>
      && Untouched(l, r1, pool) && Untouched(r1, r2, retry) && Untouched(r2, r, unconfirmed)
      && (forall p :: 0 <= p < |pool| ==>
            Get(r1, pool[p]) == if m1[p] >= 0 then Hit(f, Get(l, pool[p]).Predict(f), high[m1[p]], frame)
                                else Get(l, pool[p]).Predict(f))
      && (forall q :: 0 <= q < |retry| ==>
            Get(r2, retry[q]) == if m2[q] >= 0 then Get(r1, retry[q]).Update(f, low[m2[q]], frame)
                                 else Get(r1, retry[q]).MarkLost())
      && ConfirmDone(r2, r, unconfirmed, rest, m3, f, frame)
  }

  /** A slot belongs to one of: matched at once, revived or waiting; retried; unconfirmed. */
  lemma SlotCases(l: Lists, pool: seq<Slot>, unconfirmed: seq<Slot>, m: seq<int>, retry: seq<Slot>, s: Slot)
    requires Ready(l) && Has(l, s) && unconfirmed == TrackedSlots(l.tracked, false, |l.tracked|)
    requires pool == TrackedSlots(l.tracked, true, |l.tracked|) + LostSlots(|l.lost|)
    requires Pool(l, pool) && |m| == |pool| && IsRetry(l, pool, m, retry)
    ensures s in unconfirmed <==> s !in pool
    ensures s in unconfirmed ==> s.InTracked? && !Get(l, s).isActivated
    ensures s in retry ==> s in pool && s.InTracked?
    ensures forall p :: 0 <= p < |pool| && pool[p] == s ==> (s in retry <==> m[p] < 0 && s.InTracked?)
    ensures Get(l, s).state == Tracked <==> s.InTracked?
  {
    PoolsPartition(l);
    assert Get(l, s).state == Tracked <==> s.InTracked?;
    if s in retry {
      var q :| 0 <= q < |retry| && retry[q] == s;
      assert LeftTracked(l, pool, m, retry[q]);
    }
    forall p | 0 <= p < |pool| && pool[p] == s
      ensures s in retry <==> m[p] < 0 && s.InTracked?
    {
      if s in retry {
        var q :| 0 <= q < |retry| && retry[q] == s;
        assert LeftTracked(l, pool, m, retry[q]);
        var p' :| 0 <= p' < |pool| && pool[p'] == retry[q] && m[p'] < 0 && Get(l, pool[p']).state == Tracked;
        assert p' == p;
      }
    }
  }

  /** Matched slots of the first round keep what they got; they are tracked now. */
  ghost predicate FirstSettled(l: Lists, r1: Lists, r: Lists, pool: seq<Slot>, m: seq<int>)
    requires Pool(l, pool) && SameSize(l, r1) && SameSize(l, r) && |m| == |pool|
  {
    forall p :: 0 <= p < |pool| ==>
      && (pool[p].InTracked? <==> Get(l, pool[p]).state == Tracked)
      && (m[p] >= 0 ==> Get(r, pool[p]) == Get(r1, pool[p]) && Get(r, pool[p]).state == Tracked)
      && (m[p] < 0 && pool[p].InLost? ==> Get(r, pool[p]).state != Tracked)
  }

  /** Slots of a later round keep what they got; they are tracked when matched and in state `to` otherwise. */
  ghost predicate Settled(r0: Lists, r: Lists, pool: seq<Slot>, m: seq<int>, to: TrackState)
    requires Pool(r0, pool) && SameSize(r0, r) && |m| == |pool|
  {
    forall q :: 0 <= q < |pool| ==>
      && pool[q].InTracked? && Get(r, pool[q]) == Get(r0, pool[q])
      && Get(r, pool[q]).state == if m[q] >= 0 then Tracked else to
  }

  lemma PlayedSettles(l: Lists, r1: Lists, r2: Lists, r: Lists, high: seq<STrack>, low: seq<STrack>, g: Log, f: Filter,
                      frame: int)
    requires Ready(l) && WellFormed(l, high, low, g) && Played(l, r1, r2, r, high, low, g, f, frame)
    ensures FirstSettled(l, r1, r, g.pool, g.m1)
    ensures Settled(r2, r, g.retry, g.m2, Lost) && Settled(r, r, g.unconfirmed, g.m3, Removed)
    ensures forall q :: 0 <= q < |g.retry| ==> Get(r1, g.retry[q]) == Get(l, g.retry[q]).Predict(f)
    ensures forall q :: 0 <= q < |g.retry| ==> Get(r2, g.retry[q]).id == Get(l, g.retry[q]).id
    ensures forall u :: 0 <= u < |g.unconfirmed| ==> Get(r2, g.unconfirmed[u]) == Get(l, g.unconfirmed[u])
    ensures forall p :: 0 <= p < |g.pool| && g.pool[p].InLost? ==> Get(r, g.pool[p]) == Get(r1, g.pool[p])
  {
    forall p | 0 <= p < |g.pool|
      ensures g.pool[p].InTracked? <==> Get(l, g.pool[p]).state == Tracked
      ensures g.m1[p] >= 0 || g.pool[p].InLost? ==> Get(r, g.pool[p]) == Get(r1, g.pool[p])
    {
      assert g.pool[p] in g.pool;
      SlotCases(l, g.pool, g.unconfirmed, g.m1, g.retry, g.pool[p]);
    }
    forall q | 0 <= q < |g.retry|
      ensures Get(r, g.retry[q]) == Get(r2, g.retry[q]) && Get(r1, g.retry[q]) == Get(l, g.retry[q]).Predict(f)
      ensures g.retry[q].InTracked?
    {
      assert g.retry[q] in g.retry;
      SlotCases(l, g.pool, g.unconfirmed, g.m1, g.retry, g.retry[q]);
      var p :| 0 <= p < |g.pool| && g.pool[p] == g.retry[q];
    }
    forall u | 0 <= u < |g.unconfirmed|
      ensures Get(r2, g.unconfirmed[u]) == Get(l, g.unconfirmed[u]) && g.unconfirmed[u].InTracked?
    {
      assert g.unconfirmed[u] in g.unconfirmed;
      SlotCases(l, g.pool, g.unconfirmed, g.m1, g.retry, g.unconfirmed[u]);
    }
  }

  /** The rounds explain the result; the later ones see predicted leftovers and untouched unconfirmed tracks. */
  lemma PlayedExplains(l: Lists, r1: Lists, r2: Lists, r: Lists, high: seq<STrack>, low: seq<STrack>, g: Log, f: Filter,
                       frame: int)
    requires Ready(l) && WellFormed(l, high, low, g) && Played(l, r1, r2, r, high, low, g, f, frame)
    ensures Explains(l, r, high, low, g, f, frame)
    ensures PoolBoxes(r1, g.retry) == PredictedBoxes(l, g.retry, f)
    ensures PoolBoxes(r2, g.unconfirmed) == PoolBoxes(l, g.unconfirmed)
  {
    PlayedSettles(l, r1, r2, r, high, low, g, f, frame);
    assert forall p :: 0 <= p < |g.pool| && Get(l, g.pool[p]).state != Tracked ==> g.pool[p].InLost?;
    forall q | 0 <= q < |g.retry|
      ensures Get(l, g.retry[q]).state == Tracked
    {
      assert LeftTracked(l, g.pool, g.m1, g.retry[q]);
    }
  }

  /** The slot was unconfirmed, retried, matched at once or lost. */
  ghost predicate CoveredSlot(pool: seq<Slot>, m: seq<int>, retry: seq<Slot>, unconfirmed: seq<Slot>, s: Slot)
    requires |m| == |pool|
  {
    || (exists u :: 0 <= u < |unconfirmed| && unconfirmed[u] == s)
    || (exists q :: 0 <= q < |retry| && retry[q] == s)
    || (exists p :: 0 <= p < |pool| && pool[p] == s && (m[p] >= 0 || s.InLost?))
  }

  ghost predicate Covered(l: Lists, pool: seq<Slot>, m: seq<int>, retry: seq<Slot>, unconfirmed: seq<Slot>)
    requires |m| == |pool|
  {
    forall s {:trigger CoveredSlot(pool, m, retry, unconfirmed, s)} :: Has(l, s) ==>
      CoveredSlot(pool, m, retry, unconfirmed, s)
  }

  lemma RoundsCover(l: Lists, pool: seq<Slot>, unconfirmed: seq<Slot>, m: seq<int>, retry: seq<Slot>)
    requires Ready(l) && unconfirmed == TrackedSlots(l.tracked, false, |l.tracked|)
    requires pool == TrackedSlots(l.tracked, true, |l.tracked|) + LostSlots(|l.lost|)
    requires Pool(l, pool) && |m| == |pool| && IsRetry(l, pool, m, retry)
    ensures Covered(l, pool, m, retry, unconfirmed)
  {
    forall s | Has(l, s)
      ensures CoveredSlot(pool, m, retry, unconfirmed, s)
    {
      SlotCases(l, pool, unconfirmed, m, retry, s);
      if s !in unconfirmed {
        var p :| 0 <= p < |pool| && pool[p] == s;
        assert s in retry || m[p] >= 0 || s.InLost?;
      }
    }
  }

  // ---------------------------------------------------------------- copies handed out

  /** First round: updated and revived tracks were copied, nothing else was, and waiting ones are not tracked. */
  ghost predicate FirstHanded(r: Lists, pool: seq<Slot>, m: seq<int>, activated: seq<STrack>, refound: seq<STrack>)
    requires Pool(r, pool) && |m| == |pool|
  {
    && (forall e :: e in activated ==> e in r.tracked && e.state == Tracked)
    && (forall e :: e in refound ==> e in r.lost && e.state == Tracked)
    && (forall p :: 0 <= p < |pool| && m[p] >= 0 ==> Get(r, pool[p]).state == Tracked)
    && (forall p :: 0 <= p < |pool| && m[p] >= 0 ==>
          Get(r, pool[p]) in if pool[p].InTracked? then activated else refound)
    && (forall p :: 0 <= p < |pool| && m[p] < 0 && pool[p].InLost? ==> Get(r, pool[p]).state != Tracked)
  }

  /** Later rounds: matched tracks were copied as tracked, the others in state `to`, nothing else was. */
  ghost predicate LaterHanded(r: Lists, pool: seq<Slot>, m: seq<int>, to: TrackState, activated: seq<STrack>,
                              marked: seq<STrack>)
    requires Pool(r, pool) && |m| == |pool|
  {
    && (forall e :: e in activated ==> e in r.tracked && e.state == Tracked)
    && (forall e :: e in marked ==> e in r.tracked && e.state == to)
    && (forall q :: 0 <= q < |pool| ==> pool[q].InTracked?)
    && (forall q :: 0 <= q < |pool| ==> Get(r, pool[q]).state == if m[q] >= 0 then Tracked else to)
    && (forall q :: 0 <= q < |pool| ==> Get(r, pool[q]) in if m[q] >= 0 then activated else marked)
  }

  lemma FirstCopies(l: Lists, r1: Lists, r: Lists, pool: seq<Slot>, m: seq<int>, activated: seq<STrack>,
                    refound: seq<STrack>)
    requires Pool(l, pool) && SameSize(l, r1) && SameSize(l, r) && |m| == |pool| && FirstSettled(l, r1, r, pool, m)
    requires Copies(l, r1, pool, m, true, activated) && Copies(l, r1, pool, m, false, refound)
    ensures Pool(r, pool) && FirstHanded(r, pool, m, activated, refound)
  {
    forall e | e in activated
      ensures e in r.tracked && e.state == Tracked
    {
      var p :| 0 <= p < |pool| && m[p] >= 0 && Get(r1, pool[p]) == e && (Get(l, pool[p]).state == Tracked) == true;
      assert Get(r, pool[p]) == e;
    }
    forall e | e in refound
      ensures e in r.lost && e.state == Tracked
    {
      var p :| 0 <= p < |pool| && m[p] >= 0 && Get(r1, pool[p]) == e && (Get(l, pool[p]).state == Tracked) == false;
      assert Get(r, pool[p]) == e;
    }
  }

  lemma LaterCopies(r0: Lists, r: Lists, pool: seq<Slot>, m: seq<int>, to: TrackState, activated: seq<STrack>,
                    marked: seq<STrack>)
    requires Pool(r0, pool) && SameSize(r0, r) && |m| == |pool| && Settled(r0, r, pool, m, to)
    requires SlotCopies(r0, pool, m, true, activated) && Listed(r0, pool, Holes(m, |pool|), marked)
    ensures Pool(r, pool) && LaterHanded(r, pool, m, to, activated, marked)
  {
    ListedHoles(r0, pool, m, marked);
    forall e | e in activated
      ensures e in r.tracked && e.state == Tracked
    {
      var q :| 0 <= q < |pool| && (m[q] >= 0) == true && Get(r0, pool[q]) == e;
      assert Get(r, pool[q]) == e;
    }
    forall e | e in marked
      ensures e in r.tracked && e.state == to
    {
      var q :| 0 <= q < |pool| && (m[q] >= 0) == false && Get(r0, pool[q]) == e;
      assert Get(r, pool[q]) == e;
    }
  }

  /** Lost tracks are handed out once each. */
  lemma LostOnce(l: Lists, r0: Lists, pool: seq<Slot>, m: seq<int>, lost: seq<STrack>)
    requires Pool(l, pool) && SameSize(l, r0) && DistinctIds(l.tracked) && |m| == |pool|
    requires forall q :: 0 <= q < |pool| ==> pool[q].InTracked? && Get(r0, pool[q]).id == Get(l, pool[q]).id
    requires Listed(r0, pool, Holes(m, |pool|), lost)
    ensures DistinctIds(lost)
  {
    forall p, q | 0 <= p < q < |pool|
      ensures Get(r0, pool[p]).id != Get(r0, pool[q]).id
    {
      assert pool[p].i != pool[q].i;
    }
    ListedHoles(r0, pool, m, lost);
  }

  lemma SlotHanded(r: Lists, pool: seq<Slot>, m1: seq<int>, retry: seq<Slot>, m2: seq<int>, unconfirmed: seq<Slot>,
                   m3: seq<int>, act1: seq<STrack>, ref1: seq<STrack>, act2: seq<STrack>, lost: seq<STrack>,
                   act3: seq<STrack>, removed: seq<STrack>, s: Slot)
    requires Pool(r, pool) && Pool(r, retry) && Pool(r, unconfirmed) && Has(r, s)
    requires |m1| == |pool| && |m2| == |retry| && |m3| == |unconfirmed|
    requires Covered(r, pool, m1, retry, unconfirmed) && FirstHanded(r, pool, m1, act1, ref1)
    requires LaterHanded(r, retry, m2, Lost, act2, lost) && LaterHanded(r, unconfirmed, m3, Removed, act3, removed)
    ensures s.InTracked? && Get(r, s).state == Tracked ==> Get(r, s) in act1 || Get(r, s) in act2 || Get(r, s) in act3
    ensures s.InTracked? && Get(r, s).state == Lost ==> Get(r, s) in lost
    ensures s.InTracked? && Get(r, s).state == Removed ==> Get(r, s) in removed
    ensures s.InLost? && Get(r, s).state == Tracked ==> Get(r, s) in ref1
  {
    assert CoveredSlot(pool, m1, retry, unconfirmed, s);
  }

  lemma CopiesComplete(r: Lists, pool: seq<Slot>, m1: seq<int>, retry: seq<Slot>, m2: seq<int>, unconfirmed: seq<Slot>,
                       m3: seq<int>, act1: seq<STrack>, ref1: seq<STrack>, act2: seq<STrack>, ref2: seq<STrack>,
                       lost: seq<STrack>, act3: seq<STrack>, removed: seq<STrack>)
    requires Pool(r, pool) && Pool(r, retry) && Pool(r, unconfirmed)
    requires |m1| == |pool| && |m2| == |retry| && |m3| == |unconfirmed|
    requires Covered(r, pool, m1, retry, unconfirmed) && FirstHanded(r, pool, m1, act1, ref1) && forall e :: e !in ref2
    requires LaterHanded(r, retry, m2, Lost, act2, lost) && LaterHanded(r, unconfirmed, m3, Removed, act3, removed)
    ensures CopiesOf(r.tracked, Tracked, act1 + act2 + act3) && CopiesOf(r.lost, Tracked, ref1 + ref2)
    ensures CopiesOf(r.tracked, Lost, lost) && CopiesOf(r.tracked, Removed, removed)
  {
    forall i | 0 <= i < |r.tracked|
      ensures r.tracked[i].state == Tracked ==> r.tracked[i] in act1 || r.tracked[i] in act2 || r.tracked[i] in act3
      ensures r.tracked[i].state == Lost ==> r.tracked[i] in lost
      ensures r.tracked[i].state == Removed ==> r.tracked[i] in removed
    {
      SlotHanded(r, pool, m1, retry, m2, unconfirmed, m3, act1, ref1, act2, lost, act3, removed, InTracked(i));
    }
    forall j | 0 <= j < |r.lost|
      ensures r.lost[j].state == Tracked ==> r.lost[j] in ref1
    {
      SlotHanded(r, pool, m1, retry, m2, unconfirmed, m3, act1, ref1, act2, lost, act3, removed, InLost(j));
    }
    assert forall e :: e in act1 + act2 + act3 <==> e in act1 || e in act2 || e in act3;
    assert forall e :: e in ref1 + ref2 <==> e in ref1;
  }

  lemma SettledCopies(l: Lists, r1: Lists, r2: Lists, r: Lists, pool: seq<Slot>, m1: seq<int>, retry: seq<Slot>,
                      m2: seq<int>, unconfirmed: seq<Slot>, m3: seq<int>, act1: seq<STrack>, ref1: seq<STrack>,
                      act2: seq<STrack>, ref2: seq<STrack>, lost: seq<STrack>, act3: seq<STrack>, removed: seq<STrack>)
    requires Pool(l, pool) && Pool(r2, retry) && Pool(r, unconfirmed)
    requires SameSize(l, r1) && SameSize(l, r2) && SameSize(l, r) && DistinctIds(l.tracked)
    requires |m1| == |pool| && |m2| == |retry| && |m3| == |unconfirmed|
    requires Covered(l, pool, m1, retry, unconfirmed) && forall e :: e !in ref2
    requires FirstSettled(l, r1, r, pool, m1) && Settled(r2, r, retry, m2, Lost)
             && Settled(r, r, unconfirmed, m3, Removed)
    requires forall q :: 0 <= q < |retry| ==> Get(r2, retry[q]).id == Get(l, retry[q]).id
    requires Copies(l, r1, pool, m1, true, act1) && Copies(l, r1, pool, m1, false, ref1)
    requires SlotCopies(r2, retry, m2, true, act2) && Listed(r2, retry, Holes(m2, |retry|), lost)
    requires SlotCopies(r, unconfirmed, m3, true, act3) && Listed(r, unconfirmed, Holes(m3, |unconfirmed|), removed)
    ensures CopiesOf(r.tracked, Tracked, act1 + act2 + act3) && CopiesOf(r.lost, Tracked, ref1 + ref2)
    ensures CopiesOf(r.tracked, Lost, lost) && CopiesOf(r.tracked, Removed, removed) && DistinctIds(lost)
  {
    FirstCopies(l, r1, r, pool, m1, act1, ref1);
    LaterCopies(r2, r, retry, m2, Lost, act2, lost);
    LaterCopies(r, r, unconfirmed, m3, Removed, act3, removed);
    LostOnce(l, r2, retry, m2, lost);
    CopiesComplete(r, pool, m1, retry, m2, unconfirmed, m3, act1, ref1, act2, ref2, lost, act3, removed);
  }

  lemma AllSettled(l: Lists, r1: Lists, r2: Lists, r: Lists, high: seq<STrack>, low: seq<STrack>, g: Log, f: Filter,
                   frame: int)
    requires Ready(l) && WellFormed(l, high, low, g) && Played(l, r1, r2, r, high, low, g, f, frame)
    ensures FirstSettled(l, r1, r, g.pool, g.m1)
    ensures Settled(r2, r, g.retry, g.m2, Lost) && Settled(r, r, g.unconfirmed, g.m3, Removed)
    ensures forall q :: 0 <= q < |g.retry| ==> Get(r2, g.retry[q]).id == Get(l, g.retry[q]).id
  {
    PlayedSettles(l, r1, r2, r, high, low, g, f, frame);
  }

  lemma RoundsResult(l: Lists, r1: Lists, r2: Lists, r: Lists, high: seq<STrack>, low: seq<STrack>, g: Log, f: Filter,
                     frame: int, act1: seq<STrack>, ref1: seq<STrack>, act2: seq<STrack>, ref2: seq<STrack>,
                     lost: seq<STrack>, act3: seq<STrack>, removed: seq<STrack>)
    requires Ready(l) && WellFormed(l, high, low, g) && Played(l, r1, r2, r, high, low, g, f, frame)
    requires Copies(l, r1, g.pool, g.m1, true, act1) && Copies(l, r1, g.pool, g.m1, false, ref1)
    requires SlotCopies(r2, g.retry, g.m2, true, act2) && Listed(r2, g.retry, Holes(g.m2, |g.retry|), lost)
    requires SlotCopies(r, g.unconfirmed, g.m3, true, act3)
    requires Listed(r, g.unconfirmed, Holes(g.m3, |g.unconfirmed|), removed) && forall e :: e !in ref2
    ensures CopiesOf(r.tracked, Tracked, act1 + act2 + act3) && CopiesOf(r.lost, Tracked, ref1 + ref2)
    ensures CopiesOf(r.tracked, Lost, lost) && CopiesOf(r.tracked, Removed, removed) && DistinctIds(lost)
  {
    AllSettled(l, r1, r2, r, high, low, g, f, frame);
    RoundsCover(l, g.pool, g.unconfirmed, g.m1, g.retry);
    SettledCopies(l, r1, r2, r, g.pool, g.m1, g.retry, g.m2, g.unconfirmed, g.m3, act1, ref1, act2, ref2, lost, act3,
                  removed);
  }

  /** The first two rounds, and what the third one starts from. */
  method TwoRounds(l: Lists, high: seq<STrack>, low: seq<STrack>, f: Filter, frame: int)
    returns (r: Lists, act1: seq<STrack>, ref1: seq<STrack>, act2: seq<STrack>, ref2: seq<STrack>, lost: seq<STrack>,
             unconfirmed: seq<Slot>, rest: seq<STrack>, ghost r1: Lists, ghost pool: seq<Slot>, ghost m1: seq<int>,
             ghost w1: seq<int>, ghost left: seq<int>, ghost retry: seq<Slot>, ghost m2: seq<int>, ghost w2: seq<int>)
    requires Ready(l)
    ensures unconfirmed == TrackedSlots(l.tracked, false, |l.tracked|)
    ensures pool == TrackedSlots(l.tracked, true, |l.tracked|) + LostSlots(|l.lost|)
    ensures Pool(l, pool) && IsInverse(m1, w1, |pool|, |high|) && Untouched(l, r1, pool)
    ensures BestMatching(PredictedBoxes(l, pool, f), BoxesOf(high), MATCH_THRESH, m1)
    ensures forall p :: 0 <= p < |pool| ==>
      Get(r1, pool[p]) == if m1[p] >= 0 then Hit(f, Get(l, pool[p]).Predict(f), high[m1[p]], frame)
                          else Get(l, pool[p]).Predict(f)
    ensures Copies(l, r1, pool, m1, true, act1) && Copies(l, r1, pool, m1, false, ref1)
    ensures left == Holes(w1, |high|) && Selected(high, left, rest)
    ensures IsRetry(l, pool, m1, retry) && IsInverse(m2, w2, |retry|, |low|) && Untouched(r1, r, retry)
    ensures BestMatching(PoolBoxes(r1, retry), BoxesOf(low), SECOND_THRESH, m2)
    ensures forall q :: 0 <= q < |retry| ==>
      Get(r, retry[q]) == if m2[q] >= 0 then Get(r1, retry[q]).Update(f, low[m2[q]], frame)
                          else Get(r1, retry[q]).MarkLost()
    ensures SlotCopies(r, retry, m2, true, act2) && Listed(r, retry, Holes(m2, |retry|), lost) && forall e :: e !in ref2
    ensures Pool(l, unconfirmed) && Pool(r, unconfirmed)
    ensures forall u :: 0 <= u < |unconfirmed| ==> Get(r, unconfirmed[u]).state == Tracked
  {
    var slots, unmatched, left1;
    var l1: Lists;
    l1, unconfirmed, slots, act1, ref1, unmatched, left1, m1, w1 := FirstRound(l, high, f, frame);
    LeftoverIndices(w1, high, left1);
    rest := Select(high, left1);
    r, act2, ref2, lost, retry, m2, w2 := SecondRound(l1, slots, unmatched, low, f, frame, m1);
    PoolsPartition(l);
    RetryFromStart(l, l1, slots, high, m1, retry, f, frame);
    UnconfirmedUntouched(l, l1, r, unconfirmed, slots, m1, retry);
    r1, pool, left := l1, slots, left1;
  }

  /** The three rounds one after the other, with the copies that each hands out. */
  method PlayRounds(l: Lists, high: seq<STrack>, low: seq<STrack>, f: Filter, frame: int)
    returns (r: Lists, act1: seq<STrack>, ref1: seq<STrack>, act2: seq<STrack>, ref2: seq<STrack>, lost: seq<STrack>,
             act3: seq<STrack>, removed: seq<STrack>, rest: seq<STrack>, left: seq<int>,
             ghost r1: Lists, ghost r2: Lists, ghost g: Log)
    requires Ready(l)
    ensures WellFormed(l, high, low, g) && Played(l, r1, r2, r, high, low, g, f, frame)
    ensures SameSize(l, r1) && SameSize(l, r2) && SameSize(l, r) && Pool(l, g.retry) && Pool(l, g.unconfirmed)
    ensures rest == g.rest && left == Holes(g.w3, |g.rest|)
    ensures BestMatching(PredictedBoxes(l, g.pool, f), BoxesOf(high), MATCH_THRESH, g.m1)
    ensures BestMatching(PoolBoxes(r1, g.retry), BoxesOf(low), SECOND_THRESH, g.m2)
    ensures BestMatching(PoolBoxes(r2, g.unconfirmed), BoxesOf(rest), UNCONFIRMED_THRESH, g.m3)
    ensures Copies(l, r1, g.pool, g.m1, true, act1) && Copies(l, r1, g.pool, g.m1, false, ref1)
    ensures SlotCopies(r2, g.retry, g.m2, true, act2) && Listed(r2, g.retry, Holes(g.m2, |g.retry|), lost)
    ensures SlotCopies(r, g.unconfirmed, g.m3, true, act3)
    ensures Listed(r, g.unconfirmed, Holes(g.m3, |g.unconfirmed|), removed) && forall e :: e !in ref2
  {
    var l2: Lists;
    var unconfirmed;
    ghost var pool, m1, w1, left1, retry, m2, w2, m3, w3;
    l2, act1, ref1, act2, ref2, lost, unconfirmed, rest, r1, pool, m1, w1, left1, retry, m2, w2 :=
      TwoRounds(l, high, low, f, frame);
    r, act3, removed, left, m3, w3 := ThirdRound(l2, unconfirmed, rest, f, frame);
    r2, g := l2, Log(pool, m1, w1, left1, rest, retry, m2, w2, unconfirmed, m3, w3);
  }

  method RunRounds(l: Lists, high: seq<STrack>, low: seq<STrack>, f: Filter, frame: int)
    returns (r: Lists, activated: seq<STrack>, refound: seq<STrack>, lost: seq<STrack>, removed: seq<STrack>,
             rest: seq<STrack>, left: seq<int>, ghost g: Log)
    requires Ready(l)
    ensures WellFormed(l, high, low, g) && Explains(l, r, high, low, g, f, frame) && Optimal(l, high, low, g, f)
    ensures rest == g.rest && left == Holes(g.w3, |g.rest|)
    ensures CopiesOf(r.tracked, Tracked, activated) && CopiesOf(r.lost, Tracked, refound)
    ensures CopiesOf(r.tracked, Lost, lost) && DistinctIds(lost)
    ensures CopiesOf(r.tracked, Removed, removed)
  {
    var act1, ref1, act2, ref2, act3;
    ghost var r1, r2;
    r, act1, ref1, act2, ref2, lost, act3, removed, rest, left, r1, r2, g := PlayRounds(l, high, low, f, frame);
    activated := act1 + act2 + act3;
    refound := ref1 + ref2;
    PlayedExplains(l, r1, r2, r, high, low, g, f, frame);
    RoundsResult(l, r1, r2, r, high, low, g, f, frame, act1, ref1, act2, ref2, lost, act3, removed);
  }

  lemma LeftoverIndices(w: seq<int>, dets: seq<STrack>, left: seq<int>)
    requires |w| == |dets| && left == Holes(w, |dets|)
    ensures forall k :: 0 <= k < |left| ==> 0 <= left[k] < |dets|
  {
    assert forall k :: 0 <= k < |left| ==> left[k] in left;
  }

  lemma RetryFromStart(l: Lists, r1: Lists, pool: seq<Slot>, dets: seq<STrack>, m: seq<int>, retry: seq<Slot>,
                       f: Filter, frame: int)
    requires Pool(l, pool) && SameSize(l, r1) && IsPartial(m, |pool|, |dets|) && IsRetry(r1, pool, m, retry)
    requires forall p :: 0 <= p < |pool| && m[p] < 0 ==> Get(r1, pool[p]) == Get(l, pool[p]).Predict(f)
    ensures IsRetry(l, pool, m, retry)
  {
    forall q | 0 <= q < |retry|
      ensures LeftTracked(l, pool, m, retry[q])
    {
      assert LeftTracked(r1, pool, m, retry[q]);
      var p :| 0 <= p < |pool| && pool[p] == retry[q] && m[p] < 0 && Get(r1, pool[p]).state == Tracked;
      assert Get(l, pool[p]).state == Tracked;
    }
    forall p | 0 <= p < |pool| && m[p] < 0 && Get(l, pool[p]).state == Tracked
      ensures pool[p] in retry
    {
      assert Get(r1, pool[p]).state == Tracked;
    }
  }

  lemma UnconfirmedUntouched(l: Lists, r1: Lists, r2: Lists, unconfirmed: seq<Slot>, pool: seq<Slot>, m: seq<int>,
                             retry: seq<Slot>)
    requires Ready(l) && unconfirmed == TrackedSlots(l.tracked, false, |l.tracked|)
    requires pool == TrackedSlots(l.tracked, true, |l.tracked|) + LostSlots(|l.lost|)
    requires Pool(l, pool) && |m| == |pool| && IsRetry(l, pool, m, retry)
    requires Untouched(l, r1, pool) && Untouched(r1, r2, retry)
    ensures Pool(r2, unconfirmed)
    ensures forall u :: 0 <= u < |unconfirmed| ==> Get(r2, unconfirmed[u]).state == Tracked
  {
    PoolsPartition(l);
    forall u | 0 <= u < |unconfirmed|
      ensures Get(r2, unconfirmed[u]) == Get(l, unconfirmed[u]) && Get(l, unconfirmed[u]).state == Tracked
    {
      assert unconfirmed[u] in unconfirmed;
      SlotCases(l, pool, unconfirmed, m, retry, unconfirmed[u]);
    }
  }
}
