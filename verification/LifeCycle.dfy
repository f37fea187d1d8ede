/** What one frame does to tracks and detections, read off the record of an update. */
module LifeCycle {
  import opened Boxes
  import opened LinearAssignment
  import opened TrackLists
  import opened Associations
  import opened Rounds
  import opened ByteTracker

  /** Every high-score detection is matched in the first round or is left over once; a leftover
      is matched in the third round or offered for birth once; two tracks never share one. */
  lemma DetectionsUsedOnce(l: Lists, high: seq<STrack>, low: seq<STrack>, g: Log)
    requires WellFormed(l, high, low, g)
    ensures forall d :: 0 <= d < |high| ==> (d in g.left <==> forall p :: 0 <= p < |g.pool| ==> g.m1[p] != d)
    ensures forall a, b :: 0 <= a < b < |g.left| ==> g.left[a] != g.left[b]
    ensures forall k :: 0 <= k < |g.left| ==>
      (k in Holes(g.w3, |g.w3|) <==> forall u :: 0 <= u < |g.unconfirmed| ==> g.m3[u] != k)
    ensures forall p, q :: 0 <= p < q < |g.pool| && g.m1[p] == g.m1[q] ==> g.m1[p] < 0
    ensures forall p, q :: 0 <= p < q < |g.retry| && g.m2[p] == g.m2[q] ==> g.m2[p] < 0
    ensures forall p, q :: 0 <= p < q < |g.unconfirmed| && g.m3[p] == g.m3[q] ==> g.m3[p] < 0
  {
    forall d | 0 <= d < |high|
      ensures d in g.left <==> forall p :: 0 <= p < |g.pool| ==> g.m1[p] != d
    {
      if g.w1[d] >= 0 {
        assert g.m1[g.w1[d]] == d;
      }
    }
    forall k | 0 <= k < |g.left|
      ensures k in Holes(g.w3, |g.w3|) <==> forall u :: 0 <= u < |g.unconfirmed| ==> g.m3[u] != k
    {
      if g.w3[k] >= 0 {
        assert g.m3[g.w3[k]] == k;
      }
    }
  }

  /** The leftovers that score high enough, in order. */
  function Qualified(rest: seq<STrack>, left: seq<int>, k: nat): (r: seq<int>)
    requires k <= |left| && forall i :: 0 <= i < |left| ==> 0 <= left[i] < |rest|
    ensures forall d :: d in r <==>
              (exists i :: 0 <= i < k && left[i] == d) && 0 <= d < |rest| && rest[d].score >= 0.6
  {
    if k == 0 then [] else
    Qualified(rest, left, k - 1) + if rest[left[k - 1]].score >= HIGH_THRESH then [left[k - 1]] else []
  }

  lemma {:induction false} QualifiedInOrder(rest: seq<STrack>, left: seq<int>, k: nat)
    requires k <= |left| && forall i :: 0 <= i < |left| ==> 0 <= left[i] < |rest|
    ensures InOrderOf(left[..k], Qualified(rest, left, k))
  {
    if k == 0 {
      EmptyInOrder(left[..0]);
    } else {
      QualifiedInOrder(rest, left, k - 1);
      InOrderFurther(left, Qualified(rest, left, k - 1), k, Qualified(rest, left, k));
    }
  }

  /** `e` is a track of its own that shows the detection as it is; it is confirmed at once in the first frame. */
  ghost predicate Started(e: STrack, det: STrack, f: Filter, id: int, frame: int) {
    && e.id == id && e.state == Tracked && e.frameId == e.startFrame == frame && e.trackletLen == 0
    && e.score == det.score && e.motion == f.initiate(det.detected) && e.isActivated == (det.isActivated || frame == 1)
    && e.box == if det.state == New then det.detected else f.boxOf(e.motion)
  }

  /** Fresh ids go, one each and in order, exactly to the qualified leftovers. */
  lemma {:induction false} BirthsAreQualified(rest: seq<STrack>, left: seq<int>, f: Filter, frame: int, count: nat,
                                              k: nat)
    requires k <= |left| && forall i :: 0 <= i < |left| ==> 0 <= left[i] < |rest|
    ensures |Births(rest, left, f, frame, count, k)| == |Qualified(rest, left, k)|
    ensures forall i :: 0 <= i < |Births(rest, left, f, frame, count, k)| ==>
      && 0 <= Qualified(rest, left, k)[i] < |rest|
      && Started(Births(rest, left, f, frame, count, k)[i], rest[Qualified(rest, left, k)[i]], f, count + i + 1, frame)
  {
    if k > 0 {
      BirthsAreQualified(rest, left, f, frame, count, k - 1);
    }
  }

  /** Every track that was tracked ends up in exactly one place: tracked again, lost or removed. */
  lemma TrackedFatesPartition(t0: seq<STrack>, l0: seq<STrack>, b: Rebuild, frame: int, x: int)
    requires RoundsOver(t0, l0, b, frame) && UniqueIds(Lists(t0, l0)) && x in Ids(t0)
    ensures x in Ids(b.activated) || x in Ids(b.newLost) || x in Ids(b.dropped)
    ensures !(x in Ids(b.activated) && x in Ids(b.newLost))
    ensures !(x in Ids(b.activated) && x in Ids(b.dropped))
    ensures !(x in Ids(b.newLost) && x in Ids(b.dropped))
  {
    FatesKeepIds(t0, l0, b, frame);
    var e := EntryOf(b.t, x);
    var i :| 0 <= i < |b.t| && b.t[i] == e;
    assert TrackedFate(t0[i], b.t[i], frame);
    InIds(if e.state == Tracked then b.activated else if e.state == Lost then b.newLost else b.dropped, e);
    OnlyInState(b.t, Tracked, b.activated, e);
    OnlyInState(b.t, Lost, b.newLost, e);
    OnlyInState(b.t, Removed, b.dropped, e);
  }

  lemma OnlyInState(s: seq<STrack>, st: TrackState, list: seq<STrack>, e: STrack)
    requires DistinctIds(s) && CopiesOf(s, st, list) && e in s
    ensures e.id in Ids(list) <==> e.state == st
  {
    if e.id in Ids(list) {
      var c := EntryOf(list, e.id);
      SameIdSameEntry(s, c, e);
    }
    if e.state == st {
      InIds(list, e);
    }
  }

  // ---------------------------------------------------------------- what a track takes over from a detection

  /** `r` is `t` with the detection's score and its motion corrected by the detection's box, seen in this frame. */
  ghost predicate Took(t: STrack, moved: Motion, r: STrack, det: STrack, f: Filter, frame: int) {
    && r.id == t.id && r.startFrame == t.startFrame && r.score == det.score && r.frameId == frame
    && r.state == Tracked && r.isActivated && r.trackletLen == (if t.state == Tracked then t.trackletLen + 1 else 0)
    && r.motion == f.correct(moved, det.box) && r.box == f.boxOf(r.motion)
  }

  /** The motion predicted for a track, which depends on whether it is tracked. */
  ghost function Moved(t: STrack, f: Filter): Motion {
    f.predict(t.motion, t.state == Tracked)
  }

  lemma HitTakes(t: STrack, det: STrack, f: Filter, frame: int)
    requires t.state != New
    ensures Took(t, Moved(t, f), Hit(f, t.Predict(f), det, frame), det, f, frame)
    ensures t.state == Tracked ==> Took(t, t.motion, t.Update(f, det, frame), det, f, frame)
  {
  }

  /** Every matched track takes its detection: after its motion was predicted in the first two rounds, without
      that in the third. */
  lemma MatchedTakesDetection(l: Lists, r: Lists, high: seq<STrack>, low: seq<STrack>, g: Log, f: Filter, frame: int)
    requires Ready(l) && WellFormed(l, high, low, g) && Explains(l, r, high, low, g, f, frame)
    ensures forall p :: 0 <= p < |g.pool| && g.m1[p] >= 0 ==>
      Took(Get(l, g.pool[p]), Moved(Get(l, g.pool[p]), f), Get(r, g.pool[p]), high[g.m1[p]], f, frame)
    ensures forall q :: 0 <= q < |g.retry| && g.m2[q] >= 0 ==>
      Took(Get(l, g.retry[q]), Moved(Get(l, g.retry[q]), f), Get(r, g.retry[q]), low[g.m2[q]], f, frame)
    ensures forall u :: 0 <= u < |g.unconfirmed| && g.m3[u] >= 0 ==>
      Took(Get(l, g.unconfirmed[u]), Get(l, g.unconfirmed[u]).motion, Get(r, g.unconfirmed[u]), g.rest[g.m3[u]], f,
           frame)
  {
    forall s | Has(l, s)
      ensures Get(l, s).state != New
    {
    }
    forall p | 0 <= p < |g.pool| && g.m1[p] >= 0
      ensures Took(Get(l, g.pool[p]), Moved(Get(l, g.pool[p]), f), Get(r, g.pool[p]), high[g.m1[p]], f, frame)
    {
      HitTakes(Get(l, g.pool[p]), high[g.m1[p]], f, frame);
    }
    forall q | 0 <= q < |g.retry| && g.m2[q] >= 0
      ensures Took(Get(l, g.retry[q]), Moved(Get(l, g.retry[q]), f), Get(r, g.retry[q]), low[g.m2[q]], f, frame)
    {
      HitTakes(Get(l, g.retry[q]), low[g.m2[q]], f, frame);
    }
    forall u | 0 <= u < |g.unconfirmed| && g.m3[u] >= 0
      ensures Took(Get(l, g.unconfirmed[u]), Get(l, g.unconfirmed[u]).motion, Get(r, g.unconfirmed[u]),
                   g.rest[g.m3[u]], f, frame)
    {
      assert g.unconfirmed[u] in g.unconfirmed;
      HitTakes(Get(l, g.unconfirmed[u]), g.rest[g.m3[u]], f, frame);
    }
  }

  /** A track that no round matched goes on with its predicted motion, or as it was if it was unconfirmed. */
  ghost predicate Waits(t: STrack, r: STrack, f: Filter) {
    && r.id == t.id && r.startFrame == t.startFrame && r.score == t.score && r.frameId == t.frameId
    && r.trackletLen == t.trackletLen
    && if t.isActivated then r.motion == Moved(t, f) && r.box == f.boxOf(r.motion)
       else r.motion == t.motion && r.box == t.box
  }

  lemma UnmatchedWaits(l: Lists, r: Lists, high: seq<STrack>, low: seq<STrack>, g: Log, f: Filter, frame: int, s: Slot)
    requires Ready(l) && WellFormed(l, high, low, g) && Explains(l, r, high, low, g, f, frame)
    requires Has(l, s) && !MatchedSlot(g, s)
    ensures Waits(Get(l, s), Get(r, s), f)
  {
    RoundsCover(l, g.pool, g.unconfirmed, g.m1, g.retry);
    assert CoveredSlot(g.pool, g.m1, g.retry, g.unconfirmed, s);
    SlotCases(l, g.pool, g.unconfirmed, g.m1, g.retry, s);
  }

  /** A detection is within the threshold of the box. */
  ghost predicate Near(box: Box, dets: seq<STrack>, thresh: real) {
    exists d :: 0 <= d < |dets| && Distance(box, dets[d].box) <= thresh
  }

  /** One of the three rounds matched slot `s`. */
  ghost predicate MatchedSlot(g: Log, s: Slot)
    requires |g.m1| == |g.pool| && |g.m2| == |g.retry| && |g.m3| == |g.unconfirmed|
  {
    || (exists p :: 0 <= p < |g.pool| && g.pool[p] == s && g.m1[p] >= 0)
    || (exists q :: 0 <= q < |g.retry| && g.retry[q] == s && g.m2[q] >= 0)
    || (exists u :: 0 <= u < |g.unconfirmed| && g.unconfirmed[u] == s && g.m3[u] >= 0)
  }

  /** A confirmed track is tracked again exactly when one of the first two rounds matched it,
      an unconfirmed one exactly when the third did; then a detection is within that round's threshold. */
  lemma TrackedAgainIffMatched(l: Lists, r: Lists, high: seq<STrack>, low: seq<STrack>, g: Log, f: Filter, frame: int,
                               s: Slot)
    requires Ready(l) && WellFormed(l, high, low, g) && Explains(l, r, high, low, g, f, frame)
    requires Optimal(l, high, low, g, f) && Has(l, s) && s.InTracked?
    ensures Get(r, s).state == Tracked <==> MatchedSlot(g, s)
    ensures Get(r, s).state == Tracked ==>
      if Get(l, s).isActivated then
        Near(Get(l, s).Predict(f).box, high, MATCH_THRESH) || Near(Get(l, s).Predict(f).box, low, SECOND_THRESH)
      else
        Near(Get(l, s).box, high, UNCONFIRMED_THRESH)
  {
    TrackedIsMatched(l, r, high, low, g, f, frame, s);
    if MatchedSlot(g, s) {
      MatchedSlotIsNear(l, high, low, g, f, s);
    }
  }

  lemma TrackedIsMatched(l: Lists, r: Lists, high: seq<STrack>, low: seq<STrack>, g: Log, f: Filter, frame: int,
                         s: Slot)
    requires Ready(l) && WellFormed(l, high, low, g) && Explains(l, r, high, low, g, f, frame)
    requires Has(l, s) && s.InTracked?
    ensures Get(r, s).state == Tracked <==> MatchedSlot(g, s)
  {
    MatchedEndTracked(l, r, high, low, g, f, frame);
    RoundsCover(l, g.pool, g.unconfirmed, g.m1, g.retry);
    assert CoveredSlot(g.pool, g.m1, g.retry, g.unconfirmed, s);
    CoveredIsMatched(r, g, s);
  }

  lemma CoveredIsMatched(r: Lists, g: Log, s: Slot)
    requires Pool(r, g.pool) && Pool(r, g.retry) && Pool(r, g.unconfirmed) && Has(r, s) && s.InTracked?
    requires |g.m1| == |g.pool| && |g.m2| == |g.retry| && |g.m3| == |g.unconfirmed|
    requires CoveredSlot(g.pool, g.m1, g.retry, g.unconfirmed, s)
    requires forall p :: 0 <= p < |g.pool| && g.m1[p] >= 0 ==> Get(r, g.pool[p]).state == Tracked
    requires forall q :: 0 <= q < |g.retry| ==> (Get(r, g.retry[q]).state == Tracked <==> g.m2[q] >= 0)
    requires forall u :: 0 <= u < |g.unconfirmed| ==> (Get(r, g.unconfirmed[u]).state == Tracked <==> g.m3[u] >= 0)
    ensures Get(r, s).state == Tracked <==> MatchedSlot(g, s)
  {
  }

  lemma MatchedEndTracked(l: Lists, r: Lists, high: seq<STrack>, low: seq<STrack>, g: Log, f: Filter, frame: int)
    requires WellFormed(l, high, low, g) && Explains(l, r, high, low, g, f, frame)
    ensures forall p :: 0 <= p < |g.pool| && g.m1[p] >= 0 ==> Get(r, g.pool[p]).state == Tracked
    ensures forall q :: 0 <= q < |g.retry| ==> (Get(r, g.retry[q]).state == Tracked <==> g.m2[q] >= 0)
    ensures forall u :: 0 <= u < |g.unconfirmed| ==> (Get(r, g.unconfirmed[u]).state == Tracked <==> g.m3[u] >= 0)
  {
  }

  lemma MatchedSlotIsNear(l: Lists, high: seq<STrack>, low: seq<STrack>, g: Log, f: Filter, s: Slot)
    requires Ready(l) && WellFormed(l, high, low, g) && Optimal(l, high, low, g, f)
    requires Has(l, s) && s.InTracked? && MatchedSlot(g, s)
    ensures
      if Get(l, s).isActivated then
        Near(Get(l, s).Predict(f).box, high, MATCH_THRESH) || Near(Get(l, s).Predict(f).box, low, SECOND_THRESH)
      else
        Near(Get(l, s).box, high, UNCONFIRMED_THRESH)
  {
    SlotCases(l, g.pool, g.unconfirmed, g.m1, g.retry, s);
    OptimalIsWithin(l, high, low, g, f);
    MatchedIsNear(l, high, low, g, f, s);
    assert s in g.unconfirmed || s in g.pool;
  }

  lemma BoundedIsNear(a: seq<Box>, dets: seq<STrack>, thresh: real, m: seq<int>, p: int)
    requires Bounded(a, BoxesOf(dets), thresh, m) && 0 <= p < |a| && m[p] >= 0
    ensures Near(a[p], dets, thresh)
  {
    assert Distance(a[p], dets[m[p]].box) <= thresh;
  }

  lemma BestIsNear(a: seq<Box>, dets: seq<STrack>, thresh: real, m: seq<int>, p: int)
    requires BestMatching(a, BoxesOf(dets), thresh, m) && 0 <= p < |a| && m[p] >= 0
    ensures Near(a[p], dets, thresh)
  {
    BestIsBounded(a, BoxesOf(dets), thresh, m);
    BoundedIsNear(a, dets, thresh, m, p);
  }

  lemma MatchedIsNear(l: Lists, high: seq<STrack>, low: seq<STrack>, g: Log, f: Filter, s: Slot)
    requires WellFormed(l, high, low, g) && WithinThresholds(l, high, low, g, f) && Has(l, s)
    ensures forall p :: 0 <= p < |g.pool| && g.pool[p] == s && g.m1[p] >= 0 ==>
      s in g.pool && Near(Get(l, s).Predict(f).box, high, MATCH_THRESH)
    ensures forall q :: 0 <= q < |g.retry| && g.retry[q] == s && g.m2[q] >= 0 ==>
      Near(Get(l, s).Predict(f).box, low, SECOND_THRESH)
    ensures forall u :: 0 <= u < |g.unconfirmed| && g.unconfirmed[u] == s && g.m3[u] >= 0 ==>
      Near(Get(l, s).box, high, UNCONFIRMED_THRESH)
  {
    forall p | 0 <= p < |g.pool| && g.pool[p] == s && g.m1[p] >= 0
      ensures Near(Get(l, s).Predict(f).box, high, MATCH_THRESH)
    {
      BoundedIsNear(PredictedBoxes(l, g.pool, f), high, MATCH_THRESH, g.m1, p);
    }
    forall q | 0 <= q < |g.retry| && g.retry[q] == s && g.m2[q] >= 0
      ensures Near(Get(l, s).Predict(f).box, low, SECOND_THRESH)
    {
      BoundedIsNear(PredictedBoxes(l, g.retry, f), low, SECOND_THRESH, g.m2, q);
    }
    forall u | 0 <= u < |g.unconfirmed| && g.unconfirmed[u] == s && g.m3[u] >= 0
      ensures Near(Get(l, s).box, high, UNCONFIRMED_THRESH)
    {
      BoundedIsNear(PoolBoxes(l, g.unconfirmed), g.rest, UNCONFIRMED_THRESH, g.m3, u);
      NearAmong(Get(l, s).box, high, g.left, g.rest, UNCONFIRMED_THRESH);
    }
  }

  lemma NearAmong(box: Box, dets: seq<STrack>, idx: seq<int>, rest: seq<STrack>, thresh: real)
    requires Selected(dets, idx, rest) && Near(box, rest, thresh)
    ensures Near(box, dets, thresh)
  {
    var d :| 0 <= d < |rest| && Distance(box, rest[d].box) <= thresh;
    assert rest[d] == dets[idx[d]];
  }

  /** An entry that was just given up is out of the lost list one frame later, and it is tracked
      again exactly when the first round matched it. */
  lemma GivenUpLeavesNextFrame(frame: int, maxTimeLost: int, f: Filter, count: nat, t0: seq<STrack>, l0: seq<STrack>,
                               removed0: seq<STrack>, h: Frame, j: int, p: int)
    requires Consistent(frame - 1, maxTimeLost, count, t0, l0, removed0)
    requires Advances(frame, maxTimeLost, f, count, t0, l0, removed0, h)
    requires 0 <= j < |l0| && l0[j].state == Removed && 0 <= p < |h.log.pool| && h.log.pool[p] == InLost(j)
    ensures l0[j].id in Ids(removed0) && l0[j].id !in Ids(h.lost)
    ensures l0[j].id in Ids(h.tracked) <==> h.log.m1[p] >= 0
  {
    AdvancedConsistent(frame, maxTimeLost, f, count, t0, l0, removed0, h);
    assert l0[j] in l0;
    JoinedIds(t0, l0, h.b, frame, h.tracked);
    FatesKeepIds(t0, l0, h.b, frame);
    var e := h.b.l[j];
    assert Get(Lists(h.b.t, h.b.l), InLost(j)) == e && Get(Lists(t0, l0), InLost(j)) == l0[j];
    assert e.state == Tracked <==> h.log.m1[p] >= 0;
    assert LostFate(l0[j], h.b.l[j], frame);
    OnlyInState(h.b.l, Tracked, h.b.refound, e);
    SourcesApart(t0, l0, h.b, frame, e);
    assert e.id in Ids(l0);
    NotBorn(h, f, frame, count, e.id);
  }

  lemma NotBorn(h: Frame, f: Filter, frame: int, count: nat, x: int)
    requires Born(h.log, f, frame, count, h.b.births) && x <= count
    ensures x !in Ids(h.b.births)
  {
    OldIdsNotBorn(h.b, count, x);
  }

  /** A track that came back after it was put on record as removed vanishes from both lists
      the moment it is lost again. */
  lemma LostAfterRemovalVanishes(frame: int, maxTimeLost: int, f: Filter, count: nat, t0: seq<STrack>, l0: seq<STrack>,
                                 removed0: seq<STrack>, h: Frame, e: STrack)
    requires Consistent(frame - 1, maxTimeLost, count, t0, l0, removed0)
    requires Advances(frame, maxTimeLost, f, count, t0, l0, removed0, h) && e in h.b.newLost
    ensures e.id !in Ids(h.tracked)
    ensures e.id in Ids(h.lost) <==> e.id !in Ids(removed0)
  {
    AdvancedConsistent(frame, maxTimeLost, f, count, t0, l0, removed0, h);
    JoinedIds(t0, l0, h.b, frame, h.tracked);
    SourcesApart(t0, l0, h.b, frame, e);
    var i :| 0 <= i < |t0| && t0[i].id == e.id;
    assert t0[i] in t0;
    NotBorn(h, f, frame, count, e.id);
    var x, s :| Expired(h.b.l, x, h.gone, frame, maxTimeLost) && Subtracted(x, h.tracked, s)
                && Subtracted(s + h.b.newLost, removed0, h.lost);
    JoinIds(s, h.b.newLost);
    InIds(h.b.newLost, e);
  }

  // ---------------------------------------------------------------- coming back after removal

  /** The pool of the first round. */
  ghost function FirstPool(l: Lists): (r: seq<Slot>)
    ensures Pool(l, r) && |r| >= |l.lost|
    ensures forall j :: 0 <= j < |l.lost| ==> r[|r| - |l.lost| + j] == InLost(j)
  {
    PoolsPartition(l);
    TrackedSlots(l.tracked, true, |l.tracked|) + LostSlots(|l.lost|)
  }

  /** The boxes the first round sees for the tracks in its pool, and the place of lost entry `j` among them. */
  ghost function FirstBoxes(l: Lists, f: Filter): (r: seq<Box>)
    ensures |r| == |FirstPool(l)|
  {
    PredictedBoxes(l, FirstPool(l), f)
  }

  ghost function Place(l: Lists, j: int): (p: int)
    requires 0 <= j < |l.lost|
    ensures 0 <= p < |FirstPool(l)| && FirstPool(l)[p] == InLost(j)
  {
    |FirstPool(l)| - |l.lost| + j
  }

  /** A best matching of boxes and detections in the first round. */
  ghost predicate BestFirst(l: Lists, f: Filter, high: seq<STrack>, m: seq<int>) {
    BestMatching(FirstBoxes(l, f), BoxesOf(high), MATCH_THRESH, m)
  }

  /** Some detection is nearer than the threshold to lost entry `j` and beyond it for all other pooled tracks. */
  ghost predicate HasOwnDetection(l: Lists, f: Filter, high: seq<STrack>, j: int)
    requires 0 <= j < |l.lost|
  {
    Uncontested(FirstBoxes(l, f), BoxesOf(high), MATCH_THRESH, Place(l, j))
  }

  /** Whether a given-up entry comes back is known before the update: it does if every best matching of
      predicted boxes and high-score detections uses it, and it does not if none does. */
  lemma RevivedByBest(frame: int, maxTimeLost: int, f: Filter, count: nat, t0: seq<STrack>, l0: seq<STrack>,
                      removed0: seq<STrack>, h: Frame, j: int)
    requires Consistent(frame - 1, maxTimeLost, count, t0, l0, removed0)
    requires Advances(frame, maxTimeLost, f, count, t0, l0, removed0, h)
    requires 0 <= j < |l0| && l0[j].state == Removed
    ensures var l := Lists(t0, l0);
      && ((forall m :: BestFirst(l, f, h.high, m) ==> m[Place(l, j)] >= 0) ==> l0[j].id in Ids(h.tracked))
      && (l0[j].id in Ids(h.tracked) ==> exists m :: BestFirst(l, f, h.high, m) && m[Place(l, j)] >= 0)
  {
    var l := Lists(t0, l0);
    GivenUpLeavesNextFrame(frame, maxTimeLost, f, count, t0, l0, removed0, h, j, Place(l, j));
    assert h.log.pool == FirstPool(l);
    assert BestFirst(l, f, h.high, h.log.m1);
  }

  /** It comes back only if a high-score detection is within the threshold of its predicted box, and for
      certain if one is nearer than that and out of reach of all other pooled tracks. */
  lemma RevivedIfNear(frame: int, maxTimeLost: int, f: Filter, count: nat, t0: seq<STrack>, l0: seq<STrack>,
                      removed0: seq<STrack>, h: Frame, j: int)
    requires Consistent(frame - 1, maxTimeLost, count, t0, l0, removed0)
    requires Advances(frame, maxTimeLost, f, count, t0, l0, removed0, h)
    requires 0 <= j < |l0| && l0[j].state == Removed
    ensures l0[j].id in Ids(h.tracked) ==> Near(l0[j].Predict(f).box, h.high, MATCH_THRESH)
    ensures HasOwnDetection(Lists(t0, l0), f, h.high, j) ==> l0[j].id in Ids(h.tracked)
  {
    RevivedIsNear(frame, maxTimeLost, f, count, t0, l0, removed0, h, j);
    if HasOwnDetection(Lists(t0, l0), f, h.high, j) {
      OwnDetectionRevives(frame, maxTimeLost, f, count, t0, l0, removed0, h, j);
    }
  }

  lemma RevivedIsNear(frame: int, maxTimeLost: int, f: Filter, count: nat, t0: seq<STrack>, l0: seq<STrack>,
                      removed0: seq<STrack>, h: Frame, j: int)
    requires Consistent(frame - 1, maxTimeLost, count, t0, l0, removed0)
    requires Advances(frame, maxTimeLost, f, count, t0, l0, removed0, h)
    requires 0 <= j < |l0| && l0[j].state == Removed
    ensures l0[j].id in Ids(h.tracked) ==> Near(l0[j].Predict(f).box, h.high, MATCH_THRESH)
  {
    var l := Lists(t0, l0);
    var p := Place(l, j);
    GivenUpLeavesNextFrame(frame, maxTimeLost, f, count, t0, l0, removed0, h, j, p);
    if h.log.m1[p] >= 0 {
      assert h.log.pool == FirstPool(l);
      FirstMatchIsNear(l, h.high, h.log.m1, f, j);
    }
  }

  lemma FirstMatchIsNear(l: Lists, high: seq<STrack>, m: seq<int>, f: Filter, j: int)
    requires 0 <= j < |l.lost| && BestFirst(l, f, high, m) && m[Place(l, j)] >= 0
    ensures Near(l.lost[j].Predict(f).box, high, MATCH_THRESH)
  {
    BestIsNear(FirstBoxes(l, f), high, MATCH_THRESH, m, Place(l, j));
  }

  lemma OwnDetectionRevives(frame: int, maxTimeLost: int, f: Filter, count: nat, t0: seq<STrack>, l0: seq<STrack>,
                            removed0: seq<STrack>, h: Frame, j: int)
    requires Consistent(frame - 1, maxTimeLost, count, t0, l0, removed0)
    requires Advances(frame, maxTimeLost, f, count, t0, l0, removed0, h)
    requires 0 <= j < |l0| && l0[j].state == Removed && HasOwnDetection(Lists(t0, l0), f, h.high, j)
    ensures l0[j].id in Ids(h.tracked)
  {
    var l := Lists(t0, l0);
    GivenUpLeavesNextFrame(frame, maxTimeLost, f, count, t0, l0, removed0, h, j, Place(l, j));
    UncontestedIsMatched(FirstBoxes(l, f), BoxesOf(h.high), MATCH_THRESH, h.log.m1, Place(l, j));
  }

  /** The lag is real: such a detection brings the track back while it is on record as removed. */
  lemma RevivedWhileOnRecord(frame: int, maxTimeLost: int, f: Filter, count: nat, t0: seq<STrack>, l0: seq<STrack>,
                             removed0: seq<STrack>, h: Frame, j: int)
    requires Consistent(frame - 1, maxTimeLost, count, t0, l0, removed0)
    requires Advances(frame, maxTimeLost, f, count, t0, l0, removed0, h)
    requires 0 <= j < |l0| && l0[j].state == Removed && HasOwnDetection(Lists(t0, l0), f, h.high, j)
    ensures exists e :: e in h.tracked && e.id == l0[j].id && e.state == Tracked && e.id in Ids(removed0)
  {
    RevivedIfNear(frame, maxTimeLost, f, count, t0, l0, removed0, h, j);
    GivenUpLeavesNextFrame(frame, maxTimeLost, f, count, t0, l0, removed0, h, j, Place(Lists(t0, l0), j));
    AdvancedConsistent(frame, maxTimeLost, f, count, t0, l0, removed0, h);
    var e := EntryOf(h.tracked, l0[j].id);
  }
}
