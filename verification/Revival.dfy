/** A run in which a track that was given up and recorded as removed is tracked again. */
module Revival {
  import opened Associations
  import opened Boxes
  import opened ByteTracker
  import opened LifeCycle
  import opened LinearAssignment
  import opened PartialMatching
  import opened Rounds
  import opened TrackLists

  const SPOT: Box := RawBox(0.0, 0.0, 1.0, 1.0)

  /** A filter under which nothing ever moves. */
  const STILL := Filter(_ => Motion([], []), (m, _) => m, (m, _) => m, _ => SPOT)

  const SEEN := [Object(SPOT, 1.0)]

  // ---------------------------------------------------------------- small lists

  lemma Member<T>(s: seq<T>) returns (e: T)
    requires s != []
    ensures e in s
  {
    e := s[0];
  }

  lemma NoMembers<T>(s: seq<T>)
    requires forall e :: e !in s
    ensures s == []
  {
    if s != [] {
      var e := Member(s);
      assert false;
    }
  }

  lemma NoneWithoutIds(s: seq<STrack>)
    requires Ids(s) == {}
    ensures s == []
  {
    assert s != [] ==> s[0].id in Ids(s);
  }

  lemma DistinctPair(s: seq<STrack>)
    requires DistinctIds(s) && |s| >= 2
    ensures s[0].id != s[1].id
  {
  }

  lemma OneId(s: seq<STrack>, x: int)
    requires DistinctIds(s) && Ids(s) == {x}
    ensures |s| == 1 && s[0].id == x
  {
    var e := EntryOf(s, x);
    forall i | 0 <= i < |s|
      ensures s[i].id == x
    {
      InIds(s, s[i]);
    }
    if |s| >= 2 {
      DistinctPair(s);
    }
  }

  lemma {:induction false} WithoutNone(s: seq<STrack>, dropped: seq<int>, k: nat)
    requires k <= |s| && forall i :: 0 <= i < |s| ==> i !in dropped
    ensures Without(s, dropped, k) == s[..k]
  {
    if k > 0 {
      WithoutNone(s, dropped, k - 1);
    }
  }

  /** With one list empty there are no duplicates. */
  lemma NothingThinned(tracked: seq<STrack>, lost: seq<STrack>, a: seq<STrack>, b: seq<STrack>)
    requires Thinned(tracked, lost, a, b) && (tracked == [] || lost == [])
    ensures a == tracked && b == lost
  {
    var dupA, dupB :| Deduplicated(tracked, lost, dupA, dupB)
                      && a == Without(tracked, dupA, |tracked|) && b == Without(lost, dupB, |lost|);
    WithoutNone(tracked, dupA, |tracked|);
    WithoutNone(lost, dupB, |lost|);
    assert tracked[..|tracked|] == tracked && lost[..|lost|] == lost;
  }

  // ---------------------------------------------------------------- any frame

  /** Only ids that were listed before can be lost. */
  lemma LostIdsKnown(frame: int, maxTimeLost: int, f: Filter, count: nat, t0: seq<STrack>, l0: seq<STrack>,
                     removed0: seq<STrack>, h: Frame)
    requires Consistent(frame - 1, maxTimeLost, count, t0, l0, removed0)
    requires Advances(frame, maxTimeLost, f, count, t0, l0, removed0, h)
    ensures Ids(h.lost) <= Ids(t0) + Ids(l0)
  {
    FatesKeepIds(t0, l0, h.b, frame);
    forall x | x in Ids(h.lost)
      ensures x in Ids(t0) + Ids(l0)
    {
      var e := EntryOf(h.lost, x);
      var expired := LostEntry(frame, maxTimeLost, f, count, t0, l0, removed0, h, e);
      if e in expired {
        SameIdsExpired(h.b.l, expired, h.gone, frame, maxTimeLost);
        InIds(expired, e);
      } else {
        InIds(h.b.t, e);
      }
    }
  }

  /** A lost entry was lost before or has just been lost. */
  lemma LostEntry(frame: int, maxTimeLost: int, f: Filter, count: nat, t0: seq<STrack>, l0: seq<STrack>,
                  removed0: seq<STrack>, h: Frame, e: STrack)
    returns (x: seq<STrack>)
    requires Advances(frame, maxTimeLost, f, count, t0, l0, removed0, h) && e in h.lost
    ensures Expired(h.b.l, x, h.gone, frame, maxTimeLost) && (e in x || e in h.b.newLost)
  {
    var expired, s :| Expired(h.b.l, expired, h.gone, frame, maxTimeLost) && Subtracted(expired, h.tracked, s)
                      && Subtracted(s + h.b.newLost, removed0, h.lost);
    x := expired;
    LostSources(t0, l0, h.b, frame, h.tracked, x, s, removed0, h.lost, e);
  }

  lemma SameIdsExpired(l: seq<STrack>, x: seq<STrack>, gone: seq<STrack>, frame: int, maxTimeLost: int)
    requires Expired(l, x, gone, frame, maxTimeLost)
    ensures Ids(x) == Ids(l)
  {
    assert forall j :: 0 <= j < |l| ==> x[j].id == l[j].id;
    assert forall i :: i in Ids(x) <==> exists k :: 0 <= k < |x| && x[k].id == i;
  }

  /** A lost track that is neither tracked again nor on record stays listed. */
  lemma StaysListed(frame: int, maxTimeLost: int, f: Filter, count: nat, t0: seq<STrack>, l0: seq<STrack>,
                    removed0: seq<STrack>, h: Frame, x: int)
    requires Consistent(frame - 1, maxTimeLost, count, t0, l0, removed0)
    requires Advances(frame, maxTimeLost, f, count, t0, l0, removed0, h)
    requires x in Ids(l0) && x !in Ids(removed0) && x !in Ids(h.tracked)
    ensures x in Ids(h.lost)
  {
    FatesKeepIds(t0, l0, h.b, frame);
    var expired, s :| Expired(h.b.l, expired, h.gone, frame, maxTimeLost) && Subtracted(expired, h.tracked, s)
                      && Subtracted(s + h.b.newLost, removed0, h.lost);
    SameIdsExpired(h.b.l, expired, h.gone, frame, maxTimeLost);
    JoinIds(s, h.b.newLost);
  }

  // ---------------------------------------------------------------- frames without detections

  /** Without detections nothing is matched and nothing is born. */
  lemma QuietFrame(frame: int, maxTimeLost: int, f: Filter, count: nat, t0: seq<STrack>, l0: seq<STrack>,
                   removed0: seq<STrack>, h: Frame)
    requires Consistent(frame - 1, maxTimeLost, count, t0, l0, removed0)
    requires Advances(frame, maxTimeLost, f, count, t0, l0, removed0, h) && h.high == [] && h.low == []
    ensures h.tracked == []
    ensures forall i :: 0 <= i < |t0| ==> h.b.t[i].state != Tracked
  {
    var l, r := Lists(t0, l0), Lists(h.b.t, h.b.l);
    ConsistentIsReady(frame - 1, maxTimeLost, count, t0, l0, removed0);
    forall i | 0 <= i < |t0|
      ensures h.b.t[i].state != Tracked
    {
      TrackedAgainIffMatched(l, r, [], [], h.log, f, frame, InTracked(i));
      assert Get(r, InTracked(i)) == h.b.t[i];
    }
    forall j | 0 <= j < |l0|
      ensures h.b.l[j].state != Tracked
    {
      UnseenStaysLost(l, r, [], [], h.log, f, frame, j);
    }
    NoMembers(h.b.activated);
    NoMembers(h.b.refound);
    JoinedIds(t0, l0, h.b, frame, h.tracked);
    assert h.b.births == [];
    NoneWithoutIds(h.tracked);
  }

  // ---------------------------------------------------------------- the four frames

  /** Frame 1: the detection is tracked and confirmed at once. */
  lemma FirstSeen(f: Filter, h: Frame)
    requires Advances(1, 0, f, 0, [], [], [], h)
    requires h.high == [Detection(SPOT, 1.0)]
    ensures |h.tracked| == 1 && h.tracked[0].id == 1 && h.tracked[0].isActivated
    ensures h.lost == [] && h.b.dropped == [] && h.gone == []
  {
    FirstBirth(f, h);
    LostIdsKnown(1, 0, f, 0, [], [], [], h);
    NoneWithoutIds(h.lost);
    NoneGone(f, h);
  }

  lemma FirstBirth(f: Filter, h: Frame)
    requires Advances(1, 0, f, 0, [], [], [], h)
    requires h.high == [Detection(SPOT, 1.0)]
    ensures |h.tracked| == 1 && h.tracked[0].id == 1 && h.tracked[0].isActivated && h.b.dropped == []
  {
    FirstCopies(f, h);
    JoinedIds([], [], h.b, 1, h.tracked);
    OneBorn(f, h.b.births, h.tracked);
  }

  lemma FirstCopies(f: Filter, h: Frame)
    requires Advances(1, 0, f, 0, [], [], [], h)
    requires h.high == [Detection(SPOT, 1.0)]
    ensures h.b.births == [Detection(SPOT, 1.0).Activate(f, 1, 1)]
    ensures h.b.activated == h.b.refound == h.b.dropped == []
  {
    assert h.log.pool == [] && h.log.unconfirmed == [];
    BornAtOnce(f, h.log, h.high, h.b.births);
    NoMembers(h.b.activated);
    NoMembers(h.b.refound);
    NoMembers(h.b.dropped);
  }

  lemma NoneGone(f: Filter, h: Frame)
    requires Advances(1, 0, f, 0, [], [], [], h)
    ensures h.gone == []
  {
    var x, s :| Expired(h.b.l, x, h.gone, 1, 0) && Subtracted(x, h.tracked, s)
                && Subtracted(s + h.b.newLost, [], h.lost);
    NoMembers(h.gone);
  }

  lemma BornAtOnce(f: Filter, g: Log, high: seq<STrack>, births: seq<STrack>)
    requires IsInverse(g.m1, g.w1, 0, |high|) && g.left == Holes(g.w1, |high|) && Selected(high, g.left, g.rest)
    requires IsInverse(g.m3, g.w3, 0, |g.rest|)
    requires high == [Detection(SPOT, 1.0)] && Born(g, f, 1, 0, births)
    ensures births == [Detection(SPOT, 1.0).Activate(f, 1, 1)]
  {
    NoneTaken(g.m1, g.w1, |high|);
    HolesOfOne(g.w1);
    assert g.rest == high;
    NoneTaken(g.m3, g.w3, |g.rest|);
    HolesOfOne(g.w3);
    BirthOfOne(f, g.rest);
  }

  lemma NoneTaken(m: seq<int>, w: seq<int>, n: nat)
    requires IsInverse(m, w, 0, n)
    ensures |w| == n && forall d :: 0 <= d < n ==> w[d] == -1
  {
  }

  lemma HolesOfOne(w: seq<int>)
    requires |w| == 1 && w[0] == -1
    ensures Holes(w, 1) == [0]
  {
    assert Holes(w, 0) == [];
  }

  lemma BirthOfOne(f: Filter, rest: seq<STrack>)
    requires rest == [Detection(SPOT, 1.0)]
    ensures Births(rest, [0], f, 1, 0, 1) == [Detection(SPOT, 1.0).Activate(f, 1, 1)]
  {
    assert Births(rest, [0], f, 1, 0, 0) == [];
  }

  lemma OneBorn(f: Filter, births: seq<STrack>, tracked: seq<STrack>)
    requires births == [Detection(SPOT, 1.0).Activate(f, 1, 1)] && DistinctIds(tracked)
    requires Ids(tracked) == Ids(births) && forall e :: e in tracked ==> e in births
    ensures |tracked| == 1 && tracked[0].id == 1 && tracked[0].isActivated
  {
    assert Ids(births) == {1} by {
      AddId([], births[0]);
      assert [] + births == births;
    }
    OneId(tracked, 1);
    assert tracked[0] in tracked;
  }

  /** Frame 2: unseen, it is lost. */
  lemma ThenLost(f: Filter, t0: seq<STrack>, count: nat, h: Frame)
    requires Consistent(1, 0, count, t0, [], []) && |t0| == 1 && t0[0].isActivated
    requires Advances(2, 0, f, count, t0, [], [], h) && h.high == [] && h.low == []
    ensures h.tracked == [] && |h.lost| == 1 && h.lost[0].id == t0[0].id && h.lost[0].frameId == 1
    ensures h.b.dropped == [] && h.gone == []
  {
    JustLost(f, t0, count, h);
    LostIds(f, t0, count, h);
    AdvancedConsistent(2, 0, f, count, t0, [], [], h);
    OneId(h.lost, t0[0].id);
    assert h.lost[0] in h.lost;
    var expired := LostEntry(2, 0, f, count, t0, [], [], h, h.lost[0]);
    NoneExpired(h.b.l, expired, h.gone, 2, 0);
  }

  lemma NoneExpired(l: seq<STrack>, x: seq<STrack>, gone: seq<STrack>, frame: int, maxTimeLost: int)
    requires Expired(l, x, gone, frame, maxTimeLost) && l == []
    ensures x == [] && gone == []
  {
    NoMembers(gone);
  }

  lemma JustLost(f: Filter, t0: seq<STrack>, count: nat, h: Frame)
    requires Consistent(1, 0, count, t0, [], []) && |t0| == 1 && t0[0].isActivated
    requires Advances(2, 0, f, count, t0, [], [], h) && h.high == [] && h.low == []
    ensures h.tracked == [] && h.b.l == [] && h.b.dropped == []
    ensures |h.b.t| == 1 && h.b.t[0].id == t0[0].id && h.b.t[0].frameId == 1
    ensures h.b.t[0] in h.b.newLost && forall e :: e in h.b.newLost ==> e == h.b.t[0]
  {
    QuietFrame(2, 0, f, count, t0, [], [], h);
    assert t0[0] in t0 && TrackedFate(t0[0], h.b.t[0], 2);
    OnlyLost(h.b);
  }

  lemma LostIds(f: Filter, t0: seq<STrack>, count: nat, h: Frame)
    requires Consistent(1, 0, count, t0, [], []) && |t0| == 1
    requires Advances(2, 0, f, count, t0, [], [], h)
    requires |h.b.t| == 1 && h.b.t[0] in h.b.newLost && h.b.t[0].id == t0[0].id
    ensures Ids(h.lost) == {t0[0].id}
  {
    LostAfterRemovalVanishes(2, 0, f, count, t0, [], [], h, h.b.t[0]);
    LostIdsKnown(2, 0, f, count, t0, [], [], h);
    SingleId(t0);
  }

  lemma OnlyLost(b: Rebuild)
    requires |b.t| == 1 && b.t[0].state == Lost && CopiesOf(b.t, Lost, b.newLost) && CopiesOf(b.t, Removed, b.dropped)
    ensures b.t[0] in b.newLost && (forall e :: e in b.newLost ==> e == b.t[0]) && b.dropped == []
  {
    assert b.t[0] in b.t;
    NoMembers(b.dropped);
  }

  lemma SingleId(s: seq<STrack>)
    requires |s| == 1
    ensures Ids(s) == {s[0].id}
  {
    AddId([], s[0]);
    assert [] + [s[0]] == s;
  }

  /** Frame 3: still unseen, it is given up and recorded as removed, and stays listed. */
  lemma ThenGivenUp(f: Filter, l0: seq<STrack>, removed0: seq<STrack>, count: nat, h: Frame)
    requires Consistent(2, 0, count, [], l0, removed0) && |l0| == 1 && l0[0].frameId == 1 && l0[0].id !in Ids(removed0)
    requires Advances(3, 0, f, count, [], l0, removed0, h) && h.high == [] && h.low == []
    ensures h.tracked == [] && |h.lost| == 1 && h.lost[0].id == l0[0].id && h.lost[0].state == Removed
  {
    QuietFrame(3, 0, f, count, [], l0, removed0, h);
    var x := l0[0].id;
    SingleId(l0);
    StaysListed(3, 0, f, count, [], l0, removed0, h, x);
    LostIdsKnown(3, 0, f, count, [], l0, removed0, h);
    AdvancedConsistent(3, 0, f, count, [], l0, removed0, h);
    OneId(h.lost, x);
    assert h.lost[0] in h.lost;
    var expired := LostEntry(3, 0, f, count, [], l0, removed0, h, h.lost[0]);
    assert LostFate(l0[0], h.b.l[0], 3);
  }

  /** Frame 4: seen again, it is tracked again. */
  lemma ThenRevived(l0: seq<STrack>, removed0: seq<STrack>, count: nat, h: Frame)
    requires Consistent(3, 0, count, [], l0, removed0) && |l0| == 1 && l0[0].state == Removed
    requires Advances(4, 0, STILL, count, [], l0, removed0, h) && h.high == [Detection(SPOT, 1.0)]
    ensures h.lost == [] && exists e :: e in h.tracked && e.id in Ids(removed0)
  {
    OwnDetection(l0, h.high);
    RevivedWhileOnRecord(4, 0, STILL, count, [], l0, removed0, h, 0);
    GivenUpLeavesNextFrame(4, 0, STILL, count, [], l0, removed0, h, 0, Place(Lists([], l0), 0));
    LostIdsKnown(4, 0, STILL, count, [], l0, removed0, h);
    SingleId(l0);
    NoneWithoutIds(h.lost);
  }

  lemma OwnDetection(l0: seq<STrack>, high: seq<STrack>)
    requires |l0| == 1 && l0[0].state == Removed && high == [Detection(SPOT, 1.0)]
    ensures HasOwnDetection(Lists([], l0), STILL, high, 0)
  {
    var l := Lists([], l0);
    assert |FirstPool(l)| == 1 && Place(l, 0) == 0 && FirstPool(l)[0] == InLost(0);
    assert l0[0].Predict(STILL).box == SPOT;
    assert FirstBoxes(l, STILL) == [SPOT] && BoxesOf(high) == [SPOT];
    OwnPlaceIsNear(SPOT, MATCH_THRESH);
  }

  /** A single box takes a detection on its own place. */
  lemma OwnPlaceIsNear(a: Box, thresh: real)
    requires thresh > 0.0
    ensures Uncontested([a], [a], thresh, 0)
  {
    IouSelf(a);
    assert Distance(a, a) < thresh;
    assert OnlyNear([a], [a], thresh, 0, 0);
  }

  // ---------------------------------------------------------------- the run

  ghost predicate Still(tracker: Tracker) {
    tracker.filter == STILL && tracker.maxTimeLost == 0
  }

  ghost predicate Seen(tracker: Tracker)
    reads tracker, tracker.ids
  {
    && Still(tracker) && tracker.Valid() && tracker.frameId == 1 && |tracker.trackedStracks| == 1
    && tracker.trackedStracks[0].isActivated && tracker.lostStracks == [] && tracker.removedStracks == []
  }

  ghost predicate Missed(tracker: Tracker)
    reads tracker, tracker.ids
  {
    && Still(tracker) && tracker.Valid() && tracker.frameId == 2 && tracker.trackedStracks == []
    && |tracker.lostStracks| == 1 && tracker.lostStracks[0].frameId == 1 && tracker.removedStracks == []
  }

  ghost predicate GivenUp(tracker: Tracker)
    reads tracker, tracker.ids
  {
    && Still(tracker) && tracker.Valid() && tracker.frameId == 3 && tracker.trackedStracks == []
    && |tracker.lostStracks| == 1 && tracker.lostStracks[0].state == Removed
  }

  lemma AfterSee(f: Filter, h: Frame, tracked: seq<STrack>, lost: seq<STrack>, removed: seq<STrack>)
    requires Advances(1, 0, f, 0, [], [], [], h) && h.high == ByScore(SEEN, true, |SEEN|)
    requires Thinned(h.tracked, h.lost, tracked, lost) && removed == [] + h.b.dropped + h.gone
    ensures |tracked| == 1 && tracked[0].isActivated && lost == [] && removed == []
  {
    DetectionsOf(h);
    FirstSeen(f, h);
    NothingThinned(h.tracked, h.lost, tracked, lost);
  }

  lemma AfterMiss(f: Filter, t0: seq<STrack>, count: nat, h: Frame, tracked: seq<STrack>, lost: seq<STrack>,
                  removed: seq<STrack>)
    requires Consistent(1, 0, count, t0, [], []) && |t0| == 1 && t0[0].isActivated
    requires Advances(2, 0, f, count, t0, [], [], h) && h.high == ByScore([], true, 0) && h.low == ByScore([], false, 0)
    requires Thinned(h.tracked, h.lost, tracked, lost) && removed == [] + h.b.dropped + h.gone
    ensures tracked == [] && |lost| == 1 && lost[0].frameId == 1 && removed == []
  {
    ThenLost(f, t0, count, h);
    NothingThinned(h.tracked, h.lost, tracked, lost);
  }

  lemma AfterMissAgain(f: Filter, l0: seq<STrack>, count: nat, h: Frame, tracked: seq<STrack>, lost: seq<STrack>)
    requires Consistent(2, 0, count, [], l0, []) && |l0| == 1 && l0[0].frameId == 1
    requires Advances(3, 0, f, count, [], l0, [], h) && h.high == ByScore([], true, 0) && h.low == ByScore([], false, 0)
    requires Thinned(h.tracked, h.lost, tracked, lost)
    ensures tracked == [] && |lost| == 1 && lost[0].state == Removed
  {
    ThenGivenUp(f, l0, [], count, h);
    NothingThinned(h.tracked, h.lost, tracked, lost);
  }

  lemma AfterSeeAgain(l0: seq<STrack>, removed0: seq<STrack>, count: nat, h: Frame, tracked: seq<STrack>,
                      lost: seq<STrack>, removed: seq<STrack>)
    requires Consistent(3, 0, count, [], l0, removed0) && |l0| == 1 && l0[0].state == Removed
    requires Advances(4, 0, STILL, count, [], l0, removed0, h) && h.high == ByScore(SEEN, true, |SEEN|)
    requires Thinned(h.tracked, h.lost, tracked, lost) && removed == removed0 + h.b.dropped + h.gone
    ensures exists e :: e in tracked && e.id in Ids(removed)
  {
    DetectionsOf(h);
    ThenRevived(l0, removed0, count, h);
    NothingThinned(h.tracked, h.lost, tracked, lost);
    JoinIds(removed0, h.b.dropped);
    JoinIds(removed0 + h.b.dropped, h.gone);
  }

  ghost predicate Idle(tracker: Tracker)
    reads tracker, tracker.ids
  {
    && Still(tracker) && tracker.Valid() && tracker.frameId == 0 && tracker.ids.count == 0
    && tracker.trackedStracks == tracker.lostStracks == tracker.removedStracks == []
  }

  method NewTracker() returns (tracker: Tracker)
    ensures fresh(tracker) && fresh(tracker.ids) && Idle(tracker)
  {
    var ids := new IdSource();
    tracker := new Tracker(0, 30, STILL, ids);
  }

  method See(tracker: Tracker)
    requires Idle(tracker)
    modifies tracker, tracker.ids
    ensures Seen(tracker)
  {
    var shown;
    ghost var h;
    shown, h := tracker.Update(SEEN);
    AfterSee(STILL, h, tracker.trackedStracks, tracker.lostStracks, tracker.removedStracks);
  }

  method Miss(tracker: Tracker)
    requires Seen(tracker)
    modifies tracker, tracker.ids
    ensures Missed(tracker)
  {
    ghost var t0, count := tracker.trackedStracks, tracker.ids.count;
    ghost var h;
    var shown;
    shown, h := tracker.Update([]);
    AfterMiss(STILL, t0, count, h, tracker.trackedStracks, tracker.lostStracks, tracker.removedStracks);
  }

  method MissAgain(tracker: Tracker)
    requires Missed(tracker)
    modifies tracker, tracker.ids
    ensures GivenUp(tracker)
  {
    ghost var l0, count := tracker.lostStracks, tracker.ids.count;
    ghost var h;
    var shown;
    shown, h := tracker.Update([]);
    AfterMissAgain(STILL, l0, count, h, tracker.trackedStracks, tracker.lostStracks);
  }

  method SeeAgain(tracker: Tracker)
    requires GivenUp(tracker)
    modifies tracker, tracker.ids
    ensures tracker.Valid() && tracker.frameId == 4
    ensures exists e :: e in tracker.trackedStracks && e.id in Ids(tracker.removedStracks)
  {
    ghost var l0, removed0, count := tracker.lostStracks, tracker.removedStracks, tracker.ids.count;
    ghost var h;
    var shown;
    shown, h := tracker.Update(SEEN);
    AfterSeeAgain(l0, removed0, count, h, tracker.trackedStracks, tracker.lostStracks, tracker.removedStracks);
  }

  /** Seen, unseen for two frames, seen again: the tracker, which gives up at once, ends with a
      tracked id that is on record as removed. */
  method RevivalRun() returns (tracker: Tracker)
    ensures tracker.Valid() && tracker.frameId == 4
    ensures exists e :: e in tracker.trackedStracks && e.id in Ids(tracker.removedStracks)
  {
    tracker := NewTracker();
    See(tracker);
    Miss(tracker);
    MissAgain(tracker);
    SeeAgain(tracker);
  }

  lemma DetectionsOf(h: Frame)
    requires h.high == ByScore(SEEN, true, |SEEN|)
    ensures h.high == [Detection(SPOT, 1.0)]
  {
    assert ByScore(SEEN, true, 0) == [];
  }
}
