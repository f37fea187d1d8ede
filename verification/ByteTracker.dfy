/** The ByteTrack life cycle: tracks are born from leftover detections, are tracked, lost,
    revived or removed, and move between three lists as frames are processed.
 */
module ByteTracker {
  import opened Boxes
  import opened LinearAssignment
  import opened TrackLists
  import opened Associations
  import opened Rounds

  datatype Object = Object(rect: Box, prob: real)

  const TRACK_THRESH := 0.5
  const HIGH_THRESH := 0.6

  /** The counter behind next_id; one is shared by all trackers. */
  class IdSource {
    var count: nat

    constructor ()
      ensures count == 0
    {
      count := 0;
    }

    method NextId() returns (id: int)
      modifies this
      ensures count == old(count) + 1 && id == count
    {
      count := count + 1;
      id := count;
    }
  }

  // ---------------------------------------------------------------- invariant

  /** Frames after its last match at which a lost track is given up. */
  function AgeLimit(maxTimeLost: int): int {
    (if maxTimeLost > 1 then maxTimeLost else 1) + 1
  }

  /** A tracked entry was matched or born in this frame; it is confirmed unless it was born after the first frame. */
  ghost predicate TrackedOk(e: STrack, frame: int, count: nat) {
    && 1 <= e.id <= count && e.state == Tracked && e.frameId == frame && e.startFrame <= frame
    && (e.isActivated <==> e.startFrame < frame || frame == 1)
  }

  /** A lost track is Removed exactly when it has just reached the age limit, and then it is on record as removed. */
  ghost predicate LostOk(e: STrack, frame: int, count: nat, maxTimeLost: int, removedIds: set<int>) {
    && 1 <= e.id <= count && e.isActivated && e.startFrame <= e.frameId
    && 1 <= frame - e.frameId <= AgeLimit(maxTimeLost)
    && e.state == (if frame - e.frameId == AgeLimit(maxTimeLost) then Removed else Lost)
    && (e.state == Removed <==> e.id in removedIds)
  }

  ghost predicate Consistent(frame: int, maxTimeLost: int, count: nat, tracked: seq<STrack>, lost: seq<STrack>,
                             removed: seq<STrack>) {
    && UniqueIds(Lists(tracked, lost))
    && (forall e :: e in tracked ==> TrackedOk(e, frame, count))
    && (forall e :: e in lost ==> LostOk(e, frame, count, maxTimeLost, Ids(removed)))
    && (forall x :: x in Ids(removed) ==> 1 <= x <= count)
  }

  ghost predicate Apart(tracked: seq<STrack>, lost: seq<STrack>) {
    forall a, b :: a in tracked && b in lost ==> !Close(a, b)
  }

  // ---------------------------------------------------------------- births

  /** The tracks started from leftovers: those scoring high enough, with consecutive new ids. */
  function Births(rest: seq<STrack>, left: seq<int>, f: Filter, frame: int, count: nat, k: nat): (r: seq<STrack>)
    requires k <= |left| && forall i :: 0 <= i < |left| ==> 0 <= left[i] < |rest|
    ensures forall i :: 0 <= i < |r| ==> r[i].id == count + i + 1 && r[i].score >= HIGH_THRESH
    ensures forall i :: 0 <= i < |r| ==> r[i].state == Tracked && r[i].frameId == r[i].startFrame == frame
  {
    if k == 0 then [] else
    var r := Births(rest, left, f, frame, count, k - 1);
    var det := rest[left[k - 1]];
    if det.score < HIGH_THRESH then r else r + [det.Activate(f, count + |r| + 1, frame)]
  }

  ghost predicate Unconfirmed(s: seq<STrack>) {
    forall k :: 0 <= k < |s| ==> !s[k].isActivated
  }

  /** A leftover detection is confirmed at once in the first frame only. */
  lemma {:induction false} BirthsOk(rest: seq<STrack>, left: seq<int>, f: Filter, frame: int, count: nat, k: nat,
                                    r: seq<STrack>)
    requires k <= |left| && forall i :: 0 <= i < |left| ==> 0 <= left[i] < |rest|
    requires Unconfirmed(rest) && r == Births(rest, left, f, frame, count, k)
    ensures forall e :: e in r ==> TrackedOk(e, frame, count + |r|)
  {
    if k > 0 {
      var before := Births(rest, left, f, frame, count, k - 1);
      BirthsOk(rest, left, f, frame, count, k - 1, before);
      forall e | e in before
        ensures TrackedOk(e, frame, count + |before| + 1)
      {
        assert TrackedOk(e, frame, count + |before|);
      }
    }
  }

  method StartTracks(rest: seq<STrack>, left: seq<int>, f: Filter, frame: int, ids: IdSource) returns (r: seq<STrack>)
    requires forall i :: 0 <= i < |left| ==> 0 <= left[i] < |rest|
    modifies ids
    ensures r == Births(rest, left, f, frame, old(ids.count), |left|)
    ensures ids.count == old(ids.count) + |r|
  {
    r := [];
    for i := 0 to |left|
      invariant r == Births(rest, left, f, frame, old(ids.count), i)
      invariant ids.count == old(ids.count) + |r|
    {
      var track := rest[left[i]];
      if track.score < HIGH_THRESH {
        continue;
      }
      var id := ids.NextId();
      r := r + [track.Activate(f, id, frame)];
    }
  }

  // ---------------------------------------------------------------- expiry

  predicate Expires(e: STrack, frame: int, maxTimeLost: int) {
    frame - e.EndFrame() > maxTimeLost
  }

  method ExpireLost(lost: seq<STrack>, frame: int, maxTimeLost: int) returns (r: seq<STrack>, removed: seq<STrack>)
    ensures |r| == |lost|
    ensures forall j :: 0 <= j < |lost| ==>
      r[j] == if Expires(lost[j], frame, maxTimeLost) then lost[j].MarkRemoved() else lost[j]
    ensures forall e :: e in removed <==>
              exists j :: 0 <= j < |lost| && Expires(lost[j], frame, maxTimeLost) && r[j] == e
  {
    r, removed := lost, [];
    for i := 0 to |lost|
      invariant |r| == |lost|
      invariant forall j :: 0 <= j < |lost| ==>
        r[j] == if j < i && Expires(lost[j], frame, maxTimeLost) then lost[j].MarkRemoved() else lost[j]
      invariant forall e :: e in removed <==>
                  exists j :: 0 <= j < i && Expires(lost[j], frame, maxTimeLost) && r[j] == e
    {
      if frame - r[i].EndFrame() > maxTimeLost {
        r := r[i := r[i].MarkRemoved()];
        removed := removed + [r[i]];
      }
    }
  }

  function OnlyTracked(s: seq<STrack>, k: nat): (r: seq<STrack>)
    requires k <= |s|
  {
    if k == 0 then []
    else OnlyTracked(s, k - 1) + if s[k - 1].state == Tracked then [s[k - 1]] else []
  }

  lemma {:induction false} OnlyTrackedProperties(s: seq<STrack>, k: nat)
    requires k <= |s| && DistinctIds(s)
    ensures var r := OnlyTracked(s, k);
      && DistinctIds(r)
      && forall e :: e in r <==> e.state == Tracked && exists i :: 0 <= i < k && s[i] == e
  {
    if k > 0 {
      OnlyTrackedProperties(s, k - 1);
      var q := OnlyTracked(s, k - 1);
      assert forall i :: 0 <= i < |q| ==> q[i] in q;
    }
  }

  lemma {:induction false} OnlyTrackedInOrder(s: seq<STrack>, k: nat)
    requires k <= |s|
    ensures InOrderOf(s[..k], OnlyTracked(s, k))
  {
    if k == 0 {
      EmptyInOrder(s[..0]);
    } else {
      OnlyTrackedInOrder(s, k - 1);
      InOrderFurther(s, OnlyTracked(s, k - 1), k, OnlyTracked(s, k));
    }
  }

  method KeepTracked(s: seq<STrack>) returns (r: seq<STrack>)
    ensures r == OnlyTracked(s, |s|)
  {
    r := [];
    for i := 0 to |s|
      invariant r == OnlyTracked(s, i)
    {
      if s[i].state == Tracked {
        r := r + [s[i]];
      }
    }
  }

  // ---------------------------------------------------------------- rebuilding the lists

  /** Everything the end of an update works with. */
  datatype Rebuild = Rebuild(t: seq<STrack>, l: seq<STrack>, activated: seq<STrack>, births: seq<STrack>,
                             refound: seq<STrack>, newLost: seq<STrack>, dropped: seq<STrack>)

  /** What the rounds leave behind: `t` and `l` are the two lists after them, the others copies. */
  ghost predicate RoundsOver(t0: seq<STrack>, l0: seq<STrack>, b: Rebuild, frame: int) {
    && |b.t| == |t0| && |b.l| == |l0|
    && (forall i :: 0 <= i < |t0| ==> TrackedFate(t0[i], b.t[i], frame))
    && (forall j :: 0 <= j < |l0| ==> LostFate(l0[j], b.l[j], frame))
    && CopiesOf(b.t, Tracked, b.activated) && CopiesOf(b.l, Tracked, b.refound)
    && CopiesOf(b.t, Lost, b.newLost) && CopiesOf(b.t, Removed, b.dropped)
    && DistinctIds(b.newLost)
  }

  ghost predicate JoinedTracked(b: Rebuild, tracked: seq<STrack>) {
    var swap := OnlyTracked(b.t, |b.t|);
    var first := swap + NewEntries(b.activated + b.births, Ids(swap), |b.activated + b.births|);
    tracked == first + NewEntries(b.refound, Ids(first), |b.refound|)
  }

  lemma FatesKeepIds(t0: seq<STrack>, l0: seq<STrack>, b: Rebuild, frame: int)
    requires RoundsOver(t0, l0, b, frame) && UniqueIds(Lists(t0, l0))
    ensures Ids(b.t) == Ids(t0) && Ids(b.l) == Ids(l0) && UniqueIds(Lists(b.t, b.l))
  {
    forall x | x in Ids(t0)
      ensures x in Ids(b.t)
    {
      var i :| 0 <= i < |t0| && t0[i].id == x;
      assert b.t[i].id == x;
    }
    forall x | x in Ids(l0)
      ensures x in Ids(b.l)
    {
      var i :| 0 <= i < |l0| && l0[i].id == x;
      assert b.l[i].id == x;
    }
  }

  lemma InIds(s: seq<STrack>, e: STrack)
    requires e in s
    ensures e.id in Ids(s)
  {
    var k :| 0 <= k < |s| && s[k] == e;
  }

  lemma EntryOf(s: seq<STrack>, x: int) returns (e: STrack)
    requires x in Ids(s)
    ensures e in s && e.id == x
  {
    var k :| 0 <= k < |s| && s[k].id == x;
    e := s[k];
  }

  lemma SameIdSameEntry(s: seq<STrack>, a: STrack, b: STrack)
    requires DistinctIds(s) && a in s && b in s && a.id == b.id
    ensures a == b
  {
  }

  /** The ids that end up tracked: tracked again, born or revived. */
  lemma JoinedIds(t0: seq<STrack>, l0: seq<STrack>, b: Rebuild, frame: int, tracked: seq<STrack>)
    requires RoundsOver(t0, l0, b, frame) && UniqueIds(Lists(t0, l0)) && JoinedTracked(b, tracked)
    ensures DistinctIds(tracked)
    ensures Ids(tracked) == Ids(b.activated) + Ids(b.births) + Ids(b.refound)
    ensures forall e :: e in tracked ==> e in b.activated || e in b.births || e in b.refound
  {
    var swap, act := OnlyTracked(b.t, |b.t|), b.activated + b.births;
    var first := swap + NewEntries(act, Ids(swap), |act|);
    FatesKeepIds(t0, l0, b, frame);
    OnlyTrackedProperties(b.t, |b.t|);
    JointProperties(swap, act);
    JointProperties(first, b.refound);
    JoinIds(b.activated, b.births);
    assert forall e :: e in swap <==> e in b.activated;
    assert Ids(swap) == Ids(b.activated) by {
      forall x | x in Ids(swap)
        ensures x in Ids(b.activated)
      {
        var e := EntryOf(swap, x);
        InIds(b.activated, e);
      }
      forall x | x in Ids(b.activated)
        ensures x in Ids(swap)
      {
        var e := EntryOf(b.activated, x);
        InIds(swap, e);
      }
    }
    forall e | e in tracked
      ensures e in b.activated || e in b.births || e in b.refound
    {
      var k :| 0 <= k < |tracked| && tracked[k] == e;
      if e in first {
        var q :| 0 <= q < |first| && first[q] == e;
        assert e in act ==> e in b.activated || e in b.births;
      }
    }
  }

  lemma TrackedAgainOk(t0: seq<STrack>, t: seq<STrack>, frame: int, count: nat, e: STrack)
    requires |t| == |t0| && forall i :: 0 <= i < |t0| ==> TrackedFate(t0[i], t[i], frame)
    requires forall i :: 0 <= i < |t0| ==> 1 <= t0[i].id <= count && t0[i].startFrame < frame
    requires e in t && e.state == Tracked
    ensures TrackedOk(e, frame, count)
  {
    var i :| 0 <= i < |t| && t[i] == e;
    assert TrackedFate(t0[i], t[i], frame);
  }

  lemma RevivedOk(l0: seq<STrack>, l: seq<STrack>, frame: int, count: nat, e: STrack)
    requires |l| == |l0| && forall j :: 0 <= j < |l0| ==> LostFate(l0[j], l[j], frame)
    requires forall j :: 0 <= j < |l0| ==> 1 <= l0[j].id <= count && l0[j].startFrame < frame && l0[j].state != Tracked
    requires e in l && e.state == Tracked
    ensures TrackedOk(e, frame, count)
  {
    var j :| 0 <= j < |l| && l[j] == e;
    assert LostFate(l0[j], l[j], frame);
  }

  lemma RebuiltTracked(t0: seq<STrack>, l0: seq<STrack>, b: Rebuild, frame: int, count: nat, tracked: seq<STrack>)
    requires RoundsOver(t0, l0, b, frame) && UniqueIds(Lists(t0, l0)) && JoinedTracked(b, tracked)
    requires forall i :: 0 <= i < |t0| ==> 1 <= t0[i].id <= count && t0[i].startFrame < frame
    requires forall j :: 0 <= j < |l0| ==> 1 <= l0[j].id <= count && l0[j].startFrame < frame && l0[j].state != Tracked
    requires forall e :: e in b.births ==> TrackedOk(e, frame, count + |b.births|)
    ensures DistinctIds(tracked) && forall e :: e in tracked ==> TrackedOk(e, frame, count + |b.births|)
  {
    JoinedIds(t0, l0, b, frame, tracked);
    forall e | e in tracked
      ensures TrackedOk(e, frame, count + |b.births|)
    {
      if e in b.activated {
        TrackedAgainOk(t0, b.t, frame, count, e);
      } else if e in b.refound {
        RevivedOk(l0, b.l, frame, count, e);
      }
    }
  }

  // ---------------------------------------------------------------- the lost list

  ghost predicate Expired(l: seq<STrack>, x: seq<STrack>, gone: seq<STrack>, frame: int, maxTimeLost: int) {
    && |x| == |l|
    && (forall j :: 0 <= j < |l| ==> x[j] == if Expires(l[j], frame, maxTimeLost) then l[j].MarkRemoved() else l[j])
    && (forall e :: e in gone <==> exists j :: 0 <= j < |l| && Expires(l[j], frame, maxTimeLost) && x[j] == e)
  }

  /** A lost track that is still listed after the frame: it waits, or has just been given up. */
  lemma WaitingOk(l0: seq<STrack>, l: seq<STrack>, x: seq<STrack>, gone: seq<STrack>, frame: int, count: nat,
                  maxTimeLost: int, removed0: set<int>, dropped: set<int>, e: STrack)
    requires |l| == |l0| && DistinctIds(l0) && forall j :: 0 <= j < |l0| ==> LostFate(l0[j], l[j], frame)
    requires forall j :: 0 <= j < |l0| ==> LostOk(l0[j], frame - 1, count, maxTimeLost, removed0)
    requires Expired(l, x, gone, frame, maxTimeLost)
    requires e in x && e.id !in removed0 && e.id !in dropped
    requires forall j :: 0 <= j < |l| && l[j].id == e.id ==> l[j].state != Tracked
    ensures LostOk(e, frame, count, maxTimeLost, removed0 + dropped + Ids(gone))
  {
    var j :| 0 <= j < |x| && x[j] == e;
    assert LostFate(l0[j], l[j], frame) && LostOk(l0[j], frame - 1, count, maxTimeLost, removed0);
    if e.id in Ids(gone) {
      var g := EntryOf(gone, e.id);
      var q :| 0 <= q < |l| && Expires(l[q], frame, maxTimeLost) && x[q] == g;
      assert LostFate(l0[q], l[q], frame);
      assert q == j;
    }
    if Expires(l[j], frame, maxTimeLost) {
      InIds(gone, e);
    }
  }

  lemma NewlyLostOk(t0: seq<STrack>, t: seq<STrack>, frame: int, count: nat, maxTimeLost: int, removedIds: set<int>,
                    e: STrack)
    requires |t| == |t0| && forall i :: 0 <= i < |t0| ==> TrackedFate(t0[i], t[i], frame)
    requires forall i :: 0 <= i < |t0| ==> TrackedOk(t0[i], frame - 1, count)
    requires e in t && e.state == Lost && e.id !in removedIds
    ensures LostOk(e, frame, count, maxTimeLost, removedIds)
  {
    var i :| 0 <= i < |t| && t[i] == e;
    assert TrackedFate(t0[i], t[i], frame) && TrackedOk(t0[i], frame - 1, count);
  }

  /** The three sources of ids stay apart: lost entries, newly lost and dropped ones. */
  lemma SourcesApart(t0: seq<STrack>, l0: seq<STrack>, b: Rebuild, frame: int, e: STrack)
    requires RoundsOver(t0, l0, b, frame) && UniqueIds(Lists(t0, l0))
    ensures e in b.newLost ==>
              e.id in Ids(t0) && e.id !in Ids(b.activated) && e.id !in Ids(b.dropped) && e.id !in Ids(l0)
    ensures e.id in Ids(l0) ==> e.id !in Ids(b.activated) && e.id !in Ids(b.dropped) && e.id !in Ids(b.newLost)
    ensures Ids(b.refound) <= Ids(l0) && Ids(b.activated) <= Ids(t0) && Ids(b.dropped) <= Ids(t0)
  {
    FatesKeepIds(t0, l0, b, frame);
    forall x | x in Ids(b.refound)
      ensures x in Ids(l0)
    {
      var r := EntryOf(b.refound, x);
      InIds(b.l, r);
    }
    forall x | x in Ids(b.activated) || x in Ids(b.dropped) || x in Ids(b.newLost)
      ensures x in Ids(t0)
    {
      var r := EntryOf(if x in Ids(b.activated) then b.activated
                       else if x in Ids(b.dropped) then b.dropped else b.newLost, x);
      InIds(b.t, r);
    }
    if e in b.newLost {
      InIds(b.newLost, e);
      if e.id in Ids(b.activated) {
        var r := EntryOf(b.activated, e.id);
        SameIdSameEntry(b.t, r, e);
      }
      if e.id in Ids(b.dropped) {
        var r := EntryOf(b.dropped, e.id);
        SameIdSameEntry(b.t, r, e);
      }
    }
  }

  /** Which ids may still be lost, and where their entries come from. */
  lemma LostSources(t0: seq<STrack>, l0: seq<STrack>, b: Rebuild, frame: int, tracked: seq<STrack>, x: seq<STrack>,
                    s: seq<STrack>, removed0: seq<STrack>, lost: seq<STrack>, e: STrack)
    requires Subtracted(x, tracked, s) && Subtracted(s + b.newLost, removed0, lost) && e in lost
    ensures e.id !in Ids(removed0) && ((e in x && e.id !in Ids(tracked)) || e in b.newLost)
  {
    InIds(lost, e);
    assert IsFirst(s + b.newLost, e);
    if e !in b.newLost {
      assert e in s;
      InIds(s, e);
      assert IsFirst(x, e);
    }
  }

  lemma RebuiltLost(t0: seq<STrack>, l0: seq<STrack>, b: Rebuild, frame: int, count: nat, maxTimeLost: int,
                    tracked: seq<STrack>, x: seq<STrack>, gone: seq<STrack>, s: seq<STrack>, removed0: seq<STrack>,
                    lost: seq<STrack>)
    requires Consistent(frame - 1, maxTimeLost, count, t0, l0, removed0)
    requires RoundsOver(t0, l0, b, frame) && JoinedTracked(b, tracked) && Expired(b.l, x, gone, frame, maxTimeLost)
    requires Subtracted(x, tracked, s) && Subtracted(s + b.newLost, removed0, lost)
    requires forall e :: e in b.births ==> e.id > count
    ensures forall e :: e in lost ==> LostOk(e, frame, count, maxTimeLost, Ids(removed0 + b.dropped + gone))
    ensures Ids(tracked) !! Ids(lost) && Ids(lost) !! Ids(removed0)
  {
    JoinIds(removed0, b.dropped);
    JoinIds(removed0 + b.dropped, gone);
    JoinedIds(t0, l0, b, frame, tracked);
    forall e | e in lost
      ensures LostOk(e, frame, count, maxTimeLost, Ids(removed0 + b.dropped + gone))
      ensures e.id !in Ids(tracked) && e.id !in Ids(removed0)
    {
      LostSources(t0, l0, b, frame, tracked, x, s, removed0, lost, e);
      RebuiltLostEntry(t0, l0, b, frame, count, maxTimeLost, tracked, x, gone, removed0, e);
    }
    IdsMembers(lost);
  }

  lemma RebuiltLostEntry(t0: seq<STrack>, l0: seq<STrack>, b: Rebuild, frame: int, count: nat, maxTimeLost: int,
                         tracked: seq<STrack>, x: seq<STrack>, gone: seq<STrack>, removed0: seq<STrack>, e: STrack)
    requires Consistent(frame - 1, maxTimeLost, count, t0, l0, removed0)
    requires RoundsOver(t0, l0, b, frame) && Expired(b.l, x, gone, frame, maxTimeLost)
    requires Ids(tracked) == Ids(b.activated) + Ids(b.births) + Ids(b.refound)
    requires forall e :: e in b.births ==> e.id > count
    requires e.id !in Ids(removed0) && ((e in x && e.id !in Ids(tracked)) || e in b.newLost)
    ensures LostOk(e, frame, count, maxTimeLost, Ids(removed0) + Ids(b.dropped) + Ids(gone)) && e.id !in Ids(tracked)
  {
    if e in b.newLost {
      forall i | 0 <= i < |t0|
        ensures TrackedOk(t0[i], frame - 1, count)
      {
        assert t0[i] in t0;
      }
      SourcesApart(t0, l0, b, frame, e);
      NewlyLostNotGone(t0, l0, b, frame, count, maxTimeLost, x, gone, e);
      NewlyLostOk(t0, b.t, frame, count, maxTimeLost, Ids(removed0) + Ids(b.dropped) + Ids(gone), e);
      OldIdsNotBorn(b, count, e.id);
    } else {
      StillWaiting(t0, l0, b, frame, count, maxTimeLost, tracked, x, gone, removed0, e);
    }
  }

  lemma IdsMembers(s: seq<STrack>)
    ensures forall x :: x in Ids(s) ==> exists e :: e in s && e.id == x
  {
    forall x | x in Ids(s)
      ensures exists e :: e in s && e.id == x
    {
      var e := EntryOf(s, x);
    }
  }

  lemma OldIdsNotBorn(b: Rebuild, count: nat, x: int)
    requires (forall e :: e in b.births ==> e.id > count) && x <= count
    ensures x !in Ids(b.births)
  {
    IdsMembers(b.births);
  }

  lemma NewlyLostNotGone(t0: seq<STrack>, l0: seq<STrack>, b: Rebuild, frame: int, count: nat, maxTimeLost: int,
                         x: seq<STrack>, gone: seq<STrack>, e: STrack)
    requires RoundsOver(t0, l0, b, frame) && UniqueIds(Lists(t0, l0)) && Expired(b.l, x, gone, frame, maxTimeLost)
    requires forall i :: 0 <= i < |t0| ==> 1 <= t0[i].id <= count
    requires e in b.newLost
    ensures e.id !in Ids(gone) && e in b.t && e.state == Lost && 1 <= e.id <= count
  {
    SourcesApart(t0, l0, b, frame, e);
    FatesKeepIds(t0, l0, b, frame);
    IdsMembers(gone);
    forall g | g in gone
      ensures g.id in Ids(l0)
    {
      var j :| 0 <= j < |b.l| && Expires(b.l[j], frame, maxTimeLost) && x[j] == g;
      assert b.l[j].id in Ids(b.l);
    }
    var i :| 0 <= i < |b.t| && b.t[i] == e;
    assert TrackedFate(t0[i], b.t[i], frame);
  }

  lemma StillWaiting(t0: seq<STrack>, l0: seq<STrack>, b: Rebuild, frame: int, count: nat, maxTimeLost: int,
                     tracked: seq<STrack>, x: seq<STrack>, gone: seq<STrack>, removed0: seq<STrack>, e: STrack)
    requires Consistent(frame - 1, maxTimeLost, count, t0, l0, removed0)
    requires RoundsOver(t0, l0, b, frame) && Expired(b.l, x, gone, frame, maxTimeLost)
    requires Ids(tracked) == Ids(b.activated) + Ids(b.births) + Ids(b.refound)
    requires e in x && e.id !in Ids(tracked) && e.id !in Ids(removed0)
    ensures LostOk(e, frame, count, maxTimeLost, Ids(removed0) + Ids(b.dropped) + Ids(gone))
  {
    FatesKeepIds(t0, l0, b, frame);
    assert e.id !in Ids(b.dropped) by {
      var k :| 0 <= k < |x| && x[k] == e;
      assert b.l[k].id == e.id && b.l[k].id in Ids(b.l);
      SourcesApart(t0, l0, b, frame, e);
    }
    forall j | 0 <= j < |b.l| && b.l[j].id == e.id
      ensures b.l[j].state != Tracked
    {
      if b.l[j].state == Tracked {
        InIds(b.refound, b.l[j]);
      }
    }
    forall j | 0 <= j < |l0|
      ensures LostOk(l0[j], frame - 1, count, maxTimeLost, Ids(removed0))
    {
      assert l0[j] in l0;
    }
    WaitingOk(l0, b.l, x, gone, frame, count, maxTimeLost, Ids(removed0), Ids(b.dropped), e);
  }

  // ---------------------------------------------------------------- the tracker

  /** Detections at or above the tracking threshold, or below it. */
  function ByScore(objects: seq<Object>, high: bool, k: nat): (r: seq<STrack>)
    requires k <= |objects|
  {
    if k == 0 then []
    else ByScore(objects, high, k - 1)
         + if (objects[k - 1].prob >= TRACK_THRESH) == high
           then [Detection(objects[k - 1].rect, objects[k - 1].prob)] else []
  }

  /** A detection with the object's box and score. */
  ghost predicate Shows(e: STrack, o: Object) {
    e.box == e.detected == o.rect && e.score == o.prob && e.state == New && !e.isActivated
  }

  /** The detections on one side of 0.5 are those of certain objects, in order: those whose score is on that side. */
  lemma {:induction false} ByScoreSplits(objects: seq<Object>, high: bool, k: nat) returns (places: seq<int>)
    requires k <= |objects|
    ensures var r := ByScore(objects, high, k);
      && |places| == |r| && (forall i, j :: 0 <= i < j < |places| ==> places[i] < places[j])
      && (forall i :: 0 <= i < |r| ==> 0 <= places[i] < k && Shows(r[i], objects[places[i]]))
      && forall p :: 0 <= p < k ==> (p in places <==> if objects[p].prob >= 0.5 then high else !high)
  {
    if k == 0 {
      places := [];
    } else {
      places := ByScoreSplits(objects, high, k - 1);
      if (objects[k - 1].prob >= 0.5) == high {
        places := places + [k - 1];
      }
    }
  }

  method SplitDetections(objects: seq<Object>) returns (high: seq<STrack>, low: seq<STrack>)
    ensures high == ByScore(objects, true, |objects|) && low == ByScore(objects, false, |objects|)
    ensures Unconfirmed(high)
  {
    high, low := [], [];
    for i := 0 to |objects|
      invariant high == ByScore(objects, true, i) && low == ByScore(objects, false, i) && Unconfirmed(high)
    {
      var score := objects[i].prob;
      var strack := Detection(objects[i].rect, score);
      if score >= TRACK_THRESH {
        high := high + [strack];
      } else {
        low := low + [strack];
      }
    }
  }

  method KeepActivated(s: seq<STrack>) returns (r: seq<STrack>)
    ensures forall e :: e in r <==> e in s && e.isActivated
    ensures InOrderOf(s, r)
  {
    r := [];
    ghost var places: seq<int> := [];
    for i := 0 to |s|
      invariant forall e :: e in r <==> e in s[..i] && e.isActivated
      invariant Places(s[..i], r, places)
    {
      assert s[..i + 1] == s[..i] + [s[i]];
      if s[i].isActivated {
        r := r + [s[i]];
        places := places + [i];
      }
    }
    assert s[..|s|] == s;
  }

  /** Exactly the tracks that are older than the frame are shown, in the first frame all. */
  lemma ShownAreOld(frame: int, count: nat, tracked: seq<STrack>, shown: seq<STrack>)
    requires forall e :: e in tracked ==> TrackedOk(e, frame, count)
    requires forall e :: e in shown <==> e in tracked && e.isActivated
    ensures forall e :: e in tracked ==> (e in shown <==> e.startFrame < frame || frame == 1)
  {
  }

  /** One frame, for the record: the detections by score, the matchings, what the rounds left
      behind, the expired entries and the two lists before duplicates go. */
  datatype Frame = Frame(high: seq<STrack>, low: seq<STrack>, log: Log, b: Rebuild, gone: seq<STrack>,
                         tracked: seq<STrack>, lost: seq<STrack>)

  lemma ConsistentIsReady(frame: int, maxTimeLost: int, count: nat, tracked: seq<STrack>, lost: seq<STrack>,
                          removed: seq<STrack>)
    requires Consistent(frame, maxTimeLost, count, tracked, lost, removed)
    ensures Ready(Lists(tracked, lost))
  {
    forall i | 0 <= i < |tracked|
      ensures tracked[i].state == Tracked
    {
      assert tracked[i] in tracked;
    }
    forall j | 0 <= j < |lost|
      ensures lost[j].state in {Lost, Removed} && lost[j].isActivated
    {
      assert lost[j] in lost;
    }
  }

  /** The rounds, then births and expiry. */
  lemma RoundsAreOver(l: Lists, r: Lists, high: seq<STrack>, low: seq<STrack>, g: Log, f: Filter, frame: int,
                      b: Rebuild)
    requires Ready(l) && WellFormed(l, high, low, g) && Explains(l, r, high, low, g, f, frame)
    requires b.t == r.tracked && b.l == r.lost && DistinctIds(b.newLost)
    requires CopiesOf(b.t, Tracked, b.activated) && CopiesOf(b.l, Tracked, b.refound)
    requires CopiesOf(b.t, Lost, b.newLost) && CopiesOf(b.t, Removed, b.dropped)
    ensures RoundsOver(l.tracked, l.lost, b, frame)
  {
    forall i | 0 <= i < |l.tracked|
      ensures TrackedFate(l.tracked[i], b.t[i], frame)
    {
      FateOfTracked(l, r, high, low, g, f, frame, i);
    }
    forall j | 0 <= j < |l.lost|
      ensures LostFate(l.lost[j], b.l[j], frame)
    {
      FateOfLost(l, r, high, low, g, f, frame, j);
    }
  }

  /** New tracks are started from what the third round left of the high-score detections. */
  ghost predicate Born(g: Log, f: Filter, frame: int, count: nat, births: seq<STrack>) {
    var left := Holes(g.w3, |g.w3|);
    && (forall i :: 0 <= i < |left| ==> 0 <= left[i] < |g.rest|)
    && Unconfirmed(g.rest)
    && births == Births(g.rest, left, f, frame, count, |left|)
  }

  /** What one update makes of the lists, before duplicate removal. */
  ghost predicate Advances(frame: int, maxTimeLost: int, f: Filter, count: nat, t0: seq<STrack>, l0: seq<STrack>,
                           removed0: seq<STrack>, h: Frame)
  {
    && WellFormed(Lists(t0, l0), h.high, h.low, h.log)
    && Explains(Lists(t0, l0), Lists(h.b.t, h.b.l), h.high, h.low, h.log, f, frame)
    && Optimal(Lists(t0, l0), h.high, h.low, h.log, f)
    && RoundsOver(t0, l0, h.b, frame)
    && Born(h.log, f, frame, count, h.b.births)
    && Rebuilt(h.b, frame, maxTimeLost, removed0, h.gone, h.tracked, h.lost)
  }

  lemma HolesInRange(w: seq<int>)
    ensures forall i :: 0 <= i < |Holes(w, |w|)| ==> 0 <= Holes(w, |w|)[i] < |w|
  {
    var h := Holes(w, |w|);
    assert forall i :: 0 <= i < |h| ==> h[i] in h;
  }

  lemma RestUnconfirmed(high: seq<STrack>, left: seq<int>, rest: seq<STrack>)
    requires Unconfirmed(high) && Selected(high, left, rest)
    ensures Unconfirmed(rest)
  {
  }

  /** The three rounds, then births. */
  method PlayFrame(l: Lists, high: seq<STrack>, low: seq<STrack>, f: Filter, frame: int, ids: IdSource)
    returns (b: Rebuild, ghost g: Log)
    requires Ready(l) && Unconfirmed(high)
    modifies ids
    ensures WellFormed(l, high, low, g) && Explains(l, Lists(b.t, b.l), high, low, g, f, frame)
    ensures Optimal(l, high, low, g, f)
    ensures RoundsOver(l.tracked, l.lost, b, frame) && Born(g, f, frame, old(ids.count), b.births)
    ensures ids.count == old(ids.count) + |b.births|
  {
    var r, activated, refound, newLost, dropped, rest, left;
    r, activated, refound, newLost, dropped, rest, left, g := RunRounds(l, high, low, f, frame);
    HolesInRange(g.w3);
    RestUnconfirmed(high, g.left, g.rest);
    var births := StartTracks(rest, left, f, frame, ids);
    b := Rebuild(r.tracked, r.lost, activated, births, refound, newLost, dropped);
    RoundsAreOver(l, r, high, low, g, f, frame, b);
  }

  /** How the lists are put together again once tracks are expired and born. */
  ghost predicate Rebuilt(b: Rebuild, frame: int, maxTimeLost: int, removed0: seq<STrack>, gone: seq<STrack>,
                          tracked: seq<STrack>, lost: seq<STrack>) {
    && JoinedTracked(b, tracked)
    && exists x, s :: Expired(b.l, x, gone, frame, maxTimeLost) && Subtracted(x, tracked, s)
                      && Subtracted(s + b.newLost, removed0, lost)
  }

  method RebuildLists(b: Rebuild, frame: int, maxTimeLost: int, removed0: seq<STrack>)
    returns (tracked: seq<STrack>, lost: seq<STrack>, removed: seq<STrack>, ghost gone: seq<STrack>)
    ensures Rebuilt(b, frame, maxTimeLost, removed0, gone, tracked, lost)
    ensures removed == removed0 + b.dropped + gone
    ensures JoinedTracked(b, tracked) && Ordered(lost) && Ids(lost) !! Ids(removed0)
  {
    var expired, dead := ExpireLost(b.l, frame, maxTimeLost);
    gone := dead;
    var swap := KeepTracked(b.t);
    var first := Joint(swap, b.activated + b.births);
    tracked := Joint(first, b.refound);
    var still := Sub(expired, tracked);
    lost := Sub(still + b.newLost, removed0);
    removed := removed0 + b.dropped + dead;
    assert Expired(b.l, expired, gone, frame, maxTimeLost);
  }

  /** Everything before duplicate removal. */
  method Advance(t0: seq<STrack>, l0: seq<STrack>, removed0: seq<STrack>, objects: seq<Object>, f: Filter, frame: int,
                 maxTimeLost: int, ids: IdSource)
    returns (tracked: seq<STrack>, lost: seq<STrack>, removed: seq<STrack>, ghost h: Frame)
    requires Ready(Lists(t0, l0))
    modifies ids
    ensures Advances(frame, maxTimeLost, f, old(ids.count), t0, l0, removed0, h)
    ensures h.high == ByScore(objects, true, |objects|) && h.low == ByScore(objects, false, |objects|)
    ensures tracked == h.tracked && lost == h.lost && removed == removed0 + h.b.dropped + h.gone
    ensures ids.count == old(ids.count) + |h.b.births|
  {
    var high, low := SplitDetections(objects);
    ghost var g;
    var b;
    b, g := PlayFrame(Lists(t0, l0), high, low, f, frame, ids);
    ghost var gone;
    tracked, lost, removed, gone := RebuildLists(b, frame, maxTimeLost, removed0);
    h := Frame(high, low, g, b, gone, tracked, lost);
  }

  method NextFrame(t0: seq<STrack>, l0: seq<STrack>, removed0: seq<STrack>, objects: seq<Object>, f: Filter, frame: int,
                   maxTimeLost: int, ids: IdSource)
    returns (tracked: seq<STrack>, lost: seq<STrack>, removed: seq<STrack>, ghost h: Frame)
    requires Consistent(frame - 1, maxTimeLost, ids.count, t0, l0, removed0)
    modifies ids
    ensures Consistent(frame, maxTimeLost, ids.count, tracked, lost, removed) && Apart(tracked, lost)
    ensures Advances(frame, maxTimeLost, f, old(ids.count), t0, l0, removed0, h)
    ensures h.high == ByScore(objects, true, |objects|) && h.low == ByScore(objects, false, |objects|)
    ensures ids.count == old(ids.count) + |h.b.births|
    ensures removed == removed0 + h.b.dropped + h.gone && Thinned(h.tracked, h.lost, tracked, lost)
    ensures Ids(lost) !! Ids(removed0)
  {
    ghost var count0 := ids.count;
    ConsistentIsReady(frame - 1, maxTimeLost, count0, t0, l0, removed0);
    var allTracked, allLost;
    allTracked, allLost, removed, h := Advance(t0, l0, removed0, objects, f, frame, maxTimeLost, ids);
    AdvancedConsistent(frame, maxTimeLost, f, count0, t0, l0, removed0, h);
    ghost var dupA, dupB;
    tracked, lost, dupA, dupB := RemoveDuplicates(allTracked, allLost);
    DedupConsistent(frame, maxTimeLost, ids.count, allTracked, allLost, removed, dupA, dupB);
    SubsetIds(allLost, lost);
  }

  class Tracker {
    const filter: Filter
    const maxTimeLost: int
    const ids: IdSource
    var frameId: int
    var trackedStracks: seq<STrack>
    var lostStracks: seq<STrack>
    var removedStracks: seq<STrack>

    ghost predicate Valid()
      reads this, ids
    {
      && frameId >= 0
      && Consistent(frameId, maxTimeLost, ids.count, trackedStracks, lostStracks, removedStracks)
      && Apart(trackedStracks, lostStracks)
    }

    constructor (frameRate: int, trackBuffer: int, filter: Filter, ids: IdSource)
      ensures Valid() && frameId == 0 && trackedStracks == lostStracks == removedStracks == []
      ensures this.ids == ids && this.filter == filter
      ensures frameRate >= 0 && trackBuffer >= 0 ==> maxTimeLost == frameRate * trackBuffer / 30
    {
      var frames := frameRate as real / 30.0 * trackBuffer as real;
      this.filter, this.ids := filter, ids;
      maxTimeLost := if frames >= 0.0 then frames.Floor else -((-frames).Floor);
      frameId := 0;
      trackedStracks, lostStracks, removedStracks := [], [], [];
    }

    /** Processes one frame. */
    method Update(objects: seq<Object>) returns (output: seq<STrack>, ghost h: Frame)
      requires Valid()
      modifies this, ids
      ensures Valid() && frameId == old(frameId) + 1
      ensures Advances(frameId, maxTimeLost, filter, old(ids.count), old(trackedStracks), old(lostStracks),
                       old(removedStracks), h)
      ensures WithinThresholds(Lists(old(trackedStracks), old(lostStracks)), h.high, h.low, h.log, filter)
      ensures h.high == ByScore(objects, true, |objects|) && h.low == ByScore(objects, false, |objects|)
      ensures ids.count == old(ids.count) + |h.b.births|
      ensures removedStracks == old(removedStracks) + h.b.dropped + h.gone
      ensures Thinned(h.tracked, h.lost, trackedStracks, lostStracks)
      ensures Ids(lostStracks) !! old(Ids(removedStracks))
      ensures forall e :: e in output <==> e in trackedStracks && e.isActivated
      ensures InOrderOf(trackedStracks, output)
      ensures forall e :: e in trackedStracks ==> (e in output <==> e.startFrame < frameId || frameId == 1)
    {
      frameId := frameId + 1;
      var tracked, lost, removed;
      tracked, lost, removed, h :=
        NextFrame(trackedStracks, lostStracks, removedStracks, objects, filter, frameId, maxTimeLost, ids);
      output := KeepActivated(tracked);
      ShownAreOld(frameId, ids.count, tracked, output);
      OptimalIsWithin(Lists(trackedStracks, lostStracks), h.high, h.low, h.log, filter);
      trackedStracks, lostStracks, removedStracks := tracked, lost, removed;
    }
  }

  /** Ids given out elsewhere leave the lists consistent. */
  lemma CountMayGrow(frame: int, maxTimeLost: int, count: nat, tracked: seq<STrack>, lost: seq<STrack>,
                     removed: seq<STrack>, more: nat)
    requires Consistent(frame, maxTimeLost, count, tracked, lost, removed) && count <= more
    ensures Consistent(frame, maxTimeLost, more, tracked, lost, removed)
  {
    forall e | e in tracked
      ensures TrackedOk(e, frame, more)
    {
      assert TrackedOk(e, frame, count);
    }
    forall e | e in lost
      ensures LostOk(e, frame, more, maxTimeLost, Ids(removed))
    {
      assert LostOk(e, frame, count, maxTimeLost, Ids(removed));
    }
  }

  /** Trackers that share the id counter do not disturb one another. */
  method UpdateBeside(a: Tracker, b: Tracker, objects: seq<Object>) returns (output: seq<STrack>)
    requires a != b && a.Valid() && b.Valid()
    modifies a, a.ids
    ensures a.Valid() && b.Valid() && a.frameId == old(a.frameId) + 1
    ensures b.trackedStracks == old(b.trackedStracks) && b.lostStracks == old(b.lostStracks)
    ensures forall e :: e in output <==> e in a.trackedStracks && e.isActivated
    ensures InOrderOf(a.trackedStracks, output)
  {
    ghost var count := b.ids.count;
    ghost var h;
    output, h := a.Update(objects);
    CountMayGrow(b.frameId, b.maxTimeLost, count, b.trackedStracks, b.lostStracks, b.removedStracks, b.ids.count);
  }

  lemma SubsetIds(s: seq<STrack>, r: seq<STrack>)
    requires forall e :: e in r ==> e in s
    ensures Ids(r) <= Ids(s)
  {
    forall x | x in Ids(r)
      ensures x in Ids(s)
    {
      var e := EntryOf(r, x);
      InIds(s, e);
    }
  }

  lemma DedupConsistent(frame: int, maxTimeLost: int, count: nat, tracked: seq<STrack>, lost: seq<STrack>,
                        removed: seq<STrack>, dupA: seq<int>, dupB: seq<int>)
    requires Consistent(frame, maxTimeLost, count, tracked, lost, removed) && Deduplicated(tracked, lost, dupA, dupB)
    ensures var a, b := Without(tracked, dupA, |tracked|), Without(lost, dupB, |lost|);
      && Consistent(frame, maxTimeLost, count, a, b, removed) && Apart(a, b)
      && (forall e :: e in a ==> e in tracked) && (forall e :: e in b ==> e in lost)
  {
    var a, b := Without(tracked, dupA, |tracked|), Without(lost, dupB, |lost|);
    WithoutProperties(tracked, dupA, |tracked|);
    WithoutProperties(lost, dupB, |lost|);
    DeduplicatedApart(tracked, lost, dupA, dupB);
    SubsetIds(tracked, a);
    SubsetIds(lost, b);
  }

  /** One update keeps the lists consistent, and nobody on record as removed before the frame stays lost. */
  lemma AdvancedConsistent(frame: int, maxTimeLost: int, f: Filter, count: nat, t0: seq<STrack>, l0: seq<STrack>,
                           removed0: seq<STrack>, h: Frame)
    requires Consistent(frame - 1, maxTimeLost, count, t0, l0, removed0)
    requires Advances(frame, maxTimeLost, f, count, t0, l0, removed0, h)
    ensures Consistent(frame, maxTimeLost, count + |h.b.births|, h.tracked, h.lost, removed0 + h.b.dropped + h.gone)
    ensures Ids(h.lost) !! Ids(removed0)
  {
    var x, s :| Expired(h.b.l, x, h.gone, frame, maxTimeLost) && Subtracted(x, h.tracked, s)
                && Subtracted(s + h.b.newLost, removed0, h.lost);
    forall i | 0 <= i < |t0|
      ensures 1 <= t0[i].id <= count && t0[i].startFrame < frame
    {
      assert t0[i] in t0;
    }
    forall j | 0 <= j < |l0|
      ensures 1 <= l0[j].id <= count && l0[j].startFrame < frame && l0[j].state != Tracked
    {
      assert l0[j] in l0;
    }
    var left := Holes(h.log.w3, |h.log.w3|);
    BirthsOk(h.log.rest, left, f, frame, count, |left|, h.b.births);
    RebuiltTracked(t0, l0, h.b, frame, count, h.tracked);
    RebuiltLost(t0, l0, h.b, frame, count, maxTimeLost, h.tracked, x, h.gone, s, removed0, h.lost);
    RemovedIdsKnown(t0, l0, h.b, frame, count, maxTimeLost, x, h.gone, removed0);
    OrderedIsDistinct(h.lost);
  }

  lemma OrderedIsDistinct(s: seq<STrack>)
    requires Ordered(s)
    ensures DistinctIds(s)
  {
  }

  lemma RemovedIdsKnown(t0: seq<STrack>, l0: seq<STrack>, b: Rebuild, frame: int, count: nat, maxTimeLost: int,
                        x: seq<STrack>, gone: seq<STrack>, removed0: seq<STrack>)
    requires Consistent(frame - 1, maxTimeLost, count, t0, l0, removed0)
    requires RoundsOver(t0, l0, b, frame) && Expired(b.l, x, gone, frame, maxTimeLost)
    ensures forall i :: i in Ids(removed0 + b.dropped + gone) ==> 1 <= i <= count
  {
    JoinIds(removed0, b.dropped);
    JoinIds(removed0 + b.dropped, gone);
    forall i | i in Ids(b.dropped) || i in Ids(gone)
      ensures 1 <= i <= count
    {
      if i in Ids(b.dropped) {
        var e := EntryOf(b.dropped, i);
        var k :| 0 <= k < |b.t| && b.t[k] == e;
        assert TrackedFate(t0[k], b.t[k], frame) && t0[k] in t0;
      } else {
        var e := EntryOf(gone, i);
        var j :| 0 <= j < |b.l| && Expires(b.l[j], frame, maxTimeLost) && x[j] == e;
        assert LostFate(l0[j], b.l[j], frame) && l0[j] in l0;
      }
    }
  }
}
