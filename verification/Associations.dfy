/** The three association rounds of one tracker update, over a working copy of the tracked
    and lost lists. A slot names an entry of one of the two lists, the way the tracker's
    pools point into them.
 */
module Associations {
  import opened Assignment
  import opened Boxes
  import opened PartialMatching
  import opened LinearAssignment
  import opened TrackLists

  datatype Slot = InTracked(i: nat) | InLost(i: nat)

  datatype Lists = Lists(tracked: seq<STrack>, lost: seq<STrack>)

  predicate Has(l: Lists, s: Slot) {
    match s
    case InTracked(i) => i < |l.tracked|
    case InLost(i) => i < |l.lost|
  }

  function Get(l: Lists, s: Slot): STrack
    requires Has(l, s)
  {
    match s
    case InTracked(i) => l.tracked[i]
    case InLost(i) => l.lost[i]
  }

  function Put(l: Lists, s: Slot, t: STrack): (r: Lists)
    requires Has(l, s)
    ensures SameSize(l, r) && Get(r, s) == t
    ensures forall o :: Has(l, o) && o != s ==> Get(r, o) == Get(l, o)
  {
    match s
    case InTracked(i) => l.(tracked := l.tracked[i := t])
    case InLost(i) => l.(lost := l.lost[i := t])
  }

  predicate SameSize(l: Lists, r: Lists) {
    |l.tracked| == |r.tracked| && |l.lost| == |r.lost|
  }

  /** Slots that exist, each named once. */
  ghost predicate Pool(l: Lists, pool: seq<Slot>) {
    && (forall p :: 0 <= p < |pool| ==> Has(l, pool[p]))
    && (forall p, q :: 0 <= p < q < |pool| ==> pool[p] != pool[q])
  }

  ghost predicate Untouched(l: Lists, r: Lists, pool: seq<Slot>) {
    && SameSize(l, r)
    && forall s :: Has(l, s) && s !in pool ==> Get(r, s) == Get(l, s)
  }

  // ---------------------------------------------------------------- pools

  /** Slots of the tracks among the first `k` that are confirmed (`on`) or not. */
  function TrackedSlots(t: seq<STrack>, on: bool, k: nat): (r: seq<Slot>)
    requires k <= |t|
    ensures forall s :: s in r <==> s.InTracked? && s.i < k && t[s.i].isActivated == on
    ensures forall p, q :: 0 <= p < q < |r| ==> r[p] != r[q]
  {
    if k == 0 then [] else
    var r := TrackedSlots(t, on, k - 1);
    assert forall p :: 0 <= p < |r| ==> r[p] in r;
    if t[k - 1].isActivated == on then r + [InTracked(k - 1)] else r
  }

  function LostSlots(k: nat): (r: seq<Slot>)
    ensures |r| == k && forall i :: 0 <= i < k ==> r[i] == InLost(i)
    ensures forall s :: s in r <==> s.InLost? && s.i < k
  {
    if k == 0 then [] else
    var r := LostSlots(k - 1);
    assert forall s :: s in r + [InLost(k - 1)] <==> s in r || s == InLost(k - 1);
    r + [InLost(k - 1)]
  }

  /** Ids are unique within and across the two lists. */
  ghost predicate UniqueIds(l: Lists) {
    DistinctIds(l.tracked) && DistinctIds(l.lost) && Ids(l.tracked) !! Ids(l.lost)
  }

  method SplitConfirmed(t: seq<STrack>) returns (unconfirmed: seq<Slot>, confirmed: seq<Slot>)
    ensures unconfirmed == TrackedSlots(t, false, |t|) && confirmed == TrackedSlots(t, true, |t|)
  {
    unconfirmed, confirmed := [], [];
    for i := 0 to |t|
      invariant unconfirmed == TrackedSlots(t, false, i) && confirmed == TrackedSlots(t, true, i)
    {
      if !t[i].isActivated {
        unconfirmed := unconfirmed + [InTracked(i)];
      } else {
        confirmed := confirmed + [InTracked(i)];
      }
    }
  }

  /** joint_stracks on slots: a lost track whose id is already there is left out. */
  method JoinLost(l: Lists, confirmed: seq<Slot>) returns (pool: seq<Slot>)
    requires UniqueIds(l) && forall s :: s in confirmed ==> s.InTracked? && Has(l, s)
    ensures pool == confirmed + LostSlots(|l.lost|)
  {
    var seenIds: set<int> := {};
    pool := [];
    for i := 0 to |confirmed|
      invariant pool == confirmed[..i] && seenIds <= Ids(l.tracked)
    {
      assert confirmed[i] in confirmed;
      seenIds := seenIds + {Get(l, confirmed[i]).id};
      pool := pool + [confirmed[i]];
    }
    for i := 0 to |l.lost|
      invariant pool == confirmed + LostSlots(i)
      invariant forall x :: x in seenIds ==> x in Ids(l.tracked) || exists k :: 0 <= k < i && l.lost[k].id == x
    {
      var tid := l.lost[i].id;
      assert tid in Ids(l.lost);
      if tid !in seenIds {
        seenIds := seenIds + {tid};
        pool := pool + [InLost(i)];
      }
    }
  }

  /** Unconfirmed tracks apart; confirmed and lost ones joined by id. */
  method BuildPools(l: Lists) returns (unconfirmed: seq<Slot>, pool: seq<Slot>)
    requires UniqueIds(l)
    ensures unconfirmed == TrackedSlots(l.tracked, false, |l.tracked|)
    ensures pool == TrackedSlots(l.tracked, true, |l.tracked|) + LostSlots(|l.lost|)
  {
    var confirmed;
    unconfirmed, confirmed := SplitConfirmed(l.tracked);
    pool := JoinLost(l, confirmed);
  }

  lemma PoolsPartition(l: Lists)
    ensures var u, c := TrackedSlots(l.tracked, false, |l.tracked|), TrackedSlots(l.tracked, true, |l.tracked|);
      var pool := c + LostSlots(|l.lost|);
      && Pool(l, u) && Pool(l, pool)
      && (forall s :: Has(l, s) ==> (s in pool <==> s !in u))
      && (forall s :: s in u || s in pool ==> Has(l, s))
  {
    var u, c := TrackedSlots(l.tracked, false, |l.tracked|), TrackedSlots(l.tracked, true, |l.tracked|);
    var pool := c + LostSlots(|l.lost|);
    assert forall s :: s in pool <==> s in c || s in LostSlots(|l.lost|);
    forall p | 0 <= p < |pool|
      ensures Has(l, pool[p])
    {
      assert pool[p] in pool;
    }
    forall p | 0 <= p < |u|
      ensures Has(l, u[p])
    {
      assert u[p] in u;
    }
    forall p, q | 0 <= p < q < |pool|
      ensures pool[p] != pool[q]
    {
      if p < |c| <= q {
        assert pool[p] in c && pool[q] == InLost(q - |c|);
      }
    }
  }

  // ---------------------------------------------------------------- one association

  method PredictAll(l: Lists, pool: seq<Slot>, f: Filter) returns (r: Lists)
    requires Pool(l, pool)
    ensures Untouched(l, r, pool)
    ensures forall p :: 0 <= p < |pool| ==> Get(r, pool[p]) == Get(l, pool[p]).Predict(f)
  {
    r := l;
    for i := 0 to |pool|
      invariant SameSize(l, r)
      invariant forall p :: 0 <= p < i ==> Get(r, pool[p]) == Get(l, pool[p]).Predict(f)
      invariant forall s :: Has(l, s) && s !in pool[..i] ==> Get(r, s) == Get(l, s)
    {
      assert pool[..i + 1] == pool[..i] + [pool[i]];
      assert pool[i] !in pool[..i];
      r := Put(r, pool[i], Get(r, pool[i]).Predict(f));
    }
    assert pool[..|pool|] == pool;
  }

  /** A track takes a detection: it is updated when Tracked and revived otherwise. */
  function Hit(f: Filter, t: STrack, det: STrack, frame: int): STrack {
    if t.state == Tracked then t.Update(f, det, frame) else t.ReActivate(f, det, frame)
  }

  /** Slots of `pool` matched by `m` have taken their detections; the others are as before. */
  ghost predicate Associated(l: Lists, r: Lists, pool: seq<Slot>, dets: seq<STrack>, m: seq<int>, f: Filter, frame: int)
    requires Pool(l, pool) && IsPartial(m, |pool|, |dets|)
  {
    && Untouched(l, r, pool)
    && forall p :: 0 <= p < |pool| ==>
         Get(r, pool[p]) == if m[p] >= 0 then Hit(f, Get(l, pool[p]), dets[m[p]], frame) else Get(l, pool[p])
  }

  /** `list` holds copies of exactly the matched slots that were, or were not, Tracked. */
  ghost predicate Copies(l: Lists, r: Lists, pool: seq<Slot>, m: seq<int>, wasTracked: bool, list: seq<STrack>)
    requires Pool(l, pool) && SameSize(l, r) && |m| == |pool|
  {
    && (forall p :: 0 <= p < |pool| && m[p] >= 0 && (Get(l, pool[p]).state == Tracked) == wasTracked ==>
          Get(r, pool[p]) in list)
    && (forall e :: e in list ==> exists p :: 0 <= p < |pool| && m[p] >= 0 && Get(r, pool[p]) == e
                                              && (Get(l, pool[p]).state == Tracked) == wasTracked)
  }

  /** `m` with only the rows before `k` matched. */
  function Upto(m: seq<int>, k: nat): (r: seq<int>)
    requires k <= |m|
    ensures |r| == |m| && forall i :: 0 <= i < |m| ==> r[i] == if i < k then m[i] else -1
  {
    m[..k] + seq(|m| - k, _ => -1)
  }

  /** The pair after a prefix of the matches is the next matched row. */
  lemma {:induction false} NextPair(m: seq<int>, n: nat, k: nat, i: nat) returns (p: nat)
    requires k <= n <= |m| && i < |Pairs(m, n)| && Pairs(m, n)[..i] == Pairs(m, k)
    requires forall x :: 0 <= x < |m| ==> m[x] >= -1
    ensures k <= p < n && m[p] >= 0 && Pairs(m, n)[i] == (p, m[p])
    ensures Upto(m, p) == Upto(m, k) && Pairs(m, n)[..i + 1] == Pairs(m, p + 1)
  {
    assert |Pairs(m, n)[..i]| == i < |Pairs(m, n)|;
    var r := Pairs(m, n - 1);
    if i < |r| {
      assert r[..i] == Pairs(m, n)[..i] && r[..i + 1] == Pairs(m, n)[..i + 1];
      p := NextPair(m, n - 1, k, i);
    } else {
      p := n - 1;
      assert Pairs(m, n)[..i] == r && Pairs(m, n)[..i + 1] == Pairs(m, n);
      forall x | k <= x < p
        ensures m[x] < 0
      {
        assert (x, m[x]) in r <==> (x, m[x]) in Pairs(m, k);
      }
    }
  }

  lemma NoPairAfter(m: seq<int>, k: nat)
    requires k <= |m| && Pairs(m, k) == Pairs(m, |m|) && forall x :: 0 <= x < |m| ==> m[x] >= -1
    ensures Upto(m, k) == m
  {
    forall x | k <= x < |m|
      ensures m[x] == -1
    {
      assert (x, m[x]) in Pairs(m, |m|) <==> (x, m[x]) in Pairs(m, k);
    }
  }

  lemma AssociateStep(l: Lists, r: Lists, pool: seq<Slot>, dets: seq<STrack>, m: seq<int>, k: nat, p: nat, f: Filter,
                      frame: int)
    requires Pool(l, pool) && IsPartial(m, |pool|, |dets|) && k <= p < |pool| && m[p] >= 0
    requires Upto(m, p) == Upto(m, k) && IsPartial(Upto(m, k), |pool|, |dets|)
    requires Associated(l, r, pool, dets, Upto(m, k), f, frame)
    ensures Get(r, pool[p]) == Get(l, pool[p]) && IsPartial(Upto(m, p + 1), |pool|, |dets|)
    ensures Associated(l, Put(r, pool[p], Hit(f, Get(r, pool[p]), dets[m[p]], frame)), pool, dets, Upto(m, p + 1), f,
                       frame)
  {
    var a, b := Upto(m, k), Upto(m, p + 1);
    assert forall x :: 0 <= x < |m| ==> b[x] == if x == p then m[p] else a[x];
  }

  lemma CopiesStep(l: Lists, r: Lists, r': Lists, pool: seq<Slot>, m: seq<int>, k: nat, p: nat, wasTracked: bool,
                   list: seq<STrack>)
    requires Pool(l, pool) && SameSize(l, r) && SameSize(l, r') && |m| == |pool| && k <= p < |pool| && m[p] >= 0
    requires Upto(m, p) == Upto(m, k) && Copies(l, r, pool, Upto(m, k), wasTracked, list)
    requires forall q :: 0 <= q < |pool| && q != p ==> Get(r', pool[q]) == Get(r, pool[q])
    ensures Copies(l, r', pool, Upto(m, p + 1), wasTracked,
                   if (Get(l, pool[p]).state == Tracked) == wasTracked then list + [Get(r', pool[p])] else list)
  {
    var a, b := Upto(m, k), Upto(m, p + 1);
    var t := Get(r', pool[p]);
    var here := (Get(l, pool[p]).state == Tracked) == wasTracked;
    var list' := if here then list + [t] else list;
    assert forall x :: 0 <= x < |m| ==> b[x] == if x == p then m[p] else a[x];
    assert forall e :: e in list' <==> e in list || (here && e == t);
    forall e | e in list'
      ensures exists q :: 0 <= q < |pool| && b[q] >= 0 && Get(r', pool[q]) == e
                          && (Get(l, pool[q]).state == Tracked) == wasTracked
    {
      if e in list {
        var q :| 0 <= q < |pool| && a[q] >= 0 && Get(r, pool[q]) == e
                 && (Get(l, pool[q]).state == Tracked) == wasTracked;
        assert b[q] >= 0 && Get(r', pool[q]) == e;
      } else {
        assert b[p] >= 0 && Get(r', pool[p]) == e;
      }
    }
  }

  /** The round has dealt with the rows before `k`. */
  ghost predicate RoundUpto(l: Lists, r: Lists, pool: seq<Slot>, dets: seq<STrack>, m: seq<int>, k: nat, f: Filter,
                            frame: int, activated: seq<STrack>, refound: seq<STrack>)
    requires Pool(l, pool) && IsPartial(m, |pool|, |dets|) && k <= |pool|
  {
    && IsPartial(Upto(m, k), |pool|, |dets|)
    && Associated(l, r, pool, dets, Upto(m, k), f, frame)
    && Copies(l, r, pool, Upto(m, k), true, activated)
    && Copies(l, r, pool, Upto(m, k), false, refound)
  }

  lemma RoundStep(l: Lists, r: Lists, pool: seq<Slot>, dets: seq<STrack>, m: seq<int>, k: nat, p: nat, f: Filter,
                  frame: int, activated: seq<STrack>, refound: seq<STrack>)
    requires Pool(l, pool) && IsPartial(m, |pool|, |dets|) && k <= p < |pool| && m[p] >= 0 && Upto(m, p) == Upto(m, k)
    requires RoundUpto(l, r, pool, dets, m, k, f, frame, activated, refound)
    ensures SameSize(l, r)
    ensures var was := Get(r, pool[p]);
      var t := Hit(f, was, dets[m[p]], frame);
      RoundUpto(l, Put(r, pool[p], t), pool, dets, m, p + 1, f, frame,
                if was.state == Tracked then activated + [t] else activated,
                if was.state == Tracked then refound else refound + [t])
  {
    AssociateStep(l, r, pool, dets, m, k, p, f, frame);
    var r' := Put(r, pool[p], Hit(f, Get(r, pool[p]), dets[m[p]], frame));
    CopiesStep(l, r, r', pool, m, k, p, true, activated);
    CopiesStep(l, r, r', pool, m, k, p, false, refound);
  }

  /** A matched track is updated, or revived if it was not tracked. */
  method AssociateOne(l: Lists, s: Slot, det: STrack, f: Filter, frame: int, activated: seq<STrack>,
                      refound: seq<STrack>)
    returns (r: Lists, activated': seq<STrack>, refound': seq<STrack>)
    requires Has(l, s)
    ensures var was := Get(l, s);
      var t := Hit(f, was, det, frame);
      && r == Put(l, s, t)
      && activated' == (if was.state == Tracked then activated + [t] else activated)
      && refound' == (if was.state == Tracked then refound else refound + [t])
  {
    activated', refound' := activated, refound;
    var track := Get(l, s);
    if track.state == Tracked {
      var t := track.Update(f, det, frame);
      r := Put(l, s, t);
      activated' := activated + [t];
    } else {
      var t := track.ReActivate(f, det, frame);
      r := Put(l, s, t);
      refound' := refound + [t];
    }
  }

  method AssociateRow(ghost l: Lists, r: Lists, pool: seq<Slot>, dets: seq<STrack>, row: nat, col: int, f: Filter,
                      frame: int, activated: seq<STrack>, refound: seq<STrack>, ghost m: seq<int>, ghost k: nat)
    returns (r': Lists, activated': seq<STrack>, refound': seq<STrack>)
    requires Pool(l, pool) && IsPartial(m, |pool|, |dets|) && k <= row < |pool| && m[row] == col >= 0
    requires Upto(m, row) == Upto(m, k) && RoundUpto(l, r, pool, dets, m, k, f, frame, activated, refound)
    ensures RoundUpto(l, r', pool, dets, m, row + 1, f, frame, activated', refound')
  {
    RoundStep(l, r, pool, dets, m, k, row, f, frame, activated, refound);
    r', activated', refound' := AssociateOne(r, pool[row], dets[col], f, frame, activated, refound);
  }

  /** One association round over `pool`: copies of updated and of revived tracks are handed out. */
  method Associate(l: Lists, pool: seq<Slot>, dets: seq<STrack>, matches: seq<(int, int)>, f: Filter, frame: int,
                   ghost m: seq<int>)
    returns (r: Lists, activated: seq<STrack>, refound: seq<STrack>)
    requires Pool(l, pool) && IsPartial(m, |pool|, |dets|) && matches == Pairs(m, |pool|)
    ensures Associated(l, r, pool, dets, m, f, frame)
    ensures Copies(l, r, pool, m, true, activated) && Copies(l, r, pool, m, false, refound)
  {
    r, activated, refound := l, [], [];
    ghost var k := 0;
    for i := 0 to |matches|
      invariant k <= |pool| && matches[..i] == Pairs(m, k)
      invariant RoundUpto(l, r, pool, dets, m, k, f, frame, activated, refound)
    {
      ghost var p := NextPair(m, |pool|, k, i);
      var (row, col) := matches[i];
      r, activated, refound := AssociateRow(l, r, pool, dets, row, col, f, frame, activated, refound, m, k);
      k := p + 1;
    }
    assert matches[..|matches|] == matches;
    NoPairAfter(m, k);
  }

  /** Matched unconfirmed tracks are updated whatever their state. */
  method UpdateMatched(l: Lists, pool: seq<Slot>, dets: seq<STrack>, matches: seq<(int, int)>, f: Filter, frame: int,
                       ghost m: seq<int>)
    returns (r: Lists, activated: seq<STrack>)
    requires Pool(l, pool) && IsPartial(m, |pool|, |dets|) && matches == Pairs(m, |pool|)
    requires forall p :: 0 <= p < |pool| ==> Get(l, pool[p]).state == Tracked
    ensures Associated(l, r, pool, dets, m, f, frame) && Copies(l, r, pool, m, true, activated)
  {
    r, activated := l, [];
    ghost var k := 0;
    for i := 0 to |matches|
      invariant k <= |pool| && matches[..i] == Pairs(m, k)
      invariant RoundUpto(l, r, pool, dets, m, k, f, frame, activated, [])
    {
      ghost var p := NextPair(m, |pool|, k, i);
      RoundStep(l, r, pool, dets, m, k, p, f, frame, activated, []);
      var (row, col) := matches[i];
      var track := Get(r, pool[row]);
      AssociateStep(l, r, pool, dets, m, k, p, f, frame);
      var t := track.Update(f, dets[col], frame);
      r := Put(r, pool[row], t);
      activated := activated + [t];
      k := p + 1;
    }
    assert matches[..|matches|] == matches;
    NoPairAfter(m, k);
  }

  /** Positions of a pool, increasing. */
  ghost predicate Positions(pool: seq<Slot>, idx: seq<int>) {
    && (forall k :: 0 <= k < |idx| ==> 0 <= idx[k] < |pool|)
    && (forall a, b :: 0 <= a < b < |idx| ==> idx[a] < idx[b])
  }

  /** The slots at `idx` have been given state `to`; `copies` are what they now hold. */
  ghost predicate Marked(l: Lists, r: Lists, pool: seq<Slot>, idx: seq<int>, to: TrackState, copies: seq<STrack>)
    requires Pool(l, pool) && Positions(pool, idx)
  {
    && Untouched(l, r, pool)
    && (forall p :: 0 <= p < |pool| ==>
          Get(r, pool[p]) == if p in idx then Get(l, pool[p]).(state := to) else Get(l, pool[p]))
    && |copies| == |idx|
    && (forall k :: 0 <= k < |idx| ==> copies[k] == Get(r, pool[idx[k]]))
  }

  lemma MarkStep(l: Lists, r: Lists, pool: seq<Slot>, idx: seq<int>, i: nat, to: TrackState, copies: seq<STrack>)
    requires Pool(l, pool) && Positions(pool, idx) && i < |idx| && Positions(pool, idx[..i])
    requires Marked(l, r, pool, idx[..i], to, copies)
    ensures Positions(pool, idx[..i + 1]) && Get(r, pool[idx[i]]) == Get(l, pool[idx[i]])
    ensures var t := Get(r, pool[idx[i]]).(state := to);
      Marked(l, Put(r, pool[idx[i]], t), pool, idx[..i + 1], to, copies + [t])
  {
    assert idx[..i + 1] == idx[..i] + [idx[i]];
    assert idx[i] !in idx[..i];
    var t := Get(r, pool[idx[i]]).(state := to);
    var r' := Put(r, pool[idx[i]], t);
    forall k | 0 <= k < i + 1
      ensures (copies + [t])[k] == Get(r', pool[idx[..i + 1][k]])
    {
      assert k < i ==> idx[k] < idx[i] && copies[k] == Get(r, pool[idx[..i][k]]);
    }
  }

  /** Tracked tracks left over by the second round are lost. */
  method LoseUnmatched(l: Lists, pool: seq<Slot>, unmatched: seq<int>) returns (r: Lists, lost: seq<STrack>)
    requires Pool(l, pool) && Positions(pool, unmatched)
    requires forall k :: 0 <= k < |unmatched| ==> Get(l, pool[unmatched[k]]).state != Lost
    ensures Marked(l, r, pool, unmatched, Lost, lost)
  {
    r, lost := l, [];
    for i := 0 to |unmatched|
      invariant Positions(pool, unmatched[..i]) && Marked(l, r, pool, unmatched[..i], Lost, lost)
    {
      MarkStep(l, r, pool, unmatched, i, Lost, lost);
      var slot := pool[unmatched[i]];
      if Get(r, slot).state != Lost {
        r := Put(r, slot, Get(r, slot).MarkLost());
        lost := lost + [Get(r, slot)];
      }
    }
    assert unmatched[..|unmatched|] == unmatched;
  }

  /** Unconfirmed tracks left over by the third round are removed. */
  method RemoveUnmatched(l: Lists, pool: seq<Slot>, unmatched: seq<int>) returns (r: Lists, removed: seq<STrack>)
    requires Pool(l, pool) && Positions(pool, unmatched)
    ensures Marked(l, r, pool, unmatched, Removed, removed)
  {
    r, removed := l, [];
    for i := 0 to |unmatched|
      invariant Positions(pool, unmatched[..i]) && Marked(l, r, pool, unmatched[..i], Removed, removed)
    {
      MarkStep(l, r, pool, unmatched, i, Removed, removed);
      var slot := pool[unmatched[i]];
      r := Put(r, slot, Get(r, slot).MarkRemoved());
      removed := removed + [Get(r, slot)];
    }
    assert unmatched[..|unmatched|] == unmatched;
  }

  /** The slots at given positions of a pool are a pool again, and it holds exactly those. */
  lemma SlotsAt(l: Lists, pool: seq<Slot>, at: seq<int>, r: seq<Slot>)
    requires Pool(l, pool) && Positions(pool, at) && |at| == |r| && forall k :: 0 <= k < |r| ==> r[k] == pool[at[k]]
    ensures Pool(l, r)
    ensures forall s :: s in r <==> exists p :: p in at && pool[p] == s
  {
    assert forall k :: 0 <= k < |at| ==> at[k] in at;
  }

  /** Positions of `pool` that a round left over and that hold Tracked tracks. */
  method StillTracked(l: Lists, pool: seq<Slot>, unmatched: seq<int>) returns (r: seq<Slot>, ghost at: seq<int>)
    requires Pool(l, pool) && Positions(pool, unmatched)
    ensures Pool(l, r) && Positions(pool, at) && |at| == |r| && forall k :: 0 <= k < |r| ==> r[k] == pool[at[k]]
    ensures forall p :: p in at <==> p in unmatched && Get(l, pool[p]).state == Tracked
    ensures forall s :: s in r <==> exists p :: p in unmatched && pool[p] == s && Get(l, pool[p]).state == Tracked
  {
    r, at := [], [];
    for i := 0 to |unmatched|
      invariant |at| == |r| && forall k :: 0 <= k < |r| ==> 0 <= at[k] < |pool| && r[k] == pool[at[k]]
      invariant forall a, b :: 0 <= a < b < |at| ==> at[a] < at[b]
      invariant forall p :: p in at <==> p in unmatched[..i] && Get(l, pool[p]).state == Tracked
    {
      assert unmatched[..i + 1] == unmatched[..i] + [unmatched[i]];
      assert forall k :: 0 <= k < |at| ==> at[k] in at && at[k] in unmatched[..i];
      if Get(l, pool[unmatched[i]]).state == Tracked {
        r := r + [pool[unmatched[i]]];
        at := at + [unmatched[i]];
      }
    }
    assert unmatched[..|unmatched|] == unmatched;
    SlotsAt(l, pool, at, r);
  }

  method Select(dets: seq<STrack>, idx: seq<int>) returns (r: seq<STrack>)
    requires forall k :: 0 <= k < |idx| ==> 0 <= idx[k] < |dets|
    ensures |r| == |idx| && forall k :: 0 <= k < |r| ==> r[k] == dets[idx[k]]
  {
    r := [];
    for i := 0 to |idx|
      invariant |r| == i && forall k :: 0 <= k < i ==> r[k] == dets[idx[k]]
    {
      r := r + [dets[idx[i]]];
    }
  }

  // ---------------------------------------------------------------- the best matching

  /** What the tracks in a pool look like to the association. */
  ghost function PoolBoxes(l: Lists, pool: seq<Slot>): (r: seq<Box>)
    requires Pool(l, pool)
    ensures |r| == |pool| && forall p :: 0 <= p < |pool| ==> r[p] == Get(l, pool[p]).box
  {
    seq(|pool|, p requires 0 <= p < |pool| => Get(l, pool[p]).box)
  }

  ghost function BoxesOf(dets: seq<STrack>): (r: seq<Box>)
    ensures |r| == |dets| && forall d :: 0 <= d < |dets| ==> r[d] == dets[d].box
  {
    seq(|dets|, d requires 0 <= d < |dets| => dets[d].box)
  }

  /** No other matching has a lower sum of distance minus threshold. */
  ghost predicate BestMatching(a: seq<Box>, b: seq<Box>, thresh: real, m: seq<int>) {
    IsBest(DistanceMatrix(a, b), m, thresh, |a|, |b|)
  }

  /** No pair is farther apart than the threshold, and no two leftovers are nearer than it. */
  ghost predicate Bounded(a: seq<Box>, b: seq<Box>, thresh: real, m: seq<int>) {
    && IsPartial(m, |a|, |b|)
    && (forall p :: 0 <= p < |a| && m[p] >= 0 ==> Distance(a[p], b[m[p]]) <= thresh)
    && (forall p, d :: 0 <= p < |a| && 0 <= d < |b| && m[p] < 0 && d !in m ==> Distance(a[p], b[d]) >= thresh)
  }

  lemma BestIsBounded(a: seq<Box>, b: seq<Box>, thresh: real, m: seq<int>)
    requires BestMatching(a, b, thresh, m)
    ensures Bounded(a, b, thresh, m)
  {
    BestRespectsLimit(DistanceMatrix(a, b), m, thresh, |a|, |b|);
  }

  /** Detection `d` is nearer than the threshold to box `p` and beyond it for all others. */
  ghost predicate OnlyNear(a: seq<Box>, b: seq<Box>, thresh: real, p: int, d: int)
    requires 0 <= p < |a| && 0 <= d < |b|
  {
    && Distance(a[p], b[d]) < thresh
    && forall q :: 0 <= q < |a| && q != p ==> Distance(a[q], b[d]) > thresh
  }

  ghost predicate Uncontested(a: seq<Box>, b: seq<Box>, thresh: real, p: int)
    requires 0 <= p < |a|
  {
    exists d :: 0 <= d < |b| && OnlyNear(a, b, thresh, p, d)
  }

  /** A box with a detection of its own is matched. */
  lemma UncontestedIsMatched(a: seq<Box>, b: seq<Box>, thresh: real, m: seq<int>, p: int)
    requires BestMatching(a, b, thresh, m) && 0 <= p < |a| && Uncontested(a, b, thresh, p)
    ensures m[p] >= 0
  {
    BestIsBounded(a, b, thresh, m);
    var d :| 0 <= d < |b| && OnlyNear(a, b, thresh, p, d);
    OnlyTaker(a, b, thresh, m, p, d);
  }

  lemma OnlyTaker(a: seq<Box>, b: seq<Box>, thresh: real, m: seq<int>, p: int, d: int)
    requires Bounded(a, b, thresh, m) && 0 <= p < |a| && 0 <= d < |b| && OnlyNear(a, b, thresh, p, d)
    ensures m[p] >= 0
  {
    forall q | 0 <= q < |a| && m[q] == d
      ensures q == p
    {
      assert Distance(a[q], b[m[q]]) <= thresh;
    }
    assert m[p] < 0 ==> d in m;
  }

  /** Where there is nothing to match, leaving all unmatched is best. */
  lemma NothingToMatch(a: seq<Box>, b: seq<Box>, thresh: real, m: seq<int>)
    requires (a == [] || b == []) && IsPartial(m, |a|, |b|)
    ensures BestMatching(a, b, thresh, m)
  {
    forall q | IsPartial(q, |a|, |b|)
      ensures q == m
    {
    }
  }

  method Distances(l: Lists, pool: seq<Slot>, dets: seq<STrack>) returns (cost: Matrix)
    requires Pool(l, pool)
    ensures cost == if pool == [] || dets == [] then [] else DistanceMatrix(PoolBoxes(l, pool), BoxesOf(dets))
    ensures forall i, j :: 0 <= i < |cost| && 0 <= j < |cost[i]| ==> 0.0 <= cost[i][j] <= 1.0
  {
    var a := seq(|pool|, p requires 0 <= p < |pool| && Has(l, pool[p]) => Get(l, pool[p]).box);
    var b := seq(|dets|, d requires 0 <= d < |dets| => dets[d].box);
    cost := IouDistance(a, b);
    assert a == PoolBoxes(l, pool) && b == BoxesOf(dets);
    if pool != [] && dets != [] {
      SameDistances(a, b, cost);
    }
  }

  /** Association costs between the tracks in a pool and detections, solved for a threshold. */
  method Match(l: Lists, pool: seq<Slot>, dets: seq<STrack>, thresh: real)
    returns (matches: seq<(int, int)>, unmatched: seq<int>, leftover: seq<int>, ghost m: seq<int>, ghost w: seq<int>)
    requires Pool(l, pool) && 0.0 <= thresh <= 1.0
    ensures IsInverse(m, w, |pool|, |dets|)
    ensures matches == Pairs(m, |pool|) && unmatched == Holes(m, |pool|) && leftover == Holes(w, |dets|)
    ensures BestMatching(PoolBoxes(l, pool), BoxesOf(dets), thresh, m)
    ensures Partitions(|pool|, |dets|, matches, unmatched, leftover)
  {
    var cost := Distances(l, pool, dets);
    assert cost != [] ==> pool != [] && dets != [];
    matches, unmatched, leftover, m, w := LinearAssign(cost, |pool|, |dets|, thresh, 0.0, 1.0);
    if cost == [] {
      NothingToMatch(PoolBoxes(l, pool), BoxesOf(dets), thresh, m);
    }
  }
}
