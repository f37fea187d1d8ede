/** Tracks and the list operations of the tracker: joining by id, subtracting by id and
    dropping duplicates between two lists. Lists hold tracks by value.
 */
module TrackLists {
  import opened Boxes

  datatype TrackState = New | Tracked | Lost | Removed

  /** Mean and covariance of a track's motion; never looked into here. */
  datatype Motion = Motion(mean: seq<real>, covariance: seq<real>)

  /** The motion filter, as far as tracks use it. `predict` is told whether the track is Tracked. */
  datatype Filter = Filter(initiate: Box -> Motion, predict: (Motion, bool) -> Motion, correct: (Motion, Box) -> Motion,
                           boxOf: Motion -> Box)

  datatype STrack = STrack(id: int, state: TrackState, isActivated: bool, detected: Box, box: Box, motion: Motion,
                           frameId: int, startFrame: int, trackletLen: int, score: real)
  {
    /** The box to show: the detection itself until the track has a filtered one. */
    function Refreshed(f: Filter): (t: STrack) {
      this.(box := if state == New then detected else f.boxOf(motion))
    }

    /** A leftover detection becomes a track of its own. */
    function Activate(f: Filter, newId: int, frame: int): (t: STrack) {
      var started := this.(id := newId, motion := f.initiate(detected)).Refreshed(f);
      started.(trackletLen := 0, state := Tracked, isActivated := isActivated || frame == 1,
               frameId := frame, startFrame := frame)
    }

    /** A tracked track takes a matched detection. */
    function Update(f: Filter, det: STrack, frame: int): (t: STrack) {
      var moved := this.(frameId := frame, trackletLen := trackletLen + 1,
                         motion := f.correct(motion, det.box)).Refreshed(f);
      moved.(state := Tracked, isActivated := true, score := det.score)
    }

    /** A lost track takes a matched detection and keeps its id. */
    function ReActivate(f: Filter, det: STrack, frame: int): (t: STrack) {
      var moved := this.(motion := f.correct(motion, det.box)).Refreshed(f);
      moved.(trackletLen := 0, state := Tracked, isActivated := true, frameId := frame, score := det.score)
    }

    function Predict(f: Filter): (t: STrack) {
      this.(motion := f.predict(motion, state == Tracked)).Refreshed(f)
    }

    function MarkLost(): STrack {
      this.(state := Lost)
    }

    function MarkRemoved(): STrack {
      this.(state := Removed)
    }

    function EndFrame(): int {
      frameId
    }

    /** Frames between its first and its latest match. */
    function Age(): int {
      frameId - startFrame
    }
  }

  function Detection(box: Box, score: real): STrack {
    STrack(0, New, false, box, box, Motion([], []), 0, 0, 0, score)
  }

  ghost predicate DistinctIds(s: seq<STrack>) {
    forall i, j :: 0 <= i < j < |s| ==> s[i].id != s[j].id
  }

  /** The places in `s` at which the members of `r` stand. */
  ghost predicate Places<T>(s: seq<T>, r: seq<T>, places: seq<int>) {
    && |places| == |r|
    && (forall i, j :: 0 <= i < j < |places| ==> places[i] < places[j])
    && forall i :: 0 <= i < |r| ==> 0 <= places[i] < |s| && s[places[i]] == r[i]
  }

  /** `r` selects members of `s` and keeps their order. */
  ghost predicate InOrderOf<T>(s: seq<T>, r: seq<T>) {
    exists places :: Places(s, r, places)
  }

  /** Taking the next member into the selection, or passing it over, keeps the order. */
  lemma InOrderFurther<T>(s: seq<T>, r: seq<T>, k: nat, more: seq<T>)
    requires 0 < k <= |s| && InOrderOf(s[..k - 1], r) && (more == r || more == r + [s[k - 1]])
    ensures InOrderOf(s[..k], more)
  {
    var places :| Places(s[..k - 1], r, places);
    if more == r {
      assert Places(s[..k], more, places);
    } else {
      assert Places(s[..k], more, places + [k - 1]);
    }
  }

  lemma EmptyInOrder<T>(s: seq<T>)
    ensures InOrderOf(s, [])
  {
    assert Places(s, [], []);
  }

  function Ids(s: seq<STrack>): (r: set<int>)
    ensures forall x :: x in r <==> exists k :: 0 <= k < |s| && s[k].id == x
  {
    set k | 0 <= k < |s| :: s[k].id
  }

  // ---------------------------------------------------------------- joining

  /** The entries among the first `k` of `b` whose id is neither in `seen` nor met earlier. */
  function NewEntries(b: seq<STrack>, seen: set<int>, k: nat): (r: seq<STrack>)
    requires k <= |b|
  {
    if k == 0 then [] else
    var r := NewEntries(b, seen, k - 1);
    if b[k - 1].id in seen || b[k - 1].id in Ids(r) then r else r + [b[k - 1]]
  }

  lemma {:induction false} NewEntriesInOrder(b: seq<STrack>, seen: set<int>, k: nat)
    requires k <= |b|
    ensures InOrderOf(b[..k], NewEntries(b, seen, k))
  {
    if k == 0 {
      EmptyInOrder(b[..0]);
    } else {
      NewEntriesInOrder(b, seen, k - 1);
      InOrderFurther(b, NewEntries(b, seen, k - 1), k, NewEntries(b, seen, k));
    }
  }

  /** joint_stracks: all of `a`, then the entries of `b` with ids not seen before. */
  method Joint(a: seq<STrack>, b: seq<STrack>) returns (r: seq<STrack>)
    ensures r == a + NewEntries(b, Ids(a), |b|)
  {
    var seenIds: set<int> := {};
    r := [];
    for i := 0 to |a|
      invariant r == a[..i] && seenIds == Ids(a[..i])
    {
      assert a[..i + 1] == a[..i] + [a[i]];
      AddId(a[..i], a[i]);
      seenIds := seenIds + {a[i].id};
      r := r + [a[i]];
    }
    assert a[..|a|] == a;
    ghost var seen, added := seenIds, [];
    for i := 0 to |b|
      invariant added == NewEntries(b, seen, i) && r == a + added && seenIds == seen + Ids(added)
    {
      var tid := b[i].id;
      if tid !in seenIds {
        AddId(added, b[i]);
        seenIds := seenIds + {tid};
        r := r + [b[i]];
        added := added + [b[i]];
      }
    }
  }

  lemma AddId(s: seq<STrack>, t: STrack)
    ensures Ids(s + [t]) == Ids(s) + {t.id}
  {
    var r := s + [t];
    assert r[|s|] == t;
    forall x | x in Ids(s) + {t.id}
      ensures x in Ids(r)
    {
      if x in Ids(s) {
        var k :| 0 <= k < |s| && s[k].id == x;
        assert r[k].id == x;
      }
    }
  }

  lemma JoinIds(a: seq<STrack>, b: seq<STrack>)
    ensures Ids(a + b) == Ids(a) + Ids(b)
  {
    var r := a + b;
    forall x | x in Ids(a) + Ids(b)
      ensures x in Ids(r)
    {
      if x in Ids(a) {
        var k :| 0 <= k < |a| && a[k].id == x;
        assert r[k].id == x;
      } else {
        var k :| 0 <= k < |b| && b[k].id == x;
        assert r[|a| + k].id == x;
      }
    }
    forall x | x in Ids(r)
      ensures x in Ids(a) + Ids(b)
    {
      var k :| 0 <= k < |r| && r[k].id == x;
      assert k < |a| ==> a[k].id == x;
      assert k >= |a| ==> b[k - |a|].id == x;
    }
  }

  lemma {:induction false} NewEntriesProperties(b: seq<STrack>, seen: set<int>, k: nat)
    requires k <= |b|
    ensures var r := NewEntries(b, seen, k);
      && DistinctIds(r)
      && Ids(r) == Ids(b[..k]) - seen
      && forall i :: 0 <= i < |r| ==> r[i] in b && r[i].id !in seen
  {
    if k > 0 {
      NewEntriesProperties(b, seen, k - 1);
      assert b[..k] == b[..k - 1] + [b[k - 1]];
      AddId(b[..k - 1], b[k - 1]);
      var r := NewEntries(b, seen, k - 1);
      AddId(r, b[k - 1]);
    } else {
      assert b[..0] == [];
    }
  }

  /** Joining keeps ids unique and loses none. */
  lemma JointProperties(a: seq<STrack>, b: seq<STrack>)
    requires DistinctIds(a)
    ensures var r := a + NewEntries(b, Ids(a), |b|);
      && DistinctIds(r)
      && Ids(r) == Ids(a) + Ids(b)
      && forall i :: 0 <= i < |r| ==> r[i] in a || (r[i] in b && r[i].id !in Ids(a))
  {
    var added := NewEntries(b, Ids(a), |b|);
    NewEntriesProperties(b, Ids(a), |b|);
    assert b[..|b|] == b;
    JoinIds(a, added);
    var r := a + added;
    forall i, j | 0 <= i < j < |r|
      ensures r[i].id != r[j].id
    {
      if i < |a| <= j {
        assert r[i].id in Ids(a) && r[j] == added[j - |a|];
      } else if |a| <= i {
        assert r[i] == added[i - |a|] && r[j] == added[j - |a|];
      }
    }
  }

  // ---------------------------------------------------------------- subtracting

  /** What sub_stracks returns: ordered by id, the first entry of `a` for every id that `b` lacks. */
  ghost predicate Subtracted(a: seq<STrack>, b: seq<STrack>, r: seq<STrack>) {
    && Ordered(r)
    && Ids(r) == Ids(a) - Ids(b)
    && (forall e :: e in r ==> IsFirst(a, e))
  }

  /** `t` is the first entry of `a` with its id. */
  ghost predicate IsFirst(a: seq<STrack>, t: STrack) {
    exists k :: 0 <= k < |a| && a[k] == t && forall i :: 0 <= i < k ==> a[i].id != t.id
  }

  ghost predicate Ordered(m: seq<STrack>) {
    forall i, j :: 0 <= i < j < |m| ==> m[i].id < m[j].id
  }

  /** Insertion into a map ordered by id: an id that is present keeps its entry. */
  function Insert(m: seq<STrack>, t: STrack): (r: seq<STrack>) {
    if m == [] || t.id < m[0].id then [t] + m
    else if t.id == m[0].id then m
    else [m[0]] + Insert(m[1..], t)
  }

  function Erase(m: seq<STrack>, id: int): (r: seq<STrack>) {
    if m == [] then []
    else if m[0].id == id then m[1..]
    else [m[0]] + Erase(m[1..], id)
  }

  lemma IdsCons(h: STrack, rest: seq<STrack>)
    ensures Ids([h] + rest) == {h.id} + Ids(rest)
  {
    JoinIds([h], rest);
    AddId([], h);
    assert [] + [h] == [h];
  }

  lemma OrderedCons(h: STrack, rest: seq<STrack>)
    requires Ordered(rest) && forall x :: x in Ids(rest) ==> h.id < x
    ensures Ordered([h] + rest)
  {
    var r := [h] + rest;
    forall i, j | 0 <= i < j < |r|
      ensures r[i].id < r[j].id
    {
      assert rest[j - 1].id in Ids(rest);
    }
  }

  lemma OrderedTail(m: seq<STrack>)
    requires Ordered(m) && m != []
    ensures m == [m[0]] + m[1..] && Ordered(m[1..]) && forall x :: x in Ids(m[1..]) ==> m[0].id < x
  {
    forall x | x in Ids(m[1..])
      ensures m[0].id < x
    {
      var k :| 0 <= k < |m[1..]| && m[1..][k].id == x;
      assert m[k + 1].id == x;
    }
  }

  lemma {:induction false} InsertIds(m: seq<STrack>, t: STrack)
    ensures Ids(Insert(m, t)) == Ids(m) + {t.id}
  {
    if m == [] || t.id < m[0].id {
      IdsCons(t, m);
    } else {
      assert m == [m[0]] + m[1..];
      IdsCons(m[0], m[1..]);
      if t.id > m[0].id {
        InsertIds(m[1..], t);
        IdsCons(m[0], Insert(m[1..], t));
      }
    }
  }

  lemma {:induction false} InsertOrdered(m: seq<STrack>, t: STrack)
    requires Ordered(m)
    ensures Ordered(Insert(m, t))
  {
    if m != [] && t.id > m[0].id {
      OrderedTail(m);
      InsertOrdered(m[1..], t);
      InsertIds(m[1..], t);
      OrderedCons(m[0], Insert(m[1..], t));
    }
  }

  lemma {:induction false} InsertElements(m: seq<STrack>, t: STrack, e: STrack)
    requires Ordered(m) && e in Insert(m, t)
    ensures e in m || (e == t && t.id !in Ids(m))
  {
    if m != [] {
      OrderedTail(m);
      IdsCons(m[0], m[1..]);
      if t.id > m[0].id && e != m[0] {
        InsertElements(m[1..], t, e);
      }
    }
  }

  lemma {:induction false} EraseProperties(m: seq<STrack>, id: int)
    requires Ordered(m)
    ensures Ordered(Erase(m, id)) && Ids(Erase(m, id)) == Ids(m) - {id}
    ensures forall e :: e in Erase(m, id) ==> e in m
  {
    if m != [] {
      OrderedTail(m);
      IdsCons(m[0], m[1..]);
      if m[0].id != id {
        EraseProperties(m[1..], id);
        IdsCons(m[0], Erase(m[1..], id));
        OrderedCons(m[0], Erase(m[1..], id));
      }
    }
  }

  method Sub(a: seq<STrack>, b: seq<STrack>) returns (r: seq<STrack>)
    ensures Subtracted(a, b, r)
  {
    var stracks: seq<STrack> := [];
    for i := 0 to |a|
      invariant Ordered(stracks) && Ids(stracks) == Ids(a[..i])
      invariant forall e :: e in stracks ==> IsFirst(a, e)
    {
      InsertFirst(a, i, stracks);
      stracks := Insert(stracks, a[i]);
    }
    assert a[..|a|] == a;
    for i := 0 to |b|
      invariant Ordered(stracks) && Ids(stracks) == Ids(a) - Ids(b[..i])
      invariant forall e :: e in stracks ==> IsFirst(a, e)
    {
      assert b[..i + 1] == b[..i] + [b[i]];
      AddId(b[..i], b[i]);
      EraseProperties(stracks, b[i].id);
      stracks := Erase(stracks, b[i].id);
    }
    assert b[..|b|] == b;
    r := [];
    for i := 0 to |stracks|
      invariant r == stracks[..i]
    {
      r := r + [stracks[i]];
    }
    assert r == stracks;
  }

  lemma InsertFirst(a: seq<STrack>, i: nat, m: seq<STrack>)
    requires i < |a| && Ordered(m) && Ids(m) == Ids(a[..i])
    requires forall e :: e in m ==> IsFirst(a, e)
    ensures var r := Insert(m, a[i]);
      Ordered(r) && Ids(r) == Ids(a[..i + 1]) && forall e :: e in r ==> IsFirst(a, e)
  {
    assert a[..i + 1] == a[..i] + [a[i]];
    AddId(a[..i], a[i]);
    InsertIds(m, a[i]);
    InsertOrdered(m, a[i]);
    if a[i].id !in Ids(m) {
      forall k | 0 <= k < i
        ensures a[k].id != a[i].id
      {
        assert a[..i][k].id in Ids(a[..i]);
      }
      assert IsFirst(a, a[i]);
    }
    forall e | e in Insert(m, a[i])
      ensures IsFirst(a, e)
    {
      InsertElements(m, a[i], e);
    }
  }

  /** A result of sub_stracks is determined by its arguments. */
  lemma {:induction false} SubtractedUnique(a: seq<STrack>, b: seq<STrack>, r: seq<STrack>, s: seq<STrack>)
    requires Subtracted(a, b, r) && Subtracted(a, b, s)
    ensures r == s
  {
    SameIdsSameOrder(r, s);
    forall i | 0 <= i < |r|
      ensures r[i] == s[i]
    {
      assert IsFirst(a, r[i]) && IsFirst(a, s[i]);
      var k :| 0 <= k < |a| && a[k] == r[i] && forall q :: 0 <= q < k ==> a[q].id != r[i].id;
      var l :| 0 <= l < |a| && a[l] == s[i] && forall q :: 0 <= q < l ==> a[q].id != s[i].id;
    }
  }

  lemma IdsEmpty(s: seq<STrack>)
    ensures Ids(s) == {} <==> s == []
  {
    if s != [] {
      assert s[0].id in Ids(s);
    }
  }

  lemma {:induction false} SameIdsSameOrder(r: seq<STrack>, s: seq<STrack>)
    requires Ordered(r) && Ordered(s)
    requires Ids(r) == Ids(s)
    ensures |r| == |s| && forall i :: 0 <= i < |r| ==> r[i].id == s[i].id
  {
    IdsEmpty(r);
    IdsEmpty(s);
    if |r| > 0 {
      assert r[|r| - 1].id in Ids(s);
      assert s[|s| - 1].id in Ids(r);
      var r', s' := r[..|r| - 1], s[..|s| - 1];
      assert r == r' + [r[|r| - 1]] && s == s' + [s[|s| - 1]];
      AddId(r', r[|r| - 1]);
      AddId(s', s[|s| - 1]);
      assert r[|r| - 1].id !in Ids(r') && s[|s| - 1].id !in Ids(s');
      SameIdsSameOrder(r', s');
    }
  }

  // ---------------------------------------------------------------- duplicates

  const DUPLICATE_DISTANCE := 0.15

  ghost predicate Close(a: STrack, b: STrack) {
    Distance(a.box, b.box) < DUPLICATE_DISTANCE
  }

  /** Entry `i` of `a` duplicates an entry of `b` that is at least as old. */
  ghost predicate DropsFirst(a: seq<STrack>, b: seq<STrack>, i: int)
    requires 0 <= i < |a|
  {
    exists j :: 0 <= j < |b| && Close(a[i], b[j]) && a[i].Age() <= b[j].Age()
  }

  /** Entry `j` of `b` duplicates an entry of `a` that is older. */
  ghost predicate DropsSecond(a: seq<STrack>, b: seq<STrack>, j: int)
    requires 0 <= j < |b|
  {
    exists i :: 0 <= i < |a| && Close(a[i], b[j]) && a[i].Age() > b[j].Age()
  }

  function Without(s: seq<STrack>, dropped: seq<int>, k: nat): (r: seq<STrack>)
    requires k <= |s|
  {
    if k == 0 then []
    else Without(s, dropped, k - 1) + if k - 1 in dropped then [] else [s[k - 1]]
  }

  lemma {:induction false} WithoutInOrder(s: seq<STrack>, dropped: seq<int>, k: nat)
    requires k <= |s|
    ensures InOrderOf(s[..k], Without(s, dropped, k))
  {
    if k == 0 {
      EmptyInOrder(s[..0]);
    } else {
      WithoutInOrder(s, dropped, k - 1);
      InOrderFurther(s, Without(s, dropped, k - 1), k, Without(s, dropped, k));
    }
  }

  ghost predicate Deduplicated(a: seq<STrack>, b: seq<STrack>, dupA: seq<int>, dupB: seq<int>) {
    && (forall i :: 0 <= i < |a| ==> (i in dupA <==> DropsFirst(a, b, i)))
    && (forall j :: 0 <= j < |b| ==> (j in dupB <==> DropsSecond(a, b, j)))
  }

  /** All index pairs closer than the duplicate distance. */
  method ClosePairs(a: seq<STrack>, b: seq<STrack>) returns (pairs: seq<(int, int)>)
    ensures forall i, j :: (i, j) in pairs <==> 0 <= i < |a| && 0 <= j < |b| && Close(a[i], b[j])
  {
    var boxesA := seq(|a|, i requires 0 <= i < |a| => a[i].box);
    var boxesB := seq(|b|, i requires 0 <= i < |b| => b[i].box);
    var pdist := IouDistance(boxesA, boxesB);
    pairs := [];
    for i := 0 to |pdist|
      invariant forall r, c :: (r, c) in pairs <==> 0 <= r < i && 0 <= c < |b| && Close(a[r], b[c])
    {
      for j := 0 to |pdist[i]|
        invariant forall r, c :: (r, c) in pairs <==>
          ((0 <= r < i && 0 <= c < |b|) || (r == i && 0 <= c < j)) && Close(a[r], b[c])
      {
        ghost var before := pairs;
        assert boxesA[i] == a[i].box && boxesB[j] == b[j].box;
        assert forall r, c :: (r, c) in before + [(i, j)] <==> (r, c) in before || (r == i && c == j);
        if pdist[i][j] < DUPLICATE_DISTANCE {
          pairs := pairs + [(i, j)];
        }
      }
    }
  }

  /** Of each close pair the one with the longer record stays; the second one goes only if
      the first is strictly longer. */
  method PickDuplicates(a: seq<STrack>, b: seq<STrack>, pairs: seq<(int, int)>) returns (da: seq<int>, db: seq<int>)
    requires forall i, j :: (i, j) in pairs <==> 0 <= i < |a| && 0 <= j < |b| && Close(a[i], b[j])
    ensures Deduplicated(a, b, da, db)
  {
    da, db := [], [];
    assert forall k, i, j :: 0 <= k <= |pairs| && (i, j) in pairs[..k] ==> (i, j) in pairs;
    for k := 0 to |pairs|
      invariant forall i, j :: (i, j) in pairs[..k] ==> if a[i].Age() > b[j].Age() then j in db else i in da
      invariant forall i :: i in da ==> 0 <= i < |a| && DropsFirst(a, b, i)
      invariant forall j :: j in db ==> 0 <= j < |b| && DropsSecond(a, b, j)
    {
      var (i, j) := pairs[k];
      assert (i, j) in pairs && pairs[..k + 1] == pairs[..k] + [pairs[k]];
      var timep := a[i].frameId - a[i].startFrame;
      var timeq := b[j].frameId - b[j].startFrame;
      if timep > timeq {
        assert DropsSecond(a, b, j);
        db := db + [j];
      } else {
        assert DropsFirst(a, b, i);
        da := da + [i];
      }
    }
    assert pairs[..|pairs|] == pairs;
    forall i | 0 <= i < |a| && DropsFirst(a, b, i)
      ensures i in da
    {
      var j :| 0 <= j < |b| && Close(a[i], b[j]) && a[i].Age() <= b[j].Age();
      assert (i, j) in pairs;
    }
    forall j | 0 <= j < |b| && DropsSecond(a, b, j)
      ensures j in db
    {
      var i :| 0 <= i < |a| && Close(a[i], b[j]) && a[i].Age() > b[j].Age();
      assert (i, j) in pairs;
    }
  }

  /** `a` and `b` are `tracked` and `lost` without their duplicates. */
  ghost predicate Thinned(tracked: seq<STrack>, lost: seq<STrack>, a: seq<STrack>, b: seq<STrack>) {
    exists dupA, dupB :: Deduplicated(tracked, lost, dupA, dupB)
                         && a == Without(tracked, dupA, |tracked|) && b == Without(lost, dupB, |lost|)
  }

  method RemoveDuplicates(a: seq<STrack>, b: seq<STrack>)
    returns (resA: seq<STrack>, resB: seq<STrack>, ghost dupA: seq<int>, ghost dupB: seq<int>)
    ensures Deduplicated(a, b, dupA, dupB)
    ensures resA == Without(a, dupA, |a|) && resB == Without(b, dupB, |b|)
    ensures Thinned(a, b, resA, resB)
  {
    var pairs := ClosePairs(a, b);
    var da, db := PickDuplicates(a, b, pairs);
    dupA, dupB := da, db;
    resA := KeepOthers(a, da);
    resB := KeepOthers(b, db);
  }

  method KeepOthers(s: seq<STrack>, dropped: seq<int>) returns (r: seq<STrack>)
    ensures r == Without(s, dropped, |s|)
  {
    r := [];
    for i := 0 to |s|
      invariant r == Without(s, dropped, i)
    {
      if i !in dropped {
        r := r + [s[i]];
      }
    }
  }

  lemma {:induction false} WithoutProperties(s: seq<STrack>, dropped: seq<int>, k: nat)
    requires k <= |s| && DistinctIds(s)
    ensures var r := Without(s, dropped, k);
      && DistinctIds(r)
      && (forall e :: e in r ==> exists i :: 0 <= i < k && s[i] == e && i !in dropped)
      && (forall i :: 0 <= i < k && i !in dropped ==> s[i] in r)
  {
    if k > 0 {
      WithoutProperties(s, dropped, k - 1);
      var q := Without(s, dropped, k - 1);
      assert forall e :: e in q ==> e.id != s[k - 1].id;
      if k - 1 !in dropped {
        var r := q + [s[k - 1]];
        assert forall i :: 0 <= i < |q| ==> q[i] in q;
        assert r[|q|] == s[k - 1];
      }
    }
  }

  /** After duplicate removal no entry of one list is close to one of the other, and an
      entry is only dropped for a close entry of the other list that stays at least as long on record. */
  lemma DeduplicatedApart(a: seq<STrack>, b: seq<STrack>, dupA: seq<int>, dupB: seq<int>)
    requires DistinctIds(a) && DistinctIds(b) && Deduplicated(a, b, dupA, dupB)
    ensures var ra, rb := Without(a, dupA, |a|), Without(b, dupB, |b|);
      && (forall s, t :: s in ra && t in rb ==> !Close(s, t))
      && (forall e :: e in a && e !in ra ==>
            exists t :: t in b && Close(e, t) && e.frameId - e.startFrame <= t.frameId - t.startFrame)
      && (forall e :: e in b && e !in rb ==>
            exists s :: s in a && Close(s, e) && s.frameId - s.startFrame > e.frameId - e.startFrame)
  {
    var ra, rb := Without(a, dupA, |a|), Without(b, dupB, |b|);
    WithoutProperties(a, dupA, |a|);
    WithoutProperties(b, dupB, |b|);
    forall s, t | s in ra && t in rb
      ensures !Close(s, t)
    {
      var i :| 0 <= i < |a| && a[i] == s && i !in dupA;
      var j :| 0 <= j < |b| && b[j] == t && j !in dupB;
      assert Close(a[i], b[j]) ==> DropsFirst(a, b, i) || DropsSecond(a, b, j);
    }
    forall e | e in a && e !in ra
      ensures exists t :: t in b && Close(e, t) && e.frameId - e.startFrame <= t.frameId - t.startFrame
    {
      var i :| 0 <= i < |a| && a[i] == e;
      assert DropsFirst(a, b, i);
      var j :| 0 <= j < |b| && Close(a[i], b[j]) && a[i].Age() <= b[j].Age();
      assert b[j] in b;
    }
    forall e | e in b && e !in rb
      ensures exists s :: s in a && Close(s, e) && s.frameId - s.startFrame > e.frameId - e.startFrame
    {
      var j :| 0 <= j < |b| && b[j] == e;
      assert DropsSecond(a, b, j);
      var i :| 0 <= i < |a| && Close(a[i], b[j]) && a[i].Age() > b[j].Age();
      assert a[i] in a;
    }
  }
}
