/** Positions of playlist tracks, apart from the table that stores them: what the position arithmetic
    of the UPDATE statements does to a set of (position, media file) pairs. */
module PlaylistPositions {

  type Listing = set<(int, string)>

  /** The listing of a playlist whose positions are exactly 1..n. */
  ghost function ListPairs(s: seq<string>): Listing { set k | 0 <= k < |s| :: (k + 1, s[k]) }

  /** A listing with gaps: strictly increasing positions ps carrying the media s. */
  ghost function Pairs(ps: seq<int>, s: seq<string>): Listing
    requires |ps| == |s|
  {
    set k | 0 <= k < |ps| :: (ps[k], s[k])
  }

  ghost predicate Increasing(ps: seq<int>) { forall j, k :: 0 <= j < k < |ps| ==> ps[j] < ps[k] }

  ghost function Positions(e: Listing): set<int> { set x | x in e :: x.0 }

  ghost function PosImage(e: Listing, g: int -> int): Listing { set x | x in e :: (g(x.0), x.1) }

  /** What UPDATE ... SET id = f(id) WHERE where(id) does to one position. */
  function Step(where: int -> bool, f: int -> int): int -> int { p => if where(p) then f(p) else p }

  /** No single-row step can collide, in whatever order the rows are updated. */
  ghost predicate SafeStep(ps: set<int>, where: int -> bool, f: int -> int) {
    forall p, q :: p in ps && q in ps && p != q && where(p) ==> f(p) != q && (where(q) ==> f(p) != f(q))
  }

  /** A row is sent onto a row that does not move: the statement fails in every row order. */
  ghost predicate ClashingStep(ps: set<int>, where: int -> bool, f: int -> int) {
    exists p, q :: p in ps && q in ps && where(p) && !where(q) && f(p) == q
  }

  lemma ListPairsPositions(s: seq<string>)
    ensures forall p :: p in Positions(ListPairs(s)) <==> 1 <= p <= |s|
  {
    forall p | 1 <= p <= |s| ensures p in Positions(ListPairs(s)) {
      assert (p - 1 + 1, s[p - 1]) in ListPairs(s);
    }
  }

  lemma ListPairsInjective(s: seq<string>, t: seq<string>)
    requires ListPairs(s) == ListPairs(t)
    ensures s == t
  {
    ListPairsPositions(s);
    ListPairsPositions(t);
    assert |t| > 0 ==> |t| in Positions(ListPairs(t));
    assert |s| > 0 ==> |s| in Positions(ListPairs(s));
    forall k | 0 <= k < |s| ensures s[k] == t[k] {
      assert (k + 1, s[k]) in ListPairs(t);
    }
  }

  lemma PosImageCompose(e: Listing, g: int -> int, h: int -> int)
    ensures PosImage(PosImage(e, g), h) == PosImage(e, p => h(g(p)))
  {
  }

  // ---------------------------------------------------------------------------------------------
  // Reorder

  const SENTINEL := -999999

  /** The list with the track at 1-based position i moved to position j. */
  function Moved(s: seq<string>, i: int, j: int): (r: seq<string>)
    requires 1 <= i <= |s| && 1 <= j <= |s|
    ensures |r| == |s|
  {
    var rest := s[..i - 1] + s[i..];
    rest[..j - 1] + [s[i - 1]] + rest[j - 1..]
  }

  lemma MovedIsPermutation(s: seq<string>, i: int, j: int)
    requires 1 <= i <= |s| && 1 <= j <= |s|
    ensures multiset(Moved(s, i, j)) == multiset(s)
    ensures Moved(s, i, j)[j - 1] == s[i - 1] && Moved(s, i, j)[..j - 1] + Moved(s, i, j)[j..] == s[..i - 1] + s[i..]
  {
    var rest := s[..i - 1] + s[i..];
    assert s == s[..i - 1] + [s[i - 1]] + s[i..];
    assert rest == rest[..j - 1] + rest[j - 1..];
    calc {
      multiset(Moved(s, i, j));
      multiset(rest[..j - 1]) + multiset{s[i - 1]} + multiset(rest[j - 1..]);
      multiset(rest[..j - 1] + rest[j - 1..]) + multiset{s[i - 1]};
      multiset(s[..i - 1]) + multiset(s[i..]) + multiset{s[i - 1]};
      multiset(s[..i - 1] + [s[i - 1]] + s[i..]);
    }
  }

  /** Where the move takes each position. */
  function MovePos(i: int, j: int): int -> int {
    p => if p == i then j else if i < p <= j then p - 1 else if j <= p < i then p + 1 else p
  }

  lemma MovedAt(s: seq<string>, i: int, j: int, p: int)
    requires 1 <= i <= |s| && 1 <= j <= |s| && 1 <= p <= |s|
    ensures 1 <= MovePos(i, j)(p) <= |s|
    ensures Moved(s, i, j)[MovePos(i, j)(p) - 1] == s[p - 1]
    ensures MovePos(j, i)(MovePos(i, j)(p)) == p
  {
  }

  lemma MovePosMoves(s: seq<string>, i: int, j: int)
    requires 1 <= i <= |s| && 1 <= j <= |s|
    ensures PosImage(ListPairs(s), MovePos(i, j)) == ListPairs(Moved(s, i, j))
  {
    var e, t, g := ListPairs(s), Moved(s, i, j), MovePos(i, j);
    forall y | y in PosImage(e, g) ensures y in ListPairs(t) {
      var x :| x in e && y == (g(x.0), x.1);
      MovedAt(s, i, j, x.0);
      assert y == (y.0 - 1 + 1, t[y.0 - 1]);
    }
    forall y | y in ListPairs(t) ensures y in PosImage(e, g) {
      var p := MovePos(j, i)(y.0);
      MovedAt(t, j, i, y.0);
      MovedAt(s, i, j, p);
      assert (p - 1 + 1, s[p - 1]) in e;
    }
  }

  // The WHERE and SET parts of the four statements.
  function At(pos: int): int -> bool { p => p == pos }
  function To(pos: int): int -> int { p => pos }
  function InShiftedRange(pos: int, newPos: int): int -> bool {
    if pos < newPos then p => p > pos && p <= newPos else p => p >= newPos && p < pos
  }
  function ShiftedNegated(pos: int, newPos: int): int -> int {
    if pos < newPos then p => -(p - 1) else p => -(p + 1)
  }
  function NegativeNotSentinel(): int -> bool { p => p < 0 && p != SENTINEL }
  function Negate(): int -> int { p => -p }

  function ClearSource(pos: int): int -> int { Step(At(pos), To(SENTINEL)) }
  function ShiftRange(pos: int, newPos: int): int -> int {
    Step(InShiftedRange(pos, newPos), ShiftedNegated(pos, newPos))
  }
  function FlipBack(): int -> int { Step(NegativeNotSentinel(), Negate()) }
  function PlaceSource(newPos: int): int -> int { Step(At(SENTINEL), To(newPos)) }

  function Positive(): int -> bool { p => p > 0 }
  function Negative(): int -> bool { p => p < 0 }

  /** The shift sends a track onto the sentinel. */
  predicate SentinelHit(pos: int, newPos: int) {
    if pos < newPos then pos <= 999999 < newPos else newPos <= 999998 < pos
  }

  lemma ReorderAt(pos: int, newPos: int, p: int)
    requires 1 <= pos && 1 <= newPos && pos != newPos && !SentinelHit(pos, newPos) && 1 <= p
    ensures PlaceSource(newPos)(FlipBack()(ShiftRange(pos, newPos)(ClearSource(pos)(p)))) == MovePos(pos, newPos)(p)
  {
  }

  /** The four statements of Reorder amount to one move. */
  lemma ReorderSteps(s: seq<string>, pos: int, newPos: int)
    requires 1 <= pos <= |s| && 1 <= newPos <= |s| && pos != newPos && !SentinelHit(pos, newPos)
    ensures PosImage(PosImage(PosImage(PosImage(ListPairs(s), ClearSource(pos)), ShiftRange(pos, newPos)), FlipBack()),
                     PlaceSource(newPos)) == ListPairs(Moved(s, pos, newPos))
  {
    var e := ListPairs(s);
    var a, b, c, d := ClearSource(pos), ShiftRange(pos, newPos), FlipBack(), PlaceSource(newPos);
    PosImageCompose(e, a, b);
    var ab := p => b(a(p));
    PosImageCompose(e, ab, c);
    var abc := p => c(ab(p));
    PosImageCompose(e, abc, d);
    var abcd := p => d(abc(p));
    forall x | x in e ensures abcd(x.0) == MovePos(pos, newPos)(x.0) { ReorderAt(pos, newPos, x.0); }
    MovePosMoves(s, pos, newPos);
  }

  // ---------------------------------------------------------------------------------------------
  // Picking the tracks that survive a delete

  function Pick<T>(s: seq<T>, keep: seq<bool>): seq<T>
    requires |s| == |keep|
  {
    if s == [] then []
    else
      var n := |s| - 1;
      Pick(s[..n], keep[..n]) + if keep[n] then [s[n]] else []
  }

  function Count(n: nat): (r: seq<int>)
    ensures |r| == n && forall k :: 0 <= k < n ==> r[k] == k + 1
  {
    seq(n, i => i + 1)
  }

  /** The pairs whose index is kept. */
  ghost function Masked(ps: seq<int>, s: seq<string>, keep: seq<bool>): Listing
    requires |ps| == |s| == |keep|
  {
    set k | 0 <= k < |s| && keep[k] :: (ps[k], s[k])
  }

  lemma IncreasingSnoc(ps: seq<int>, p: int)
    requires Increasing(ps) && forall q :: q in ps ==> q < p
    ensures Increasing(ps + [p])
  {
    forall k | 0 <= k < |ps| ensures ps[k] < p { assert ps[k] in ps; }
  }

  /** The survivors sit, in order, at the positions they kept. */
  lemma {:induction false} PickOfPairs(ps: seq<int>, s: seq<string>, keep: seq<bool>)
    requires |ps| == |s| == |keep| && Increasing(ps)
    ensures |Pick(ps, keep)| == |Pick(s, keep)| && Increasing(Pick(ps, keep))
    ensures forall p :: p in Pick(ps, keep) ==> p in ps
    ensures Pairs(Pick(ps, keep), Pick(s, keep)) == Masked(ps, s, keep)
  {
    if s != [] {
      var n := |s| - 1;
      PickOfPairs(ps[..n], s[..n], keep[..n]);
      if keep[n] {
        forall p | p in Pick(ps[..n], keep[..n]) ensures p < ps[n] {
          var j :| 0 <= j < n && ps[..n][j] == p;
        }
        IncreasingSnoc(Pick(ps[..n], keep[..n]), ps[n]);
        PairsAppend(Pick(ps[..n], keep[..n]), Pick(s[..n], keep[..n]), ps[n], s[n]);
      } else {
        assert Pick(ps, keep) == Pick(ps[..n], keep[..n]) && Pick(s, keep) == Pick(s[..n], keep[..n]);
      }
    }
  }

  lemma PairsAppend(ps: seq<int>, s: seq<string>, p: int, m: string)
    requires |ps| == |s|
    ensures Pairs(ps + [p], s + [m]) == Pairs(ps, s) + {(p, m)}
  {
    var qs, t := ps + [p], s + [m];
    forall x | x in Pairs(ps, s) ensures x in Pairs(qs, t) {
      var k :| 0 <= k < |ps| && x == (ps[k], s[k]);
      assert x == (qs[k], t[k]);
    }
    assert (qs[|ps|], t[|ps|]) in Pairs(qs, t);
  }

  /** The media s in order, at increasing positive positions, gaps allowed. */
  ghost predicate SparseList(e: Listing, s: seq<string>) {
    exists ps: seq<int> :: IsSparse(e, ps, s)
  }

  ghost predicate IsSparse(e: Listing, ps: seq<int>, s: seq<string>) {
    |ps| == |s| && Increasing(ps) && (forall k :: 0 <= k < |ps| ==> ps[k] > 0) && e == Pairs(ps, s)
  }

  lemma ListIsSparse(s: seq<string>)
    ensures SparseList(ListPairs(s), s)
  {
    var ps := Count(|s|);
    assert ListPairs(s) == Pairs(ps, s);
    assert IsSparse(ListPairs(s), ps, s);
  }

  /** The survivors of a list with gaps are a list with gaps. */
  lemma SurvivorsAreSparse(e: Listing, ps: seq<int>, s: seq<string>, keep: seq<bool>)
    requires IsSparse(e, ps, s) && |keep| == |s|
    ensures SparseList(Masked(ps, s, keep), Pick(s, keep))
  {
    PickOfPairs(ps, s, keep);
    forall k | 0 <= k < |Pick(ps, keep)| ensures Pick(ps, keep)[k] > 0 {
      assert Pick(ps, keep)[k] in ps;
    }
    assert IsSparse(Masked(ps, s, keep), Pick(ps, keep), Pick(s, keep));
  }

  /** A listing lists one sequence. */
  lemma SparseUnique(e: Listing, s: seq<string>, t: seq<string>)
    requires SparseList(e, s) && SparseList(e, t)
    ensures s == t
  {
    var ps :| IsSparse(e, ps, s);
    var qs :| IsSparse(e, qs, t);
    PairsPositions(ps, s);
    PairsPositions(qs, t);
    IncreasingUnique(ps, qs);
    forall k | 0 <= k < |s| ensures s[k] == t[k] {
      assert (ps[k], s[k]) in Pairs(qs, t);
    }
  }

  lemma PairsPositions(ps: seq<int>, s: seq<string>)
    requires |ps| == |s|
    ensures forall p :: p in Positions(Pairs(ps, s)) <==> p in ps
  {
    forall p | p in ps ensures p in Positions(Pairs(ps, s)) {
      var k :| 0 <= k < |ps| && ps[k] == p;
      assert (ps[k], s[k]) in Pairs(ps, s);
    }
  }

  /** One media file a position, and every position positive. */
  ghost predicate PositiveAndUnique(e: Listing) {
    (forall x :: x in e ==> x.0 > 0) && forall x, y :: x in e && y in e && x.0 == y.0 ==> x == y
  }

  lemma {:induction false} LastPair(e: Listing) returns (x: (int, string))
    requires e != {}
    ensures x in e && forall y :: y in e ==> y.0 <= x.0
    decreases |e|
  {
    x :| x in e;
    if e != {x} {
      var y := LastPair(e - {x});
      if y.0 > x.0 { x := y; }
    }
  }

  lemma SparseSnoc(e: Listing, s: seq<string>, x: (int, string))
    requires SparseList(e, s) && x.0 > 0 && forall y :: y in e ==> y.0 < x.0
    ensures SparseList(e + {x}, s + [x.1])
  {
    var ps :| IsSparse(e, ps, s);
    forall p | p in ps ensures p < x.0 {
      var k :| 0 <= k < |ps| && ps[k] == p;
      assert (ps[k], s[k]) in e;
    }
    IncreasingSnoc(ps, x.0);
    PairsAppend(ps, s, x.0, x.1);
    assert IsSparse(e + {x}, ps + [x.0], s + [x.1]);
  }

  /** Any such listing lists its media in some order, with gaps. */
  lemma {:induction false} SparseExists(e: Listing) returns (s: seq<string>)
    requires PositiveAndUnique(e)
    ensures SparseList(e, s)
    decreases |e|
  {
    if e == {} {
      s := [];
      assert IsSparse(e, [], s);
    } else {
      var x := LastPair(e);
      var rest := e - {x};
      forall y | y in rest ensures y.0 < x.0 { assert y in e; }
      assert rest + {x} == e;
      var init := SparseExists(rest);
      SparseSnoc(rest, init, x);
      s := init + [x.1];
    }
  }

  // ---------------------------------------------------------------------------------------------
  // The tracks that exist

  function ExistingMask(s: seq<string>, media: set<string>): (keep: seq<bool>)
    ensures |keep| == |s| && forall i :: 0 <= i < |s| ==> keep[i] == (s[i] in media)
  {
    seq(|s|, i requires 0 <= i < |s| => s[i] in media)
  }

  function Existing(s: seq<string>, media: set<string>): seq<string> { Pick(s, ExistingMask(s, media)) }

  /** Nothing is left out if and only if everything exists, and what is left exists. */
  lemma {:induction false} ExistingAll(s: seq<string>, media: set<string>)
    ensures Existing(s, media) == s <==> forall i :: 0 <= i < |s| ==> s[i] in media
    ensures |Existing(s, media)| <= |s| && forall m :: m in Existing(s, media) ==> m in media
    decreases |s|
  {
    if s != [] {
      var n := |s| - 1;
      ExistingAll(s[..n], media);
      ExistingInit(s, media);
      assert s == s[..n] + [s[n]];
    }
  }

  lemma ExistingInit(s: seq<string>, media: set<string>)
    requires s != []
    ensures var n := |s| - 1;
            Existing(s, media) == Existing(s[..n], media) + if s[n] in media then [s[n]] else []
  {
    assert ExistingMask(s, media)[..|s| - 1] == ExistingMask(s[..|s| - 1], media);
  }

  /** Taking the orphans off a list with gaps leaves the existing tracks. */
  lemma OrphansAreMasked(e: Listing, s: seq<string>, media: set<string>)
    requires SparseList(e, s)
    ensures SparseList((set x | x in e && x.1 in media), Existing(s, media))
  {
    var ps :| IsSparse(e, ps, s);
    SurvivorsAreSparse(e, ps, s, ExistingMask(s, media));
    assert (set x | x in e && x.1 in media) == Masked(ps, s, ExistingMask(s, media));
  }

  /** The media placed at consecutive positions from start. */
  ghost function Placed(start: int, s: seq<string>): Listing { set k | 0 <= k < |s| :: (start + k, s[k]) }

  lemma PlacedAppend(start: int, s: seq<string>, m: string)
    ensures Placed(start, s + [m]) == Placed(start, s) + {(start + |s|, m)}
  {
    var t := s + [m];
    forall x | x in Placed(start, s) ensures x in Placed(start, t) {
      var k :| 0 <= k < |s| && x == (start + k, s[k]);
      assert x == (start + k, t[k]);
    }
    assert (start + |s|, t[|s|]) in Placed(start, t);
  }

  lemma PlacedConcat(start: int, s: seq<string>, t: seq<string>)
    ensures Placed(start, s + t) == Placed(start, s) + Placed(start + |s|, t)
  {
    var u := s + t;
    forall k | 0 <= k < |s| ensures (start + k, s[k]) in Placed(start, u) { assert u[k] == s[k]; }
    forall k | 0 <= k < |t| ensures (start + |s| + k, t[k]) in Placed(start, u) {
      assert u[|s| + k] == t[k];
      assert (start + (|s| + k), u[|s| + k]) in Placed(start, u);
    }
    forall x | x in Placed(start, u) ensures x in Placed(start, s) + Placed(start + |s|, t) {
      var k :| 0 <= k < |u| && x == (start + k, u[k]);
      if k >= |s| { assert x == (start + |s| + (k - |s|), t[k - |s|]); }
    }
  }

  lemma PlacedFromOne(s: seq<string>)
    ensures ListPairs(s) == Placed(1, s)
  {
  }

  // ---------------------------------------------------------------------------------------------
  // Insert

  function AtLeast(pos: int): int -> bool { p => p >= pos }
  function ShiftedBy(n: int): int -> int { p => -(p + n) }

  /** Making room: the tracks from pos on end up n positions later. */
  lemma MakeRoom(s: seq<string>, pos: int, n: nat)
    requires 1 <= pos <= |s| + 1
    ensures PosImage(PosImage(ListPairs(s), Step(AtLeast(pos), ShiftedBy(n))), Step(Negative(), Negate())) ==
            Placed(1, s[..pos - 1]) + Placed(pos + n, s[pos - 1..])
  {
  }

  function Range(start: int, n: nat): (r: seq<int>)
    ensures |r| == n && forall k :: 0 <= k < n ==> r[k] == start + k
  {
    seq(n, k => start + k)
  }

  lemma PlacedIsPairs(start: int, s: seq<string>)
    ensures Placed(start, s) == Pairs(Range(start, |s|), s)
  {
  }

  lemma PairsConcat(ps: seq<int>, s: seq<string>, qs: seq<int>, t: seq<string>)
    requires |ps| == |s| && |qs| == |t|
    ensures Pairs(ps + qs, s + t) == Pairs(ps, s) + Pairs(qs, t)
  {
    var rs, u := ps + qs, s + t;
    forall k | 0 <= k < |s| ensures (ps[k], s[k]) in Pairs(rs, u) { assert (rs[k], u[k]) == (ps[k], s[k]); }
    forall k | 0 <= k < |t| ensures (qs[k], t[k]) in Pairs(rs, u) { assert (rs[|s| + k], u[|s| + k]) == (qs[k], t[k]); }
    forall k | 0 <= k < |u| ensures (rs[k], u[k]) in Pairs(ps, s) + Pairs(qs, t) {
      if k >= |s| { assert (rs[k], u[k]) == (qs[k - |s|], t[k - |s|]); }
    }
  }

  /** Filling the room, wholly or in part, keeps the order; filling it wholly leaves no gap. */
  lemma FillRoom(a: seq<string>, b: seq<string>, c: seq<string>, n: nat)
    requires |b| <= n
    ensures var e := Placed(1, a) + Placed(1 + |a| + n, c) + Placed(1 + |a|, b);
            SparseList(e, a + b + c) && (|b| == n ==> e == ListPairs(a + b + c))
  {
    var e := Placed(1, a) + Placed(1 + |a| + n, c) + Placed(1 + |a|, b);
    if |b| == n {
      PlacedConcat(1, a, b);
      PlacedConcat(1, a + b, c);
      PlacedFromOne(a + b + c);
    }
    var ra, rb, rc := Range(1, |a|), Range(1 + |a|, |b|), Range(1 + |a| + n, |c|);
    PlacedIsPairs(1, a);
    PlacedIsPairs(1 + |a|, b);
    PlacedIsPairs(1 + |a| + n, c);
    PairsConcat(ra, a, rb, b);
    PairsConcat(ra + rb, a + b, rc, c);
    assert IsSparse(e, ra + rb + rc, a + b + c);
  }

  /** Two increasing sequences with the same elements are the same sequence. */
  lemma {:induction false} IncreasingUnique(a: seq<int>, b: seq<int>)
    requires Increasing(a) && Increasing(b)
    requires forall x :: x in a <==> x in b
    ensures a == b
  {
    assert |a| > 0 ==> a[|a| - 1] in a;
    assert |b| > 0 ==> b[|b| - 1] in b;
    if a != [] && b != [] {
      var m, n := |a| - 1, |b| - 1;
      assert a[m] in b && b[n] in a;
      assert a[m] == b[n];
      forall x ensures x in a[..m] <==> x in b[..n] {
        assert x in a <==> x in a[..m] || x == a[m];
        assert x in b <==> x in b[..n] || x == b[n];
      }
      IncreasingUnique(a[..m], b[..n]);
    }
  }

  function IndexMask(n: nat, idxToRemove: seq<int>): (keep: seq<bool>)
    ensures |keep| == n && forall i :: 0 <= i < n ==> keep[i] == (i !in idxToRemove)
  {
    seq(n, i => i !in idxToRemove)
  }

  /** Removing tracks by 0-based index, as the in-memory playlist does. */
  method RemoveTracks(s: seq<string>, idxToRemove: seq<int>) returns (r: seq<string>)
    ensures r == Pick(s, IndexMask(|s|, idxToRemove))
  {
    r := [];
    for i := 0 to |s|
      invariant r == Pick(s[..i], IndexMask(i, idxToRemove))
    {
      assert s[..i + 1][..i] == s[..i] && IndexMask(i + 1, idxToRemove)[..i] == IndexMask(i, idxToRemove);
      if i !in idxToRemove {
        r := r + [s[i]];
      }
    }
    assert s[..|s|] == s;
  }
}
