/** The table-state post-processing of parse_image: what happens to the
    detections once the detector and OCR loop has gathered them. Duplicate
    player panels are merged, the panels are ordered clockwise by angle and
    rotated so the dealer comes first, positions are named, the hero is
    found by bbox containment, the card lists are de-duplicated and the
    street is labelled. The angle (math.atan2 rounded to two places) stays
    an abstract parameter. */
module TableParse {
  import opened Common
  import opened Text
  import opened Parser

  /** A detector box (x1, y1, x2, y2). */
  datatype BBox = BBox(x1: int, y1: int, x2: int, y2: int)

  /** Inclusive containment, as in `x1 <= x <= x2 and y1 <= y <= y2`. */
  predicate Contains(b: BBox, p: Point)
  {
    b.x1 <= p.x <= b.x2 && b.y1 <= p.y <= b.y2
  }

  /** One dict of list_player_panels. */
  datatype Panel = Panel(name: string, bbox: BBox, pos: Option<string>, angle: real, center: Point, stack: real)

  /** What the detection loop has gathered when the post-processing starts:
      the panels in detection order; the back-card count; the pot; the
      buttons with their boxes; the amount to call; the hero's and the
      board's detected cards; the centres of the dealer button, of the
      hero's cards and of the image. */
  datatype Readings = Readings(panels: seq<Panel>, active: int, pot: real, buttons: map<string, BBox>,
                               toCall: real, heroCards: seq<string>, boardCards: seq<string>,
                               dealer: Point, heroCentre: Point, imageCentre: Point)

  /** dict_result. `size` is the number of distinct players. */
  datatype TableState = TableState(size: int, active: int, pot: real, buttons: map<string, BBox>,
                                   panels: seq<Panel>, toCall: real, boardCards: seq<string>,
                                   heroCards: seq<string>, heroPos: Option<string>, heroStack: real,
                                   street: string)

  // -----------------------------------------------------------------------
  // list(set(...)) and set difference

  /** `list(set(xs))`: every element once. Python's set iteration order is
      not modelled; the first occurrences are kept. */
  function Dedupe(xs: seq<string>): (r: seq<string>)
    ensures Distinct(r)
    ensures forall x :: x in r <==> x in xs
  {
    if xs == [] then []
    else
      var r := Dedupe(xs[..|xs| - 1]);
      var x := xs[|xs| - 1];
      assert xs == xs[..|xs| - 1] + [x];
      if x in r then r else r + [x]
  }

  /** The elements of `xs` that are not in `ys`. */
  function Minus(xs: seq<string>, ys: seq<string>): (r: seq<string>)
    ensures forall x :: x in r <==> x in xs && x !in ys
  {
    if xs == [] then []
    else (if xs[0] in ys then [] else [xs[0]]) + Minus(xs[1..], ys)
  }

  // -----------------------------------------------------------------------
  // The duplicate-panel filter

  /** min_dist: panels whose centres are nearer than 100 pixels are one
      player. */
  const MinDist: int := 100

  /** `dist_points(a, b) ** 0.5 < min_dist`; for an integer squared distance
      d, the square root is below 100 exactly when d is below 100². */
  predicate Close(p: Panel, q: Panel)
  {
    DistPoints(p.center, q.center) < MinDist * MinDist
  }

  /** Panel j is near one of the panels kept so far. */
  predicate Absorbed(ps: seq<Panel>, k: seq<int>, j: int)
    requires 0 <= j < |ps|
    requires forall t :: 0 <= t < |k| ==> 0 <= k[t] < |ps|
  {
    exists t :: 0 <= t < |k| && Close(ps[k[t]], ps[j])
  }

  /** The indices among the first n panels that the filter keeps: a panel
      is kept unless a panel kept before it is near it. */
  function KeptIndices(ps: seq<Panel>, n: nat): (k: seq<int>)
    requires n <= |ps|
    ensures forall t :: 0 <= t < |k| ==> 0 <= k[t] < n
  {
    if n == 0 then []
    else
      var k := KeptIndices(ps, n - 1);
      if Absorbed(ps, k, n - 1) then k else k + [n - 1]
  }

  /** The panels that survive the filter, in their original order. */
  function Kept(ps: seq<Panel>): seq<Panel>
  {
    Pick(ps, KeptIndices(ps, |ps|))
  }

  lemma AbsorbedSnoc(ps: seq<Panel>, k: seq<int>, i: int, j: int)
    requires 0 <= i < |ps| && 0 <= j < |ps|
    requires forall t :: 0 <= t < |k| ==> 0 <= k[t] < |ps|
    ensures Absorbed(ps, k + [i], j) <==> Absorbed(ps, k, j) || Close(ps[i], ps[j])
  {
    var k' := k + [i];
    if Close(ps[i], ps[j]) {
      assert k'[|k|] == i;
    }
    if Absorbed(ps, k, j) {
      var t :| 0 <= t < |k| && Close(ps[k[t]], ps[j]);
      assert k'[t] == k[t];
    }
    if Absorbed(ps, k', j) {
      var t :| 0 <= t < |k'| && Close(ps[k'[t]], ps[j]);
      if t < |k| {
        assert k'[t] == k[t];
      }
    }
  }

  /** The `used` set after panel i is kept: everything before i + 1, and
      everything near a kept panel. */
  lemma UsedAfterKeeping(ps: seq<Panel>, k: seq<int>, i: int, used0: set<int>, used1: set<int>)
    requires 0 <= i < |ps|
    requires forall t :: 0 <= t < |k| ==> 0 <= k[t] < |ps|
    requires forall j :: j in used0 <==> 0 <= j < |ps| && (j < i || Absorbed(ps, k, j))
    requires forall m :: m in used1 <==> m in used0 || (0 <= m < |ps| && m != i && Close(ps[i], ps[m]))
    ensures forall m :: m in used1 + {i} <==> 0 <= m < |ps| && (m < i + 1 || Absorbed(ps, k + [i], m))
  {
    forall m | 0 <= m < |ps| {
      AbsorbedSnoc(ps, k, i, m);
    }
  }

  lemma PickSnoc<T>(s: seq<T>, p: seq<int>, i: int)
    requires forall t :: 0 <= t < |p| ==> 0 <= p[t] < |s|
    requires 0 <= i < |s|
    ensures Pick(s, p + [i]) == Pick(s, p) + [s[i]]
  {
    assert (p + [i])[..|p|] == p;
  }

  /** The inner loop of the filter: every other panel not yet used that is
      near panel i is marked used and decrements the count. */
  method AbsorbNear(ps: seq<Panel>, i: int, used0: set<int>, total0: int) returns (used: set<int>, total: int)
    requires 0 <= i < |ps| && i !in used0
    ensures forall m :: m in used <==> m in used0 || (0 <= m < |ps| && m != i && Close(ps[i], ps[m]))
    ensures total + |used| == total0 + |used0|
  {
    used, total := used0, total0;
    var j := 0;
    while j < |ps|
      invariant 0 <= j <= |ps|
      invariant forall m :: m in used <==> m in used0 || (0 <= m < j && m != i && Close(ps[i], ps[m]))
      invariant total + |used| == total0 + |used0|
    {
      if i != j && j !in used {
        var dist := DistPoints(ps[i].center, ps[j].center);
        if dist < MinDist * MinDist {
          used := used + {j};
          total := total - 1;
        }
      }
      j := j + 1;
    }
  }

  /** The filter's two nested loops over the `used` set. Each panel that
      duplicates a kept one decrements `total`. The source's best_panel is
      always panel_i, so panel i itself is appended. */
  method FilterPanels(ps: seq<Panel>, total0: int) returns (kept: seq<Panel>, total: int)
    ensures kept == Kept(ps)
    ensures total == total0 - (|ps| - |kept|)
  {
    kept := [];
    total := total0;
    var used: set<int> := {};
    ghost var k: seq<int> := [];
    var i := 0;
    while i < |ps|
      invariant 0 <= i <= |ps|
      invariant k == KeptIndices(ps, i)
      invariant kept == Pick(ps, k)
      invariant forall j :: j in used <==> 0 <= j < |ps| && (j < i || Absorbed(ps, k, j))
      invariant total + |used| == total0 + |kept|
    {
      if i !in used {
        ghost var used0 := used;
        used, total := AbsorbNear(ps, i, used, total);
        UsedAfterKeeping(ps, k, i, used0, used);
        PickSnoc(ps, k, i);
        kept := kept + [ps[i]];
        used := used + {i};
        k := k + [i];
      }
      i := i + 1;
    }
    RangeCardinality(used, |ps|);
  }

  /** Kept indices are increasing (the kept panels are a subsequence of the
      input) and the first panel is always kept. */
  lemma {:induction false} KeptIndicesOrdered(ps: seq<Panel>, n: nat)
    requires n <= |ps|
    ensures var k := KeptIndices(ps, n);
      && |k| <= n
      && (forall a, b :: 0 <= a < b < |k| ==> k[a] < k[b])
      && (n > 0 ==> |k| > 0 && k[0] == 0)
  {
    if n > 0 {
      KeptIndicesOrdered(ps, n - 1);
    }
  }

  /** No kept panel is near a panel kept after it. */
  lemma {:induction false} KeptFarApart(ps: seq<Panel>, n: nat)
    requires n <= |ps|
    ensures forall a, b :: 0 <= a < b < |KeptIndices(ps, n)| ==>
      !Close(ps[KeptIndices(ps, n)[a]], ps[KeptIndices(ps, n)[b]])
  {
    if n > 0 {
      KeptFarApart(ps, n - 1);
      var k0 := KeptIndices(ps, n - 1);
      if !Absorbed(ps, k0, n - 1) {
        var k := k0 + [n - 1];
        assert KeptIndices(ps, n) == k;
        forall a, b | 0 <= a < b < |k| ensures !Close(ps[k[a]], ps[k[b]]) {
          assert k[a] == k0[a];
          if b < |k0| {
            assert k[b] == k0[b];
            assert !Close(ps[k0[a]], ps[k0[b]]);
          } else {
            assert k[b] == n - 1;
            assert !Close(ps[k0[a]], ps[n - 1]);
          }
        }
      } else {
        assert KeptIndices(ps, n) == k0;
      }
    }
  }

  /** The kept panels are pairwise at least 100 pixels apart. */
  lemma KeptPanelsApart(ps: seq<Panel>)
    ensures var kept := Kept(ps);
      forall a, b :: 0 <= a < |kept| && 0 <= b < |kept| && a != b ==>
        DistPoints(kept[a].center, kept[b].center) >= MinDist * MinDist
  {
    var k := KeptIndices(ps, |ps|);
    var kept := Kept(ps);
    KeptFarApart(ps, |ps|);
    forall a, b | 0 <= a < |kept| && 0 <= b < |kept| && a != b
      ensures DistPoints(kept[a].center, kept[b].center) >= MinDist * MinDist
    {
      PickAt(ps, k, a);
      PickAt(ps, k, b);
      DistPointsSymmetric(kept[a].center, kept[b].center);
      if a > b {
        assert !Close(ps[k[b]], ps[k[a]]);
      } else {
        assert !Close(ps[k[a]], ps[k[b]]);
      }
    }
  }

  /** Every dropped panel is near a panel kept before it. */
  lemma {:induction false} DroppedNearKept(ps: seq<Panel>, n: nat, j: int)
    requires n <= |ps| && 0 <= j < n
    requires j !in KeptIndices(ps, n)
    ensures exists t :: 0 <= t < |KeptIndices(ps, n)| && KeptIndices(ps, n)[t] < j
              && Close(ps[KeptIndices(ps, n)[t]], ps[j])
  {
    var k0 := KeptIndices(ps, n - 1);
    var k := KeptIndices(ps, n);
    if j == n - 1 {
      assert Absorbed(ps, k0, j);
      assert k == k0;
      var t :| 0 <= t < |k0| && Close(ps[k0[t]], ps[j]);
      assert k0[t] < n - 1;
    } else {
      assert j !in k0;
      DroppedNearKept(ps, n - 1, j);
      var t :| 0 <= t < |k0| && k0[t] < j && Close(ps[k0[t]], ps[j]);
      assert k[t] == k0[t];
    }
  }

  // -----------------------------------------------------------------------
  // Angles and the clockwise order

  /** The angle loop: each panel's angle is `angle(dx, dy)`, the rounded
      atan2 of its offset from the image centre. */
  function WithAngles(ps: seq<Panel>, c: Point, angle: (int, int) -> real): (r: seq<Panel>)
    ensures |r| == |ps|
  {
    seq(|ps|, i requires 0 <= i < |ps| => ps[i].(angle := angle(ps[i].center.x - c.x, ps[i].center.y - c.y)))
  }

  method SetAngles(ps: seq<Panel>, c: Point, angle: (int, int) -> real) returns (r: seq<Panel>)
    ensures r == WithAngles(ps, c, angle)
  {
    r := ps;
    for i := 0 to |ps|
      invariant |r| == |ps|
      invariant forall j :: 0 <= j < i ==> r[j] == WithAngles(ps, c, angle)[j]
      invariant forall j :: i <= j < |ps| ==> r[j] == ps[j]
    {
      var dx := r[i].center.x - c.x;
      var dy := r[i].center.y - c.y;
      r := r[i := r[i].(angle := angle(dx, dy))];
    }
  }

  /** Inserts p before the first panel of s whose angle is not smaller. */
  function InsertByAngle(p: Panel, s: seq<Panel>): (r: seq<Panel>)
    ensures |r| == |s| + 1
    ensures multiset(r) == multiset(s) + multiset{p}
  {
    if s == [] || p.angle <= s[0].angle then [p] + s
    else
      assert s == [s[0]] + s[1..];
      [s[0]] + InsertByAngle(p, s[1..])
  }

  /** `list.sort(key=lambda p: p['angle'])`, a stable sort. */
  function SortByAngle(s: seq<Panel>): (r: seq<Panel>)
    ensures multiset(r) == multiset(s)
  {
    if s == [] then []
    else
      assert s == [s[0]] + s[1..];
      InsertByAngle(s[0], SortByAngle(s[1..]))
  }

  predicate SortedByAngle(s: seq<Panel>)
  {
    forall i, j :: 0 <= i < j < |s| ==> s[i].angle <= s[j].angle
  }

  /** Inserting keeps a common lower bound of the angles. */
  lemma {:induction false} InsertByAngleBound(p: Panel, s: seq<Panel>, lo: real)
    requires p.angle >= lo && forall i :: 0 <= i < |s| ==> s[i].angle >= lo
    ensures forall i :: 0 <= i < |InsertByAngle(p, s)| ==> InsertByAngle(p, s)[i].angle >= lo
  {
    if s != [] && p.angle > s[0].angle {
      InsertByAngleBound(p, s[1..], lo);
    }
  }

  lemma {:induction false} InsertByAngleSorted(p: Panel, s: seq<Panel>)
    requires SortedByAngle(s)
    ensures SortedByAngle(InsertByAngle(p, s))
  {
    if s != [] && p.angle > s[0].angle {
      var t := s[1..];
      InsertByAngleSorted(p, t);
      InsertByAngleBound(p, t, s[0].angle);
      var r := InsertByAngle(p, t);
      var whole := [s[0]] + r;
      assert whole == InsertByAngle(p, s);
      forall i, j | 0 <= i < j < |whole| ensures whole[i].angle <= whole[j].angle {
        assert whole[j] == r[j - 1];
        if i > 0 {
          assert whole[i] == r[i - 1];
        }
      }
    }
  }

  /** The sort orders by angle and keeps every panel. */
  lemma {:induction false} SortByAngleSorted(s: seq<Panel>)
    ensures SortedByAngle(SortByAngle(s))
  {
    if s != [] {
      SortByAngleSorted(s[1..]);
      InsertByAngleSorted(s[0], SortByAngle(s[1..]));
    }
  }

  /** The panels of `s` whose angle is v, in their order in `s`. */
  function WithAngle(s: seq<Panel>, v: real): seq<Panel>
  {
    if s == [] then []
    else (if s[0].angle == v then [s[0]] else []) + WithAngle(s[1..], v)
  }

  /** Inserting p puts it ahead of every panel of equal angle. */
  lemma {:induction false} InsertByAngleStable(p: Panel, s: seq<Panel>, v: real)
    ensures WithAngle(InsertByAngle(p, s), v) == (if p.angle == v then [p] else []) + WithAngle(s, v)
  {
    if s == [] || p.angle <= s[0].angle {
      assert ([p] + s)[1..] == s;
    } else {
      var r := InsertByAngle(p, s[1..]);
      InsertByAngleStable(p, s[1..], v);
      assert ([s[0]] + r)[1..] == r;
      if p.angle == v {
        assert s[0].angle != v;
      }
    }
  }

  /** The sort is stable: for every angle, the panels with that angle keep
      their input order. */
  lemma {:induction false} SortByAngleStable(s: seq<Panel>, v: real)
    ensures WithAngle(SortByAngle(s), v) == WithAngle(s, v)
  {
    if s != [] {
      SortByAngleStable(s[1..], v);
      InsertByAngleStable(s[0], SortByAngle(s[1..]), v);
    }
  }

  // -----------------------------------------------------------------------
  // The dealer rotation

  /** `map(lambda panel: dist_points(panel['center'], dealer_coor), ...)`. */
  function Distances(ps: seq<Panel>, dealer: Point): (ds: seq<int>)
    ensures |ds| == |ps|
  {
    seq(|ps|, i requires 0 <= i < |ps| => DistPoints(ps[i].center, dealer))
  }

  /** `min(ds)`. */
  function MinOf(ds: seq<int>): (m: int)
    requires ds != []
    ensures m in ds
    ensures forall i :: 0 <= i < |ds| ==> m <= ds[i]
  {
    if |ds| == 1 then ds[0]
    else
      var rest := MinOf(ds[1..]);
      assert forall i :: 1 <= i < |ds| ==> ds[i] == ds[1..][i - 1];
      if ds[0] <= rest then ds[0] else rest
  }

  /** `ds.index(v)`: the first position holding v. */
  function IndexOf(ds: seq<int>, v: int): (k: int)
    requires v in ds
    ensures 0 <= k < |ds| && ds[k] == v
    ensures forall j :: 0 <= j < k ==> ds[j] != v
  {
    if ds[0] == v then 0
    else
      var k := IndexOf(ds[1..], v);
      assert forall j :: 1 <= j < |ds| ==> ds[j] == ds[1..][j - 1];
      k + 1
  }

  /** btn_idx: the first panel nearest to the dealer button. */
  function BtnIndex(ps: seq<Panel>, dealer: Point): int
    requires ps != []
  {
    IndexOf(Distances(ps, dealer), MinOf(Distances(ps, dealer)))
  }

  /** The dealer's panel is at least as near to the button as any other
      panel, and strictly nearer than every panel before it. */
  lemma BtnIndexIsFirstNearest(ps: seq<Panel>, dealer: Point)
    requires ps != []
    ensures var k := BtnIndex(ps, dealer);
      && 0 <= k < |ps|
      && (forall j :: 0 <= j < |ps| ==> DistPoints(ps[k].center, dealer) <= DistPoints(ps[j].center, dealer))
      && (forall j :: 0 <= j < k ==> DistPoints(ps[j].center, dealer) > DistPoints(ps[k].center, dealer))
  {
    var ds := Distances(ps, dealer);
    assert forall j :: 0 <= j < |ps| ==> ds[j] == DistPoints(ps[j].center, dealer);
  }

  /** `s[k:] + s[:k]`. */
  function Rotate<T>(s: seq<T>, k: int): seq<T>
    requires 0 <= k <= |s|
  {
    s[k..] + s[..k]
  }

  lemma ModOnce(a: int, n: int)
    requires 0 < n && 0 <= a < 2 * n
    ensures a % n == (if a < n then a else a - n)
  {
  }

  /** Position i of a rotation. */
  lemma RotateAt<T>(s: seq<T>, k: int, i: int)
    requires 0 <= k < |s| && 0 <= i < |s|
    ensures Rotate(s, k)[i] == s[(i + k) % |s|]
  {
    ModOnce(i + k, |s|);
    if i < |s| - k {
      assert Rotate(s, k)[i] == s[k..][i];
    } else {
      assert Rotate(s, k)[i] == s[..k][i - (|s| - k)];
    }
  }

  /** A rotation keeps every element, and position i holds s[(i + k) mod |s|]. */
  lemma RotateShape<T>(s: seq<T>, k: int)
    requires 0 <= k < |s|
    ensures |Rotate(s, k)| == |s|
    ensures multiset(Rotate(s, k)) == multiset(s)
    ensures forall i :: 0 <= i < |s| ==> Rotate(s, k)[i] == s[(i + k) % |s|]
    ensures Rotate(s, k)[0] == s[k]
  {
    assert s == s[..k] + s[k..];
    forall i | 0 <= i < |s| ensures Rotate(s, k)[i] == s[(i + k) % |s|] {
      RotateAt(s, k, i);
    }
  }

  // -----------------------------------------------------------------------
  // Positions and names

  /** pos_names[i] for the first three seats, then M1, M2, ... */
  function PosName(i: nat): string
  {
    if i < 3 then ["BTN", "SB", "BB"][i] else "M" + NatToString(i - 2)
  }

  function UserName(i: nat): string
  {
    "user_" + NatToString(i + 1)
  }

  /** Different seats get different position names. */
  lemma PosNamesDistinct(i: nat, j: nat)
    requires i != j
    ensures PosName(i) != PosName(j)
  {
    if i >= 3 && j >= 3 {
      var a := NatToString(i - 2);
      var b := NatToString(j - 2);
      if PosName(i) == PosName(j) {
        assert a == PosName(i)[1..] && b == PosName(j)[1..];
        NatToStringInjective(i - 2, j - 2);
      }
    } else if i >= 3 || j >= 3 {
      var m := if i >= 3 then i else j;
      assert PosName(m)[0] == 'M';
    }
  }

  /** The positioning loop's result: seat i gets PosName(i) and the name
      user_{i+1}. */
  function Positioned(ps: seq<Panel>): (r: seq<Panel>)
    ensures |r| == |ps|
  {
    seq(|ps|, i requires 0 <= i < |ps| => ps[i].(pos := Some(PosName(i)), name := UserName(i)))
  }

  method AssignPositions(ps: seq<Panel>) returns (r: seq<Panel>)
    ensures r == Positioned(ps)
  {
    r := ps;
    for i := 0 to |ps|
      invariant |r| == |ps|
      invariant forall j :: 0 <= j < i ==> r[j] == Positioned(ps)[j]
      invariant forall j :: i <= j < |ps| ==> r[j] == ps[j]
    {
      var name := if i < 3 then ["BTN", "SB", "BB"][i] else "M" + NatToString(i - 2);
      r := r[i := r[i].(pos := Some(name), name := "user_" + NatToString(i + 1))];
    }
  }

  // -----------------------------------------------------------------------
  // The hero

  /** The first seat whose box contains the hero's card centre. */
  function FirstContaining(ps: seq<Panel>, pt: Point): (h: Option<int>)
    ensures h.Some? ==> 0 <= h.value < |ps| && Contains(ps[h.value].bbox, pt)
                        && forall j :: 0 <= j < h.value ==> !Contains(ps[j].bbox, pt)
    ensures h.None? ==> forall j :: 0 <= j < |ps| ==> !Contains(ps[j].bbox, pt)
  {
    if ps == [] then None
    else if Contains(ps[0].bbox, pt) then Some(0)
    else
      assert forall j :: 1 <= j < |ps| ==> ps[j] == ps[1..][j - 1];
      match FirstContaining(ps[1..], pt)
      case None => None
      case Some(h) => Some(h + 1)
  }

  /** The seats after the hero search: the hero's seat is renamed 'hero'. */
  function MarkHero(ps: seq<Panel>, pt: Point): seq<Panel>
  {
    match FirstContaining(ps, pt)
    case None => ps
    case Some(h) => ps[h := ps[h].(name := "hero")]
  }

  /** hero_pos and hero_stack: from the hero's seat, None and 0 without one. */
  function HeroPos(ps: seq<Panel>, pt: Point): Option<string>
  {
    match FirstContaining(ps, pt)
    case None => None
    case Some(h) => ps[h].pos
  }

  function HeroStack(ps: seq<Panel>, pt: Point): real
  {
    match FirstContaining(ps, pt)
    case None => 0.0
    case Some(h) => ps[h].stack
  }

  /** The hero search loop, stopping at the first containing box. */
  method FindHero(ps: seq<Panel>, pt: Point) returns (r: seq<Panel>, heroPos: Option<string>, heroStack: real)
    ensures r == MarkHero(ps, pt)
    ensures heroPos == HeroPos(ps, pt) && heroStack == HeroStack(ps, pt)
  {
    r, heroPos, heroStack := ps, None, 0.0;
    var i := 0;
    while i < |ps|
      invariant 0 <= i <= |ps|
      invariant forall j :: 0 <= j < i ==> !Contains(ps[j].bbox, pt)
    {
      var b := ps[i].bbox;
      if b.x1 <= pt.x <= b.x2 && b.y1 <= pt.y <= b.y2 {
        r := ps[i := ps[i].(name := "hero")];
        heroPos, heroStack := ps[i].pos, ps[i].stack;
        return;
      }
      i := i + 1;
    }
  }

  // -----------------------------------------------------------------------
  // The street

  /** The street label as written: 1-2 board cards give "Flop", exactly 3
      matches no branch and keeps the initial 'None'. */
  function StreetAsWritten(n: nat): (s: string)
    ensures s == "Preflop" <==> n == 0
    ensures s == "Flop" <==> 1 <= n <= 2
    ensures s == "Turn" <==> n == 4
    ensures s == "River" <==> n >= 5
    ensures s == "None" <==> n == 3
  {
    if n == 0 then "Preflop"
    else if n < 3 then "Flop"
    else if n == 4 then "Turn"
    else if n >= 5 then "River"
    else "None"
  }

  /** The three cards of the flop get no street label as written. */
  lemma FlopLeftUnlabelled()
    ensures StreetAsWritten(3) == "None"
  {
  }

  /** The street with the flop labelled: 0 cards preflop, up to 3 the flop,
      4 the turn, 5 or more the river. */
  function StreetLabel(n: nat): (s: string)
    ensures s == "Preflop" <==> n == 0
    ensures s == "Flop" <==> 1 <= n <= 3
    ensures s == "Turn" <==> n == 4
    ensures s == "River" <==> n >= 5
  {
    if n == 0 then "Preflop"
    else if n <= 3 then "Flop"
    else if n == 4 then "Turn"
    else "River"
  }

  /** The correction changes only the three-card case. */
  lemma StreetLabelDiffersOnlyOnFlop(n: nat)
    ensures StreetLabel(n) == StreetAsWritten(n) <==> n != 3
  {
  }

  // -----------------------------------------------------------------------
  // The whole post-processing

  /** The panels after filtering, angles and the clockwise sort. */
  function Clockwise(rd: Readings, angle: (int, int) -> real): seq<Panel>
  {
    SortByAngle(WithAngles(Kept(rd.panels), rd.imageCentre, angle))
  }

  /** The seats, dealer first. */
  function Seats(rd: Readings, angle: (int, int) -> real): seq<Panel>
  {
    var sorted := Clockwise(rd, angle);
    if sorted == [] then [] else Rotate(sorted, BtnIndex(sorted, rd.dealer))
  }

  /** dict_result after the post-processing. */
  function TableTail(rd: Readings, angle: (int, int) -> real): TableState
  {
    var seats := Positioned(Seats(rd, angle));
    var heroCards := Dedupe(rd.heroCards);
    var board := Dedupe(Minus(rd.boardCards, heroCards));
    TableState(|Kept(rd.panels)|, rd.active, rd.pot, rd.buttons, MarkHero(seats, rd.heroCentre), rd.toCall,
               board, heroCards, HeroPos(seats, rd.heroCentre), HeroStack(seats, rd.heroCentre),
               StreetAsWritten(|board|))
  }

  /** The table state with the flop labelled, as evidently intended. */
  function CorrectedTableTail(rd: Readings, angle: (int, int) -> real): TableState
  {
    var st := TableTail(rd, angle);
    st.(street := StreetLabel(|st.boardCards|))
  }

  /** The corrected table state differs from the one computed only in the
      street, and only when the board holds exactly three cards. */
  lemma CorrectionOnlyOnFlop(rd: Readings, angle: (int, int) -> real)
    ensures CorrectedTableTail(rd, angle).(street := TableTail(rd, angle).street) == TableTail(rd, angle)
    ensures CorrectedTableTail(rd, angle) == TableTail(rd, angle) <==> |TableTail(rd, angle).boardCards| != 3
    ensures |TableTail(rd, angle).boardCards| == 3 ==>
      TableTail(rd, angle).street == "None" && CorrectedTableTail(rd, angle).street == "Flop"
  {
    StreetLabelDiffersOnlyOnFlop(|TableTail(rd, angle).boardCards|);
  }

  lemma ClockwiseNonEmpty(rd: Readings, angle: (int, int) -> real)
    requires rd.panels != []
    ensures 1 <= |Clockwise(rd, angle)| == |KeptIndices(rd.panels, |rd.panels|)| <= |rd.panels|
  {
    KeptIndicesOrdered(rd.panels, |rd.panels|);
    var w := WithAngles(Kept(rd.panels), rd.imageCentre, angle);
    assert |multiset(SortByAngle(w))| == |multiset(w)|;
  }

  /** parse_image from line 209 on: the empty result {} (None) without
      player panels, otherwise the table state, with the street labelled by
      the source's own if-chain. `total_users` starts as the number of panels, one increment
      per panel detection. */
  method ParseImageTail(rd: Readings, angle: (int, int) -> real) returns (r: Option<TableState>)
    ensures r.None? <==> rd.panels == []
    ensures r.Some? ==> r.value == TableTail(rd, angle)
  {
    var totalUsers := |rd.panels|;
    if totalUsers == 0 {
      return None;
    }
    var heroCards := Dedupe(rd.heroCards);
    var board := Dedupe(Minus(rd.boardCards, heroCards));
    var kept, total := FilterPanels(rd.panels, totalUsers);
    var angled := SetAngles(kept, rd.imageCentre, angle);
    var sorted := SortByAngle(angled);
    ClockwiseNonEmpty(rd, angle);
    var btn := BtnIndex(sorted, rd.dealer);
    var seats := sorted[btn..] + sorted[..btn];
    seats := AssignPositions(seats);
    var panels, heroPos, heroStack := FindHero(seats, rd.heroCentre);
    var street := "None";
    if |board| == 0 {
      street := "Preflop";
    } else if |board| < 3 {
      street := "Flop";
    } else if |board| == 4 {
      street := "Turn";
    } else if |board| >= 5 {
      street := "River";
    }
    return Some(TableState(total, rd.active, rd.pot, rd.buttons, panels, rd.toCall,
                           board, heroCards, heroPos, heroStack, street));
  }

  // -----------------------------------------------------------------------
  // Properties of the table state

  /** The seats are a clockwise permutation of the filtered panels, the
      dealer's seat comes first; `size` counts them. */
  lemma SeatsShape(rd: Readings, angle: (int, int) -> real)
    requires rd.panels != []
    ensures var seats := Seats(rd, angle);
      && 1 <= |seats| == TableTail(rd, angle).size == |TableTail(rd, angle).panels| <= |rd.panels|
      && multiset(seats) == multiset(WithAngles(Kept(rd.panels), rd.imageCentre, angle))
      && forall j :: 0 <= j < |seats| ==>
           DistPoints(seats[0].center, rd.dealer) <= DistPoints(seats[j].center, rd.dealer)
  {
    ClockwiseNonEmpty(rd, angle);
    var sorted := Clockwise(rd, angle);
    var k := BtnIndex(sorted, rd.dealer);
    BtnIndexIsFirstNearest(sorted, rd.dealer);
    RotateShape(sorted, k);
    var seats := Seats(rd, angle);
    forall j | 0 <= j < |seats|
      ensures DistPoints(seats[0].center, rd.dealer) <= DistPoints(seats[j].center, rd.dealer)
    {
      assert seats[j] == sorted[(j + k) % |sorted|];
    }
    assert |TableTail(rd, angle).panels| == |Positioned(seats)|;
  }

  /** Seat i is named by PosName(i) (BTN, SB, BB, M1, ...) and no two seats
      share a position; every seat keeps its panel's box, centre and stack. */
  lemma SeatPositions(rd: Readings, angle: (int, int) -> real)
    ensures var seats := Seats(rd, angle);
      var ps := TableTail(rd, angle).panels;
      && |ps| == |seats|
      && (forall i :: 0 <= i < |ps| ==> ps[i].pos == Some(PosName(i)))
      && (forall i, j :: 0 <= i < |ps| && 0 <= j < |ps| && i != j ==> ps[i].pos != ps[j].pos)
      && (forall i :: 0 <= i < |ps| ==>
            ps[i].bbox == seats[i].bbox && ps[i].center == seats[i].center && ps[i].stack == seats[i].stack)
  {
    var seats := Seats(rd, angle);
    var ps := TableTail(rd, angle).panels;
    var pos := Positioned(seats);
    assert forall i :: 0 <= i < |ps| ==>
      (ps[i].pos == pos[i].pos && ps[i].bbox == pos[i].bbox && ps[i].center == pos[i].center && ps[i].stack == pos[i].stack);
    forall i, j | 0 <= i < |ps| && 0 <= j < |ps| && i != j ensures ps[i].pos != ps[j].pos {
      PosNamesDistinct(i, j);
    }
  }

  /** Positioned seats all carry a position and a user_ name. */
  lemma PositionedNames(ps: seq<Panel>)
    ensures forall i :: 0 <= i < |ps| ==>
      Positioned(ps)[i].pos.Some? && Positioned(ps)[i].name != "hero"
  {
    forall i | 0 <= i < |ps| ensures Positioned(ps)[i].name != "hero" {
      assert Positioned(ps)[i].name[0] == 'u';
    }
  }

  /** The hero search on seats that all have a position and none of which
      is called 'hero': only the name of one seat can change; the first
      containing seat, and only it, ends up named 'hero' and gives hero_pos
      and hero_stack; without one hero_pos is None, hero_stack 0 and nobody
      is named 'hero'. */
  lemma MarkHeroShape(ps: seq<Panel>, pt: Point)
    requires forall i :: 0 <= i < |ps| ==> ps[i].pos.Some? && ps[i].name != "hero"
    ensures |MarkHero(ps, pt)| == |ps|
    ensures forall i :: 0 <= i < |ps| ==> MarkHero(ps, pt)[i] == ps[i].(name := MarkHero(ps, pt)[i].name)
    ensures HeroPos(ps, pt).Some? <==>
      exists i :: 0 <= i < |MarkHero(ps, pt)| && Contains(MarkHero(ps, pt)[i].bbox, pt)
    ensures HeroPos(ps, pt).None? ==>
      HeroStack(ps, pt) == 0.0 && forall i :: 0 <= i < |MarkHero(ps, pt)| ==> MarkHero(ps, pt)[i].name != "hero"
    ensures HeroPos(ps, pt).Some? ==>
      exists h :: (0 <= h < |MarkHero(ps, pt)| && Contains(MarkHero(ps, pt)[h].bbox, pt)
        && (forall j :: 0 <= j < h ==> !Contains(MarkHero(ps, pt)[j].bbox, pt))
        && MarkHero(ps, pt)[h].name == "hero"
        && HeroPos(ps, pt) == MarkHero(ps, pt)[h].pos && HeroStack(ps, pt) == MarkHero(ps, pt)[h].stack
        && (forall j :: 0 <= j < |MarkHero(ps, pt)| && j != h ==> MarkHero(ps, pt)[j].name != "hero"))
  {
    var r := MarkHero(ps, pt);
    assert forall i :: 0 <= i < |ps| ==> r[i].bbox == ps[i].bbox;
  }

  /** The hero is found exactly when some seat's box contains the hero's
      card centre; then the first such seat, and only it, is named 'hero'
      and gives hero_pos and hero_stack. Otherwise hero_pos stays None,
      hero_stack 0 and nobody is named 'hero'. */
  lemma HeroSeat(rd: Readings, angle: (int, int) -> real, st: TableState)
    requires st == TableTail(rd, angle)
    ensures st.heroPos.Some? <==> exists i :: 0 <= i < |st.panels| && Contains(st.panels[i].bbox, rd.heroCentre)
    ensures st.heroPos.None? ==>
      st.heroStack == 0.0 && forall i :: 0 <= i < |st.panels| ==> st.panels[i].name != "hero"
    ensures st.heroPos.Some? ==>
      exists h :: (0 <= h < |st.panels| && Contains(st.panels[h].bbox, rd.heroCentre)
        && (forall j :: 0 <= j < h ==> !Contains(st.panels[j].bbox, rd.heroCentre))
        && st.panels[h].name == "hero" && st.heroPos == st.panels[h].pos && st.heroStack == st.panels[h].stack
        && (forall j :: 0 <= j < |st.panels| && j != h ==> st.panels[j].name != "hero"))
  {
    var seats := Positioned(Seats(rd, angle));
    PositionedNames(Seats(rd, angle));
    MarkHeroShape(seats, rd.heroCentre);
    assert st.panels == MarkHero(seats, rd.heroCentre);
    assert st.heroPos == HeroPos(seats, rd.heroCentre) && st.heroStack == HeroStack(seats, rd.heroCentre);
  }

  /** The card lists: hero and board cards each appear once, the board
      holds exactly the detected board cards that are not hero cards, and
      the street is labelled by the board's size. */
  lemma TableCards(rd: Readings, angle: (int, int) -> real)
    ensures var st := TableTail(rd, angle);
      && Distinct(st.heroCards) && Distinct(st.boardCards)
      && (forall c :: c in st.heroCards <==> c in rd.heroCards)
      && (forall c :: c in st.boardCards <==> c in rd.boardCards && c !in rd.heroCards)
      && (forall c :: c in st.boardCards ==> c !in st.heroCards)
      && st.street == StreetAsWritten(|st.boardCards|)
  {
  }
}
