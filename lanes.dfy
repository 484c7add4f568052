/** The per-frame order in which the stepper visits cars: cars grouped by
    their current lane, each group sorted by position, rear to front. Cars are
    identified by their index in the car list. Also the specification of one
    whole traffic frame: every car's new state, the crossings that ask for a
    cinematic, and the frame's risk. */
module Lanes {
  import opened Scene
  import opened Cars

  predicate IndicesIn(cs: seq<Car>, s: seq<nat>) {
    forall i :: 0 <= i < |s| ==> s[i] < |cs|
  }

  predicate Distinct(s: seq<nat>) {
    forall a, b :: 0 <= a < b < |s| ==> s[a] != s[b]
  }

  /** The indices `s` name cars in ascending order of position. */
  predicate SortedByX(cs: seq<Car>, s: seq<nat>) {
    IndicesIn(cs, s) && forall a, b :: 0 <= a < b < |s| ==> cs[s[a]].x <= cs[s[b]].x
  }

  // ---------- Grouping by lane ----------

  /** Indices of the first `n` cars that are in lane `l`, in list order
      (the order in which the grouping pass pushes them). */
  function Group(cs: seq<Car>, l: nat, n: nat): (g: seq<nat>)
    requires n <= |cs|
    ensures forall j :: j in g <==> 0 <= j < n && cs[j].lane == l
    ensures forall a, b :: 0 <= a < b < |g| ==> g[a] < g[b]
    ensures IndicesIn(cs, g)
  {
    if n == 0 then []
    else
      var g := Group(cs, l, n - 1);
      assert forall a :: 0 <= a < |g| ==> g[a] in g;
      if cs[n - 1].lane == l then g + [n - 1] else g
  }

  // ---------- Sorting by position ----------

  /** Insert car `k` into a group sorted by position, after every car that is
      not strictly ahead of it (so cars at equal positions keep their order). */
  function Insert(cs: seq<Car>, s: seq<nat>, k: nat): (r: seq<nat>)
    requires IndicesIn(cs, s) && k < |cs|
    ensures |r| == |s| + 1
    ensures multiset(r) == multiset(s) + multiset{k}
    ensures forall j :: j in r <==> j in s || j == k
    ensures IndicesIn(cs, r)
  {
    if s == [] then [k]
    else if cs[k].x < cs[s[0]].x then [k] + s
    else
      assert s == [s[0]] + s[1..];
      [s[0]] + Insert(cs, s[1..], k)
  }

  lemma TailSorted(cs: seq<Car>, s: seq<nat>)
    requires SortedByX(cs, s) && s != []
    ensures SortedByX(cs, s[1..])
  {
    var rest := s[1..];
    forall a, b | 0 <= a < b < |rest| ensures cs[rest[a]].x <= cs[rest[b]].x {
      assert rest[a] == s[a + 1] && rest[b] == s[b + 1];
    }
  }

  /** A car no further than every car of a sorted group can go in front of it. */
  lemma ConsSorted(cs: seq<Car>, h: nat, tail: seq<nat>)
    requires SortedByX(cs, tail) && h < |cs|
    requires forall j :: j in tail ==> cs[h].x <= cs[j].x
    ensures SortedByX(cs, [h] + tail)
  {
    var r := [h] + tail;
    forall a, b | 0 <= a < b < |r| ensures cs[r[a]].x <= cs[r[b]].x {
      assert r[b] == tail[b - 1];
      assert tail[b - 1] in tail;
      if a > 0 {
        assert r[a] == tail[a - 1];
      }
    }
  }

  lemma {:induction false} InsertSorted(cs: seq<Car>, s: seq<nat>, k: nat)
    requires SortedByX(cs, s) && k < |cs|
    ensures SortedByX(cs, Insert(cs, s, k))
  {
    if s == [] {
    } else if cs[k].x < cs[s[0]].x {
      ConsSorted(cs, k, s);
    } else {
      var rest := s[1..];
      TailSorted(cs, s);
      InsertSorted(cs, rest, k);
      var tail := Insert(cs, rest, k);
      forall j | j in tail ensures cs[s[0]].x <= cs[j].x {
        if j != k {
          var i :| 0 <= i < |rest| && rest[i] == j;
          assert rest[i] == s[i + 1];
        }
      }
      ConsSorted(cs, s[0], tail);
    }
  }

  lemma {:induction false} InsertDistinct(cs: seq<Car>, s: seq<nat>, k: nat)
    requires IndicesIn(cs, s) && k < |cs| && Distinct(s) && k !in s
    ensures Distinct(Insert(cs, s, k))
  {
    if s != [] && cs[k].x >= cs[s[0]].x {
      var rest := s[1..];
      assert Distinct(rest) by {
        forall a, b | 0 <= a < b < |rest| ensures rest[a] != rest[b] {
          assert rest[a] == s[a + 1] && rest[b] == s[b + 1];
        }
      }
      assert k !in rest;
      InsertDistinct(cs, rest, k);
      var tail := Insert(cs, rest, k);
      assert s[0] !in rest by {
        forall i | 0 <= i < |rest| ensures rest[i] != s[0] {
          assert rest[i] == s[i + 1];
        }
      }
      assert s[0] !in tail;
      var r := [s[0]] + tail;
      forall a, b | 0 <= a < b < |r| ensures r[a] != r[b] {
        assert r[b] == tail[b - 1];
        if a > 0 {
          assert r[a] == tail[a - 1];
        } else {
          assert tail[b - 1] in tail;
        }
      }
    } else if s != [] {
      var r := [k] + s;
      forall a, b | 0 <= a < b < |r| ensures r[a] != r[b] {
        assert r[b] == s[b - 1];
        if a > 0 {
          assert r[a] == s[a - 1];
        } else {
          assert s[b - 1] in s;
        }
      }
    }
  }

  /** A group sorted by ascending position, as the stepper's sort leaves it. */
  function SortByX(cs: seq<Car>, s: seq<nat>): (r: seq<nat>)
    requires IndicesIn(cs, s)
    ensures |r| == |s|
    ensures multiset(r) == multiset(s)
    ensures forall j :: j in r <==> j in s
  {
    if s == [] then []
    else
      var prefix := s[..|s| - 1];
      assert s == prefix + [s[|s| - 1]];
      Insert(cs, SortByX(cs, prefix), s[|s| - 1])
  }

  /** The sort leaves a group sorted by ascending position. */
  lemma {:induction false} SortByXSorted(cs: seq<Car>, s: seq<nat>)
    requires IndicesIn(cs, s)
    ensures SortedByX(cs, SortByX(cs, s))
  {
    if s != [] {
      var prefix := s[..|s| - 1];
      SortByXSorted(cs, prefix);
      InsertSorted(cs, SortByX(cs, prefix), s[|s| - 1]);
    }
  }

  /** The sort neither duplicates nor drops a car. */
  lemma {:induction false} SortByXDistinct(cs: seq<Car>, s: seq<nat>)
    requires IndicesIn(cs, s) && Distinct(s)
    ensures Distinct(SortByX(cs, s))
  {
    if s != [] {
      var prefix := s[..|s| - 1];
      var last := s[|s| - 1];
      assert Distinct(prefix);
      assert s == prefix + [last];
      assert last !in prefix by {
        forall i | 0 <= i < |prefix| ensures prefix[i] != last {
          assert prefix[i] == s[i];
        }
      }
      SortByXDistinct(cs, prefix);
      InsertDistinct(cs, SortByX(cs, prefix), last);
    }
  }

  // ---------- Stability ----------

  /** Sorted by position, and cars at equal positions in ascending list order. */
  predicate StableSorted(cs: seq<Car>, s: seq<nat>) {
    && IndicesIn(cs, s)
    && forall a, b :: 0 <= a < b < |s| ==>
         cs[s[a]].x < cs[s[b]].x || (cs[s[a]].x == cs[s[b]].x && s[a] < s[b])
  }

  lemma StableTail(cs: seq<Car>, s: seq<nat>)
    requires StableSorted(cs, s) && s != []
    ensures StableSorted(cs, s[1..])
    ensures forall j :: j in s[1..] ==> cs[s[0]].x < cs[j].x || (cs[s[0]].x == cs[j].x && s[0] < j)
  {
    var rest := s[1..];
    forall a, b | 0 <= a < b < |rest|
      ensures cs[rest[a]].x < cs[rest[b]].x || (cs[rest[a]].x == cs[rest[b]].x && rest[a] < rest[b])
    {
      assert rest[a] == s[a + 1] && rest[b] == s[b + 1];
    }
    forall j | j in rest ensures cs[s[0]].x < cs[j].x || (cs[s[0]].x == cs[j].x && s[0] < j) {
      var i :| 0 <= i < |rest| && rest[i] == j;
      assert rest[i] == s[i + 1];
    }
  }

  lemma StableCons(cs: seq<Car>, h: nat, tail: seq<nat>)
    requires StableSorted(cs, tail) && h < |cs|
    requires forall j :: j in tail ==> cs[h].x < cs[j].x || (cs[h].x == cs[j].x && h < j)
    ensures StableSorted(cs, [h] + tail)
  {
    var r := [h] + tail;
    forall a, b | 0 <= a < b < |r|
      ensures cs[r[a]].x < cs[r[b]].x || (cs[r[a]].x == cs[r[b]].x && r[a] < r[b])
    {
      assert r[b] == tail[b - 1];
      assert tail[b - 1] in tail;
      if a > 0 {
        assert r[a] == tail[a - 1];
      }
    }
  }

  /** Inserting a car listed after every car of a stably sorted group keeps
      the group stably sorted: it goes after every car not strictly ahead. */
  lemma {:induction false} InsertStable(cs: seq<Car>, s: seq<nat>, k: nat)
    requires StableSorted(cs, s) && k < |cs|
    requires forall j :: j in s ==> j < k
    ensures StableSorted(cs, Insert(cs, s, k))
  {
    if s == [] {
    } else if cs[k].x < cs[s[0]].x {
      StableTail(cs, s);
      StableCons(cs, k, s);
    } else {
      var rest := s[1..];
      StableTail(cs, s);
      assert forall j :: j in rest ==> j in s;
      InsertStable(cs, rest, k);
      assert s[0] in s;
      StableCons(cs, s[0], Insert(cs, rest, k));
    }
  }

  /** The sort is stable: a group listed in ascending list order comes out
      sorted by position, with cars at equal positions still in list order. */
  lemma {:induction false} SortByXStable(cs: seq<Car>, s: seq<nat>)
    requires IndicesIn(cs, s)
    requires forall a, b :: 0 <= a < b < |s| ==> s[a] < s[b]
    ensures StableSorted(cs, SortByX(cs, s))
  {
    if s != [] {
      var prefix := s[..|s| - 1];
      var last := s[|s| - 1];
      SortByXStable(cs, prefix);
      forall j | j in SortByX(cs, prefix) ensures j < last {
        var i :| 0 <= i < |prefix| && prefix[i] == j;
        assert prefix[i] == s[i];
      }
      InsertStable(cs, SortByX(cs, prefix), last);
    }
  }

  /** Cars of a lane at equal positions are visited in their list order. */
  lemma LaneOrderStable(cs: seq<Car>, l: nat)
    ensures var order := LaneOrder(cs, l);
      forall a, b :: 0 <= a < b < |order| && cs[order[a]].x == cs[order[b]].x ==> order[a] < order[b]
  {
    SortByXStable(cs, Group(cs, l, |cs|));
  }

  /** The visiting order of lane `l` in a frame: its cars sorted rear to front. */
  function LaneOrder(cs: seq<Car>, l: nat): seq<nat> {
    SortByX(cs, Group(cs, l, |cs|))
  }

  lemma StrictlyIncreasingDistinct(g: seq<nat>)
    requires forall a, b :: 0 <= a < b < |g| ==> g[a] < g[b]
    ensures Distinct(g)
  {
  }

  /** Each lane's visiting order lists exactly the cars of that lane, each
      once, sorted by position. */
  lemma LaneOrderIsSortedPermutation(cs: seq<Car>, l: nat)
    ensures var order := LaneOrder(cs, l);
      && (forall j :: j in order <==> 0 <= j < |cs| && cs[j].lane == l)
      && multiset(order) == multiset(Group(cs, l, |cs|))
      && Distinct(order)
      && SortedByX(cs, order)
  {
    var g := Group(cs, l, |cs|);
    StrictlyIncreasingDistinct(g);
    SortByXSorted(cs, g);
    SortByXDistinct(cs, g);
  }

  // ---------- The car ahead ----------

  /** Position of `k` in `s`, or `|s|` if absent. */
  function IndexOf(s: seq<nat>, k: nat): (p: nat)
    ensures p <= |s|
    ensures k in s ==> p < |s| && s[p] == k
    ensures k !in s ==> p == |s|
  {
    if s == [] then 0 else if s[0] == k then 0 else 1 + IndexOf(s[1..], k)
  }

  lemma {:induction false} IndexOfDistinct(s: seq<nat>, i: nat)
    requires Distinct(s) && i < |s|
    ensures IndexOf(s, s[i]) == i
  {
    if i > 0 {
      assert s[0] != s[i];
      assert s[1..][i - 1] == s[i];
      IndexOfDistinct(s[1..], i - 1);
    }
  }

  /** Position of the car directly ahead of car `k` in its lane group, if any. */
  function FrontOf(cs: seq<Car>, k: nat): Option<real>
    requires k < |cs|
  {
    var order := LaneOrder(cs, cs[k].lane);
    var p := IndexOf(order, k);
    if p + 1 < |order| then Some(cs[order[p + 1]].x) else None
  }

  /** In a lane's visiting order, the car ahead of the `i`-th car is the next one. */
  lemma FrontInOrder(cs: seq<Car>, l: nat, i: nat)
    requires i < |LaneOrder(cs, l)|
    ensures var order := LaneOrder(cs, l);
      && order[i] < |cs| && cs[order[i]].lane == l
      && (i + 1 < |order| ==> order[i + 1] < |cs| && cs[order[i + 1]].lane == l)
      && FrontOf(cs, order[i]) == if i + 1 < |order| then Some(cs[order[i + 1]].x) else None
  {
    var order := LaneOrder(cs, l);
    LaneOrderIsSortedPermutation(cs, l);
    assert order[i] in order;
    if i + 1 < |order| {
      assert order[i + 1] in order;
    }
    IndexOfDistinct(order, i);
  }

  /** All of a lane's fronts at once: each car's front is the next car in the
      lane's visiting order. */
  lemma OrderFronts(cs: seq<Car>, l: nat)
    ensures IndicesIn(cs, LaneOrder(cs, l))
    ensures forall i :: 0 <= i < |LaneOrder(cs, l)| ==>
      FrontsOf(cs)[LaneOrder(cs, l)[i]] ==
        if i + 1 < |LaneOrder(cs, l)| then Some(cs[LaneOrder(cs, l)[i + 1]].x) else None
  {
    forall i | 0 <= i < |LaneOrder(cs, l)|
      ensures LaneOrder(cs, l)[i] < |cs|
      ensures FrontsOf(cs)[LaneOrder(cs, l)[i]] ==
        if i + 1 < |LaneOrder(cs, l)| then Some(cs[LaneOrder(cs, l)[i + 1]].x) else None
    {
      FrontsOfInOrder(cs, l, i);
    }
  }

  lemma FrontsOfInOrder(cs: seq<Car>, l: nat, i: nat)
    requires i < |LaneOrder(cs, l)|
    ensures var order := LaneOrder(cs, l);
      && order[i] < |cs|
      && FrontsOf(cs)[order[i]] == if i + 1 < |order| then Some(cs[order[i + 1]].x) else None
  {
    var order := LaneOrder(cs, l);
    FrontInOrder(cs, l, i);
    assert FrontsOf(cs)[order[i]] == FrontOf(cs, order[i]);
  }

  /** The car ahead is in the same lane and not behind. */
  lemma FrontIsAhead(cs: seq<Car>, k: nat)
    requires k < |cs|
    ensures FrontOf(cs, k).Some? ==>
      exists f :: 0 <= f < |cs| && f != k && cs[f].lane == cs[k].lane &&
        FrontOf(cs, k).value == cs[f].x && cs[f].x >= cs[k].x
  {
    var order := LaneOrder(cs, cs[k].lane);
    LaneOrderIsSortedPermutation(cs, cs[k].lane);
    var p := IndexOf(order, k);
    if p + 1 < |order| {
      var f := order[p + 1];
      assert f in order;
      assert order[p] == k;
    }
  }

  /** Cars in the same lane strictly further ahead make the front car no further away
      than they are. */
  lemma FrontNoFurtherThan(cs: seq<Car>, k: nat, j: nat)
    requires k < |cs| && j < |cs| && cs[j].lane == cs[k].lane && cs[k].x < cs[j].x
    ensures FrontOf(cs, k).Some? && FrontOf(cs, k).value <= cs[j].x
  {
    var order := LaneOrder(cs, cs[k].lane);
    LaneOrderIsSortedPermutation(cs, cs[k].lane);
    var p := IndexOf(order, k);
    var q := IndexOf(order, j);
    assert order[p] == k && order[q] == j;
    assert p + 1 <= q;
    if p + 1 < q {
      assert cs[order[p + 1]].x <= cs[order[q]].x;
    }
  }

  // ---------- One frame of traffic ----------

  /** For every car, the pre-frame position of the car ahead of it, if any. */
  function FrontsOf(cs: seq<Car>): (f: seq<Option<real>>)
    ensures |f| == |cs|
    ensures forall k :: 0 <= k < |cs| ==> f[k] == FrontOf(cs, k)
  {
    seq(|cs|, k requires 0 <= k < |cs| => FrontOf(cs, k))
  }

  /** Every car moved by one frame, given what is ahead of each. */
  function StepAll(cs: seq<Car>, fronts: seq<Option<real>>, dt: real): (r: seq<Car>)
    requires |fronts| == |cs|
    ensures |r| == |cs|
  {
    seq(|cs|, k requires 0 <= k < |cs| => StepCar(cs[k], fronts[k], dt))
  }

  /** Every car's state after one frame: each car moves on its own pre-frame
      state and on the pre-frame position of the car ahead in its lane group. */
  function Stepped(cs: seq<Car>, dt: real): (r: seq<Car>)
    ensures |r| == |cs|
  {
    StepAll(cs, FrontsOf(cs), dt)
  }

  predicate AllCarsOk(cs: seq<Car>) {
    forall k :: 0 <= k < |cs| ==> CarOk(cs[k])
  }

  /** A frame keeps every car on the road, targeting its lane or the next one. */
  lemma SteppedKeepsCarsOk(cs: seq<Car>, dt: real)
    requires AllCarsOk(cs)
    ensures AllCarsOk(Stepped(cs, dt))
  {
    var fronts := FrontsOf(cs);
    forall k | 0 <= k < |cs| ensures CarOk(StepAll(cs, fronts, dt)[k]) {
      StepCarOk(cs[k], fronts[k], dt);
    }
  }

  /** A car whose car in front is no further than `bound` slows down at
      least as much as a gap of `bound` would make it. */
  lemma GapFactorAtMost(c: Car, front: Option<real>, bound: real)
    requires front.Some? && front.value <= bound
    ensures bound - c.x < NearGap ==> GapSlowdown(c.x, front) == NearFactor
    ensures bound - c.x < FarGap ==> GapSlowdown(c.x, front) <= FarFactor
  {
  }

  /** A car less than 3 behind another car of its lane gets the gap factor
      0.1 on its (mat-shaped) speed; one less than 6 behind gets at most 0.55. */
  lemma FollowerSlowed(cs: seq<Car>, k: nat, j: nat)
    requires k < |cs| && j < |cs| && cs[j].lane == cs[k].lane && cs[k].x < cs[j].x
    ensures cs[j].x - cs[k].x < NearGap ==> GapSlowdown(cs[k].x, FrontsOf(cs)[k]) == NearFactor
    ensures cs[j].x - cs[k].x < FarGap ==> GapSlowdown(cs[k].x, FrontsOf(cs)[k]) <= FarFactor
  {
    FrontNoFurtherThan(cs, k, j);
    GapFactorAtMost(cs[k], FrontsOf(cs)[k], cs[j].x);
  }

  /** `v` is where one of the cars of `order` stands after advancing this
      frame, having just driven onto the mat's start line. */
  predicate CrossedAt(cs: seq<Car>, fronts: seq<Option<real>>, order: seq<nat>, dt: real, v: real)
    requires |fronts| == |cs| && IndicesIn(cs, order)
  {
    exists j :: 0 <= j < |order| && Crosses(cs[order[j]], fronts[order[j]], dt) &&
      v == AdvancedX(cs[order[j]], fronts[order[j]], dt)
  }

  /** The x positions, in visiting order, at which work-lane cars cross the
      mat's start line during the frame (before recycling). */
  function Crossings(cs: seq<Car>, fronts: seq<Option<real>>, order: seq<nat>, dt: real): (r: seq<real>)
    requires |fronts| == |cs| && IndicesIn(cs, order)
    ensures |r| <= |order|
    ensures forall i :: 0 <= i < |r| ==> r[i] >= XTapis
    ensures forall i :: 0 <= i < |r| ==> CrossedAt(cs, fronts, order, dt, r[i])
  {
    if order == [] then []
    else
      var prefix := order[..|order| - 1];
      var k := order[|order| - 1];
      var before := Crossings(cs, fronts, prefix, dt);
      assert forall i :: 0 <= i < |before| ==> CrossedAt(cs, fronts, order, dt, before[i]) by {
        forall i | 0 <= i < |before| ensures CrossedAt(cs, fronts, order, dt, before[i]) {
          var j :| 0 <= j < |prefix| && Crosses(cs[prefix[j]], fronts[prefix[j]], dt) &&
            before[i] == AdvancedX(cs[prefix[j]], fronts[prefix[j]], dt);
          assert prefix[j] == order[j];
        }
      }
      before + (if Crosses(cs[k], fronts[k], dt) then [AdvancedX(cs[k], fronts[k], dt)] else [])
  }

  /** Visiting one more car appends its crossing, if any. */
  lemma CrossingsStep(cs: seq<Car>, fronts: seq<Option<real>>, order: seq<nat>, i: nat, dt: real)
    requires |fronts| == |cs| && IndicesIn(cs, order) && i < |order|
    ensures var k := order[i];
      Crossings(cs, fronts, order[..i + 1], dt) == Crossings(cs, fronts, order[..i], dt) +
        (if Crosses(cs[k], fronts[k], dt) then [AdvancedX(cs[k], fronts[k], dt)] else [])
  {
    assert order[..i + 1][..i] == order[..i];
  }

  /** No car of `order` crosses the mat's start line this frame. */
  predicate NoneCross(cs: seq<Car>, fronts: seq<Option<real>>, order: seq<nat>, dt: real)
    requires |fronts| == |cs| && IndicesIn(cs, order)
  {
    forall i :: 0 <= i < |order| ==> !Crosses(cs[order[i]], fronts[order[i]], dt)
  }

  lemma NoneCrossSnoc(cs: seq<Car>, fronts: seq<Option<real>>, order: seq<nat>, dt: real)
    requires |fronts| == |cs| && IndicesIn(cs, order) && order != []
    ensures var k := order[|order| - 1];
      NoneCross(cs, fronts, order, dt) <==>
        NoneCross(cs, fronts, order[..|order| - 1], dt) && !Crosses(cs[k], fronts[k], dt)
  {
    var prefix := order[..|order| - 1];
    assert forall i :: 0 <= i < |prefix| ==> prefix[i] == order[i];
  }

  lemma CrossingsSnocEmpty(cs: seq<Car>, fronts: seq<Option<real>>, order: seq<nat>, dt: real)
    requires |fronts| == |cs| && IndicesIn(cs, order) && order != []
    ensures var k := order[|order| - 1];
      Crossings(cs, fronts, order, dt) == [] <==>
        Crossings(cs, fronts, order[..|order| - 1], dt) == [] && !Crosses(cs[k], fronts[k], dt)
  {
  }

  /** A crossing is reported exactly when some visited car crosses. */
  lemma {:induction false} CrossingsEmpty(cs: seq<Car>, fronts: seq<Option<real>>, order: seq<nat>, dt: real)
    requires |fronts| == |cs| && IndicesIn(cs, order)
    ensures Crossings(cs, fronts, order, dt) == [] <==> NoneCross(cs, fronts, order, dt)
  {
    if order != [] {
      CrossingsEmpty(cs, fronts, order[..|order| - 1], dt);
      NoneCrossSnoc(cs, fronts, order, dt);
      CrossingsSnocEmpty(cs, fronts, order, dt);
    }
  }

  /** The first car of `order` that crosses this frame, and where it stands after advancing. */
  predicate FirstCrosserAt(cs: seq<Car>, fronts: seq<Option<real>>, order: seq<nat>, dt: real, v: real)
    requires |fronts| == |cs| && IndicesIn(cs, order)
  {
    exists j :: 0 <= j < |order| && Crosses(cs[order[j]], fronts[order[j]], dt) &&
      v == AdvancedX(cs[order[j]], fronts[order[j]], dt) &&
      forall i :: 0 <= i < j ==> !Crosses(cs[order[i]], fronts[order[i]], dt)
  }

  /** The first reported crossing is that of the first car, in visiting
      order, that crosses this frame. */
  lemma {:induction false} FirstCrossing(cs: seq<Car>, fronts: seq<Option<real>>, order: seq<nat>, dt: real)
    requires |fronts| == |cs| && IndicesIn(cs, order)
    ensures var r := Crossings(cs, fronts, order, dt);
      r != [] ==> FirstCrosserAt(cs, fronts, order, dt, r[0])
  {
    if order != [] {
      var prefix := order[..|order| - 1];
      var before := Crossings(cs, fronts, prefix, dt);
      var r := Crossings(cs, fronts, order, dt);
      assert forall i :: 0 <= i < |prefix| ==> prefix[i] == order[i];
      if before != [] {
        FirstCrossing(cs, fronts, prefix, dt);
        assert r[0] == before[0];
        var j :| 0 <= j < |prefix| && Crosses(cs[prefix[j]], fronts[prefix[j]], dt) &&
          before[0] == AdvancedX(cs[prefix[j]], fronts[prefix[j]], dt) &&
          forall i :: 0 <= i < j ==> !Crosses(cs[prefix[i]], fronts[prefix[i]], dt);
        assert prefix[j] == order[j];
      } else if r != [] {
        CrossingsEmpty(cs, fronts, prefix, dt);
        var j := |order| - 1;
        assert Crosses(cs[order[j]], fronts[order[j]], dt);
        assert forall i :: 0 <= i < j ==> !Crosses(cs[order[i]], fronts[order[i]], dt);
      }
    }
  }

  /** The crossings of a frame: only work-lane cars, visited rear to front. */
  function FrameCrossings(cs: seq<Car>, dt: real): seq<real> {
    LaneOrderIsSortedPermutation(cs, WorkLane);
    Crossings(cs, FrontsOf(cs), LaneOrder(cs, WorkLane), dt)
  }

  /** Largest score, over the first `n` cars that were in the work lane, of
      their new positions `next`; 0 when there is none. */
  function MaxWorkScore(cs: seq<Car>, next: seq<Car>, n: nat): (m: int)
    requires n <= |cs| == |next|
    ensures 0 <= m <= 100
    ensures forall k :: 0 <= k < n && cs[k].lane == WorkLane ==> Score(next[k].x) <= m
    ensures m == 0 || exists k :: 0 <= k < n && cs[k].lane == WorkLane && Score(next[k].x) == m
  {
    if n == 0 then 0
    else
      var m := MaxWorkScore(cs, next, n - 1);
      if cs[n - 1].lane == WorkLane then Max(m, Score(next[n - 1].x)) else m
  }

  /** The signal alert a frame raises: some car was on the mat. */
  predicate FrameAlert(cs: seq<Car>) {
    exists k :: 0 <= k < |cs| && OnMat(cs[k])
  }

  /** The risk a frame reports. */
  function FrameRisk(cs: seq<Car>, dt: real): int {
    MaxWorkScore(cs, Stepped(cs, dt), |cs|)
  }

  /** A maximum is determined by being an upper bound that is attained (or 0). */
  lemma MaxWorkScoreUnique(cs: seq<Car>, next: seq<Car>, m: int)
    requires |cs| == |next| && m >= 0
    requires forall k :: 0 <= k < |cs| && cs[k].lane == WorkLane ==> Score(next[k].x) <= m
    requires m == 0 || exists k :: 0 <= k < |cs| && cs[k].lane == WorkLane && Score(next[k].x) == m
    ensures m == MaxWorkScore(cs, next, |cs|)
  {
  }
}
