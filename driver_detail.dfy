/**
 * The computations of the driver detail screen (screens/DriverDetailScreen.tsx): the
 * season's points, wins and podiums, the favourite button and the recent results.
 */
module DriverDetail {
  import opened Wrappers
  import opened Strings
  import opened ClientTypes

  /** `finishingPosition`: a number, or a label such as "NC" or "DQ". */
  datatype Finish = Position(n: int) | Label(text: string)

  datatype RaceResult = RaceResult(finishingPosition: Finish, gridPosition: Finish, pointsObtained: int)

  datatype SprintResult = SprintResult(finishingPosition: Finish, pointsObtained: int)

  /** One race of the season: the race's result and, on sprint weekends, the sprint's. */
  datatype ResultItem = ResultItem(result: RaceResult, sprintResult: Option<SprintResult>)

  /** `drivers.find((d) => d.id === driverId)`: the screen's driver. */
  function DriverOf(drivers: seq<Driver>, id: int): (r: Option<Driver>)
    ensures r.None? <==> forall i :: 0 <= i < |drivers| ==> drivers[i].id != id
    ensures r.Some? ==> exists i :: 0 <= i < |drivers| && drivers[i] == r.value && r.value.id == id
                                    && forall j :: 0 <= j < i ==> drivers[j].id != id
  {
    Find(drivers, (d: Driver) => d.id == id)
  }

  /** What one race adds to the total: its points plus the sprint's, or 0 without a sprint. */
  function ItemPoints(item: ResultItem): int {
    item.result.pointsObtained + (if item.sprintResult.Some? then item.sprintResult.value.pointsObtained else 0)
  }

  /** The reduce over the results, in order, from 0. */
  function Sum(items: seq<ResultItem>): int
    decreases |items|
  {
    if items == [] then 0 else Sum(items[..|items| - 1]) + ItemPoints(items[|items| - 1])
  }

  /** `totalPoints`: the sum over the results, or 0 when there are none. */
  function TotalPoints(results: Option<seq<ResultItem>>): (total: int)
    ensures results.None? || results.value == [] ==> total == 0
  {
    if results.None? then 0 else Sum(results.value)
  }

  /** The total is additive over any split of the season. */
  lemma {:induction false} SumConcat(a: seq<ResultItem>, b: seq<ResultItem>)
    ensures Sum(a + b) == Sum(a) + Sum(b)
    decreases |b|
  {
    if b == [] {
      assert a + b == a;
    } else {
      var b' := b[..|b| - 1];
      assert (a + b)[..|a + b| - 1] == a + b';
      assert (a + b)[|a + b| - 1] == b[|b| - 1];
      SumConcat(a, b');
    }
  }

  /** Points are never negative in practice; then neither is the total, and each race's points are within it. */
  lemma {:induction false} SumBounds(items: seq<ResultItem>, k: nat)
    requires forall i :: 0 <= i < |items| ==> ItemPoints(items[i]) >= 0
    requires k < |items|
    ensures 0 <= ItemPoints(items[k]) <= Sum(items)
  {
    assert items == items[..k] + [items[k]] + items[k + 1..];
    SumConcat(items[..k] + [items[k]], items[k + 1..]);
    SumConcat(items[..k], [items[k]]);
    assert Sum([items[k]]) == ItemPoints(items[k]) by {
      assert [items[k]][..0] == [];
    }
    SumNonNegative(items[..k]);
    SumNonNegative(items[k + 1..]);
  }

  lemma {:induction false} SumNonNegative(items: seq<ResultItem>)
    requires forall i :: 0 <= i < |items| ==> ItemPoints(items[i]) >= 0
    ensures Sum(items) >= 0
    decreases |items|
  {
    if items != [] {
      SumNonNegative(items[..|items| - 1]);
    }
  }

  predicate IsWin(item: ResultItem) {
    item.result.finishingPosition == Position(1)
  }

  predicate IsPodium(item: ResultItem) {
    item.result.finishingPosition.Position? && item.result.finishingPosition.n <= 3
  }

  /** `wins`: the results finished in first place. */
  function Wins(results: Option<seq<ResultItem>>): (n: nat)
    ensures results.None? ==> n == 0
    ensures results.Some? ==> n == |Positions(results.value, IsWin)|
  {
    if results.None? then 0 else FilterCount(results.value, IsWin); |Filter(results.value, IsWin)|
  }

  /** `podiums`: the results with a numeric finishing position of at most 3. */
  function Podiums(results: Option<seq<ResultItem>>): (n: nat)
    ensures results.None? ==> n == 0
    ensures results.Some? ==> n == |Positions(results.value, IsPodium)|
  {
    if results.None? then 0 else FilterCount(results.value, IsPodium); |Filter(results.value, IsPodium)|
  }

  /** A filter by a stronger predicate keeps no more elements. */
  lemma {:induction false} FilterStronger<T>(xs: seq<T>, p: T -> bool, q: T -> bool)
    requires forall x :: p(x) ==> q(x)
    ensures |Filter(xs, p)| <= |Filter(xs, q)|
    decreases |xs|
  {
    if xs != [] {
      FilterStronger(xs[1..], p, q);
    }
  }

  /** Every win is a podium, so wins ≤ podiums ≤ the number of results. */
  lemma WinsWithinPodiums(results: Option<seq<ResultItem>>)
    ensures Wins(results) <= Podiums(results)
    ensures results.Some? ==> Podiums(results) <= |results.value|
    ensures results.None? ==> Wins(results) == 0 && Podiums(results) == 0
  {
    if results.Some? {
      FilterStronger(results.value, IsWin, IsPodium);
    }
  }

  /** The ids the user's favourites list may hold for a driver: its `driverId` and its numeric id as a string. */
  function Favourites(user: Option<UserInfo>): seq<string> {
    if user.Some? && user.value.favoriteDriversIds.Some? then user.value.favoriteDriversIds.value else []
  }

  /** The favourite button's state: the list holds the driver's `driverId` or `String(id)`. */
  predicate IsFavourite(current: seq<string>, d: Driver) {
    d.driverId in current || IntToString(d.id) in current
  }

  /** The filter test of the removal: the id is neither `driverId` nor `String(id)`. */
  function NeitherId(d: Driver): string -> bool {
    (y: string) => y != d.driverId && y != IntToString(d.id)
  }

  /**
   * The list the button sends: without every occurrence of both ids when the driver is a
   * favourite (the others kept in order), else the list with `driverId` appended. The
   * removal is computed as two single-id removals and shown to be the source's one filter.
   */
  function Toggle(current: seq<string>, d: Driver): (updated: seq<string>)
    ensures IsFavourite(current, d) ==> updated == Filter(current, NeitherId(d))
    ensures IsFavourite(current, d) ==>
              !IsFavourite(updated, d)
              && forall y :: y != d.driverId && y != IntToString(d.id) ==> multiset(updated)[y] == multiset(current)[y]
    ensures !IsFavourite(current, d) ==> updated == current + [d.driverId] && |updated| == |current| + 1
    ensures IsFavourite(updated, d) <==> !IsFavourite(current, d)
  {
    if IsFavourite(current, d) then
      var once := Without(current, d.driverId);
      var twice := Without(once, IntToString(d.id));
      assert forall y :: y != d.driverId && y != IntToString(d.id) ==> multiset(twice)[y] == multiset(current)[y] by {
        forall y | y != d.driverId && y != IntToString(d.id)
          ensures multiset(twice)[y] == multiset(current)[y]
        {
          if y !in current {
            assert y !in once;
            assert y !in twice;
          }
        }
      }
      FilterFilter(current, Differs(d.driverId), Differs(IntToString(d.id)), NeitherId(d));
      twice
    else current + [d.driverId]
  }

  /** Adding a favourite and removing it again restores the list. */
  lemma {:induction false} ToggleTwice(current: seq<string>, d: Driver)
    requires !IsFavourite(current, d)
    ensures Toggle(Toggle(current, d), d) == current
  {
    WithoutConcat(current, [d.driverId], d.driverId);
    assert Without([d.driverId], d.driverId) == [] by {
      assert [d.driverId][1..] == [];
    }
    assert current + [] == current;
  }

  /** `xs.reverse()`. */
  function Reverse<T>(xs: seq<T>): (r: seq<T>)
    ensures |r| == |xs|
    ensures forall i :: 0 <= i < |xs| ==> r[i] == xs[|xs| - 1 - i]
  {
    if xs == [] then [] else [xs[|xs| - 1]] + Reverse(xs[..|xs| - 1])
  }

  /** `results.slice(-5).reverse()`: the last five results (all, when fewer), newest first. */
  function Recent<T>(results: seq<T>): (r: seq<T>)
    ensures |r| == if |results| < 5 then |results| else 5
    ensures forall i :: 0 <= i < |r| ==> r[i] == results[|results| - 1 - i]
    ensures results != [] ==> r[0] == results[|results| - 1]
  {
    var start := if |results| < 5 then 0 else |results| - 5;
    Reverse(results[start..])
  }
}
