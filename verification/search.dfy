/** The search pipeline `FindTrains`: validate the two station inputs, keep the
    trains that run between them, check the criterion, stable-sort by it and
    return at most `CountOfRecords` records. */
module Search {
  import opened Results
  import opened Seqs
  import opened Strconv
  import opened Clock
  import opened Trains

  datatype Criterion = ByPrice | ByArrivalTime | ByDepartureTime

  function CriterionName(c: Criterion): string {
    match c
    case ByPrice => "price"
    case ByArrivalTime => "arrival-time"
    case ByDepartureTime => "departure-time"
  }

  /** The `switch criteria` of the source: exactly the three names are known. */
  function ParseCriterion(s: string): (r: Option<Criterion>)
    ensures r.Some? ==> CriterionName(r.value) == s
    ensures forall c :: CriterionName(c) == s ==> r == Some(c)
  {
    if s == "price" then Some(ByPrice)
    else if s == "arrival-time" then Some(ByArrivalTime)
    else if s == "departure-time" then Some(ByDepartureTime)
    else None
  }

  /** A station input the source accepts: `Atoi` succeeds with a value >= 0. */
  predicate IsStationInput(s: string) {
    Atoi(s).Some? && Atoi(s).value >= 0
  }

  /** The sort key under a criterion; `a` sorts before `b` exactly when
      `Key(c, a) < Key(c, b)`, which for the times is `time.Time.Before`. */
  function Key(c: Criterion, t: Train): (k: int)
    ensures c == ByPrice ==> k == t.price
    ensures c == ByArrivalTime ==> (k < SecondsPerDay <==> t.arrivalTime.TimeOfDay?)
    ensures c == ByDepartureTime ==> (k < SecondsPerDay <==> t.departureTime.TimeOfDay?)
  {
    match c
    case ByPrice => t.price
    case ByArrivalTime => Instant(t.arrivalTime)
    case ByDepartureTime => Instant(t.departureTime)
  }

  lemma {:induction false} KeyIsGoLess(c: Criterion, t: Train, u: Train)
    ensures c == ByPrice ==> (Key(c, t) < Key(c, u) <==> t.price < u.price)
    ensures c == ByArrivalTime ==> (Key(c, t) < Key(c, u) <==> Before(t.arrivalTime, u.arrivalTime))
    ensures c == ByDepartureTime ==> (Key(c, t) < Key(c, u) <==> Before(t.departureTime, u.departureTime))
  {
  }

  /** Whether a train runs from station `d` to station `a`. */
  function Serves(d: int, a: int): Train -> bool {
    (t: Train) => t.departureStationId == d && t.arrivalStationId == a
  }

  /** Whether a train has key `k` under criterion `c`. */
  function KeyIs(c: Criterion, k: int): Train -> bool {
    (t: Train) => Key(c, t) == k
  }

  ghost predicate SortedBy(c: Criterion, s: seq<Train>) {
    forall i, j :: 0 <= i < j < |s| ==> Key(c, s[i]) <= Key(c, s[j])
  }

  /** Inserts `x` after every element of `s` whose key is not greater than its own. */
  function Insert(c: Criterion, s: seq<Train>, x: Train): (r: seq<Train>)
    ensures |r| == |s| + 1
    decreases |s|
  {
    if s == [] || Key(c, s[|s| - 1]) <= Key(c, x) then s + [x]
    else Insert(c, s[..|s| - 1], x) + [s[|s| - 1]]
  }

  /** Insertion sort by key: the reference for the sort the search performs. */
  function SortByKey(c: Criterion, s: seq<Train>): (r: seq<Train>)
    ensures |r| == |s|
    decreases |s|
  {
    if s == [] then [] else Insert(c, SortByKey(c, s[..|s| - 1]), s[|s| - 1])
  }

  /** The first `CountOfRecords` records, or all of them when there are fewer. */
  function Cap(s: seq<Train>): (r: seq<Train>)
    ensures r <= s
    ensures |r| == if |s| < CountOfRecords then |s| else CountOfRecords
  {
    if |s| > CountOfRecords then s[..CountOfRecords] else s
  }

  lemma {:induction false} InsertPermutes(c: Criterion, s: seq<Train>, x: Train)
    ensures multiset(Insert(c, s, x)) == multiset(s) + multiset{x}
    decreases |s|
  {
    if s != [] && Key(c, s[|s| - 1]) > Key(c, x) {
      var init, last := s[..|s| - 1], s[|s| - 1];
      InsertPermutes(c, init, x);
      assert s == init + [last];
    }
  }

  /** The sort neither loses nor adds a train. */
  lemma {:induction false} SortByKeyPermutes(c: Criterion, s: seq<Train>)
    ensures multiset(SortByKey(c, s)) == multiset(s)
    decreases |s|
  {
    if s != [] {
      var init, last := s[..|s| - 1], s[|s| - 1];
      SortByKeyPermutes(c, init);
      InsertPermutes(c, SortByKey(c, init), last);
      assert s == init + [last];
    }
  }

  /** Where `Insert` puts `x`: after the prefix `s[..j]` when everything from
      `j` on has a greater key and the element before `j`, if any, does not. */
  lemma {:induction false} InsertAt(c: Criterion, s: seq<Train>, x: Train, j: nat)
    requires j <= |s|
    requires forall m :: j <= m < |s| ==> Key(c, s[m]) > Key(c, x)
    requires j == 0 || Key(c, s[j - 1]) <= Key(c, x)
    ensures Insert(c, s, x) == s[..j] + [x] + s[j..]
    decreases |s|
  {
    if j < |s| {
      var init := s[..|s| - 1];
      InsertAt(c, init, x, j);
      assert init[..j] == s[..j];
      assert init[j..] + [s[|s| - 1]] == s[j..];
    } else {
      assert s[..j] == s;
    }
  }

  /** A bound on every key survives insertion of an element within it. */
  lemma {:induction false} InsertBounded(c: Criterion, s: seq<Train>, x: Train, b: int)
    requires forall i :: 0 <= i < |s| ==> Key(c, s[i]) <= b
    requires Key(c, x) <= b
    ensures forall i :: 0 <= i < |Insert(c, s, x)| ==> Key(c, Insert(c, s, x)[i]) <= b
    decreases |s|
  {
    if s != [] && Key(c, s[|s| - 1]) > Key(c, x) {
      InsertBounded(c, s[..|s| - 1], x, b);
    }
  }

  lemma {:induction false} InsertSorted(c: Criterion, s: seq<Train>, x: Train)
    requires SortedBy(c, s)
    ensures SortedBy(c, Insert(c, s, x))
    decreases |s|
  {
    if s != [] && Key(c, s[|s| - 1]) > Key(c, x) {
      var init, last := s[..|s| - 1], s[|s| - 1];
      InsertSorted(c, init, x);
      InsertBounded(c, init, x, Key(c, last));
    }
  }

  /** The sort orders its output by key. */
  lemma {:induction false} SortByKeySorted(c: Criterion, s: seq<Train>)
    ensures SortedBy(c, SortByKey(c, s))
    decreases |s|
  {
    if s != [] {
      SortByKeySorted(c, s[..|s| - 1]);
      InsertSorted(c, SortByKey(c, s[..|s| - 1]), s[|s| - 1]);
    }
  }

  lemma {:induction false} FilterSingleton(x: Train, p: Train -> bool)
    ensures Filter([x], p) == if p(x) then [x] else []
  {
    assert [x][..0] == [];
  }

  /** Moving a kept element past one that is not kept, or the reverse,
      leaves the filtered sequence unchanged. */
  lemma {:induction false} FilterPastOther(r: seq<Train>, init: seq<Train>, x: Train, last: Train, p: Train -> bool)
    requires Filter(r, p) == Filter(init, p) + Filter([x], p)
    requires !(p(x) && p(last))
    ensures Filter(r + [last], p) == Filter(init + [last], p) + Filter([x], p)
  {
    FilterSingleton(x, p);
    FilterSingleton(last, p);
    assert (r + [last])[..|r|] == r;
    assert (init + [last])[..|init|] == init;
    var fr, fi, fl := Filter(r, p), Filter(init, p), Filter([last], p);
    assert Filter(r + [last], p) == fr + fl;
    assert Filter(init + [last], p) == fi + fl;
    if p(x) {
      assert fl == [];
      assert fr + fl == fr;
      assert fi + fl == fi;
    } else {
      assert Filter([x], p) == [];
      assert fr == fi;
      assert fi + fl + [] == fi + fl;
    }
  }

  lemma {:induction false} InsertKeepsKeyOrder(c: Criterion, s: seq<Train>, x: Train, k: int)
    ensures Filter(Insert(c, s, x), KeyIs(c, k)) == Filter(s, KeyIs(c, k)) + Filter([x], KeyIs(c, k))
    decreases |s|
  {
    var p := KeyIs(c, k);
    if s == [] || Key(c, s[|s| - 1]) <= Key(c, x) {
      assert Insert(c, s, x) == s + [x];
      FilterAppend(s, [x], p);
    } else {
      var init, last := s[..|s| - 1], s[|s| - 1];
      InsertKeepsKeyOrder(c, init, x, k);
      assert Insert(c, s, x) == Insert(c, init, x) + [last];
      assert s == init + [last];
      // x and last have different keys, so at most one of them is kept.
      FilterPastOther(Insert(c, init, x), init, x, last, p);
    }
  }

  /** Stability: the trains that share any one key leave the sort in the order
      they entered it. */
  lemma {:induction false} SortByKeyStable(c: Criterion, s: seq<Train>, k: int)
    ensures Filter(SortByKey(c, s), KeyIs(c, k)) == Filter(s, KeyIs(c, k))
    decreases |s|
  {
    if s != [] {
      var init, last := s[..|s| - 1], s[|s| - 1];
      SortByKeyStable(c, init, k);
      InsertKeepsKeyOrder(c, SortByKey(c, init), last, k);
      assert s == init + [last];
      FilterAppend(init, [last], KeyIs(c, k));
    }
  }

  lemma {:induction false} FilterLast(s: seq<Train>, p: Train -> bool)
    requires s != [] && p(s[|s| - 1])
    ensures Filter(s, p) == Filter(s[..|s| - 1], p) + [s[|s| - 1]]
  {
  }

  lemma {:induction false} SortedLastIsGreatest(c: Criterion, s: seq<Train>, t: Train)
    requires SortedBy(c, s) && t in s
    ensures Key(c, t) <= Key(c, s[|s| - 1])
  {
    var i :| 0 <= i < |s| && s[i] == t;
    assert i == |s| - 1 || Key(c, s[i]) <= Key(c, s[|s| - 1]);
  }

  /** If the key class of `u`'s last train reads the same in `v`, then `v`
      ends with a key at least as great. */
  lemma {:induction false} LastKeyBound(c: Criterion, u: seq<Train>, v: seq<Train>)
    requires u != [] && v != [] && SortedBy(c, v)
    requires Filter(u, KeyIs(c, Key(c, u[|u| - 1]))) == Filter(v, KeyIs(c, Key(c, u[|u| - 1])))
    ensures Key(c, u[|u| - 1]) <= Key(c, v[|v| - 1])
  {
    var x := u[|u| - 1];
    var p := KeyIs(c, Key(c, x));
    FilterLast(u, p);
    assert x in Filter(v, p);
    FilterMembers(v, p, x);
    SortedLastIsGreatest(c, v, x);
  }

  /** Two sorted, non-empty sequences with the same key classes end with the
      same train: both end with their greatest key, and the last train of
      that class. */
  lemma {:induction false} LastAgrees(c: Criterion, u: seq<Train>, v: seq<Train>)
    requires u != [] && v != []
    requires SortedBy(c, u) && SortedBy(c, v)
    requires Filter(u, KeyIs(c, Key(c, u[|u| - 1]))) == Filter(v, KeyIs(c, Key(c, u[|u| - 1])))
    requires Filter(v, KeyIs(c, Key(c, v[|v| - 1]))) == Filter(u, KeyIs(c, Key(c, v[|v| - 1])))
    ensures u[|u| - 1] == v[|v| - 1]
  {
    var x, y := u[|u| - 1], v[|v| - 1];
    LastKeyBound(c, u, v);
    LastKeyBound(c, v, u);
    var p := KeyIs(c, Key(c, x));
    FilterLast(u, p);
    FilterLast(v, p);
    var f := Filter(u, p);
    assert f == Filter(v, p);
    assert f[|f| - 1] == x && f[|f| - 1] == y;
  }

  /** Dropping the same last train from both sides keeps the key classes equal. */
  lemma {:induction false} DropLastKeepsClasses(c: Criterion, u: seq<Train>, v: seq<Train>, k: int)
    requires u != [] && v != [] && u[|u| - 1] == v[|v| - 1]
    requires Filter(u, KeyIs(c, k)) == Filter(v, KeyIs(c, k))
    ensures Filter(u[..|u| - 1], KeyIs(c, k)) == Filter(v[..|v| - 1], KeyIs(c, k))
  {
    var p, x := KeyIs(c, k), u[|u| - 1];
    var tail := if p(x) then [x] else [];
    assert Filter(u, p) == Filter(u[..|u| - 1], p) + tail;
    assert Filter(v, p) == Filter(v[..|v| - 1], p) + tail;
    assert Filter(u[..|u| - 1], p) == Filter(u, p)[..|Filter(u, p)| - |tail|];
  }

  /** A non-empty sequence has a non-empty key class: that of its last train. */
  lemma {:induction false} NonEmptyClass(c: Criterion, w: seq<Train>)
    requires w != []
    ensures exists k :: Filter(w, KeyIs(c, k)) != []
  {
    FilterLast(w, KeyIs(c, Key(c, w[|w| - 1])));
  }

  /** A sorted sequence is fixed by what it holds under each key: two sorted
      sequences with the same trains, in the same order, under every key are
      equal. */
  lemma {:induction false} SortedByKeyClassesUnique(c: Criterion, u: seq<Train>, v: seq<Train>)
    requires SortedBy(c, u) && SortedBy(c, v)
    requires forall k :: Filter(u, KeyIs(c, k)) == Filter(v, KeyIs(c, k))
    ensures u == v
    decreases |u| + |v|
  {
    if u == [] && v == [] {
    } else if u == [] || v == [] {
      // One side is empty and the other is not: impossible, the non-empty
      // side has a non-empty key class the empty side lacks.
      NonEmptyClass(c, if u == [] then v else u);
      assert false;
    } else {
      assert Filter(u, KeyIs(c, Key(c, u[|u| - 1]))) == Filter(v, KeyIs(c, Key(c, u[|u| - 1])));
      assert Filter(v, KeyIs(c, Key(c, v[|v| - 1]))) == Filter(u, KeyIs(c, Key(c, v[|v| - 1])));
      LastAgrees(c, u, v);
      var u', v' := u[..|u| - 1], v[..|v| - 1];
      forall k ensures Filter(u', KeyIs(c, k)) == Filter(v', KeyIs(c, k)) {
        DropLastKeepsClasses(c, u, v, k);
      }
      SortedByKeyClassesUnique(c, u', v');
      assert u == u' + [u[|u| - 1]];
      assert v == v' + [v[|v| - 1]];
    }
  }

  /** Any stable sort agrees with `SortByKey`: a sorted sequence that keeps the
      order of every key class of `s` is exactly `SortByKey(c, s)`. */
  lemma {:induction false} StableSortIsSortByKey(c: Criterion, s: seq<Train>, u: seq<Train>)
    requires SortedBy(c, u)
    requires forall k :: Filter(u, KeyIs(c, k)) == Filter(s, KeyIs(c, k))
    ensures u == SortByKey(c, s)
  {
    SortByKeySorted(c, s);
    forall k ensures Filter(u, KeyIs(c, k)) == Filter(SortByKey(c, s), KeyIs(c, k)) {
      SortByKeyStable(c, s, k);
    }
    SortedByKeyClassesUnique(c, u, SortByKey(c, s));
  }

  /** One step of the insertion sort: moves `a[i]` left past the greater keys
      of the sorted prefix `a[..i]`. */
  method InsertStep(a: array<Train>, i: nat, c: Criterion)
    requires i < a.Length
    modifies a
    ensures a[..i + 1] == Insert(c, old(a[..i]), old(a[i]))
    ensures forall m :: i < m < a.Length ==> a[m] == old(a[m])
  {
    var x := a[i];
    ghost var s := a[..i];
    var j := i;
    while j > 0 && Key(c, a[j - 1]) > Key(c, x)
      invariant 0 <= j <= i
      invariant forall m :: 0 <= m < j ==> a[m] == s[m]
      invariant forall m :: j < m <= i ==> a[m] == s[m - 1]
      invariant forall m :: j <= m < i ==> Key(c, s[m]) > Key(c, x)
      invariant forall m :: i < m < a.Length ==> a[m] == old(a[m])
    {
      a[j] := a[j - 1];
      j := j - 1;
    }
    a[j] := x;
    assert a[..i + 1] == s[..j] + [x] + s[j..] by {
      forall m | 0 <= m <= i ensures a[m] == (s[..j] + [x] + s[j..])[m] {
      }
    }
    InsertAt(c, s, x, j);
  }

  /** `sort.SliceStable` on the matches: sorts the array in place by key,
      as an insertion sort. */
  method StableSort(a: array<Train>, c: Criterion)
    modifies a
    ensures a[..] == SortByKey(c, old(a[..]))
  {
    ghost var orig := a[..];
    var i := 0;
    while i < a.Length
      invariant 0 <= i <= a.Length
      invariant a[..i] == SortByKey(c, orig[..i])
      invariant forall m :: i <= m < a.Length ==> a[m] == orig[m]
    {
      InsertStep(a, i, c);
      assert orig[..i + 1][..i] == orig[..i];
      i := i + 1;
    }
    assert orig[..a.Length] == orig;
  }

  /** What a successful search returns: the trains from `d` to `a`, sorted by
      the criterion, cut to `CountOfRecords`. */
  function Found(dataset: seq<Train>, d: int, a: int, c: Criterion): (r: seq<Train>)
    ensures |r| <= CountOfRecords
  {
    Cap(SortByKey(c, Filter(dataset, Serves(d, a))))
  }

  /** The result is in ascending key order. */
  lemma {:induction false} FoundSorted(dataset: seq<Train>, d: int, a: int, c: Criterion)
    ensures SortedBy(c, Found(dataset, d, a, c))
  {
    SortByKeySorted(c, Filter(dataset, Serves(d, a)));
  }

  /** Every train returned is in the dataset and runs from `d` to `a`. */
  lemma {:induction false} FoundFromDataset(dataset: seq<Train>, d: int, a: int, c: Criterion)
    ensures forall t :: t in Found(dataset, d, a, c) ==>
              t in dataset && t.departureStationId == d && t.arrivalStationId == a
  {
    var matches := Filter(dataset, Serves(d, a));
    var sorted := SortByKey(c, matches);
    SortByKeyPermutes(c, matches);
    forall t | t in Found(dataset, d, a, c)
      ensures t in dataset && t.departureStationId == d && t.arrivalStationId == a
    {
      assert t in sorted;
      assert t in multiset(matches);
      FilterMembers(dataset, Serves(d, a), t);
    }
  }

  /** Stability end to end: the returned trains that share a key are the
      first of the matching trains with that key, in dataset order. */
  lemma {:induction false} FoundStable(dataset: seq<Train>, d: int, a: int, c: Criterion, k: int)
    ensures Filter(Found(dataset, d, a, c), KeyIs(c, k)) <= Filter(Filter(dataset, Serves(d, a)), KeyIs(c, k))
  {
    var matches := Filter(dataset, Serves(d, a));
    var sorted := SortByKey(c, matches);
    var r := Found(dataset, d, a, c);
    assert r == sorted[..|r|];
    FilterPrefix(sorted, |r|, KeyIs(c, k));
    SortByKeyStable(c, matches, k);
  }

  /** No matching train left out of the result has a smaller key than one
      that is in it. */
  lemma {:induction false} FoundLeastKeys(dataset: seq<Train>, d: int, a: int, c: Criterion)
    ensures forall t, u ::
              (t in Filter(dataset, Serves(d, a)) && t !in Found(dataset, d, a, c) && u in Found(dataset, d, a, c))
              ==> Key(c, u) <= Key(c, t)
  {
    var matches := Filter(dataset, Serves(d, a));
    var sorted := SortByKey(c, matches);
    var r := Found(dataset, d, a, c);
    SortByKeySorted(c, matches);
    SortByKeyPermutes(c, matches);
    forall t, u | t in matches && t !in r && u in r
      ensures Key(c, u) <= Key(c, t)
    {
      assert t in multiset(sorted);
      var i :| 0 <= i < |sorted| && sorted[i] == t;
      var j :| 0 <= j < |r| && r[j] == u;
      assert r == sorted[..|r|];
      assert i >= |r|;
    }
  }

  /** With no train between the two stations the search succeeds with nothing. */
  lemma {:induction false} FoundNothing(dataset: seq<Train>, d: int, a: int, c: Criterion)
    requires forall t :: t in dataset ==> t.departureStationId != d || t.arrivalStationId != a
    ensures Found(dataset, d, a, c) == []
  {
    var matches := Filter(dataset, Serves(d, a));
    if matches != [] {
      FilterMembers(dataset, Serves(d, a), matches[0]);
    }
  }

  /** `FindTrains` over a dataset given as a parameter. */
  method FindTrains(dataset: seq<Train>, departureStation: string, arrivalStation: string, criteria: string)
    returns (r: Result<seq<Train>>)
    ensures departureStation == "" ==> r == Err(EmptyDeptSt)
    ensures departureStation != "" && !IsStationInput(departureStation) ==> r == Err(BadDeptSt)
    ensures IsStationInput(departureStation) ==>
              (arrivalStation == "" ==> r == Err(EmptyArrSt))
    ensures IsStationInput(departureStation) ==>
              (arrivalStation != "" && !IsStationInput(arrivalStation) ==> r == Err(BadArrSt))
    ensures IsStationInput(departureStation) && IsStationInput(arrivalStation) ==>
              (ParseCriterion(criteria).None? ==> r == Err(UnsCriteria))
    ensures IsStationInput(departureStation) && IsStationInput(arrivalStation) ==>
              (ParseCriterion(criteria).Some? ==>
                 r == Ok(Found(dataset, Atoi(departureStation).value, Atoi(arrivalStation).value,
                               ParseCriterion(criteria).value)))
  {
    if |departureStation| == 0 {
      return Err(EmptyDeptSt);
    }
    var dep := Atoi(departureStation);
    if dep.None? || dep.value < 0 {
      return Err(BadDeptSt);
    }
    if |arrivalStation| == 0 {
      return Err(EmptyArrSt);
    }
    var arr := Atoi(arrivalStation);
    if arr.None? || arr.value < 0 {
      return Err(BadArrSt);
    }

    var result: seq<Train> := [];
    var i := 0;
    while i < |dataset|
      invariant 0 <= i <= |dataset|
      invariant result == Filter(dataset[..i], Serves(dep.value, arr.value))
    {
      var v := dataset[i];
      if v.departureStationId == dep.value && v.arrivalStationId == arr.value {
        result := result + [v];
      }
      assert dataset[..i + 1][..i] == dataset[..i];
      i := i + 1;
    }
    assert dataset[..i] == dataset;

    var crit := ParseCriterion(criteria);
    if crit.None? {
      return Err(UnsCriteria);
    }
    var a := new Train[|result|](k requires 0 <= k < |result| => result[k]);
    assert a[..] == result;
    StableSort(a, crit.value);

    if a.Length > CountOfRecords {
      return Ok(a[..CountOfRecords]);
    }
    if a.Length == 0 {
      return Ok([]);
    }
    return Ok(a[..]);
  }
}
