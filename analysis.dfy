/** The analysis buttons of the board: degree counting over the drawn lines,
    the "key node" selection (top tenth by degree) and the set of clues that
    touch some line. */
module Analysis {
  import opened Common
  import opened Api

  /** Every line adds one to its source and one to its target (two to the single
      node of a self-loop). */
  function Degree(conns: seq<ConnJson>, id: nat): nat
  {
    if conns == [] then 0
    else
      var c := conns[|conns| - 1];
      Degree(conns[..|conns| - 1], id) + (if c.source == id then 1 else 0) + (if c.target == id then 1 else 0)
  }

  /** A line from a node to itself adds two to that node's degree. */
  lemma SelfLoopAddsTwo(conns: seq<ConnJson>, c: ConnJson)
    requires c.source == c.target
    ensures Degree(conns + [c], c.source) == Degree(conns, c.source) + 2
  {
    assert (conns + [c])[..|conns|] == conns;
  }

  ghost predicate EndpointsIn(conns: seq<ConnJson>, ids: set<nat>)
  {
    forall c :: c in conns ==> c.source in ids && c.target in ids
  }

  function SumDegrees(ids: seq<nat>, conns: seq<ConnJson>): nat
  {
    if ids == [] then 0 else Degree(conns, ids[0]) + SumDegrees(ids[1..], conns)
  }

  /** How many times `id` occurs in `ids`. */
  function Occurrences(ids: seq<nat>, id: nat): nat
  {
    if ids == [] then 0 else (if ids[0] == id then 1 else 0) + Occurrences(ids[1..], id)
  }

  lemma {:induction false} OccurrencesOfDistinct(ids: seq<nat>, id: nat)
    requires NoDuplicates(ids)
    ensures Occurrences(ids, id) == if id in ids then 1 else 0
  {
    if ids != [] {
      assert NoDuplicates(ids[1..]);
      OccurrencesOfDistinct(ids[1..], id);
      if ids[0] == id {
        assert id !in ids[1..];
      }
    }
  }

  /** Adding one line adds to the sum exactly the number of listed ids equal to
      its source plus the number equal to its target. */
  lemma {:induction false} SumDegreesStep(ids: seq<nat>, conns: seq<ConnJson>, c: ConnJson)
    ensures SumDegrees(ids, conns + [c])
         == SumDegrees(ids, conns) + Occurrences(ids, c.source) + Occurrences(ids, c.target)
  {
    assert (conns + [c])[..|conns|] == conns;
    if ids != [] {
      SumDegreesStep(ids[1..], conns, c);
    }
  }

  /** Degrees over all loaded clues add up to twice the number of lines. */
  lemma {:induction false} DegreeSum(ids: seq<nat>, conns: seq<ConnJson>)
    requires NoDuplicates(ids)
    requires EndpointsIn(conns, Elems(ids))
    ensures SumDegrees(ids, conns) == 2 * |conns|
  {
    if conns == [] {
      SumOfNoLines(ids);
    } else {
      var front, c := conns[..|conns| - 1], conns[|conns| - 1];
      assert conns == front + [c];
      assert c in conns;
      DegreeSum(ids, front);
      SumDegreesStep(ids, front, c);
      OccurrencesOfDistinct(ids, c.source);
      OccurrencesOfDistinct(ids, c.target);
    }
  }

  lemma {:induction false} SumOfNoLines(ids: seq<nat>)
    ensures SumDegrees(ids, []) == 0
  {
    if ids != [] {
      SumOfNoLines(ids[1..]);
    }
  }

  /** The degree loop of `highlightKeyNodes`: every loaded id starts at 0, then
      each line increments its source and its target. */
  method ComputeDegrees(ids: seq<nat>, conns: seq<ConnJson>) returns (degree: map<nat, nat>)
    requires EndpointsIn(conns, Elems(ids))
    ensures degree.Keys == Elems(ids)
    ensures forall id :: id in degree ==> degree[id] == Degree(conns, id)
  {
    degree := map id | id in ids :: 0;
    var i := 0;
    while i < |conns|
      invariant 0 <= i <= |conns|
      invariant degree.Keys == Elems(ids)
      invariant forall id :: id in degree ==> degree[id] == Degree(conns[..i], id)
    {
      var c := conns[i];
      assert c in conns;
      assert conns[..i + 1][..i] == conns[..i];
      degree := degree[c.source := degree[c.source] + 1];
      degree := degree[c.target := degree[c.target] + 1];
      i := i + 1;
    }
    assert conns[..i] == conns;
  }

  /** `Math.ceil(n * 0.1)`: the number of key nodes among n clues. */
  function KeyCount(n: nat): (k: nat)
    ensures n == 0 ==> k == 0
    ensures n > 0 ==> 1 <= k <= n
    ensures 10 * k >= n && (k == 0 || 10 * (k - 1) < n)
  {
    (n + 9) / 10
  }

  /** A missing id counts as degree 0 (never the case for loaded clues). */
  function Deg(degree: map<nat, nat>, id: nat): nat
  {
    if id in degree then degree[id] else 0
  }

  /** The order of the sorted entries: higher degree first, and among equal
      degrees the smaller id, which `Object.keys` lists first and the stable
      sort keeps first. */
  predicate Before(degree: map<nat, nat>, a: nat, b: nat)
  {
    Deg(degree, a) > Deg(degree, b) || (Deg(degree, a) == Deg(degree, b) && a < b)
  }

  ghost predicate SortedByDegree(degree: map<nat, nat>, s: seq<nat>)
  {
    forall i, j :: 0 <= i < j < |s| ==> Before(degree, s[i], s[j])
  }

  /** One step of a stable insertion sort by descending degree: `x`, which came
      before everything in `s`, goes in front of the first entry of no greater degree. */
  function InsertByDegree(degree: map<nat, nat>, x: nat, s: seq<nat>): seq<nat>
  {
    if s == [] || Deg(degree, s[0]) <= Deg(degree, x) then [x] + s
    else [s[0]] + InsertByDegree(degree, x, s[1..])
  }

  /** `Object.entries(degree).sort((a, b) => b[1] - a[1])`, a stable sort. */
  function SortByDegree(degree: map<nat, nat>, ids: seq<nat>): seq<nat>
  {
    if ids == [] then [] else InsertByDegree(degree, ids[0], SortByDegree(degree, ids[1..]))
  }

  lemma {:induction false} InsertByDegreeSorted(degree: map<nat, nat>, x: nat, s: seq<nat>)
    requires SortedByDegree(degree, s)
    requires forall y :: y in s ==> x < y
    ensures multiset(InsertByDegree(degree, x, s)) == multiset(s) + multiset{x}
    ensures SortedByDegree(degree, InsertByDegree(degree, x, s))
  {
    if s == [] || Deg(degree, s[0]) <= Deg(degree, x) {
      var r := [x] + s;
      forall j | 0 < j < |r| ensures Before(degree, x, r[j]) {
        assert r[j] == s[j - 1] && s[j - 1] in s;
        if j > 1 {
          assert Before(degree, s[0], s[j - 1]);
        }
      }
      assert SortedByDegree(degree, r);
    } else {
      var rest := s[1..];
      assert SortedByDegree(degree, rest);
      assert s == [s[0]] + rest;
      forall y | y in rest ensures x < y {
        assert y in s;
      }
      InsertByDegreeSorted(degree, x, rest);
      var ins := InsertByDegree(degree, x, rest);
      var r := [s[0]] + ins;
      forall j | 0 < j < |r| ensures Before(degree, s[0], r[j]) {
        assert r[j] in multiset(ins);
        if r[j] != x {
          assert r[j] in rest;
          var k :| 0 <= k < |rest| && rest[k] == r[j];
          assert s[k + 1] == r[j];
        }
      }
      assert SortedByDegree(degree, r);
    }
  }

  /** Sorting the ascending key list gives a permutation of it ordered by Before. */
  lemma {:induction false} SortByDegreeSorted(degree: map<nat, nat>, ids: seq<nat>)
    requires StrictlyIncreasing(ids)
    ensures multiset(SortByDegree(degree, ids)) == multiset(ids)
    ensures SortedByDegree(degree, SortByDegree(degree, ids))
  {
    if ids != [] {
      var rest := ids[1..];
      assert StrictlyIncreasing(rest);
      SortByDegreeSorted(degree, rest);
      var sorted := SortByDegree(degree, rest);
      HeadBelowRest(ids, sorted);
      InsertByDegreeSorted(degree, ids[0], sorted);
      assert ids == [ids[0]] + rest;
    }
  }

  lemma HeadBelowRest(ids: seq<nat>, s: seq<nat>)
    requires StrictlyIncreasing(ids) && ids != [] && multiset(s) == multiset(ids[1..])
    ensures forall y :: y in s ==> ids[0] < y
  {
    forall y | y in s ensures ids[0] < y {
      assert y in multiset(ids[1..]);
      var k :| 0 <= k < |ids| - 1 && ids[1..][k] == y;
      assert ids[k + 1] == y;
    }
  }

  /** `s.slice(0, k)`: the first k entries, or all of them when there are fewer. */
  function Take(s: seq<nat>, k: nat): seq<nat>
  {
    if k <= |s| then s[..k] else s
  }

  /** `keyNodeIds`: the first `ceil(n/10)` entries of the sorted list. */
  function KeyNodes(degree: map<nat, nat>, ids: seq<nat>): set<nat>
  {
    set x | x in Take(SortByDegree(degree, ids), KeyCount(|ids|))
  }

  /** The key set is a tenth of the clues rounded up (so at least one clue when there
      are any), and every key clue comes before every other clue: it has a higher
      degree, or the same degree and a smaller id. */
  lemma KeyNodesAreTop(degree: map<nat, nat>, ids: seq<nat>)
    requires StrictlyIncreasing(ids)
    ensures KeyNodes(degree, ids) <= Elems(ids)
    ensures |KeyNodes(degree, ids)| == KeyCount(|ids|)
    ensures forall x, y :: x in KeyNodes(degree, ids) && y in ids && y !in KeyNodes(degree, ids)
              ==> Before(degree, x, y)
  {
    var sorted := SortByDegree(degree, ids);
    var k := KeyCount(|ids|);
    SortByDegreeSorted(degree, ids);
    assert |sorted| == |multiset(sorted)| == |multiset(ids)| == |ids|;
    assert NoDuplicates(sorted);
    var keys := KeyNodes(degree, ids);
    assert Take(sorted, k) == sorted[..k];
    assert NoDuplicates(sorted[..k]);
    DistinctCard(sorted[..k]);
    forall x | x in keys ensures x in ids {
      assert x in multiset(sorted);
    }
    forall x, y | x in keys && y in ids && y !in keys ensures Before(degree, x, y) {
      var i :| 0 <= i < k && sorted[..k][i] == x;
      assert y in multiset(sorted);
      var j :| 0 <= j < |sorted| && sorted[j] == y;
      assert j >= k;
    }
  }

  /** A worked example: five clues, clue 1 joined to clues 2, 3 and 4; only clue 1
      is a key node. */
  const ExampleIds: seq<nat> := [1, 2, 3, 4, 5]
  const ExampleLines: seq<ConnJson> := [ConnJson(1, 1, 2, None), ConnJson(2, 1, 3, None), ConnJson(3, 1, 4, None)]

  function ExampleDegrees(): map<nat, nat>
  {
    map id | id in ExampleIds :: Degree(ExampleLines, id)
  }

  lemma KeyNodesExample()
    ensures KeyNodes(ExampleDegrees(), ExampleIds) == {1}
  {
    var conns := ExampleLines;
    var ids := ExampleIds;
    var degree := ExampleDegrees();
    var c1, c2 := conns[..2], conns[..1];
    assert conns[..|conns| - 1] == c1 && c1[..|c1| - 1] == c2 && c2[..|c2| - 1] == [];
    forall id | id in ids ensures Deg(degree, id) == Degree(conns, id) {
      assert id in degree;
    }
    forall id | id in ids
      ensures Degree(conns, id) == (if id == 1 then 3 else if id == 5 then 0 else 1)
    {
      assert Degree(c2, id) == (if id == 1 || id == 2 then 1 else 0);
      assert Degree(c1, id) == (if id == 1 then 2 else if id == 2 || id == 3 then 1 else 0);
    }
    KeyNodesAreTop(degree, ids);
    var keys := KeyNodes(degree, ids);
    assert |keys| == 1;
    assert keys == {1};
  }

  /** The ids touched by some line: `connectedNodeIds`. */
  function Endpoints(conns: seq<ConnJson>): set<nat>
  {
    if conns == [] then {}
    else
      var c := conns[|conns| - 1];
      Endpoints(conns[..|conns| - 1]) + {c.source, c.target}
  }

  /** A clue is among the endpoints exactly when some line starts or ends at it. */
  lemma {:induction false} EndpointsMembership(conns: seq<ConnJson>, id: nat)
    ensures id in Endpoints(conns) <==> exists c :: c in conns && (c.source == id || c.target == id)
  {
    if conns != [] {
      var front, c := conns[..|conns| - 1], conns[|conns| - 1];
      assert conns == front + [c];
      EndpointsMembership(front, id);
      if id in Endpoints(front) {
        var d :| d in front && (d.source == id || d.target == id);
        assert d in conns;
      }
    }
  }

  /** The loop of `identifyIsolatedNodes` that fills `connectedNodeIds`. */
  method CollectEndpoints(conns: seq<ConnJson>) returns (connected: set<nat>)
    ensures connected == Endpoints(conns)
  {
    connected := {};
    var i := 0;
    while i < |conns|
      invariant 0 <= i <= |conns|
      invariant connected == Endpoints(conns[..i])
    {
      assert conns[..i + 1][..i] == conns[..i];
      connected := connected + {conns[i].source, conns[i].target};
      i := i + 1;
    }
    assert conns[..i] == conns;
  }

  /** The two analyses agree: a clue touches a line exactly when its degree is
      positive, so the clues left undimmed by isolation are those of degree 0. */
  lemma {:induction false} EndpointIffPositiveDegree(conns: seq<ConnJson>, id: nat)
    ensures id in Endpoints(conns) <==> Degree(conns, id) > 0
  {
    if conns != [] {
      EndpointIffPositiveDegree(conns[..|conns| - 1], id);
    }
  }

  /** The order in which `Object.keys` lists integer keys: ascending. */
  method AscendingKeys(keys: set<nat>) returns (ids: seq<nat>)
    ensures StrictlyIncreasing(ids)
    ensures forall x :: x in ids <==> x in keys
  {
    ids := [];
    var rest := keys;
    while rest != {}
      invariant rest <= keys
      invariant StrictlyIncreasing(ids)
      invariant forall x :: x in ids <==> x in keys && x !in rest
      invariant forall i, y :: 0 <= i < |ids| && y in rest ==> ids[i] < y
      decreases rest
    {
      ghost var least := Minimum(rest);
      var m :| m in rest && forall y :: y in rest ==> m <= y;
      forall i, y | 0 <= i < |ids| + 1 && y in rest - {m} ensures (ids + [m])[i] < y {
        if i == |ids| {
          assert m <= y;
        }
      }
      ids := ids + [m];
      rest := rest - {m};
    }
  }

  /** The least element of a non-empty set of numbers. */
  lemma {:induction false} Minimum(s: set<nat>) returns (m: nat)
    requires s != {}
    ensures m in s && forall y :: y in s ==> m <= y
    decreases s
  {
    var x :| x in s;
    if s == {x} {
      m := x;
    } else {
      var rest := Minimum(s - {x});
      m := if x < rest then x else rest;
      forall y | y in s ensures m <= y {
        if y != x {
          assert y in s - {x};
        }
      }
    }
  }
}
