/**
 * An order-explicit reference definition of the globe's greedy clustering,
 * written without the processed-id set: the first remaining place is a seed,
 * it takes every later place within the threshold of itself, and the places it
 * did not take are clustered in the same way. For inputs whose ids are
 * distinct, the clustering pass computes exactly this, which gives the
 * partition, order and boundary properties below.
 */
module ClusteringReference {
  import opened Types
  import opened Geometry
  import opened HolographicGlobe

  /** The places of `ys` within the threshold of `seed`, in input order. */
  function Near(h: MathHost, seed: Place, ys: seq<Place>): (r: seq<Place>)
    ensures forall q :: q in r <==> q in ys && WithinThreshold(h, seed, q)
    ensures |r| <= |ys|
  {
    if ys == [] then []
    else (if WithinThreshold(h, seed, ys[0]) then [ys[0]] else []) + Near(h, seed, ys[1..])
  }

  /** The places of `ys` at or beyond the threshold of `seed`, in input order. */
  function Far(h: MathHost, seed: Place, ys: seq<Place>): (r: seq<Place>)
    ensures forall q :: q in r <==> q in ys && !WithinThreshold(h, seed, q)
    ensures |r| <= |ys|
  {
    if ys == [] then []
    else (if WithinThreshold(h, seed, ys[0]) then [] else [ys[0]]) + Far(h, seed, ys[1..])
  }

  /** Greedy first-contact clustering of the places still to be grouped. */
  function Greedy(h: MathHost, xs: seq<Place>): seq<Marker>
    decreases |xs|
  {
    if xs == [] then []
    else
      var seed := xs[0];
      [GroupMarker(h, seed, [seed] + Near(h, seed, xs[1..]))] + Greedy(h, Far(h, seed, xs[1..]))
  }

  // ---------------------------------------------------------------------------
  // Filters used to relate the pass to the reference
  // ---------------------------------------------------------------------------

  /** The places of `ys` whose id is not yet processed. */
  function Unprocessed(ys: seq<Place>, processed: set<string>): (r: seq<Place>)
    ensures forall q :: q in r <==> q in ys && q.id !in processed
  {
    if ys == [] then []
    else (if ys[0].id in processed then [] else [ys[0]]) + Unprocessed(ys[1..], processed)
  }

  /** The places of `ys` that the inner scan for `seed` adds, when no id repeats. */
  function Candidates(h: MathHost, seed: Place, ys: seq<Place>, processed: set<string>): seq<Place> {
    if ys == [] then []
    else
      var q := ys[0];
      (if q.id != seed.id && q.id !in processed && WithinThreshold(h, seed, q) then [q] else [])
        + Candidates(h, seed, ys[1..], processed)
  }

  lemma IdSetTail(ys: seq<Place>)
    requires ys != []
    ensures ys[0].id in IdSet(ys) && IdSet(ys[1..]) <= IdSet(ys)
  {
    assert ys[0] in ys;
    forall id | id in IdSet(ys[1..]) ensures id in IdSet(ys) {
      var p :| p in ys[1..] && p.id == id;
      assert p in ys;
    }
  }

  lemma DistinctIdsTail(ys: seq<Place>)
    requires ys != [] && DistinctIds(ys)
    ensures DistinctIds(ys[1..]) && ys[0].id !in IdSet(ys[1..])
  {
    assert ys == [ys[0]] + ys[1..];
    DistinctIdsAppend([ys[0]], ys[1..]);
    assert ys[0].id in IdSet([ys[0]]);
  }

  lemma {:induction false} CandidatesIgnore(h: MathHost, seed: Place, ys: seq<Place>, processed: set<string>, k: string)
    requires k !in IdSet(ys)
    ensures Candidates(h, seed, ys, processed + {k}) == Candidates(h, seed, ys, processed)
  {
    if ys != [] {
      assert ys[0] in ys;
      IdSetTail(ys);
      CandidatesIgnore(h, seed, ys[1..], processed, k);
    }
  }

  lemma {:induction false} UnprocessedIgnore(ys: seq<Place>, processed: set<string>, k: string)
    requires k !in IdSet(ys)
    ensures Unprocessed(ys, processed + {k}) == Unprocessed(ys, processed)
  {
    if ys != [] {
      assert ys[0] in ys;
      IdSetTail(ys);
      UnprocessedIgnore(ys[1..], processed, k);
    }
  }

  lemma {:induction false} CandidatesAppend(h: MathHost, seed: Place, a: seq<Place>, b: seq<Place>, processed: set<string>)
    ensures Candidates(h, seed, a + b, processed) == Candidates(h, seed, a, processed) + Candidates(h, seed, b, processed)
  {
    if a == [] {
      assert a + b == b;
    } else {
      assert (a + b)[1..] == a[1..] + b;
      CandidatesAppend(h, seed, a[1..], b, processed);
    }
  }

  lemma {:induction false} CandidatesOfProcessed(h: MathHost, seed: Place, ys: seq<Place>, processed: set<string>)
    requires IdSet(ys) <= processed
    ensures Candidates(h, seed, ys, processed) == []
  {
    if ys != [] {
      assert ys[0] in ys;
      IdSetTail(ys);
      CandidatesOfProcessed(h, seed, ys[1..], processed);
    }
  }

  /** Once the seed's id is processed, the candidates are the near unprocessed places. */
  lemma {:induction false} CandidatesAreNear(h: MathHost, seed: Place, ys: seq<Place>, processed: set<string>)
    requires seed.id !in IdSet(ys)
    ensures Candidates(h, seed, ys, processed + {seed.id}) == Near(h, seed, Unprocessed(ys, processed))
  {
    if ys != [] {
      assert ys[0] in ys;
      IdSetTail(ys);
      CandidatesAreNear(h, seed, ys[1..], processed);
      var y := ys[0];
      var u' := Unprocessed(ys[1..], processed);
      var c' := Candidates(h, seed, ys[1..], processed + {seed.id});
      assert c' == Near(h, seed, u');
      assert y.id != seed.id;
      if y.id in processed {
        assert Unprocessed(ys, processed) == u';
        assert Candidates(h, seed, ys, processed + {seed.id}) == c';
      } else {
        var u := Unprocessed(ys, processed);
        assert u == [y] + u';
        assert u[0] == y && u[1..] == u';
        if WithinThreshold(h, seed, y) {
          assert Candidates(h, seed, ys, processed + {seed.id}) == [y] + c';
          assert Near(h, seed, u) == [y] + Near(h, seed, u');
        } else {
          assert Candidates(h, seed, ys, processed + {seed.id}) == c';
          assert Near(h, seed, u) == Near(h, seed, u');
        }
      }
    }
  }

  /** Without repeated ids the inner scan adds exactly the candidates, in order. */
  lemma {:induction false} AbsorbAddsCandidates(h: MathHost, places: seq<Place>, seed: Place, j: nat, acc: Scan)
    requires j <= |places|
    requires DistinctIds(places[j..])
    ensures var c := Candidates(h, seed, places[j..], acc.processed);
      Absorb(h, places, seed, j, acc) == Scan(acc.processed + IdSet(c), acc.group + c)
    decreases |places| - j
  {
    var ys := places[j..];
    if j == |places| {
      assert ys == [];
      assert Candidates(h, seed, ys, acc.processed) == [];
      assert IdSet([]) == {};
      assert acc.group + [] == acc.group;
    } else {
      var q := places[j];
      assert ys[0] == q && ys[1..] == places[j + 1..];
      DistinctIdsTail(ys);
      var c' := Candidates(h, seed, places[j + 1..], acc.processed);
      if !(seed.id == q.id || q.id in acc.processed) && WithinThreshold(h, seed, q) {
        var acc' := Scan(acc.processed + {q.id}, acc.group + [q]);
        assert Absorb(h, places, seed, j, acc) == Absorb(h, places, seed, j + 1, acc');
        AbsorbAddsCandidates(h, places, seed, j + 1, acc');
        CandidatesIgnore(h, seed, places[j + 1..], acc.processed, q.id);
        assert Candidates(h, seed, ys, acc.processed) == [q] + c';
        IdSetAppend([q], c');
        assert IdSet([q]) == {q.id};
        assert acc.group + [q] + c' == acc.group + ([q] + c');
      } else {
        assert Absorb(h, places, seed, j, acc) == Absorb(h, places, seed, j + 1, acc);
        AbsorbAddsCandidates(h, places, seed, j + 1, acc);
        assert Candidates(h, seed, ys, acc.processed) == c';
      }
    }
  }

  /** After the seed's group is taken, the still unprocessed later places are the far ones. */
  lemma {:induction false} RemainderIsFar(h: MathHost, seed: Place, ys: seq<Place>, processed: set<string>)
    requires DistinctIds(ys) && seed.id !in IdSet(ys)
    ensures Unprocessed(ys, processed + {seed.id} + IdSet(Near(h, seed, Unprocessed(ys, processed))))
         == Far(h, seed, Unprocessed(ys, processed))
  {
    if ys != [] {
      var y := ys[0];
      DistinctIdsTail(ys);
      IdSetTail(ys);
      RemainderIsFar(h, seed, ys[1..], processed);
      var u := Unprocessed(ys, processed);
      var u' := Unprocessed(ys[1..], processed);
      var n' := Near(h, seed, u');
      var p'' := processed + {seed.id} + IdSet(n');
      assert Unprocessed(ys[1..], p'') == Far(h, seed, u');
      if y.id in processed {
        assert u == u';
        assert Unprocessed(ys, p'') == Unprocessed(ys[1..], p'');
      } else {
        assert u == [y] + u' && u[0] == y && u[1..] == u';
        if WithinThreshold(h, seed, y) {
          assert Near(h, seed, u) == [y] + n';
          IdSetAppend([y], n');
          assert IdSet([y]) == {y.id};
          var p' := processed + {seed.id} + IdSet([y] + n');
          assert p' == p'' + {y.id};
          UnprocessedIgnore(ys[1..], p'', y.id);
          assert Unprocessed(ys, p') == Unprocessed(ys[1..], p');
          assert Far(h, seed, u) == Far(h, seed, u');
        } else {
          assert Near(h, seed, u) == n';
          assert IdSet(n') <= IdSet(ys[1..]) by {
            forall id | id in IdSet(n') ensures id in IdSet(ys[1..]) {
              var p :| p in n' && p.id == id;
              assert p in ys[1..];
            }
          }
          assert y.id !in p'';
          assert Unprocessed(ys, p'') == [y] + Unprocessed(ys[1..], p'');
          assert Far(h, seed, u) == [y] + Far(h, seed, u');
        }
      }
    }
  }

  lemma LaterIdsDiffer(places: seq<Place>, i: nat)
    requires i < |places| && DistinctIds(places)
    ensures DistinctIds(places[i + 1..]) && places[i].id !in IdSet(places[i + 1..])
  {
    DistinctIdsTail(places[i..]);
    assert places[i..][0] == places[i] && places[i..][1..] == places[i + 1..];
    assert DistinctIds(places[i..]);
  }

  /** Without repeated ids, the group of a new seed is the seed followed by the
      near places among the later unprocessed ones. */
  lemma SeedGroupIsNear(h: MathHost, places: seq<Place>, i: nat, processed: set<string>)
    requires i < |places|
    requires DistinctIds(places)
    requires IdSet(places[..i]) <= processed
    requires places[i].id !in processed
    ensures var seed := places[i];
      var near := Near(h, seed, Unprocessed(places[i + 1..], processed));
      Absorb(h, places, seed, 0, Scan(processed + {seed.id}, [seed])) == Scan(processed + {seed.id} + IdSet(near), [seed] + near)
  {
    var seed := places[i];
    var rest := places[i + 1..];
    assert places == places[..i + 1] + rest;
    assert places[..i + 1] == places[..i] + [seed];
    IdSetAppend(places[..i], [seed]);
    assert IdSet([seed]) == {seed.id};
    DistinctIdsAppend(places[..i + 1], rest);
    assert seed.id in IdSet(places[..i + 1]);
    var s0 := Scan(processed + {seed.id}, [seed]);
    assert places[0..] == places;
    AbsorbAddsCandidates(h, places, seed, 0, s0);
    CandidatesAppend(h, seed, places[..i + 1], rest, s0.processed);
    CandidatesOfProcessed(h, seed, places[..i + 1], s0.processed);
    CandidatesAreNear(h, seed, rest, processed);
    var near := Near(h, seed, Unprocessed(rest, processed));
    var c := Candidates(h, seed, places, s0.processed);
    assert c == [] + near;
    assert c == near;
    assert Absorb(h, places, seed, 0, s0) == Scan(s0.processed + IdSet(c), s0.group + c);
    assert Absorb(h, places, seed, 0, s0) == Scan(processed + {seed.id} + IdSet(near), [seed] + near);
  }

  /** One seed step of the pass: the group it emits and the ids it marks. */
  lemma SeedStepSweep(h: MathHost, places: seq<Place>, i: nat, processed: set<string>, result: seq<Marker>)
    requires i < |places|
    requires DistinctIds(places)
    requires IdSet(places[..i]) <= processed
    requires places[i].id !in processed
    ensures var seed := places[i];
      var near := Near(h, seed, Unprocessed(places[i + 1..], processed));
      var after := processed + {seed.id} + IdSet(near);
      && Sweep(h, places, i, processed, result) == Sweep(h, places, i + 1, after, result + [GroupMarker(h, seed, [seed] + near)])
      && IdSet(places[..i + 1]) <= after
  {
    var seed := places[i];
    SeedGroupIsNear(h, places, i, processed);
    assert places[..i + 1] == places[..i] + [seed];
    IdSetAppend(places[..i], [seed]);
    assert IdSet([seed]) == {seed.id};
  }

  /** One seed step of the reference: the group of the seed and the places left after it. */
  lemma SeedStepGreedy(h: MathHost, places: seq<Place>, i: nat, processed: set<string>)
    requires i < |places|
    requires DistinctIds(places)
    requires places[i].id !in processed
    ensures var seed := places[i];
      var u := Unprocessed(places[i + 1..], processed);
      var near := Near(h, seed, u);
      && Unprocessed(places[i + 1..], processed + {seed.id} + IdSet(near)) == Far(h, seed, u)
      && Greedy(h, Unprocessed(places[i..], processed)) == [GroupMarker(h, seed, [seed] + near)] + Greedy(h, Far(h, seed, u))
  {
    var seed := places[i];
    var rest := places[i + 1..];
    var u := Unprocessed(rest, processed);
    LaterIdsDiffer(places, i);
    RemainderIsFar(h, seed, rest, processed);
    assert places[i..][0] == seed && places[i..][1..] == rest;
    var all := Unprocessed(places[i..], processed);
    assert all == [seed] + u && all[0] == seed && all[1..] == u;
  }

  /** One seed step of the pass, seen from the reference. */
  lemma SeedStepMatches(h: MathHost, places: seq<Place>, i: nat, processed: set<string>, result: seq<Marker>)
    requires i < |places|
    requires DistinctIds(places)
    requires IdSet(places[..i]) <= processed
    requires places[i].id !in processed
    ensures var seed := places[i];
      var u := Unprocessed(places[i + 1..], processed);
      var near := Near(h, seed, u);
      var after := processed + {seed.id} + IdSet(near);
      var m := GroupMarker(h, seed, [seed] + near);
      && Sweep(h, places, i, processed, result) == Sweep(h, places, i + 1, after, result + [m])
      && IdSet(places[..i + 1]) <= after
      && Unprocessed(places[i + 1..], after) == Far(h, seed, u)
      && Greedy(h, Unprocessed(places[i..], processed)) == [m] + Greedy(h, Far(h, seed, u))
  {
    SeedStepSweep(h, places, i, processed, result);
    SeedStepGreedy(h, places, i, processed);
  }

  lemma {:induction false} SweepMatchesGreedy(h: MathHost, places: seq<Place>, i: nat, processed: set<string>, result: seq<Marker>)
    requires i <= |places|
    requires DistinctIds(places)
    requires IdSet(places[..i]) <= processed
    ensures Sweep(h, places, i, processed, result) == result + Greedy(h, Unprocessed(places[i..], processed))
    decreases |places| - i
  {
    if i == |places| {
      assert places[i..] == [];
    } else if places[i].id in processed {
      assert places[i..][0] == places[i] && places[i..][1..] == places[i + 1..];
      assert places[..i + 1] == places[..i] + [places[i]];
      IdSetAppend(places[..i], [places[i]]);
      assert IdSet([places[i]]) == {places[i].id};
      assert Unprocessed(places[i..], processed) == Unprocessed(places[i + 1..], processed);
      SweepMatchesGreedy(h, places, i + 1, processed, result);
    } else {
      var seed := places[i];
      var u := Unprocessed(places[i + 1..], processed);
      var near := Near(h, seed, u);
      var m := GroupMarker(h, seed, [seed] + near);
      SeedStepMatches(h, places, i, processed, result);
      SweepMatchesGreedy(h, places, i + 1, processed + {seed.id} + IdSet(near), result + [m]);
    }
  }

  /** For places with distinct ids, the clustering pass agrees with the reference. */
  lemma MarkersAreGreedy(h: MathHost, places: seq<Place>)
    requires DistinctIds(places)
    ensures Markers(h, places) == Greedy(h, places)
  {
    assert places[..0] == [] && places[0..] == places;
    SweepMatchesGreedy(h, places, 0, {}, []);
    UnprocessedOfNothing(places);
  }

  lemma {:induction false} UnprocessedOfNothing(ys: seq<Place>)
    ensures Unprocessed(ys, {}) == ys
  {
    if ys != [] {
      UnprocessedOfNothing(ys[1..]);
      assert ys == [ys[0]] + ys[1..];
    }
  }

  // ---------------------------------------------------------------------------
  // Properties of the reference, and through it of the pass
  // ---------------------------------------------------------------------------

  lemma GroupMarkerMembers(h: MathHost, seed: Place, rest: seq<Place>)
    ensures Members(GroupMarker(h, seed, [seed] + rest)) == [seed] + rest
  {
    if |[seed] + rest| == 1 {
      assert rest == [];
    }
  }

  lemma {:induction false} NearFarSplit(h: MathHost, seed: Place, ys: seq<Place>)
    ensures multiset(Near(h, seed, ys)) + multiset(Far(h, seed, ys)) == multiset(ys)
  {
    if ys != [] {
      var tail := ys[1..];
      assert ys == [ys[0]] + tail;
      calc {
        multiset(Near(h, seed, ys)) + multiset(Far(h, seed, ys));
        { NearFarStep(h, seed, ys); }
        multiset{ys[0]} + (multiset(Near(h, seed, tail)) + multiset(Far(h, seed, tail)));
        { NearFarSplit(h, seed, tail); }
        multiset{ys[0]} + multiset(tail);
        multiset(ys);
      }
    }
  }

  /** One step of the split: the head goes to exactly one side. */
  lemma NearFarStep(h: MathHost, seed: Place, ys: seq<Place>)
    requires ys != []
    ensures multiset(Near(h, seed, ys)) + multiset(Far(h, seed, ys))
      == multiset{ys[0]} + multiset(Near(h, seed, ys[1..])) + multiset(Far(h, seed, ys[1..]))
  {
    var y, n', f' := ys[0], Near(h, seed, ys[1..]), Far(h, seed, ys[1..]);
    if WithinThreshold(h, seed, y) {
      assert Near(h, seed, ys) == [y] + n';
      assert Far(h, seed, ys) == [] + f';
    } else {
      assert Near(h, seed, ys) == [] + n';
      assert Far(h, seed, ys) == [y] + f';
    }
  }

  /** Every place of the input is in exactly one group of the reference. */
  lemma {:induction false} GreedyPartitions(h: MathHost, xs: seq<Place>)
    ensures multiset(Flatten(Greedy(h, xs))) == multiset(xs)
    decreases |xs|
  {
    if xs != [] {
      var seed := xs[0];
      var near := Near(h, seed, xs[1..]);
      var far := Far(h, seed, xs[1..]);
      GreedyPartitions(h, far);
      GroupMarkerMembers(h, seed, near);
      var g := Greedy(h, xs);
      assert g[0] == GroupMarker(h, seed, [seed] + near) && g[1..] == Greedy(h, far);
      NearFarSplit(h, seed, xs[1..]);
      assert xs == [seed] + xs[1..];
    }
  }

  /** For places with distinct ids, the globe's groups hold every place exactly
      once: the members of all markers are a permutation of the input. */
  lemma MarkersArePermutation(h: MathHost, places: seq<Place>)
    requires DistinctIds(places)
    ensures multiset(Flatten(Markers(h, places))) == multiset(places)
  {
    MarkersAreGreedy(h, places);
    GreedyPartitions(h, places);
  }

  /** `a` is `b` with some elements left out, the others kept in order. */
  predicate IsSubsequence(a: seq<Place>, b: seq<Place>)
    decreases |b|
  {
    if a == [] then true
    else if b == [] then false
    else (a[0] == b[0] && IsSubsequence(a[1..], b[1..])) || IsSubsequence(a, b[1..])
  }

  lemma {:induction false} SubsequenceRefl(a: seq<Place>)
    ensures IsSubsequence(a, a)
  {
    if a != [] {
      SubsequenceRefl(a[1..]);
    }
  }

  lemma {:induction false} SubsequenceTrans(a: seq<Place>, b: seq<Place>, c: seq<Place>)
    requires IsSubsequence(a, b) && IsSubsequence(b, c)
    ensures IsSubsequence(a, c)
    decreases |c|
  {
    if a != [] && c != [] {
      assert b != [];
      if b[0] == c[0] && IsSubsequence(b[1..], c[1..]) {
        if a[0] == b[0] && IsSubsequence(a[1..], b[1..]) {
          SubsequenceTrans(a[1..], b[1..], c[1..]);
        } else {
          SubsequenceTrans(a, b[1..], c[1..]);
        }
      } else {
        SubsequenceTrans(a, b, c[1..]);
      }
    }
  }

  lemma {:induction false} NearIsSubsequence(h: MathHost, seed: Place, ys: seq<Place>)
    ensures IsSubsequence(Near(h, seed, ys), ys)
  {
    if ys != [] {
      NearIsSubsequence(h, seed, ys[1..]);
      var n := Near(h, seed, ys);
      if WithinThreshold(h, seed, ys[0]) {
        assert n[0] == ys[0] && n[1..] == Near(h, seed, ys[1..]);
      } else {
        assert n == Near(h, seed, ys[1..]);
      }
    }
  }

  lemma {:induction false} FarIsSubsequence(h: MathHost, seed: Place, ys: seq<Place>)
    ensures IsSubsequence(Far(h, seed, ys), ys)
  {
    if ys != [] {
      FarIsSubsequence(h, seed, ys[1..]);
      var f := Far(h, seed, ys);
      if WithinThreshold(h, seed, ys[0]) {
        assert f == Far(h, seed, ys[1..]);
      } else {
        assert f[0] == ys[0] && f[1..] == Far(h, seed, ys[1..]);
      }
    }
  }

  /** The first member of each marker, in marker order. */
  function Seeds(ms: seq<Marker>): seq<Place> {
    if ms == [] then []
    else (if Members(ms[0]) == [] then [] else [Members(ms[0])[0]]) + Seeds(ms[1..])
  }

  /** The reference keeps input order twice over: inside every group, and
      among the seeds of successive groups. */
  lemma {:induction false} GreedyKeepsOrder(h: MathHost, xs: seq<Place>)
    ensures forall k :: 0 <= k < |Greedy(h, xs)| ==> IsSubsequence(Members(Greedy(h, xs)[k]), xs)
    ensures IsSubsequence(Seeds(Greedy(h, xs)), xs)
    decreases |xs|
  {
    if xs != [] {
      var seed := xs[0];
      var near := Near(h, seed, xs[1..]);
      var far := Far(h, seed, xs[1..]);
      var g := Greedy(h, xs);
      assert g[0] == GroupMarker(h, seed, [seed] + near) && g[1..] == Greedy(h, far);
      GroupMarkerMembers(h, seed, near);
      GreedyKeepsOrder(h, far);
      FarIsSubsequence(h, seed, xs[1..]);
      SubsequenceRefl(xs[1..]);
      assert IsSubsequence(xs[1..], xs);
      SubsequenceTrans(far, xs[1..], xs);
      NearIsSubsequence(h, seed, xs[1..]);
      assert ([seed] + near)[0] == xs[0] && ([seed] + near)[1..] == near;
      assert IsSubsequence(Members(g[0]), xs);
      forall k | 1 <= k < |g| ensures IsSubsequence(Members(g[k]), xs) {
        assert g[k] == Greedy(h, far)[k - 1];
        SubsequenceTrans(Members(g[k]), far, xs);
      }
      var rest := Seeds(Greedy(h, far));
      assert Seeds(g) == [seed] + rest;
      SubsequenceTrans(rest, far, xs[1..]);
      assert ([seed] + rest)[1..] == rest;
    }
  }

  /** For places with distinct ids, members keep input order within each group,
      and the seeds come in input order. */
  lemma MarkersKeepOrder(h: MathHost, places: seq<Place>)
    requires DistinctIds(places)
    ensures forall k :: 0 <= k < |Markers(h, places)| ==> IsSubsequence(Members(Markers(h, places)[k]), places)
    ensures IsSubsequence(Seeds(Markers(h, places)), places)
  {
    MarkersAreGreedy(h, places);
    GreedyKeepsOrder(h, places);
  }

  lemma {:induction false} FarKeepsDistinctIds(h: MathHost, seed: Place, ys: seq<Place>)
    requires DistinctIds(ys)
    ensures DistinctIds(Far(h, seed, ys)) && IdSet(Far(h, seed, ys)) <= IdSet(ys)
  {
    if ys != [] {
      DistinctIdsTail(ys);
      IdSetTail(ys);
      FarKeepsDistinctIds(h, seed, ys[1..]);
      var f' := Far(h, seed, ys[1..]);
      if !WithinThreshold(h, seed, ys[0]) {
        assert Far(h, seed, ys) == [ys[0]] + f';
        DistinctIdsAppend([ys[0]], f');
        IdSetAppend([ys[0]], f');
        assert IdSet([ys[0]]) == {ys[0].id};
      }
    }
  }

  /** The greedy heuristic, stated on the pass itself for places with distinct
      ids: the first place is a seed; its group is the seed followed by exactly
      the later places strictly within the threshold of the seed (only the
      seed is compared, and a place at distance exactly 0.15 is left out); the
      remaining markers are the clustering of the places it did not take. */
  lemma MarkersFirstContact(h: MathHost, places: seq<Place>)
    requires DistinctIds(places) && places != []
    ensures var ms := Markers(h, places);
      && ms != []
      && Members(ms[0]) == [places[0]] + Near(h, places[0], places[1..])
      && (forall q :: q in Members(ms[0])[1..] <==> q in places[1..] && WithinThreshold(h, places[0], q))
      && ms[1..] == Markers(h, Far(h, places[0], places[1..]))
  {
    MarkersAreGreedy(h, places);
    var seed := places[0];
    var near := Near(h, seed, places[1..]);
    GroupMarkerMembers(h, seed, near);
    assert ([seed] + near)[1..] == near;
    DistinctIdsTail(places);
    FarKeepsDistinctIds(h, seed, places[1..]);
    MarkersAreGreedy(h, Far(h, seed, places[1..]));
  }

  // ---------------------------------------------------------------------------
  // Small inputs
  // ---------------------------------------------------------------------------

  lemma NoPlacesNoMarkers(h: MathHost)
    ensures Markers(h, []) == []
  {
  }

  /** One place gives exactly one single marker at its own position. */
  lemma OnePlaceOneSingle(h: MathHost, p: Place)
    ensures Markers(h, [p]) == [Single(p.id, MarkerPosition(h, p), p)]
  {
    MarkersAreGreedy(h, [p]);
    assert [p][1..] == [];
    assert [p] + Near(h, p, []) == [p];
    assert Greedy(h, [p]) == [GroupMarker(h, p, [p])] + Greedy(h, []);
  }

  /** The greedy grouping of one remaining place. */
  lemma GreedyOfOne(h: MathHost, c: Place)
    ensures Greedy(h, [c]) == [Single(c.id, MarkerPosition(h, c), c)]
  {
    assert [c][1..] == [];
    assert [c] + Near(h, c, []) == [c];
    assert Greedy(h, [c]) == [GroupMarker(h, c, [c])] + Greedy(h, []);
  }

  /** `Near` and `Far` of a one-element list. */
  lemma SplitOfOne(h: MathHost, seed: Place, b: Place)
    ensures Near(h, seed, [b]) == if WithinThreshold(h, seed, b) then [b] else []
    ensures Far(h, seed, [b]) == if WithinThreshold(h, seed, b) then [] else [b]
  {
    assert [b][1..] == [];
  }

  /** `Near` and `Far` of a two-element list. */
  lemma SplitOfTwo(h: MathHost, seed: Place, b: Place, c: Place)
    ensures Near(h, seed, [b, c]) == (if WithinThreshold(h, seed, b) then [b] else []) + Near(h, seed, [c])
    ensures Far(h, seed, [b, c]) == (if WithinThreshold(h, seed, b) then [] else [b]) + Far(h, seed, [c])
  {
    assert [b, c][1..] == [c];
  }

  /** The merge test is strict: two places exactly 0.15 apart stay two singles,
      and two places closer than that become one cluster named after the first. */
  lemma ThresholdIsStrict(h: MathHost, a: Place, b: Place)
    requires a.id != b.id
    ensures h.distance(MarkerPosition(h, a), MarkerPosition(h, b)) == 0.15 ==>
      Markers(h, [a, b]) == [Single(a.id, MarkerPosition(h, a), a), Single(b.id, MarkerPosition(h, b), b)]
    ensures h.distance(MarkerPosition(h, a), MarkerPosition(h, b)) < 0.15 ==>
      Markers(h, [a, b]) == [Cluster("cluster-" + a.id, MarkerPosition(h, a), [a, b])]
  {
    var xs := [a, b];
    assert DistinctIds(xs);
    MarkersAreGreedy(h, xs);
    assert xs[1..] == [b];
    SplitOfOne(h, a, b);
    GreedyOfOne(h, b);
    if WithinThreshold(h, a, b) {
      assert [a] + [b] == [a, b];
      assert Greedy(h, xs) == [GroupMarker(h, a, [a, b])] + Greedy(h, []);
    } else {
      assert [a] + [] == [a];
      assert Greedy(h, xs) == [GroupMarker(h, a, [a])] + Greedy(h, [b]);
    }
  }

  /** Two places within 0.1 of each other and a third more than 1 away from the
      first give one cluster of the two and one single. */
  lemma TwoCloseOneFar(h: MathHost, a: Place, b: Place, c: Place)
    requires a.id != b.id && b.id != c.id && a.id != c.id
    requires h.distance(MarkerPosition(h, a), MarkerPosition(h, b)) < 0.1
    requires h.distance(MarkerPosition(h, a), MarkerPosition(h, c)) > 1.0
    ensures Markers(h, [a, b, c]) ==
      [Cluster("cluster-" + a.id, MarkerPosition(h, a), [a, b]), Single(c.id, MarkerPosition(h, c), c)]
  {
    assert WithinThreshold(h, a, b) && !WithinThreshold(h, a, c);
    var xs := [a, b, c];
    assert DistinctIds(xs);
    MarkersAreGreedy(h, xs);
    assert xs[1..] == [b, c];
    SplitOfTwo(h, a, b, c);
    SplitOfOne(h, a, c);
    GreedyOfOne(h, c);
    assert Near(h, a, [b, c]) == [b] + [];
    assert Far(h, a, [b, c]) == [] + [c];
    assert [b] + [] == [b] && [] + [c] == [c];
    assert [a] + [b] == [a, b];
    assert Greedy(h, xs) == [GroupMarker(h, a, [a, b])] + Greedy(h, [c]);
  }

  /** Only the seed is compared: `b` and `c` join `a`'s cluster although they are
      not within the threshold of each other. */
  lemma ClusterNotTransitive(h: MathHost, a: Place, b: Place, c: Place)
    requires a.id != b.id && b.id != c.id && a.id != c.id
    requires WithinThreshold(h, a, b) && WithinThreshold(h, a, c) && !WithinThreshold(h, b, c)
    ensures Markers(h, [a, b, c]) == [Cluster("cluster-" + a.id, MarkerPosition(h, a), [a, b, c])]
  {
    var xs := [a, b, c];
    assert DistinctIds(xs);
    MarkersAreGreedy(h, xs);
    assert xs[1..] == [b, c];
    SplitOfTwo(h, a, b, c);
    SplitOfOne(h, a, c);
    assert Near(h, a, [b, c]) == [b, c] && Far(h, a, [b, c]) == [];
    assert [a] + [b, c] == [a, b, c];
    assert Greedy(h, xs) == [GroupMarker(h, a, [a, b, c])] + Greedy(h, []);
  }

  /** Grouping depends on input order: the same three places give one cluster
      when `a` comes first and a cluster plus a single when `b` comes first. */
  lemma GroupingDependsOnOrder(h: MathHost, a: Place, b: Place, c: Place)
    requires a.id != b.id && b.id != c.id && a.id != c.id
    requires WithinThreshold(h, a, b) && WithinThreshold(h, a, c)
    requires WithinThreshold(h, b, a) && !WithinThreshold(h, b, c)
    ensures Markers(h, [a, b, c]) == [Cluster("cluster-" + a.id, MarkerPosition(h, a), [a, b, c])]
    ensures Markers(h, [b, a, c]) ==
      [Cluster("cluster-" + b.id, MarkerPosition(h, b), [b, a]), Single(c.id, MarkerPosition(h, c), c)]
  {
    ClusterNotTransitive(h, a, b, c);
    var xs := [b, a, c];
    assert DistinctIds(xs);
    MarkersAreGreedy(h, xs);
    assert xs[1..] == [a, c];
    SplitOfTwo(h, b, a, c);
    SplitOfOne(h, b, c);
    GreedyOfOne(h, c);
    assert Near(h, b, [a, c]) == [a] && Far(h, b, [a, c]) == [c];
    assert [b] + [a] == [b, a];
    assert Greedy(h, xs) == [GroupMarker(h, b, [b, a])] + Greedy(h, [c]);
  }

  /** The processed set holds ids: a second place with an id already seen gets
      no marker at all, whatever its position. */
  lemma RepeatedIdIsDropped(h: MathHost, a: Place, b: Place)
    requires a.id == b.id
    ensures Markers(h, [a, b]) == [Single(a.id, MarkerPosition(h, a), a)]
  {
    var xs := [a, b];
    var s0 := Scan({a.id}, [a]);
    assert Absorb(h, xs, a, 2, s0) == s0;
    assert Absorb(h, xs, a, 1, s0) == s0;
    assert Absorb(h, xs, a, 0, s0) == s0;
    var r := [Single(a.id, MarkerPosition(h, a), a)];
    assert {} + {a.id} == {a.id};
    assert GroupMarker(h, a, [a]) == r[0];
    assert [] + [GroupMarker(h, a, [a])] == r;
    assert Sweep(h, xs, 0, {}, []) == Sweep(h, xs, 1, {a.id}, r);
    assert Sweep(h, xs, 1, {a.id}, r) == Sweep(h, xs, 2, {a.id}, r) == r;
  }
}
