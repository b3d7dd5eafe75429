// cmQtAutoGenInitializer: the static-library cycle test and the link
// targets the autogen target depends on in every configuration.

module QtInitDepends {
  import opened Text

  /** A target of the build; the C++ code compares target pointers, the model names. */
  type TargetId = string

  /**
   * A target as one configuration sees it: whether it is a static library,
   * and its link implementation libraries, None when it has none. Each link
   * item names a target or, as None, something that is not a target.
   */
  datatype TargetNode = TargetNode(isStatic: bool, libraries: Option<seq<Option<TargetId>>>)

  /** The targets of one configuration. */
  type LinkGraph = map<TargetId, TargetNode>

  predicate IsStatic(g: LinkGraph, t: TargetId)
  {
    t in g && g[t].isStatic
  }

  /** GetLinkImplementationLibraries(config): no items when there are none. */
  function LinkTargets(g: LinkGraph, t: TargetId): seq<Option<TargetId>>
  {
    if t in g && g[t].libraries.Some? then g[t].libraries.value else []
  }

  /** The edges the cycle test follows: `b` is a static library that `a` links. */
  predicate Edge(g: LinkGraph, a: TargetId, b: TargetId)
  {
    IsStatic(g, b) && Some(b) in LinkTargets(g, a)
  }

  ghost predicate IsPath(g: LinkGraph, p: seq<TargetId>)
  {
    |p| >= 1 && forall i :: 0 <= i < |p| - 1 ==> Edge(g, p[i], p[i + 1])
  }

  /** `to` is reachable from `from` over static-library link edges (in zero or more steps). */
  ghost predicate Reaches(g: LinkGraph, from: TargetId, to: TargetId)
  {
    exists p :: IsPath(g, p) && p[0] == from && p[|p| - 1] == to
  }

  lemma ReachesSelf(g: LinkGraph, t: TargetId)
    ensures Reaches(g, t, t)
  {
    assert IsPath(g, [t]);
  }

  lemma ReachesStep(g: LinkGraph, from: TargetId, a: TargetId, b: TargetId)
    requires Reaches(g, from, a) && Edge(g, a, b)
    ensures Reaches(g, from, b)
  {
    var p :| IsPath(g, p) && p[0] == from && p[|p| - 1] == a;
    var q := p + [b];
    forall i | 0 <= i < |q| - 1
      ensures Edge(g, q[i], q[i + 1])
    {
      if i < |p| - 1 {
        assert q[i] == p[i] && q[i + 1] == p[i + 1];
      }
    }
    assert IsPath(g, q) && q[0] == from && q[|q| - 1] == b;
  }

  /** A set holding `from`, closed under the edges and missing `to`, shows that `to` is out of reach. */
  lemma {:induction false} NotReached(g: LinkGraph, closed: set<TargetId>, from: TargetId, to: TargetId)
    requires from in closed && to !in closed
    requires forall a, b :: a in closed && Edge(g, a, b) ==> b in closed
    ensures !Reaches(g, from, to)
  {
    if Reaches(g, from, to) {
      var p :| IsPath(g, p) && p[0] == from && p[|p| - 1] == to;
      var i := 0;
      while i < |p| - 1
        invariant 0 <= i <= |p| - 1 && p[i] in closed
      {
        assert Edge(g, p[i], p[i + 1]);
        i := i + 1;
      }
      assert false;
    }
  }

  lemma StrictSubsetCard(a: set<TargetId>, b: set<TargetId>, x: TargetId)
    requires a <= b && x in b && x !in a
    ensures |a + {x}| <= |b|
  {
    SubsetCard(a + {x}, b);
  }

  /** Every known library is visited or queued, and every queued one is known. */
  ghost predicate Covered(known: set<TargetId>, visited: set<TargetId>, queue: seq<TargetId>)
  {
    && visited <= known
    && (forall x :: x in known ==> x in visited || x in queue)
    && (forall i :: 0 <= i < |queue| ==> queue[i] in known)
  }

  /** The known libraries are reachable from the dependency and, all being static, bounded by the graph. */
  ghost predicate KnownReachable(g: LinkGraph, depend: TargetId, known: set<TargetId>)
  {
    && known <= g.Keys && |known| <= |g.Keys|
    && (forall t :: t in known ==> Reaches(g, depend, t))
  }

  /**
   * The state of the walk: the known libraries are reachable and either
   * visited or queued; every edge out of a visited library leads to a known
   * one; the origin was not visited.
   */
  ghost predicate WalkState(g: LinkGraph, origin: TargetId, depend: TargetId,
                            known: set<TargetId>, queue: seq<TargetId>, visited: set<TargetId>)
  {
    && KnownReachable(g, depend, known) && depend in known
    && Covered(known, visited, queue)
    && (forall a, b :: a in visited && Edge(g, a, b) ==> b in known)
    && origin !in visited
  }

  /** Queueing a static library reachable in one more step keeps the state of the walk. */
  lemma Enqueue(g: LinkGraph, depend: TargetId, testTarget: TargetId, x: TargetId,
                known: set<TargetId>, visited: set<TargetId>, queue: seq<TargetId>)
    requires KnownReachable(g, depend, known) && Covered(known, visited, queue)
    requires testTarget in known && Edge(g, testTarget, x) && x !in known
    ensures KnownReachable(g, depend, known + {x}) && Covered(known + {x}, visited, queue + [x])
  {
    ReachesStep(g, depend, testTarget, x);
    StrictSubsetCard(known, g.Keys, x);
  }

  /** The inner loop of StaticLibraryCycle: queue each static library `testTarget` links that is not yet known. */
  method QueueLibraries(g: LinkGraph, depend: TargetId, testTarget: TargetId,
                        knownLibs: set<TargetId>, testLibs: seq<TargetId>, ghost visited: set<TargetId>)
    returns (known: set<TargetId>, queue: seq<TargetId>)
    requires KnownReachable(g, depend, knownLibs) && testTarget in knownLibs
    requires Covered(knownLibs, visited, testLibs)
    ensures KnownReachable(g, depend, known) && Covered(known, visited, queue)
    ensures knownLibs <= known && (known == knownLibs ==> queue == testLibs)
    ensures known == knownLibs || |known| > |knownLibs|
    ensures forall b :: Edge(g, testTarget, b) ==> b in known
  {
    known, queue := knownLibs, testLibs;
    var libs := LinkTargets(g, testTarget);
    var j := 0;
    while j < |libs|
      invariant j <= |libs|
      invariant KnownReachable(g, depend, known) && Covered(known, visited, queue)
      invariant knownLibs <= known && (known == knownLibs ==> queue == testLibs)
      invariant known == knownLibs || |known| > |knownLibs|
      invariant forall k :: 0 <= k < j && libs[k].Some? && IsStatic(g, libs[k].value) ==> libs[k].value in known
    {
      var depTarget := libs[j];
      if depTarget.Some? && IsStatic(g, depTarget.value) && depTarget.value !in known {
        assert Edge(g, testTarget, depTarget.value) by {
          assert libs[j] == depTarget;
        }
        Enqueue(g, depend, testTarget, depTarget.value, known, visited, queue);
        known := known + {depTarget.value};
        queue := queue + [depTarget.value];
      }
      j := j + 1;
    }
    forall b | Edge(g, testTarget, b)
      ensures b in known
    {
      var k :| 0 <= k < |libs| && libs[k] == Some(b);
    }
  }

  /**
   * StaticLibraryCycle: both targets are static libraries and the origin is
   * reachable from the dependency over static-library link edges. The
   * breadth-first walk queues each library once, which ends it.
   */
  method StaticLibraryCycle(g: LinkGraph, origin: TargetId, depend: TargetId) returns (cycle: bool)
    ensures cycle <==> IsStatic(g, origin) && IsStatic(g, depend) && Reaches(g, depend, origin)
  {
    cycle := false;
    if !(IsStatic(g, origin) && IsStatic(g, depend)) {
      return;
    }
    var knownLibs: set<TargetId> := {depend};
    var testLibs: seq<TargetId> := [depend];
    ghost var visited: set<TargetId> := {};
    ReachesSelf(g, depend);
    SubsetCard(knownLibs, g.Keys);
    while testLibs != []
      invariant WalkState(g, origin, depend, knownLibs, testLibs, visited)
      decreases |g.Keys| - |knownLibs|, |testLibs|
    {
      var testTarget := testLibs[0];
      var rest := testLibs[1..];
      assert Covered(knownLibs, visited + {testTarget}, rest) by {
        assert forall x :: x in testLibs ==> x == testTarget || x in rest;
      }
      testLibs := rest;
      if testTarget == origin {
        return true;
      }
      knownLibs, testLibs := QueueLibraries(g, depend, testTarget, knownLibs, testLibs, visited + {testTarget});
      visited := visited + {testTarget};
    }
    NotReached(g, knownLibs, depend, origin);
  }

  /* ---------------- the autogen target's link dependencies ---------------- */

  /** The dependency is a static-library cycle back to the origin. */
  ghost predicate Cycle(g: LinkGraph, origin: TargetId, t: TargetId)
  {
    IsStatic(g, origin) && IsStatic(g, t) && Reaches(g, t, origin)
  }

  /** In this configuration the origin links `t`, and not through a static-library cycle. */
  ghost predicate Present(g: LinkGraph, origin: TargetId, t: TargetId)
  {
    Some(t) in LinkTargets(g, origin) && !Cycle(g, origin, t)
  }

  /**
   * The counter as written: every link item naming `t` outside a cycle adds
   * one, in every configuration, so an item listed twice counts twice.
   */
  ghost function OccurrenceSum(graphs: seq<LinkGraph>, origin: TargetId, t: TargetId): nat
  {
    if graphs == [] then 0
    else
      var g := graphs[|graphs| - 1];
      OccurrenceSum(graphs[..|graphs| - 1], origin, t)
      + (if Cycle(g, origin, t) then 0 else Occ(LinkTargets(g, origin), Some(t)))
  }

  /** The targets added as written: counted, and counted as often as there are configurations. */
  ghost predicate DependsAsWritten(graphs: seq<LinkGraph>, origin: TargetId, t: TargetId)
  {
    OccurrenceSum(graphs, origin, t) > 0 && OccurrenceSum(graphs, origin, t) == |graphs|
  }

  /** What the comment beside the counter intends: the libraries found in all configurations. */
  ghost predicate DependsIntended(graphs: seq<LinkGraph>, origin: TargetId, t: TargetId)
  {
    |graphs| > 0 && forall c :: 0 <= c < |graphs| ==> Present(graphs[c], origin, t)
  }

  /**
   * Counting occurrences goes wrong both ways: a library linked twice in
   * one of two configurations and not at all in the other is added, and a
   * library linked twice in the only configuration is not.
   */
  lemma DependsAsWrittenMiscounts()
    ensures var lib := TargetNode(false, None);
      var twice := map["app" := TargetNode(false, Some([Some("lib"), Some("lib")])), "lib" := lib];
      var never := map["app" := TargetNode(false, Some([])), "lib" := lib];
      && DependsAsWritten([twice, never], "app", "lib") && !DependsIntended([twice, never], "app", "lib")
      && !DependsAsWritten([twice], "app", "lib") && DependsIntended([twice], "app", "lib")
  {
    var lib := TargetNode(false, None);
    var twice := map["app" := TargetNode(false, Some([Some("lib"), Some("lib")])), "lib" := lib];
    var never := map["app" := TargetNode(false, Some([])), "lib" := lib];
    var items: seq<Option<TargetId>> := [Some("lib"), Some("lib")];
    assert Occ(items, Some("lib")) == 2 by {
      assert items[1..] == [Some("lib")];
      assert items[1..][1..] == [];
    }
    assert !IsStatic(twice, "app") && !IsStatic(never, "app");
    assert LinkTargets(twice, "app") == items;
    assert LinkTargets(never, "app") == [];
    assert [twice, never][..1] == [twice];
    assert [twice][..0] == [];
    assert OccurrenceSum([twice], "app", "lib") == 2;
    assert OccurrenceSum([twice, never], "app", "lib") == 2;
    assert !Present(never, "app", "lib");
    assert Present(twice, "app", "lib");
  }

  /** The number of configurations in which the origin links `t` outside a cycle. */
  ghost function ConfigCount(graphs: seq<LinkGraph>, origin: TargetId, t: TargetId): (n: nat)
    ensures n <= |graphs|
  {
    if graphs == [] then 0
    else ConfigCount(graphs[..|graphs| - 1], origin, t) + (if Present(graphs[|graphs| - 1], origin, t) then 1 else 0)
  }

  /** Counting configurations: the count reaches their number exactly when `t` is present in each. */
  lemma {:induction false} ConfigCountAll(graphs: seq<LinkGraph>, origin: TargetId, t: TargetId)
    ensures ConfigCount(graphs, origin, t) == |graphs| <==> forall c :: 0 <= c < |graphs| ==> Present(graphs[c], origin, t)
  {
    if graphs != [] {
      var init := graphs[..|graphs| - 1];
      ConfigCountAll(init, origin, t);
      forall c | 0 <= c < |init|
        ensures init[c] == graphs[c]
      {
      }
    }
  }

  function Get(counts: map<TargetId, nat>, t: TargetId): nat
  {
    if t in counts then counts[t] else 0
  }

  /** One configuration's share of the counter: one for each target linked outside a cycle, however often. */
  method CountConfiguration(g: LinkGraph, origin: TargetId, counts: map<TargetId, nat>)
    returns (countsOut: map<TargetId, nat>)
    requires forall t :: t in counts ==> counts[t] > 0
    ensures forall t :: Get(countsOut, t) == Get(counts, t) + (if Present(g, origin, t) then 1 else 0)
    ensures forall t :: t in countsOut ==> countsOut[t] > 0
  {
    countsOut := counts;
    var libs := LinkTargets(g, origin);
    var seen: set<TargetId> := {};
    var j := 0;
    while j < |libs|
      invariant j <= |libs|
      invariant forall t :: t in seen <==> Some(t) in libs[..j] && !Cycle(g, origin, t)
      invariant forall t :: Get(countsOut, t) == Get(counts, t) + (if t in seen then 1 else 0)
      invariant forall t :: t in countsOut ==> countsOut[t] > 0
    {
      assert libs[..j + 1] == libs[..j] + [libs[j]];
      var libTarget := libs[j];
      if libTarget.Some? && libTarget.value !in seen {
        var cycle := StaticLibraryCycle(g, origin, libTarget.value);
        if !cycle {
          countsOut := countsOut[libTarget.value := Get(countsOut, libTarget.value) + 1];
          seen := seen + {libTarget.value};
        }
      }
      j := j + 1;
    }
    assert libs[..j] == libs;
  }

  /**
   * The link targets the autogen target depends on: one count per
   * configuration for each target linked outside a static-library cycle,
   * and the targets counted in every configuration.
   */
  method DependTargets(graphs: seq<LinkGraph>, origin: TargetId) returns (depends: set<TargetId>)
    ensures forall t :: t in depends <==> DependsIntended(graphs, origin, t)
  {
    var counts: map<TargetId, nat> := map[];
    var c := 0;
    while c < |graphs|
      invariant c <= |graphs|
      invariant forall t :: Get(counts, t) == ConfigCount(graphs[..c], origin, t)
      invariant forall t :: t in counts ==> counts[t] > 0
    {
      counts := CountConfiguration(graphs[c], origin, counts);
      assert graphs[..c + 1][..c] == graphs[..c];
      c := c + 1;
    }
    assert graphs[..c] == graphs;
    depends := set t | t in counts && counts[t] == |graphs|;
    forall t
      ensures t in depends <==> DependsIntended(graphs, origin, t)
    {
      ConfigCountAll(graphs, origin, t);
    }
  }
}
