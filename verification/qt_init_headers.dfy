// cmQtAutoGenInitializer::InitAutogenTarget, "Header build paths": every
// moc'd header gets a moc_<name>.cpp path below its path checksum, made
// unique by a numeric suffix when the plain path is already taken.

module QtInitHeaders {
  import opened Text

  /** The number of suffixes tried for one header. */
  const MaxAttempts: nat := 1024

  /** The k-th path tried for a header: the base, then "_k" unless k is 0, then ".cpp". */
  function Candidate(base: string, k: nat): string
  {
    base + (if k == 0 then "" else "_" + Decimal(k)) + ".cpp"
  }

  /** Different attempts for one header try different paths. */
  lemma CandidateInjective(base: string, j: nat, k: nat)
    requires Candidate(base, j) == Candidate(base, k)
    ensures j == k
  {
    var sj := if j == 0 then "" else "_" + Decimal(j);
    var sk := if k == 0 then "" else "_" + Decimal(k);
    var cj := Candidate(base, j);
    assert cj[|base|..|cj| - 4] == sj;
    assert cj[|base|..|cj| - 4] == sk;
    if j != 0 && k != 0 {
      assert sj[1..] == Decimal(j) && sk[1..] == Decimal(k);
      DecimalInjective(j, k);
    }
  }

  /** The first attempt from `k` on whose path is not yet emitted, if any is left. */
  function FirstFree(base: string, emitted: set<string>, k: nat): (r: Option<nat>)
    ensures r.Some? ==>
      k <= r.value < MaxAttempts && Candidate(base, r.value) !in emitted
      && forall j :: k <= j < r.value ==> Candidate(base, j) in emitted
    ensures r.None? ==> forall j :: k <= j < MaxAttempts ==> Candidate(base, j) in emitted
    decreases MaxAttempts - k
  {
    if k >= MaxAttempts then None
    else if Candidate(base, k) !in emitted then Some(k)
    else FirstFree(base, emitted, k + 1)
  }

  /** The paths the headers get, in order; a header whose attempts are all taken gets none. */
  function Assign(bases: seq<string>, emitted: set<string>): seq<string>
  {
    if bases == [] then []
    else
      match FirstFree(bases[0], emitted, 0)
      case None => Assign(bases[1..], emitted)
      case Some(k) =>
        var path := Candidate(bases[0], k);
        [path] + Assign(bases[1..], emitted + {path})
  }

  /**
   * One header: tries the base path, then the base with "_1", "_2", ...
   * and emits the first one not yet emitted.
   */
  method PlaceHeader(base: string, emitted: set<string>) returns (emittedOut: set<string>, path: Option<string>)
    ensures path == match FirstFree(base, emitted, 0)
                    case None => None
                    case Some(k) => Some(Candidate(base, k))
    ensures emittedOut == if path.Some? then emitted + {path.value} else emitted
  {
    emittedOut, path := emitted, None;
    var suffix := "";
    var ii := 0;
    while ii != 1024
      invariant 0 <= ii <= MaxAttempts
      invariant suffix == if ii == 0 then "" else "_" + Decimal(ii)
      invariant FirstFree(base, emitted, 0) == FirstFree(base, emitted, ii)
    {
      var candidate := base + suffix + ".cpp";
      if candidate !in emittedOut {
        emittedOut := emittedOut + {candidate};
        path := Some(candidate);
        break;
      }
      suffix := "_" + Decimal(ii + 1);
      ii := ii + 1;
    }
  }

  /** The header build paths of the headers whose base paths (checksum + "/moc_" + name) are given, in order. */
  method HeaderBuildPaths(bases: seq<string>) returns (paths: seq<string>)
    ensures paths == Assign(bases, {})
  {
    paths := [];
    var emitted: set<string> := {};
    var i := 0;
    while i < |bases|
      invariant i <= |bases|
      invariant paths + Assign(bases[i..], emitted) == Assign(bases, {})
    {
      assert bases[i..][1..] == bases[i + 1..];
      var path;
      emitted, path := PlaceHeader(bases[i], emitted);
      if path.Some? {
        AppendAssociates(paths, [path.value], Assign(bases[i + 1..], emitted));
        paths := paths + [path.value];
      }
      i := i + 1;
    }
    assert bases[i..] == [];
  }

  /** The paths handed out are pairwise distinct and none was emitted before. */
  lemma {:induction false} AssignDistinct(bases: seq<string>, emitted: set<string>)
    ensures var r := Assign(bases, emitted);
      Distinct(r) && forall i :: 0 <= i < |r| ==> r[i] !in emitted
  {
    if bases != [] {
      match FirstFree(bases[0], emitted, 0)
      case None =>
        AssignDistinct(bases[1..], emitted);
      case Some(k) =>
        var path := Candidate(bases[0], k);
        var rest := Assign(bases[1..], emitted + {path});
        AssignDistinct(bases[1..], emitted + {path});
        DistinctCons(path, rest);
    }
  }

  /** When the first n attempts for a header are all taken, at least n paths were emitted. */
  lemma {:induction false} ManyTaken(base: string, emitted: set<string>, n: nat)
    requires forall j :: 0 <= j < n ==> Candidate(base, j) in emitted
    ensures |emitted| >= n
  {
    if n > 0 {
      var last := Candidate(base, n - 1);
      forall j | 0 <= j < n - 1
        ensures Candidate(base, j) in emitted - {last}
      {
        if Candidate(base, j) == last {
          CandidateInjective(base, j, n - 1);
        }
      }
      ManyTaken(base, emitted - {last}, n - 1);
    }
  }

  /** While fewer than 1024 paths are taken, every header gets one. */
  lemma {:induction false} AssignComplete(bases: seq<string>, emitted: set<string>)
    requires |emitted| + |bases| <= MaxAttempts
    ensures |Assign(bases, emitted)| == |bases|
  {
    if bases != [] {
      FreeExists(bases[0], emitted);
      var path := Candidate(bases[0], FirstFree(bases[0], emitted, 0).value);
      AssignComplete(bases[1..], emitted + {path});
    }
  }

  /** While fewer than 1024 paths are emitted, some attempt for a header is free. */
  lemma FreeExists(base: string, emitted: set<string>)
    requires |emitted| < MaxAttempts
    ensures FirstFree(base, emitted, 0).Some?
  {
    if FirstFree(base, emitted, 0).None? {
      ManyTaken(base, emitted, MaxAttempts);
      assert false;
    }
  }

  /** A header whose plain path is free gets it. */
  lemma AssignPlain(bases: seq<string>, emitted: set<string>)
    requires bases != [] && bases[0] + ".cpp" !in emitted
    ensures Assign(bases, emitted) != [] && Assign(bases, emitted)[0] == bases[0] + ".cpp"
  {
    assert Candidate(bases[0], 0) == bases[0] + ".cpp";
  }

  /** A header whose plain path is taken gets a numbered one, while fewer than 1024 are taken. */
  lemma AssignNumbered(bases: seq<string>, emitted: set<string>)
    requires bases != [] && bases[0] + ".cpp" in emitted && |emitted| < MaxAttempts
    ensures var r := Assign(bases, emitted);
      r != [] && exists k :: 0 < k < MaxAttempts && r[0] == bases[0] + "_" + Decimal(k) + ".cpp"
  {
    FreeExists(bases[0], emitted);
    var k := FirstFree(bases[0], emitted, 0).value;
    assert Candidate(bases[0], 0) == bases[0] + ".cpp";
    assert k != 0;
    var r := Assign(bases, emitted);
    assert r[0] == Candidate(bases[0], k) == bases[0] + "_" + Decimal(k) + ".cpp";
  }

  /** With 1024 paths of a header taken, that header gets none, and the paths no longer line up with the headers. */
  lemma AssignSkipsExhausted(base: string, emitted: set<string>)
    requires forall j :: 0 <= j < MaxAttempts ==> Candidate(base, j) in emitted
    ensures Assign([base], emitted) == []
  {
    assert [base][1..] == [];
  }
}
