// The FASTBuild target-readiness ledger (MapFastbuildInfoTargets) and the
// generation cascade that drains it.
//
// Each configured target is registered under the key name ++ config with its
// dependency keys and a counter of dependencies that still block it. A target
// whose counter has dropped to zero or below is ready: its .bff sections are
// written (the `emitted` log) and it is then marked treated, which decrements
// the counter of every entry once per occurrence of its key, emitting, in key
// order, each entry that becomes ready on the way.

module FastbuildLedger {
  import opened Text

  type Key = string

  /** One record of the ledger (cmFastbuildInfoTarget without the target pointer). */
  datatype Info = Info(deps: seq<Key>, count: int, treated: bool, config: string)

  type Table = map<Key, Info>

  // ---------------------------------------------------------------------
  // Counting functions over a snapshot of the table

  /** Occurrences in `ds`, other than `self`, that are unregistered or registered and untreated. */
  function Untreated(m: Table, self: Key, ds: seq<Key>): nat
  {
    if ds == [] then 0
    else (if ds[0] != self && (ds[0] !in m || !m[ds[0]].treated) then 1 else 0)
         + Untreated(m, self, ds[1..])
  }

  /** Occurrences in `ds`, other than `self`, that are registered and untreated. */
  function Blocking(m: Table, self: Key, ds: seq<Key>): nat
  {
    if ds == [] then 0
    else (if ds[0] != self && ds[0] in m && !m[ds[0]].treated then 1 else 0)
         + Blocking(m, self, ds[1..])
  }

  /** Occurrences in `ds` that have no entry at all. */
  function Missing(m: Table, ds: seq<Key>): nat
  {
    if ds == [] then 0
    else (if ds[0] !in m then 1 else 0) + Missing(m, ds[1..])
  }

  /** Occurrences in `ds` of members of `s`. */
  function CountIn(ds: seq<Key>, s: set<Key>): nat
  {
    if ds == [] then 0
    else (if ds[0] in s then 1 else 0) + CountIn(ds[1..], s)
  }

  /**
   * What the counter of an untreated entry is meant to hold: before the final
   * sweep every unregistered dependency blocks, after it only the registered
   * untreated ones do.
   */
  function Pending(m: Table, self: Key, ds: seq<Key>, swept: bool): nat
  {
    if swept then Blocking(m, self, ds) else Untreated(m, self, ds)
  }

  function TreatedKeys(m: Table): set<Key>
  {
    set k | k in m && m[k].treated
  }

  /** CanTreatTargetFB on a registered key. */
  predicate Ready(m: Table, k: Key)
    requires k in m
  {
    m[k].count <= 0 && !m[k].treated
  }

  /** The counter of `k`, if registered and untreated, is exact. */
  predicate ExactAt(m: Table, k: Key, swept: bool)
  {
    k in m && !m[k].treated ==> m[k].count == Pending(m, k, m[k].deps, swept)
  }

  /** The counter of `k`, if registered and untreated, is at least the exact value. */
  predicate AtLeastAt(m: Table, k: Key, swept: bool)
  {
    k in m && !m[k].treated ==> m[k].count >= Pending(m, k, m[k].deps, swept)
  }

  /** Every untreated counter is exact. */
  predicate Counts(m: Table, swept: bool)
  {
    forall k {:trigger ExactAt(m, k, swept)} :: k in m ==> ExactAt(m, k, swept)
  }

  /** Every untreated counter is at least the exact value (decrements may still be owed to it). */
  predicate Bounded(m: Table, swept: bool)
  {
    forall k {:trigger AtLeastAt(m, k, swept)} :: k in m ==> AtLeastAt(m, k, swept)
  }

  /** No untreated entry is ready. */
  predicate Quiescent(m: Table)
  {
    forall k {:trigger m[k].count} :: k in m && !m[k].treated ==> m[k].count > 0
  }

  /** Nothing blocks `k` any more: its other registered dependencies are treated (and, before the sweep, all are registered). */
  predicate Clear(m: Table, k: Key, swept: bool)
    requires k in m
  {
    forall d :: d in m[k].deps && d != k ==> (d in m ==> m[d].treated) && (!swept ==> d in m)
  }

  /** The target emitted at position `i` comes after every registered dependency other than itself. */
  predicate EmittedAfterDeps(m: Table, emitted: seq<Key>, swept: bool, i: int)
  {
    0 <= i < |emitted| ==>
      emitted[i] in m &&
      forall d :: d in m[emitted[i]].deps && d != emitted[i] ==>
        (d in m ==> d in emitted[..i]) && (!swept ==> d in m)
  }

  /** Each emitted target comes after every registered dependency other than itself. */
  predicate EmitOrder(m: Table, emitted: seq<Key>, swept: bool)
  {
    forall i {:trigger EmittedAfterDeps(m, emitted, swept, i)} ::
      0 <= i < |emitted| ==> EmittedAfterDeps(m, emitted, swept, i)
  }

  /** `x` is registered and treated (a dedicated term, so that quantifiers over it fire only on request). */
  predicate Marked(m: Table, x: Key)
  {
    x in m && m[x].treated
  }

  /** The treated entries are exactly the emitted keys. */
  ghost predicate Logged(m: Table, emitted: seq<Key>)
  {
    (forall i :: 0 <= i < |emitted| ==> emitted[i] in m && m[emitted[i]].treated) &&
    (forall x {:trigger Marked(m, x)} :: Marked(m, x) ==> x in emitted)
  }

  /** `x` keeps its list and config from `m1` to `m2`, and stays treated if it was. */
  predicate EvolvesAt(m1: Table, m2: Table, x: Key)
  {
    x in m1 && x in m2 ==>
      m2[x].deps == m1[x].deps && m2[x].config == m1[x].config && (m1[x].treated ==> m2[x].treated)
  }

  /** `m2` has the keys, lists and configs of `m1`, and nothing treated became untreated. */
  predicate Evolves(m1: Table, m2: Table)
  {
    m1.Keys == m2.Keys &&
    forall x {:trigger EvolvesAt(m1, m2, x)} :: x in m1 ==> EvolvesAt(m1, m2, x)
  }

  lemma EvolvesTrans(m1: Table, m2: Table, m3: Table)
    requires Evolves(m1, m2) && Evolves(m2, m3)
    ensures Evolves(m1, m3)
  {
    forall x | x in m1
      ensures EvolvesAt(m1, m3, x)
    {
      assert EvolvesAt(m1, m2, x) && EvolvesAt(m2, m3, x);
    }
  }

  /** The table with the counter of `e` replaced. */
  function WithCount(m: Table, e: Key, c: int): Table
    requires e in m
  {
    m[e := m[e].(count := c)]
  }

  /** The table with `k` marked treated (the first statement of TargetTreatedFinish). */
  function WithTreated(m: Table, k: Key): Table
    requires k in m
  {
    m[k := m[k].(treated := true)]
  }

  /** The counter of `x` in `m2` is the one in `m1` less one per occurrence of a key of `s`. */
  predicate DecrementedAt(m1: Table, m2: Table, s: set<Key>, x: Key)
  {
    x in m1 && x in m2 ==> m2[x].count == m1[x].count - CountIn(m1[x].deps, s)
  }

  /** Every counter of `m2` is the one of `m1` less one per occurrence of a key of `s`. */
  predicate Decremented(m1: Table, m2: Table, s: set<Key>)
  {
    forall x {:trigger DecrementedAt(m1, m2, s, x)} :: x in m1 ==> DecrementedAt(m1, m2, s, x)
  }

  // ---------------------------------------------------------------------
  // Lemmas about the counting functions

  lemma {:induction false} CountInUnion(ds: seq<Key>, a: set<Key>, b: set<Key>)
    requires a !! b
    ensures CountIn(ds, a + b) == CountIn(ds, a) + CountIn(ds, b)
  {
    if ds != [] {
      CountInUnion(ds[1..], a, b);
    }
  }

  lemma {:induction false} CountInNone(ds: seq<Key>, s: set<Key>)
    requires s == {}
    ensures CountIn(ds, s) == 0
  {
    if ds != [] {
      CountInNone(ds[1..], s);
    }
  }

  lemma {:induction false} CountInSingle(ds: seq<Key>, k: Key)
    ensures CountIn(ds, {k}) == Occ(ds, k)
  {
    if ds != [] {
      CountInSingle(ds[1..], k);
    }
  }

  lemma {:induction false} CountInMono(ds: seq<Key>, a: set<Key>, b: set<Key>)
    requires a <= b
    ensures CountIn(ds, a) <= CountIn(ds, b)
  {
    if ds != [] {
      CountInMono(ds[1..], a, b);
    }
  }

  /** Splitting the decrement owed since `x` at an intermediate treated set `a`. */
  lemma CountInShift(ds: seq<Key>, x: set<Key>, a: set<Key>, b: set<Key>)
    requires x <= a <= b
    ensures CountIn(ds, a - x) + CountIn(ds, b - a) == CountIn(ds, b - x)
  {
    CountInUnion(ds, a - x, b - a);
    assert (a - x) + (b - a) == b - x;
  }

  /** An untreated entry's pending count drops by exactly the occurrences of newly treated keys. */
  lemma {:induction false} PendingAfterTreating(m1: Table, m2: Table, self: Key, ds: seq<Key>, swept: bool)
    requires Evolves(m1, m2) && TreatedKeys(m1) <= TreatedKeys(m2)
    requires self !in TreatedKeys(m2) - TreatedKeys(m1)
    ensures Pending(m2, self, ds, swept) + CountIn(ds, TreatedKeys(m2) - TreatedKeys(m1))
            == Pending(m1, self, ds, swept)
  {
    if ds != [] {
      PendingAfterTreating(m1, m2, self, ds[1..], swept);
      var d := ds[0];
      if d in m1 {
        assert d in TreatedKeys(m1) <==> m1[d].treated;
        assert d in TreatedKeys(m2) <==> m2[d].treated;
      }
    }
  }

  /** Registering a new untreated key changes nobody's pre-sweep pending count. */
  lemma {:induction false} PendingAfterRegister(m: Table, key: Key, info: Info, self: Key, ds: seq<Key>)
    requires key !in m && !info.treated
    ensures Pending(m[key := info], self, ds, false) == Pending(m, self, ds, false)
  {
    if ds != [] {
      PendingAfterRegister(m, key, info, self, ds[1..]);
    }
  }

  lemma {:induction false} UntreatedSplit(m: Table, self: Key, ds: seq<Key>)
    requires self in m
    ensures Untreated(m, self, ds) == Blocking(m, self, ds) + Missing(m, ds)
  {
    if ds != [] {
      UntreatedSplit(m, self, ds[1..]);
    }
  }

  lemma {:induction false} MissingSameKeys(m1: Table, m2: Table, ds: seq<Key>)
    requires m1.Keys == m2.Keys
    ensures Missing(m1, ds) == Missing(m2, ds)
  {
    if ds != [] {
      assert ds[0] in m1 <==> ds[0] in m2;
      MissingSameKeys(m1, m2, ds[1..]);
    }
  }

  /** A pending count of zero means nothing blocks the entry. */
  lemma {:induction false} ZeroPendingClear(m: Table, self: Key, ds: seq<Key>, swept: bool)
    requires Pending(m, self, ds, swept) == 0
    ensures forall d :: d in ds && d != self ==> (d in m ==> m[d].treated) && (!swept ==> d in m)
  {
    if ds != [] {
      ZeroPendingClear(m, self, ds[1..], swept);
      assert forall d :: d in ds ==> d == ds[0] || d in ds[1..];
    }
  }

  /** A positive blocking count names a registered untreated dependency. */
  lemma {:induction false} BlockingWitness(m: Table, self: Key, ds: seq<Key>) returns (d: Key)
    requires Blocking(m, self, ds) > 0
    ensures d in ds && d != self && d in m && !m[d].treated
  {
    if ds[0] != self && ds[0] in m && !m[ds[0]].treated {
      d := ds[0];
    } else {
      d := BlockingWitness(m, self, ds[1..]);
    }
  }

  // ---------------------------------------------------------------------
  // The properties the cascade relies on

  /**
   * CanTreatTargetFB is sound: with exact (or merely not too small) counters,
   * a ready entry has no registered untreated dependency besides itself,
   * and before the sweep no unregistered one either.
   */
  lemma ReadyIsClear(m: Table, k: Key, swept: bool)
    requires Bounded(m, swept) && k in m && Ready(m, k)
    ensures Clear(m, k, swept)
  {
    assert AtLeastAt(m, k, swept);
    ZeroPendingClear(m, k, m[k].deps, swept);
  }

  /** Registering a new key with its pending count keeps every counter exact (or bounded). */
  /** A new untreated entry keeps the log of emitted keys and their order. */
  lemma RegisterKeepsLog(m: Table, key: Key, info: Info, emitted: seq<Key>)
    requires key !in m && !info.treated
    ensures Logged(m, emitted) ==> Logged(m[key := info], emitted)
    ensures EmitOrder(m, emitted, false) ==> EmitOrder(m[key := info], emitted, false)
  {
    var m2 := m[key := info];
    forall x | Marked(m2, x)
      ensures x in m && m[x].treated
    {
    }
    assert forall x :: Marked(m2, x) ==> Marked(m, x);
    if EmitOrder(m, emitted, false) {
      forall i | 0 <= i < |emitted|
        ensures EmittedAfterDeps(m2, emitted, false, i)
      {
        assert EmittedAfterDeps(m, emitted, false, i);
      }
    }
  }

  lemma RegisterKeepsCounts(m: Table, key: Key, info: Info)
    requires key !in m && !info.treated && info.count == Pending(m, key, info.deps, false)
    ensures Counts(m, false) ==> Counts(m[key := info], false)
    ensures Bounded(m, false) ==> Bounded(m[key := info], false)
  {
    var m2 := m[key := info];
    forall k | k in m2
      ensures Counts(m, false) ==> ExactAt(m2, k, false)
      ensures Bounded(m, false) ==> AtLeastAt(m2, k, false)
    {
      PendingAfterRegister(m, key, info, k, m2[k].deps);
      if k != key {
        if Counts(m, false) { assert ExactAt(m, k, false); }
        if Bounded(m, false) { assert AtLeastAt(m, k, false); }
      }
    }
  }

  /** Treating a set of keys and decrementing by their occurrences keeps the counters exact. */
  lemma TreatingKeepsCounts(m1: Table, m2: Table, swept: bool)
    requires Evolves(m1, m2) && TreatedKeys(m1) <= TreatedKeys(m2)
    requires Decremented(m1, m2, TreatedKeys(m2) - TreatedKeys(m1))
    ensures Counts(m1, swept) ==> Counts(m2, swept)
    ensures Bounded(m1, swept) ==> Bounded(m2, swept)
  {
    forall k | k in m2
      ensures Counts(m1, swept) ==> ExactAt(m2, k, swept)
      ensures Bounded(m1, swept) ==> AtLeastAt(m2, k, swept)
    {
      if !m2[k].treated {
        assert EvolvesAt(m1, m2, k);
        assert DecrementedAt(m1, m2, TreatedKeys(m2) - TreatedKeys(m1), k);
        PendingAfterTreating(m1, m2, k, m1[k].deps, swept);
        if Counts(m1, swept) { assert ExactAt(m1, k, swept); }
        if Bounded(m1, swept) { assert AtLeastAt(m1, k, swept); }
      }
    }
  }

  /**
   * The table after DecrementNbDepsTargetUnexist: every untreated entry loses
   * one per dependency occurrence that has no entry; treated entries keep
   * their counter.
   */
  function Swept(m: Table): (r: Table)
    ensures r.Keys == m.Keys
  {
    map k | k in m :: if m[k].treated then m[k] else m[k].(count := m[k].count - Missing(m, m[k].deps))
  }

  /** The sweep turns exact pre-sweep counters into exact post-sweep ones, and changes nothing else. */
  lemma SweepMakesSwept(m: Table)
    requires Counts(m, false)
    ensures Counts(Swept(m), true)
  {
    var m2 := Swept(m);
    assert TreatedKeys(m) == TreatedKeys(m2);
    forall k | k in m2
      ensures ExactAt(m2, k, true)
    {
      assert ExactAt(m, k, false);
      UntreatedSplit(m, k, m[k].deps);
      PendingAfterTreating(m, m2, k, m[k].deps, true);
      CountInNone(m[k].deps, TreatedKeys(m2) - TreatedKeys(m));
    }
  }

  /** The sweep keeps lists, configs and flags, hence the emission log and its order. */
  lemma SweepKeepsLog(m: Table, emitted: seq<Key>)
    ensures Evolves(m, Swept(m)) && Evolves(Swept(m), m) && TreatedKeys(Swept(m)) == TreatedKeys(m)
    ensures Logged(m, emitted) ==> Logged(Swept(m), emitted)
    ensures EmitOrder(m, emitted, false) ==> EmitOrder(Swept(m), emitted, true)
  {
    var m2 := Swept(m);
    forall x | x in m
      ensures EvolvesAt(m, m2, x) && EvolvesAt(m2, m, x)
    {
    }
    if Logged(m, emitted) {
      forall x | Marked(m2, x)
        ensures x in emitted
      {
        assert Marked(m, x);
      }
    }
    if EmitOrder(m, emitted, false) {
      forall i | 0 <= i < |emitted|
        ensures EmittedAfterDeps(m2, emitted, true, i)
      {
        assert EmittedAfterDeps(m, emitted, false, i);
      }
    }
  }

  /** Exact counters are in particular not too small. */
  lemma CountsBounded(m: Table, swept: bool)
    requires Counts(m, swept)
    ensures Bounded(m, swept)
  {
    forall k | k in m
      ensures AtLeastAt(m, k, swept)
    {
      assert ExactAt(m, k, swept);
    }
  }

  /**
   * What is left after the final pass is stuck on itself: every entry still
   * untreated waits on another registered entry that is also untreated.
   */
  lemma StuckWaitsOnStuck(m: Table, k: Key) returns (d: Key)
    requires Counts(m, true) && Quiescent(m) && k in m && !m[k].treated
    ensures d in m[k].deps && d != k && d in m && !m[d].treated
  {
    assert ExactAt(m, k, true);
    d := BlockingWitness(m, k, m[k].deps);
  }

  /** Occurrences before the sweep are at least the exact blocking count. */
  lemma PresweepBoundsSwept(m: Table)
    requires Bounded(m, false)
    ensures Bounded(m, true)
  {
    forall k | k in m
      ensures AtLeastAt(m, k, true)
    {
      assert AtLeastAt(m, k, false);
      UntreatedSplit(m, k, m[k].deps);
    }
  }

  /** Entries left untreated, in key order (what PrintAllTargetWithNbDeps reports). */
  function Unfinished(m: Table, order: seq<Key>): (r: seq<Key>)
    ensures forall k :: k in r <==> k in order && k in m && !m[k].treated
    ensures |r| <= |order|
  {
    if order == [] then []
    else
      (if order[0] in m && !m[order[0]].treated then [order[0]] else [])
      + Unfinished(m, order[1..])
  }

  // ---------------------------------------------------------------------
  // The loop of TargetTreatedFinish(k), as a relation between the table at
  // entry `m0` (k still untreated, t0 its treated keys) and the current one.

  /** The entry at position `j` has paid for every key treated since `m0`, except `k` if not yet visited. */
  ghost predicate PaidAt(m0: Table, m: Table, order: seq<Key>, i: nat, t0: set<Key>, k: Key, j: int)
  {
    0 <= j < |order| ==>
      DecrementedAt(m0, m, TreatedKeys(m) - (if j < i then t0 else t0 + {k}), order[j])
  }

  /** The counter of each key of `order` (0 for a key with no entry). */
  function Counters(m: Table, order: seq<Key>): (r: seq<int>)
    ensures |r| == |order|
  {
    seq(|order|, j requires 0 <= j < |order| => if order[j] in m then m[order[j]].count else 0)
  }

  /** The counters after visiting `i` positions, once the keys of `t` are treated. */
  ghost function Owed(m0: Table, order: seq<Key>, t: set<Key>, i: nat, t0: set<Key>, k: Key): (r: seq<int>)
    ensures |r| == |order|
  {
    seq(|order|, j requires 0 <= j < |order| =>
      if order[j] in m0 then m0[order[j]].count - CountIn(m0[order[j]].deps, t - (if j < i then t0 else t0 + {k}))
      else 0)
  }

  /** Entries visited so far owe nothing; the others still owe their occurrences of `k`. */
  ghost predicate Progress(m0: Table, m: Table, order: seq<Key>, i: nat, t0: set<Key>, k: Key)
  {
    Counters(m, order) == Owed(m0, order, TreatedKeys(m), i, t0, k)
  }

  lemma PaidFromProgress(m0: Table, m: Table, order: seq<Key>, i: nat, t0: set<Key>, k: Key, j: int)
    requires Progress(m0, m, order, i, t0, k)
    ensures PaidAt(m0, m, order, i, t0, k, j)
  {
    if 0 <= j < |order| {
      assert Counters(m, order)[j] == Owed(m0, order, TreatedKeys(m), i, t0, k)[j];
    }
  }

  lemma ProgressFromPaid(m0: Table, m: Table, order: seq<Key>, i: nat, t0: set<Key>, k: Key)
    requires m0.Keys == m.Keys
    requires forall j :: 0 <= j < |order| ==> PaidAt(m0, m, order, i, t0, k, j)
    ensures Progress(m0, m, order, i, t0, k)
  {
    var c, o := Counters(m, order), Owed(m0, order, TreatedKeys(m), i, t0, k);
    forall j | 0 <= j < |order|
      ensures c[j] == o[j]
    {
      assert PaidAt(m0, m, order, i, t0, k, j);
    }
  }

  lemma EmitAppend(m0: Table, e0: seq<Key>, k: Key, swept: bool)
    requires k in m0 && !m0[k].treated && Clear(m0, k, swept) && EmitOrder(m0, e0, swept)
    requires Logged(m0, e0) && Distinct(e0)
    ensures EmitOrder(WithTreated(m0, k), e0 + [k], swept)
    ensures Logged(WithTreated(m0, k), e0 + [k]) && Distinct(e0 + [k])
  {
    var m1 := WithTreated(m0, k);
    forall d | d in m0[k].deps && d != k && d in m0
      ensures d in e0
    {
      assert Marked(m0, d);
    }
    forall x | Marked(m1, x)
      ensures x in e0 + [k]
    {
      if x != k {
        assert Marked(m0, x);
      }
    }
    var em := e0 + [k];
    forall i | 0 <= i < |em|
      ensures EmittedAfterDeps(m1, em, swept, i)
    {
      if i < |e0| {
        assert EmittedAfterDeps(m0, e0, swept, i);
        assert em[..i] == e0[..i];
      } else {
        assert em[..i] == e0;
      }
    }
  }

  /** Changing one counter changes nothing else the ledger's invariants speak of. */
  lemma CountUpdate(m0: Table, m1: Table, e: Key, c: int, emitted: seq<Key>, swept: bool)
    requires e in m1
    ensures Logged(m1, emitted) ==> Logged(WithCount(m1, e, c), emitted)
    ensures WithCount(m1, e, c).Keys == m1.Keys && TreatedKeys(WithCount(m1, e, c)) == TreatedKeys(m1)
    ensures Evolves(m0, m1) ==> Evolves(m0, WithCount(m1, e, c))
    ensures EmitOrder(m1, emitted, swept) ==> EmitOrder(WithCount(m1, e, c), emitted, swept)
  {
    var m2 := WithCount(m1, e, c);
    assert TreatedKeys(m2) == TreatedKeys(m1);
    if Logged(m1, emitted) {
      forall x | Marked(m2, x)
        ensures x in emitted
      {
        assert Marked(m1, x);
      }
    }
    if Evolves(m0, m1) {
      forall x | x in m0
        ensures EvolvesAt(m0, m2, x)
      {
        assert EvolvesAt(m0, m1, x);
      }
    }
    if EmitOrder(m1, emitted, swept) {
      forall i | 0 <= i < |emitted|
        ensures EmittedAfterDeps(m2, emitted, swept, i)
      {
        assert EmittedAfterDeps(m1, emitted, swept, i);
      }
    }
  }

  lemma ProgressStart(m0: Table, order: seq<Key>, k: Key)
    requires k in m0 && !m0[k].treated
    ensures TreatedKeys(WithTreated(m0, k)) == TreatedKeys(m0) + {k}
    ensures Progress(m0, WithTreated(m0, k), order, 0, TreatedKeys(m0), k)
  {
    var m1 := WithTreated(m0, k);
    assert TreatedKeys(m1) == TreatedKeys(m0) + {k};
    forall j | 0 <= j < |order|
      ensures PaidAt(m0, m1, order, 0, TreatedKeys(m0), k, j)
    {
      if order[j] in m0 {
        CountInNone(m0[order[j]].deps, TreatedKeys(m1) - (TreatedKeys(m0) + {k}));
      }
    }
    ProgressFromPaid(m0, m1, order, 0, TreatedKeys(m0), k);
  }

  /** Visiting order[i]: its counter pays the occurrences of `k` it owed. */
  lemma ProgressStep(m0: Table, mb: Table, order: seq<Key>, i: nat, t0: set<Key>, k: Key)
    requires i < |order| && Distinct(order) && order[i] in mb && order[i] in m0
    requires Evolves(m0, mb) && t0 + {k} <= TreatedKeys(mb) && k !in t0
    requires Progress(m0, mb, order, i, t0, k)
    ensures var ma := WithCount(mb, order[i], mb[order[i]].count - CountIn(mb[order[i]].deps, {k}));
      TreatedKeys(ma) == TreatedKeys(mb) && Progress(m0, ma, order, i + 1, t0, k)
  {
    var ma := WithCount(mb, order[i], mb[order[i]].count - CountIn(mb[order[i]].deps, {k}));
    var e := order[i];
    assert TreatedKeys(ma) == TreatedKeys(mb);
    var next := i + 1;
    forall j | 0 <= j < |order|
      ensures PaidAt(m0, ma, order, next, t0, k, j)
    {
      PaidFromProgress(m0, mb, order, i, t0, k, j);
      if j == i {
        assert EvolvesAt(m0, mb, e);
        CountInShift(m0[e].deps, t0, t0 + {k}, TreatedKeys(mb));
        assert (t0 + {k}) - t0 == {k};
      }
    }
    ProgressFromPaid(m0, ma, order, next, t0, k);
  }

  /** A nested finish decrements everybody by what it treated, visited or not. */
  lemma ProgressNested(m0: Table, mb: Table, ma: Table, order: seq<Key>, i: nat, t0: set<Key>, k: Key)
    requires Evolves(m0, mb) && Evolves(mb, ma) && t0 + {k} <= TreatedKeys(mb) <= TreatedKeys(ma)
    requires Decremented(mb, ma, TreatedKeys(ma) - TreatedKeys(mb))
    requires Progress(m0, mb, order, i, t0, k)
    ensures Progress(m0, ma, order, i, t0, k)
  {
    forall j | 0 <= j < |order|
      ensures PaidAt(m0, ma, order, i, t0, k, j)
    {
      PaidFromProgress(m0, mb, order, i, t0, k, j);
      if order[j] in m0 {
        assert EvolvesAt(m0, mb, order[j]);
        assert DecrementedAt(mb, ma, TreatedKeys(ma) - TreatedKeys(mb), order[j]);
        CountInShift(m0[order[j]].deps, t0, TreatedKeys(mb), TreatedKeys(ma));
        CountInShift(m0[order[j]].deps, t0 + {k}, TreatedKeys(mb), TreatedKeys(ma));
      }
    }
    ProgressFromPaid(m0, ma, order, i, t0, k);
  }

  lemma ProgressDone(m0: Table, m: Table, order: seq<Key>, t0: set<Key>, k: Key)
    requires m0.Keys == m.Keys && (forall x :: x in m0 ==> x in order)
    requires Progress(m0, m, order, |order|, t0, k)
    ensures Decremented(m0, m, TreatedKeys(m) - t0)
  {
    forall x | x in m0
      ensures DecrementedAt(m0, m, TreatedKeys(m) - t0, x)
    {
      var j :| 0 <= j < |order| && order[j] == x;
      PaidFromProgress(m0, m, order, |order|, t0, k, j);
    }
  }

  /** Counters that still owe decrements are never below the exact value. */
  lemma BoundedFromProgress(m0: Table, m: Table, order: seq<Key>, i: nat, t0: set<Key>, k: Key, swept: bool)
    requires Bounded(m0, swept) && t0 == TreatedKeys(m0) && k in m0 && !m0[k].treated
    requires Evolves(m0, m) && t0 + {k} <= TreatedKeys(m)
    requires (forall x :: x in m0 ==> x in order) && Progress(m0, m, order, i, t0, k)
    ensures Bounded(m, swept)
  {
    forall x | x in m
      ensures AtLeastAt(m, x, swept)
    {
      if !m[x].treated {
        assert AtLeastAt(m0, x, swept);
        assert EvolvesAt(m0, m, x);
        var j :| 0 <= j < |order| && order[j] == x;
        PaidFromProgress(m0, m, order, i, t0, k, j);
        PendingAfterTreating(m0, m, x, m0[x].deps, swept);
        CountInMono(m0[x].deps, TreatedKeys(m) - (t0 + {k}), TreatedKeys(m) - t0);
      }
    }
  }

  /** Number of untreated entries: the measure of the cascade. */
  function OpenCount(m: Table): nat
  {
    |m.Keys - TreatedKeys(m)|
  }

  /** Treating `k` (and possibly more) leaves fewer untreated entries. */
  lemma FewerUntreated(m0: Table, m: Table, k: Key)
    requires Evolves(m0, m) && k in m0 && !m0[k].treated && TreatedKeys(m0) + {k} <= TreatedKeys(m)
    ensures OpenCount(m) < OpenCount(m0)
  {
    var u0 := m0.Keys - TreatedKeys(m0);
    assert k in u0;
    SubsetCard(m.Keys - TreatedKeys(m), u0 - {k});
  }

  /** Inside the loop of TargetTreatedFinish(k) fewer entries are untreated than at its entry. */
  lemma CascadeFewer(m0: Table, e0: seq<Key>, order: seq<Key>, k: Key, swept: bool, i: nat, m: Table, emitted: seq<Key>)
    requires Cascade(m0, e0, order, k, swept, i, i, m, emitted) == true
    ensures OpenCount(m) < OpenCount(m0)
  {
    FewerUntreated(m0, m, k);
  }

  /**
   * The invariant of the loop of TargetTreatedFinish(k), for the table `m0` at
   * entry: entries before position `i` have paid for `k`, and those before `q`
   * are not ready.
   */
  ghost predicate Cascade(m0: Table, e0: seq<Key>, order: seq<Key>, k: Key, swept: bool,
                          i: nat, q: nat, m: Table, emitted: seq<Key>)
  {
    Frame(m0, order, k, swept) && i <= |order| && Evolves(m0, m) && m[k].treated && TreatedKeys(m0) + {k} <= TreatedKeys(m) &&
    |emitted| > |e0| && emitted[..|e0|] == e0 && emitted[|e0|] == k &&
    EmitOrder(m, emitted, swept) && Logged(m, emitted) && Distinct(emitted) &&
    Progress(m0, m, order, i, TreatedKeys(m0), k) &&
    forall j :: 0 <= j < q && j < |order| && order[j] in m && !m[order[j]].treated ==> m[order[j]].count > 0
  }

  /** The table `m0` at entry to TargetTreatedFinish(k), keyed in `order`. */
  ghost predicate Frame(m0: Table, order: seq<Key>, k: Key, swept: bool)
  {
    m0.Keys == Elems(order) && Distinct(order) && k in m0 && !m0[k].treated && Bounded(m0, swept)
  }

  /** What TargetTreatedFinish(k) expects of the table it starts from. */
  ghost predicate Start(m0: Table, e0: seq<Key>, order: seq<Key>, k: Key, swept: bool)
  {
    Frame(m0, order, k, swept) && k in m0 && Ready(m0, k) &&
    EmitOrder(m0, e0, swept) && Logged(m0, e0) && Distinct(e0)
  }

  /** What TargetTreatedFinish(k) guarantees about the table it leaves. */
  ghost predicate Finished(m0: Table, e0: seq<Key>, k: Key, swept: bool, m: Table, emitted: seq<Key>)
  {
    Evolves(m0, m) && k in m && m[k].treated && TreatedKeys(m0) <= TreatedKeys(m) &&
    |emitted| > |e0| && emitted[..|e0|] == e0 && emitted[|e0|] == k &&
    Decremented(m0, m, TreatedKeys(m) - TreatedKeys(m0)) &&
    Bounded(m, swept) && Quiescent(m) &&
    EmitOrder(m, emitted, swept) && Logged(m, emitted) && Distinct(emitted)
  }

  lemma CascadeStart(m0: Table, e0: seq<Key>, order: seq<Key>, k: Key, swept: bool)
    requires Start(m0, e0, order, k, swept) == true
    ensures Cascade(m0, e0, order, k, swept, 0, 0, WithTreated(m0, k), e0 + [k]) == true
  {
    ReadyIsClear(m0, k, swept);
    EmitAppend(m0, e0, k, swept);
    ProgressStart(m0, order, k);
  }

  lemma CascadeDone(m0: Table, e0: seq<Key>, order: seq<Key>, k: Key, swept: bool, m: Table, emitted: seq<Key>)
    requires Cascade(m0, e0, order, k, swept, |order|, |order|, m, emitted) == true
    ensures Finished(m0, e0, k, swept, m, emitted) == true
  {
    assert forall x :: x in m0 ==> x in order by {
      assert forall x :: x in Elems(order) ==> x in order;
    }
    ProgressDone(m0, m, order, TreatedKeys(m0), k);
    BoundedFromProgress(m0, m, order, |order|, TreatedKeys(m0), k, swept);
    forall x | x in m && !m[x].treated
      ensures m[x].count > 0
    {
      var j :| 0 <= j < |order| && order[j] == x;
    }
  }

  /** The decrement of order[i] by its occurrences of `k`. */
  lemma CascadeDecrement(m0: Table, e0: seq<Key>, order: seq<Key>, k: Key, swept: bool,
                         i: nat, m: Table, emitted: seq<Key>, n: int)
    requires i < |order|
    requires Cascade(m0, e0, order, k, swept, i, i, m, emitted) == true
    ensures order[i] in m
    ensures n == CountIn(m[order[i]].deps, {k}) ==>
      var m' := WithCount(m, order[i], m[order[i]].count - n);
      m'.Keys == m.Keys && TreatedKeys(m') == TreatedKeys(m) &&
      Cascade(m0, e0, order, k, swept, i + 1, i, m', emitted)
  {
    assert order[i] in Elems(order);
    if n == CountIn(m[order[i]].deps, {k}) {
      CountUpdate(m0, m, order[i], m[order[i]].count - n, emitted, swept);
      ProgressStep(m0, m, order, i, TreatedKeys(m0), k);
    }
  }

  /** After its decrement, order[i] is either not ready, or ready to be finished in turn. */
  lemma CascadeSettled(m0: Table, e0: seq<Key>, order: seq<Key>, k: Key, swept: bool,
                       i: nat, m: Table, emitted: seq<Key>)
    requires i < |order|
    requires Cascade(m0, e0, order, k, swept, i + 1, i, m, emitted) == true
    ensures order[i] in m
    ensures !Ready(m, order[i]) ==> Cascade(m0, e0, order, k, swept, i + 1, i + 1, m, emitted)
    ensures Ready(m, order[i]) ==> Start(m, emitted, order, order[i], swept)
  {
    assert order[i] in Elems(order);
    if Ready(m, order[i]) {
      assert forall x :: x in m0 ==> x in order by {
        assert forall x :: x in Elems(order) ==> x in order;
      }
      BoundedFromProgress(m0, m, order, i + 1, TreatedKeys(m0), k, swept);
    }
  }

  /** A nested finish of order[i] keeps the loop invariant, and leaves order[i] settled. */
  lemma CascadeNested(m0: Table, e0: seq<Key>, order: seq<Key>, k: Key, swept: bool,
                      i: nat, mb: Table, eb: seq<Key>, ma: Table, ea: seq<Key>)
    requires i < |order|
    requires Cascade(m0, e0, order, k, swept, i + 1, i, mb, eb) == true
    requires Finished(mb, eb, order[i], swept, ma, ea) == true
    ensures Cascade(m0, e0, order, k, swept, i + 1, i + 1, ma, ea) == true
  {
    ProgressNested(m0, mb, ma, order, i + 1, TreatedKeys(m0), k);
    EvolvesTrans(m0, mb, ma);
    assert ea[..|e0|] == eb[..|eb|][..|e0|];
  }

  /** Treating nothing decrements nothing. */
  lemma DecrementedNone(m: Table)
    ensures Decremented(m, m, TreatedKeys(m) - TreatedKeys(m))
  {
    forall x | x in m
      ensures DecrementedAt(m, m, TreatedKeys(m) - TreatedKeys(m), x)
    {
      CountInNone(m[x].deps, TreatedKeys(m) - TreatedKeys(m));
    }
  }

  /** Two rounds of treatment compose: the counters drop by the occurrences of every key treated in either. */
  lemma DecrementedTrans(m1: Table, m2: Table, m3: Table)
    requires Evolves(m1, m2) && TreatedKeys(m1) <= TreatedKeys(m2) <= TreatedKeys(m3)
    requires Decremented(m1, m2, TreatedKeys(m2) - TreatedKeys(m1))
    requires Decremented(m2, m3, TreatedKeys(m3) - TreatedKeys(m2))
    ensures Decremented(m1, m3, TreatedKeys(m3) - TreatedKeys(m1))
  {
    var a, b := TreatedKeys(m2) - TreatedKeys(m1), TreatedKeys(m3) - TreatedKeys(m2);
    assert a + b == TreatedKeys(m3) - TreatedKeys(m1);
    forall x | x in m1
      ensures DecrementedAt(m1, m3, a + b, x)
    {
      assert EvolvesAt(m1, m2, x) && DecrementedAt(m1, m2, a, x) && DecrementedAt(m2, m3, b, x);
      CountInUnion(m1[x].deps, a, b);
    }
  }

  /** A key written after the log `e0` was untreated when `e0` was the log. */
  lemma NewlyEmittedUntreated(m0: Table, e0: seq<Key>, emitted: seq<Key>)
    requires Logged(m0, e0) && Distinct(emitted) && |emitted| >= |e0| && emitted[..|e0|] == e0
    ensures forall i :: |e0| <= i < |emitted| && emitted[i] in m0 ==> !m0[emitted[i]].treated
  {
    forall i | |e0| <= i < |emitted| && emitted[i] in m0
      ensures !m0[emitted[i]].treated
    {
      var x := emitted[i];
      assert Marked(m0, x) ==> x in e0;
    }
  }

  // ---------------------------------------------------------------------
  // The ledger object

  class Ledger {
    var entries: Table
    /** The keys in the iteration order of the std::map: ascending. */
    var order: seq<Key>
    /** Keys whose targets have been written to the .bff, in writing order. */
    var emitted: seq<Key>
    /** Whether DecrementNbDepsTargetUnexist has run (it closes the pass). */
    ghost var swept: bool

    ghost predicate Valid()
      reads this
    {
      entries.Keys == Elems(order) && Ascending(order) && Distinct(order) &&
      Distinct(emitted) && Logged(entries, emitted)
    }

    /** Valid, with exact counters, no ready entry left waiting, and every emission after its dependencies. */
    ghost predicate Settled()
      reads this
    {
      Valid() && Counts(entries, swept) && Quiescent(entries) && EmitOrder(entries, emitted, swept)
    }

    constructor ()
      ensures Settled() && !swept && entries == map[] && order == [] && emitted == []
    {
      entries := map[];
      order := [];
      emitted := [];
      swept := false;
    }

    /** GetNumberUntratedDepsTarget. */
    method CountUntreated(self: Key, ds: seq<Key>) returns (n: int)
      ensures n == Untreated(entries, self, ds)
    {
      n := 0;
      var i := 0;
      while i < |ds|
        invariant 0 <= i <= |ds|
        invariant n + Untreated(entries, self, ds[i..]) == Untreated(entries, self, ds)
      {
        assert ds[i..][1..] == ds[i + 1..];
        if ds[i] != self {
          if ds[i] in entries {
            if !entries[ds[i]].treated {
              n := n + 1;
            }
          } else {
            n := n + 1;
          }
        }
        i := i + 1;
      }
    }

    /** Number of occurrences of `k` in `ds` (the decrement loop of TargetTreatedFinish). */
    static method CountOccurrences(ds: seq<Key>, k: Key) returns (n: int)
      ensures n == CountIn(ds, {k})
    {
      n := 0;
      var i := 0;
      while i < |ds|
        invariant 0 <= i <= |ds|
        invariant n + CountIn(ds[i..], {k}) == CountIn(ds, {k})
      {
        assert ds[i..][1..] == ds[i + 1..];
        if ds[i] == k {
          n := n + 1;
        }
        i := i + 1;
      }
    }

    /** Number of occurrences in `ds` with no entry in `m` (the decrement loop of DecrementNbDepsTargetUnexist). */
    static method CountMissing(m: Table, ds: seq<Key>) returns (n: int)
      ensures n == Missing(m, ds)
    {
      n := 0;
      var i := 0;
      while i < |ds|
        invariant 0 <= i <= |ds|
        invariant n + Missing(m, ds[i..]) == Missing(m, ds)
      {
        assert ds[i..][1..] == ds[i + 1..];
        if ds[i] !in m {
          n := n + 1;
        }
        i := i + 1;
      }
    }

    /** CanTreatTargetFB. */
    function CanTreat(key: Key): (r: bool)
      reads this
      requires key in entries
      ensures r <==> Ready(entries, key)
    {
      !(entries[key].count > 0 || entries[key].treated)
    }

    /** AddFastbuildInfoTarget: insert under name ++ config unless that key is already present. */
    method Register(name: string, config: string, deps: seq<Key>) returns (key: Key)
      requires Valid()
      modifies this
      ensures key == name + config && key in entries
      ensures Valid() && emitted == old(emitted) && swept == old(swept)
      ensures old(key in entries) ==> entries == old(entries) && order == old(order)
      ensures old(key !in entries) ==>
        entries == old(entries)[key := Info(deps, Pending(old(entries), key, deps, false), false, config)] &&
        order == Insert(old(order), key)
      ensures old(Counts(entries, false)) ==> Counts(entries, false)
      ensures old(Bounded(entries, false)) ==> Bounded(entries, false)
      ensures old(EmitOrder(entries, emitted, false)) ==> EmitOrder(entries, emitted, false)
      ensures old(Quiescent(entries)) && !Ready(entries, key) ==> Quiescent(entries)
    {
      key := name + config;
      if key !in entries {
        var n := CountUntreated(key, deps);
        ghost var m0 := entries;
        var info := Info(deps, n, false, config);
        RegisterKeepsCounts(m0, key, info);
        entries := entries[key := info];
        ghost var o0 := order;
        order := Insert(order, key);
        assert forall x :: x in order <==> x in Elems(order);
        assert forall x :: x in o0 <==> x in Elems(o0);
        RegisterKeepsLog(m0, key, info, emitted);
      }
    }

    /**
     * Emission of a ready target followed by TargetTreatedFinish, on a snapshot
     * of the table: the target's sections are written, it is marked treated,
     * and every entry, in key order, loses one per occurrence of the key; an
     * entry found ready right after its own decrement is emitted and finished
     * in turn.
     */
    static method Finish(m0: Table, e0: seq<Key>, order: seq<Key>, k: Key, ghost swept: bool)
      returns (m: Table, emitted: seq<Key>)
      requires Start(m0, e0, order, k, swept) == true
      decreases OpenCount(m0), 2, 0
      ensures Finished(m0, e0, k, swept, m, emitted) == true
    {
      CascadeStart(m0, e0, order, k, swept);
      m, emitted := VisitFrom(m0, e0, order, k, swept, 0, WithTreated(m0, k), e0 + [k]);
      CascadeDone(m0, e0, order, k, swept, m, emitted);
    }

    /** The loop of TargetTreatedFinish(k) over the key order, from position i on. */
    static method VisitFrom(m0: Table, e0: seq<Key>, order: seq<Key>, k: Key, ghost swept: bool,
                            i: nat, m1: Table, em1: seq<Key>)
      returns (m: Table, emitted: seq<Key>)
      requires i <= |order|
      requires Cascade(m0, e0, order, k, swept, i, i, m1, em1) == true
      decreases OpenCount(m0), 1, |order| - i
      ensures Cascade(m0, e0, order, k, swept, |order|, |order|, m, emitted) == true
    {
      if i == |order| {
        return m1, em1;
      }
      CascadeFewer(m0, e0, order, k, swept, i, m1, em1);
      m, emitted := Visit(m0, e0, order, k, swept, i, m1, em1);
      m, emitted := VisitFrom(m0, e0, order, k, swept, i + 1, m, emitted);
    }

    /** One step of that loop: the decrement of order[i], and its own finish if it became ready. */
    static method Visit(m0: Table, e0: seq<Key>, order: seq<Key>, k: Key, ghost swept: bool,
                        i: nat, m1: Table, em1: seq<Key>)
      returns (m: Table, emitted: seq<Key>)
      requires i < |order|
      requires Cascade(m0, e0, order, k, swept, i, i, m1, em1) == true
      decreases OpenCount(m1), 3
      ensures Cascade(m0, e0, order, k, swept, i + 1, i + 1, m, emitted) == true
    {
      CascadeDecrement(m0, e0, order, k, swept, i, m1, em1, 0);
      var e := order[i];
      var n := CountOccurrences(m1[e].deps, k);
      CascadeDecrement(m0, e0, order, k, swept, i, m1, em1, n);
      m, emitted := WithCount(m1, e, m1[e].count - n), em1;
      CascadeSettled(m0, e0, order, k, swept, i, m, emitted);
      if m[e].count <= 0 && !m[e].treated {
        ghost var mb, eb := m, emitted;
        m, emitted := Finish(m, emitted, order, e, swept);
        CascadeNested(m0, e0, order, k, swept, i, mb, eb, m, emitted);
      }
    }

    /** Emission and TargetTreatedFinish of a ready entry of this ledger. */
    method Treat(k: Key)
      requires Valid() && k in entries && Ready(entries, k)
      requires Counts(entries, swept) && EmitOrder(entries, emitted, swept)
      modifies this
      ensures Valid() && order == old(order) && swept == old(swept)
      ensures Finished(old(entries), old(emitted), k, swept, entries, emitted) == true
      ensures Counts(entries, swept)
    {
      CountsBounded(entries, swept);
      ghost var m0 := entries;
      entries, emitted := Finish(entries, emitted, order, k, swept);
      TreatingKeepsCounts(m0, entries, swept);
    }

    /**
     * cmFastbuildNormalTargetGenerator::Generate as far as the ledger sees it:
     * without a linker language it reports an error and does nothing else;
     * otherwise it registers the target with the keys of its dependencies
     * and writes and finishes it at once if it is ready.
     */
    method Generate(name: string, config: string, linkerLanguage: string, deps: seq<Key>)
      returns (r: Result<Key>)
      requires Settled() && !swept
      modifies this
      ensures Settled() && !swept
      ensures linkerLanguage == "" ==>
        r == Err("CMake can not determine linker language for target: " + name) &&
        entries == old(entries) && order == old(order) && emitted == old(emitted)
      ensures linkerLanguage != "" ==> r == Ok(name + config) && name + config in entries
      ensures old(name + config in entries) ==>
        entries == old(entries) && order == old(order) && emitted == old(emitted)
      ensures linkerLanguage != "" && old(name + config !in entries) ==>
        order == Insert(old(order), name + config) && entries[name + config].deps == deps
      ensures |emitted| >= |old(emitted)| && emitted[..|old(emitted)|] == old(emitted)
      ensures linkerLanguage != "" && old(name + config !in entries) ==>
        (name + config in emitted <==> Pending(old(entries), name + config, deps, false) == 0)
      ensures linkerLanguage != "" && old(name + config !in entries) ==>
        var m1 := old(entries)[name + config := Info(deps, Pending(old(entries), name + config, deps, false), false, config)];
        if Ready(m1, name + config) then Finished(m1, old(emitted), name + config, false, entries, emitted)
        else entries == m1 && emitted == old(emitted)
    {
      if linkerLanguage == "" {
        return Err("CMake can not determine linker language for target: " + name);
      }
      var key := Register(name, config, deps);
      r := Ok(key);
      if CanTreat(key) {
        ghost var mid := entries;
        Treat(key);
        assert EvolvesAt(mid, entries, key);
        assert emitted[|old(emitted)|] == key;
      } else if key in emitted {
        var i :| 0 <= i < |emitted| && emitted[i] == key;
        assert entries[emitted[i]].treated;
      }
    }

    /** DecrementNbDepsTargetUnexist on this ledger. */
    method SubtractMissing()
      requires Valid()
      modifies this
      ensures entries == Swept(old(entries))
      ensures order == old(order) && emitted == old(emitted) && swept == old(swept)
    {
      entries := SweepTable(entries, order);
    }

    /**
     * The loop of DecrementNbDepsTargetUnexist over the keys in order: every
     * untreated entry loses one per dependency occurrence that has no entry.
     */
    static method SweepTable(m0: Table, order: seq<Key>) returns (m: Table)
      requires m0.Keys == Elems(order) && Distinct(order)
      ensures m == Swept(m0)
    {
      m := m0;
      var i := 0;
      while i < |order|
        invariant 0 <= i <= |order| && m.Keys == m0.Keys
        invariant forall j :: 0 <= j < |order| ==>
          m[order[j]] == if j < i then Swept(m0)[order[j]] else m0[order[j]]
      {
        var k := order[i];
        assert k in Elems(order);
        if !m[k].treated {
          MissingSameKeys(m0, m, m0[k].deps);
          var n := CountMissing(m, m[k].deps);
          m := WithCount(m, k, m[k].count - n);
          forall j | 0 <= j < |order| && j != i
            ensures order[j] != k
          {
            DistinctApart(order, i, j);
          }
        }
        i := i + 1;
      }
      forall x | x in m0
        ensures m[x] == Swept(m0)[x]
      {
        assert x in Elems(order);
      }
    }

    /**
     * lastChanceToTreatTargets: the sweep, then one pass in key order that
     * writes and finishes every untreated entry found ready.
     */
    method LastChance()
      requires Settled() && !swept
      modifies this
      ensures Settled() && swept && order == old(order)
      ensures |emitted| >= |old(emitted)| && emitted[..|old(emitted)|] == old(emitted)
      ensures Evolves(old(entries), entries) && TreatedKeys(old(entries)) <= TreatedKeys(entries)
      ensures Decremented(Swept(old(entries)), entries, TreatedKeys(entries) - TreatedKeys(old(entries)))
      ensures forall i :: |old(emitted)| <= i < |emitted| ==> emitted[i] in old(entries) && !old(entries)[emitted[i]].treated
    {
      ghost var m0 := entries;
      SubtractMissing();
      SweepMakesSwept(m0);
      SweepKeepsLog(m0, emitted);
      swept := true;
      entries, emitted := FinishReady(entries, emitted, order);
      EvolvesTrans(m0, Swept(m0), entries);
    }

    /** The pass of lastChanceToTreatTargets over the keys in order, on a snapshot of the table. */
    static method FinishReady(m0: Table, e0: seq<Key>, order: seq<Key>) returns (m: Table, emitted: seq<Key>)
      requires m0.Keys == Elems(order) && Distinct(order) && Distinct(e0) && Logged(m0, e0)
      requires Counts(m0, true) && EmitOrder(m0, e0, true)
      ensures m.Keys == m0.Keys && Distinct(emitted) && Logged(m, emitted)
      ensures Counts(m, true) && Quiescent(m) && EmitOrder(m, emitted, true)
      ensures |emitted| >= |e0| && emitted[..|e0|] == e0
      ensures Evolves(m0, m) && TreatedKeys(m0) <= TreatedKeys(m)
      ensures Decremented(m0, m, TreatedKeys(m) - TreatedKeys(m0))
      ensures forall i :: |e0| <= i < |emitted| ==> emitted[i] in m0 && !m0[emitted[i]].treated
    {
      m, emitted := m0, e0;
      DecrementedNone(m0);
      var i := 0;
      while i < |order|
        invariant 0 <= i <= |order| && m.Keys == m0.Keys && Distinct(emitted) && Logged(m, emitted)
        invariant Counts(m, true) && EmitOrder(m, emitted, true)
        invariant |emitted| >= |e0| && emitted[..|e0|] == e0
        invariant Evolves(m0, m) && TreatedKeys(m0) <= TreatedKeys(m)
        invariant Decremented(m0, m, TreatedKeys(m) - TreatedKeys(m0))
        invariant forall j :: 0 <= j < i ==> order[j] in m && (!m[order[j]].treated ==> m[order[j]].count > 0)
      {
        var k := order[i];
        assert k in Elems(order);
        if !m[k].treated && m[k].count <= 0 {
          ghost var mb, eb := m, emitted;
          CountsBounded(m, true);
          m, emitted := Finish(m, emitted, order, k, true);
          TreatingKeepsCounts(mb, m, true);
          DecrementedTrans(m0, mb, m);
          EvolvesTrans(m0, mb, m);
          assert emitted[..|e0|] == emitted[..|eb|][..|e0|];
          forall j | 0 <= j < i + 1
            ensures order[j] in m && (!m[order[j]].treated ==> m[order[j]].count > 0)
          {
            assert order[j] in Elems(order);
          }
        }
        i := i + 1;
      }
      forall x | x in m && !m[x].treated
        ensures m[x].count > 0
      {
        assert x in Elems(order);
      }
      NewlyEmittedUntreated(m0, e0, emitted);
    }

    /**
     * PrintAllTargetWithNbDeps after the pass: the entries still untreated,
     * each of which waits on another of them.
     */
    method Leftovers() returns (r: seq<Key>)
      requires Settled() && swept
      ensures r == Unfinished(entries, order)
      ensures forall k :: k in r ==> exists d :: d in entries[k].deps && d != k && d in r
    {
      r := Unfinished(entries, order);
      forall k | k in r
        ensures exists d :: d in entries[k].deps && d != k && d in r
      {
        var d := StuckWaitsOnStuck(entries, k);
        assert d in Elems(order);
      }
    }
  }
}
