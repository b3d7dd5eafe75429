// Shared vocabulary for the model: optional values, errors, and the string
// searches the C++ code performs with std::string::find / rfind.

module Text {

  datatype Option<T> = None | Some(value: T)

  datatype Result<T> = Ok(value: T) | Err(msg: string)

  /** No element occurs twice: none occurs before its own position. */
  predicate Distinct<T(==)>(s: seq<T>)
  {
    forall i :: 0 <= i < |s| ==> s[i] !in s[..i]
  }

  lemma DistinctApart<T>(s: seq<T>, i: int, j: int)
    requires Distinct(s) && 0 <= i < |s| && 0 <= j < |s| && i != j
    ensures s[i] != s[j]
  {
    if i < j {
      assert s[i] == s[..j][i];
    } else {
      assert s[j] == s[..i][j];
    }
  }

  /** Appending a new element keeps a sequence distinct. */
  lemma DistinctSnoc<T>(s: seq<T>, x: T)
    requires Distinct(s) && x !in s
    ensures Distinct(s + [x]) && Elems(s + [x]) == Elems(s) + {x}
  {
    forall i | 0 <= i < |s| + 1
      ensures (s + [x])[i] !in (s + [x])[..i]
    {
      if i < |s| {
        assert (s + [x])[..i] == s[..i];
      } else {
        assert (s + [x])[..i] == s;
      }
    }
  }

  /** Prepending a new element keeps a sequence distinct. */
  lemma DistinctCons<T>(x: T, s: seq<T>)
    requires Distinct(s) && x !in s
    ensures Distinct([x] + s)
  {
    forall i | 0 <= i < |s| + 1
      ensures ([x] + s)[i] !in ([x] + s)[..i]
    {
      if i > 0 {
        assert ([x] + s)[..i] == [x] + s[..i - 1];
        assert s[i - 1] !in s[..i - 1];
      }
    }
  }

  lemma ElemsConcat<T>(a: seq<T>, b: seq<T>)
    ensures Elems(a + b) == Elems(a) + Elems(b)
  {
    assert forall x :: x in a + b <==> x in a || x in b;
  }

  /** Number of occurrences of `x` in `s`. */
  function Occ<T(==)>(s: seq<T>, x: T): nat
  {
    if s == [] then 0 else (if s[0] == x then 1 else 0) + Occ(s[1..], x)
  }

  /** Elements of a sequence, as a set. */
  function Elems<T>(s: seq<T>): set<T>
  {
    set x | x in s
  }

  /** Lexicographic order on strings, the order of std::map<std::string, …>. */
  predicate Below(a: string, b: string)
  {
    if a == [] then b != []
    else if b == [] then false
    else if a[0] != b[0] then a[0] < b[0]
    else Below(a[1..], b[1..])
  }

  lemma {:induction false} BelowTotal(a: string, b: string)
    ensures a == b || Below(a, b) || Below(b, a)
  {
    if a != [] && b != [] && a[0] == b[0] {
      BelowTotal(a[1..], b[1..]);
      if a[1..] == b[1..] {
        assert a == [a[0]] + a[1..] && b == [b[0]] + b[1..];
      }
    }
  }

  lemma {:induction false} BelowIrreflexive(a: string)
    ensures !Below(a, a)
  {
    if a != [] {
      BelowIrreflexive(a[1..]);
    }
  }

  lemma {:induction false} BelowTransitive(a: string, b: string, c: string)
    requires Below(a, b) && Below(b, c)
    ensures Below(a, c)
  {
    if a != [] && b != [] && c != [] && a[0] == b[0] && b[0] == c[0] {
      BelowTransitive(a[1..], b[1..], c[1..]);
    }
  }

  /** Strictly ascending by `Below` between neighbours. */
  ghost predicate Ascending(s: seq<string>)
  {
    forall i, j :: 0 <= i < j < |s| && j == i + 1 ==> Below(s[i], s[j])
  }

  /** Insertion of a new key into the ascending key sequence of a std::map. */
  function Insert(s: seq<string>, k: string): (r: seq<string>)
    requires Ascending(s) && k !in s
    ensures Ascending(r) && Elems(r) == Elems(s) + {k} && |r| == |s| + 1
    ensures Distinct(s) ==> Distinct(r)
    ensures r != [] && (r[0] == k || (s != [] && r[0] == s[0]))
  {
    if s == [] then [k]
    else if Below(k, s[0]) then [k] + s
    else
      BelowTotal(k, s[0]);
      var rest := Insert(s[1..], k);
      assert Elems(s) == {s[0]} + Elems(s[1..]);
      [s[0]] + rest
  }

  /** Index of the first occurrence of `c` in `s` at or after `from`. */
  function FindFrom(s: string, c: char, from: nat): (r: Option<nat>)
    decreases |s| - from
    ensures r.Some? ==> (from <= r.value < |s| && s[r.value] == c &&
                         forall j :: from <= j < r.value ==> s[j] != c)
    ensures r.None? ==> forall j :: from <= j < |s| ==> s[j] != c
  {
    if from >= |s| then None
    else if s[from] == c then Some(from)
    else FindFrom(s, c, from + 1)
  }

  /** std::string::find(c): the first index holding `c`. */
  function Find(s: string, c: char): (r: Option<nat>)
    ensures r.Some? ==> r.value < |s| && s[r.value] == c && c !in s[..r.value]
    ensures r.None? <==> c !in s
  {
    FindFrom(s, c, 0)
  }

  /** std::string::rfind(c): the last index holding `c`. */
  function RFind(s: string, c: char): (r: Option<nat>)
    ensures r.Some? ==> r.value < |s| && s[r.value] == c && c !in s[r.value + 1..]
    ensures r.None? <==> c !in s
  {
    if s == [] then None
    else if s[|s| - 1] == c then Some(|s| - 1)
    else
      var r := RFind(s[..|s| - 1], c);
      assert s == s[..|s| - 1] + [s[|s| - 1]];
      r
  }

  /** `p` occurs in `s` starting at index `i`. */
  predicate OccursAt(s: string, p: string, i: nat)
  {
    i + |p| <= |s| && s[i..i + |p|] == p
  }

  /** std::string::find(p): the first index at which `p` occurs. */
  function FindSub(s: string, p: string): (r: Option<nat>)
    ensures r.Some? ==> (OccursAt(s, p, r.value) &&
                         forall j :: 0 <= j < r.value ==> !OccursAt(s, p, j))
    ensures r.None? ==> forall j :: 0 <= j <= |s| ==> !OccursAt(s, p, j)
  {
    FindSubFrom(s, p, 0)
  }

  function FindSubFrom(s: string, p: string, from: nat): (r: Option<nat>)
    decreases |s| + 1 - from
    ensures r.Some? ==> (from <= r.value && OccursAt(s, p, r.value) &&
                         forall j :: from <= j < r.value ==> !OccursAt(s, p, j))
    ensures r.None? ==> forall j :: from <= j <= |s| ==> !OccursAt(s, p, j)
  {
    if from + |p| > |s| then None
    else if s[from..from + |p|] == p then Some(from)
    else FindSubFrom(s, p, from + 1)
  }

  /** `p` occurs somewhere in `s`. */
  predicate Contains(s: string, p: string)
  {
    exists i :: 0 <= i <= |s| && OccursAt(s, p, i)
  }

  /** std::string::substr(pos, n): clipped to the end of the string. */
  function Substr(s: string, pos: nat, n: nat): (r: string)
    requires pos <= |s|
    ensures |r| <= n && pos + |r| <= |s| && r == s[pos..pos + |r|]
    ensures pos + n <= |s| ==> |r| == n
  {
    if pos + n <= |s| then s[pos..pos + n] else s[pos..]
  }

  /** Items joined with `sep` between neighbours (cmJoin). */
  function Join(items: seq<string>, sep: string): string
  {
    if items == [] then ""
    else if |items| == 1 then items[0]
    else items[0] + sep + Join(items[1..], sep)
  }

  /** Appending one item to a joined list. */
  lemma {:induction false} JoinSnoc(items: seq<string>, x: string, sep: string)
    requires items != []
    ensures Join(items + [x], sep) == Join(items, sep) + sep + x
  {
    if |items| == 1 {
      assert (items + [x])[1..] == [x];
    } else {
      assert (items + [x])[1..] == items[1..] + [x];
      JoinSnoc(items[1..], x, sep);
    }
  }

  /** `n` copies of character `c`. */
  function Repeat(c: char, n: nat): (r: string)
    ensures |r| == n && forall i :: 0 <= i < n ==> r[i] == c
  {
    if n == 0 then "" else [c] + Repeat(c, n - 1)
  }

  lemma SubsetCard<T>(a: set<T>, b: set<T>)
    requires a <= b
    ensures |a| <= |b|
  {
    if a != {} {
      var x :| x in a;
      SubsetCard(a - {x}, b - {x});
    }
  }

  /**
   * cmSystemTools::ReplaceString: every occurrence of `pat`, scanning left to
   * right and resuming after each replacement, becomes `rep`.
   */
  function ReplaceAll(s: string, pat: string, rep: string): (r: string)
    requires pat != []
    decreases |s|
  {
    if |s| < |pat| then s
    else if s[..|pat|] == pat then rep + ReplaceAll(s[|pat|..], pat, rep)
    else [s[0]] + ReplaceAll(s[1..], pat, rep)
  }

  /** A string without the pattern is left as it is. */
  lemma {:induction false} ReplaceAbsent(s: string, pat: string, rep: string)
    requires pat != [] && forall i :: 0 <= i <= |s| ==> !OccursAt(s, pat, i)
    ensures ReplaceAll(s, pat, rep) == s
  {
    if |s| >= |pat| {
      assert !OccursAt(s, pat, 0);
      forall i | 0 <= i <= |s[1..]|
        ensures !OccursAt(s[1..], pat, i)
      {
        if OccursAt(s[1..], pat, i) {
          assert s[1..][i..i + |pat|] == s[i + 1..i + 1 + |pat|];
          assert OccursAt(s, pat, i + 1);
        }
      }
      ReplaceAbsent(s[1..], pat, rep);
      assert s == [s[0]] + s[1..];
    }
  }

  /** Replacing a single character is a character-by-character map. */
  function MapChar(s: string, c: char, rep: string): (r: string)
    ensures c !in s ==> r == s
  {
    if s == [] then [] else (if s[0] == c then rep else [s[0]]) + MapChar(s[1..], c, rep)
  }

  lemma {:induction false} ReplaceOneChar(s: string, c: char, rep: string)
    ensures ReplaceAll(s, [c], rep) == MapChar(s, c, rep)
  {
    if s != [] {
      ReplaceOneChar(s[1..], c, rep);
      assert s[..1] == [s[0]];
    }
  }

  lemma {:induction false} MapCharAppend(a: string, b: string, c: char, rep: string)
    ensures MapChar(a + b, c, rep) == MapChar(a, c, rep) + MapChar(b, c, rep)
  {
    if a != [] {
      var x, t := a[0], a[1..] + b;
      assert a + b == [x] + t;
      assert a == [x] + a[1..];
      MapCharCons(x, t, c, rep);
      MapCharCons(x, a[1..], c, rep);
      MapCharAppend(a[1..], b, c, rep);
      AppendAssociates(if x == c then rep else [x], MapChar(a[1..], c, rep), MapChar(b, c, rep));
    } else {
      assert a + b == b;
    }
  }

  /** Appending in two steps is appending at once. */
  lemma AppendAssociates<T>(a: seq<T>, b: seq<T>, c: seq<T>)
    ensures (a + b) + c == a + (b + c)
  {
  }

  lemma MapCharCons(x: char, s: string, c: char, rep: string)
    ensures MapChar([x] + s, c, rep) == (if x == c then rep else [x]) + MapChar(s, c, rep)
  {
    assert ([x] + s)[0] == x && ([x] + s)[1..] == s;
  }

  /** The pieces of `s` between occurrences of `sep`, empty ones included. */
  function Split(s: string, sep: char): (r: seq<string>)
    ensures |r| >= 1
    ensures forall i :: 0 <= i < |r| ==> sep !in r[i]
  {
    match Find(s, sep)
    case None => [s]
    case Some(i) => [s[..i]] + Split(s[i + 1..], sep)
  }

  /**
   * cmExpandList on a list without brackets or escapes: the pieces between
   * ';' separators, empty pieces dropped.
   */
  function ExpandList(s: string): (r: seq<string>)
    ensures forall i :: 0 <= i < |r| ==> r[i] != "" && ';' !in r[i]
  {
    NonEmpty(Split(s, ';'))
  }

  function NonEmpty(items: seq<string>): (r: seq<string>)
    ensures forall i :: 0 <= i < |r| ==> r[i] != "" && r[i] in items
    ensures forall x :: x in items && x != "" ==> x in r
  {
    if items == [] then []
    else (if items[0] == "" then [] else [items[0]]) + NonEmpty(items[1..])
  }

  /** A non-empty list whose items hold no separator splits back into its items. */
  lemma {:induction false} SplitJoin(items: seq<string>, c: char)
    requires items != [] && forall i :: 0 <= i < |items| ==> c !in items[i]
    ensures Split(Join(items, [c]), c) == items
  {
    if |items| > 1 {
      var rest := Join(items[1..], [c]);
      var s := items[0] + [c] + rest;
      assert s[..|items[0]|] == items[0];
      FindFirst(s, c, |items[0]|);
      assert s[|items[0]| + 1..] == rest;
      SplitJoin(items[1..], c);
    }
  }

  /** An index holding `c` with no later `c` is what rfind returns. */
  lemma RFindLast(s: string, c: char, i: nat)
    requires i < |s| && s[i] == c && c !in s[i + 1..]
    ensures RFind(s, c) == Some(i)
  {
  }

  /** An index holding `c` with no earlier `c` is what find returns. */
  lemma FindFirst(s: string, c: char, i: nat)
    requires i < |s| && s[i] == c && c !in s[..i]
    ensures Find(s, c) == Some(i)
  {
  }

  lemma {:induction false} OccConcat<T>(a: seq<T>, b: seq<T>, x: T)
    ensures Occ(a + b, x) == Occ(a, x) + Occ(b, x)
  {
    if a == [] {
      assert a + b == b;
    } else {
      assert (a + b)[1..] == a[1..] + b;
      OccConcat(a[1..], b, x);
    }
  }

  lemma {:induction false} OccAbsent<T>(s: seq<T>, x: T)
    ensures x !in s <==> Occ(s, x) == 0
  {
    if s != [] {
      OccAbsent(s[1..], x);
      assert s == [s[0]] + s[1..];
    }
  }

  /** When the replacement lacks `c`, no `c` is left afterwards. */
  lemma {:induction false} MapCharRemoves(s: string, c: char, rep: string)
    requires c !in rep
    ensures c !in MapChar(s, c, rep)
  {
    if s != [] {
      MapCharRemoves(s[1..], c, rep);
    }
  }

  /** Each `c` rewritten to two characters grows the string by one. */
  lemma {:induction false} MapCharPairLength(s: string, c: char, rep: string)
    requires |rep| == 2
    ensures |MapChar(s, c, rep)| == |s| + Occ(s, c)
  {
    if s != [] {
      MapCharPairLength(s[1..], c, rep);
    }
  }


  /** The value of an option as a sequence of at most one element. */
  function Present<T>(o: Option<T>): (r: seq<T>)
    ensures o.None? <==> r == []
    ensures o.Some? ==> r == [o.value]
  {
    match o case None => [] case Some(x) => [x]
  }

  /** The present values of a sequence of options, in order. */
  function Somes<T>(xs: seq<Option<T>>): (r: seq<T>)
    ensures |r| <= |xs|
  {
    if xs == [] then []
    else Present(xs[0]) + Somes(xs[1..])
  }

  lemma {:induction false} SomesSnoc<T>(xs: seq<Option<T>>, y: Option<T>)
    ensures Somes(xs + [y]) == Somes(xs) + Present(y)
  {
    if xs == [] {
      assert xs + [y] == [y];
      assert Somes([y]) == Present(y) + Somes([]);
    } else {
      var ys := xs + [y];
      assert ys[0] == xs[0] && ys[1..] == xs[1..] + [y];
      SomesSnoc(xs[1..], y);
      calc {
        Somes(ys);
        Present(xs[0]) + Somes(xs[1..] + [y]);
        Present(xs[0]) + (Somes(xs[1..]) + Present(y));
        { AppendAssociates(Present(xs[0]), Somes(xs[1..]), Present(y)); }
        (Present(xs[0]) + Somes(xs[1..])) + Present(y);
      }
    }
  }

  lemma {:induction false} SomesMembers<T>(xs: seq<Option<T>>, x: T)
    ensures x in Somes(xs) <==> Some(x) in xs
  {
    if xs != [] {
      SomesMembers(xs[1..], x);
      assert xs == [xs[0]] + xs[1..];
    }
  }

  lemma TakeSnoc<T>(s: seq<T>, i: nat)
    requires i < |s|
    ensures s[..i + 1] == s[..i] + [s[i]]
  {
  }

  lemma TakeAll<T>(s: seq<T>)
    ensures s[..|s|] == s
  {
  }

  /** `m` is below every other element of `keys`. */
  predicate IsLeast(m: string, keys: set<string>)
  {
    m in keys && forall x :: x in keys ==> x == m || Below(m, x)
  }

  lemma {:induction false} LeastExists(keys: set<string>)
    requires keys != {}
    ensures exists m :: IsLeast(m, keys)
    decreases |keys|
  {
    var x :| x in keys;
    var rest := keys - {x};
    if rest != {} {
      LeastExists(rest);
      var m :| IsLeast(m, rest);
      BelowTotal(x, m);
      if Below(x, m) {
        forall y | y in keys ensures y == x || Below(x, y) {
          if y != x && y != m { BelowTransitive(x, m, y); }
        }
        assert IsLeast(x, keys);
      } else {
        assert IsLeast(m, keys);
      }
    } else {
      assert keys == {x};
      assert IsLeast(x, keys);
    }
  }

  lemma LeastUnique(keys: set<string>)
    ensures forall a, b :: IsLeast(a, keys) && IsLeast(b, keys) ==> a == b
  {
    forall a, b | IsLeast(a, keys) && IsLeast(b, keys) ensures a == b {
      if a != b {
        BelowTransitive(a, b, a);
        BelowIrreflexive(a);
      }
    }
  }

  /** The least key of a non-empty set of strings. */
  function Least(keys: set<string>): (m: string)
    requires keys != {}
    ensures IsLeast(m, keys)
  {
    LeastExists(keys);
    LeastUnique(keys);
    var m :| IsLeast(m, keys);
    m
  }

  /** The keys in ascending order: the iteration order of std::map and std::set. */
  function SortedKeys(keys: set<string>): (r: seq<string>)
    ensures Elems(r) == keys && |r| == |keys|
    decreases |keys|
  {
    if keys == {} then []
    else
      var m := Least(keys);
      var rest := SortedKeys(keys - {m});
      assert Elems([m] + rest) == {m} + Elems(rest);
      [m] + rest
  }

  /** One more than the largest unsigned long and unsigned int (LP64). */
  const ULongLimit: nat := 0x1_0000_0000_0000_0000
  const UIntLimit: nat := 0x1_0000_0000

  predicate AllDigits(s: string)
  {
    forall i :: 0 <= i < |s| ==> '0' <= s[i] <= '9'
  }

  /** The character of a decimal digit. */
  function DigitChar(d: nat): (c: char)
    requires d < 10
    ensures '0' <= c <= '9' && c as int - '0' as int == d
  {
    "0123456789"[d]
  }

  /** The value of a decimal digit character (0 for anything else). */
  function DigitValue(c: char): (d: nat)
    ensures d < 10
  {
    if '0' <= c <= '9' then c as int - '0' as int else 0
  }

  /** std::to_string of a natural number. */
  function Decimal(n: nat): (r: string)
    ensures |r| >= 1 && forall i :: 0 <= i < |r| ==> '0' <= r[i] <= '9'
  {
    if n < 10 then [DigitChar(n)] else Decimal(n / 10) + [DigitChar(n % 10)]
  }

  /** Reads a string of decimal digits. */
  function ParseDecimal(s: string): nat
  {
    if s == [] then 0 else ParseDecimal(s[..|s| - 1]) * 10 + DigitValue(s[|s| - 1])
  }

  lemma {:induction false} DecimalRoundTrip(n: nat)
    ensures ParseDecimal(Decimal(n)) == n
  {
    if n >= 10 {
      DecimalRoundTrip(n / 10);
      var r := Decimal(n);
      assert r[..|r| - 1] == Decimal(n / 10);
    }
  }

  /** Distinct numbers print differently. */
  lemma DecimalInjective(a: nat, b: nat)
    ensures Decimal(a) == Decimal(b) ==> a == b
  {
    DecimalRoundTrip(a);
    DecimalRoundTrip(b);
  }
}
