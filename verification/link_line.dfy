// cmFastbuildLinkLineComputer::ComputeLinkLibs: the link line keeps only
// the items the FASTBuild generator does not handle itself.

module LinkLine {
  import opened Text
  import opened TargetNaming

  /** An item of the computed link information. */
  datatype LinkItem = LinkItem(value: string, isPath: bool, target: Option<TargetType>)

  /**
   * Items naming a target (interface libraries included) and paths go to
   * the .Libraries variable instead; only the remaining items reach the
   * link line.
   */
  predicate OnLinkLine(item: LinkItem)
  {
    if item.target.Some? && item.target.value == InterfaceLibrary then false
    else !(item.isPath || item.target.Some?)
  }

  /** What one item adds to the link line: its value and a space, or nothing. */
  function Contribution(item: LinkItem): (r: string)
    ensures r == "" <==> !OnLinkLine(item)
  {
    if OnLinkLine(item) then item.value + " " else ""
  }

  /** The link line of a sequence of items. */
  function LinkLibs(items: seq<LinkItem>): string
  {
    if items == [] then "" else Contribution(items[0]) + LinkLibs(items[1..])
  }

  /** ComputeLinkLibs: one pass over the items, in order. */
  method ComputeLinkLibs(items: seq<LinkItem>) returns (linkLibs: string)
    ensures linkLibs == LinkLibs(items)
  {
    linkLibs := "";
    var i := 0;
    while i < |items|
      invariant i <= |items|
      invariant linkLibs == LinkLibs(items[..i])
    {
      var item := items[i];
      LinkLibsSnoc(items, i);
      if item.target.Some? && item.target.value == InterfaceLibrary {
        i := i + 1;
        continue;
      }
      if item.isPath || item.target.Some? {
        i := i + 1;
        continue;
      } else {
        linkLibs := linkLibs + item.value;
      }
      linkLibs := linkLibs + " ";
      i := i + 1;
    }
    assert items[..i] == items;
  }

  /** The link line of consecutive item sequences is the concatenation of theirs: item order is kept. */
  lemma {:induction false} LinkLibsConcat(a: seq<LinkItem>, b: seq<LinkItem>)
    ensures LinkLibs(a + b) == LinkLibs(a) + LinkLibs(b)
  {
    if a == [] {
      assert a + b == b;
    } else {
      var x, t := a[0], a[1..] + b;
      assert a + b == [x] + t;
      assert a == [x] + a[1..];
      LinkLibsCons(x, t);
      LinkLibsCons(x, a[1..]);
      LinkLibsConcat(a[1..], b);
      AppendAssociates(Contribution(x), LinkLibs(a[1..]), LinkLibs(b));
    }
  }

  lemma LinkLibsCons(x: LinkItem, s: seq<LinkItem>)
    ensures LinkLibs([x] + s) == Contribution(x) + LinkLibs(s)
  {
    assert ([x] + s)[0] == x && ([x] + s)[1..] == s;
  }

  /** The link line is empty exactly when no item reaches it, in particular for no items. */
  lemma {:induction false} LinkLibsEmpty(items: seq<LinkItem>)
    ensures LinkLibs(items) == "" <==> forall i :: 0 <= i < |items| ==> !OnLinkLine(items[i])
  {
    if items != [] {
      LinkLibsEmpty(items[1..]);
      forall i | 0 < i < |items| ensures items[i] == items[1..][i - 1] { }
    }
  }

  lemma LinkLibsSnoc(items: seq<LinkItem>, i: nat)
    requires i < |items|
    ensures LinkLibs(items[..i + 1]) == LinkLibs(items[..i]) + Contribution(items[i])
  {
    TakeSnoc(items, i);
    LinkLibsConcat(items[..i], [items[i]]);
    assert [items[i]][1..] == [];
  }

  /** Every kept item appears as its value followed by a space; interface libraries, paths and targets never do. */
  lemma LinkLibsSingle(item: LinkItem)
    ensures item.target.Some? || item.isPath ==> LinkLibs([item]) == ""
    ensures item.target.None? && !item.isPath ==> LinkLibs([item]) == item.value + " "
  {
    assert [item][1..] == [];
  }

  /** Items that never reach the link line can be dropped anywhere without changing it. */
  lemma LinkLibsDropFiltered(a: seq<LinkItem>, item: LinkItem, b: seq<LinkItem>)
    requires !OnLinkLine(item)
    ensures LinkLibs(a + [item] + b) == LinkLibs(a + b)
  {
    assert LinkLibs([item]) == "" by {
      assert [item][1..] == [];
    }
    LinkLibsConcat(a + [item], b);
    LinkLibsConcat(a, [item]);
    LinkLibsConcat(a, b);
    assert LinkLibs(a + [item]) == LinkLibs(a);
  }
}
