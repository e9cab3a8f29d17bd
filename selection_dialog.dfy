/** The partition selection dialog of the backup tab: one check box per scanned partition
    name, the normal ones (ticked) before the risky ones (unticked), with select-all,
    invert and default buttons. The check boxes are kept in a dictionary keyed by name, so
    a name scanned twice has one box, at the place of its first insertion. */
module SelectionDialog {
  import opened Text
  import opened Seqs

  /** The partitions the dialog advises against backing up. */
  const RiskyNames: seq<string> := ["userdata", "metadata", "frp", "cache"]

  /** A risky partition, by its lower-cased name. */
  predicate IsRisky(p: string)
  {
    Lower(p) in RiskyNames
  }

  predicate IsNormal(p: string)
  {
    !IsRisky(p)
  }

  predicate Distinct(s: seq<string>)
  {
    forall i, j :: 0 <= i < j < |s| ==> s[i] != s[j]
  }

  /** The keys of a dictionary filled from `s` in order: first occurrences only. */
  function Dedup(s: seq<string>): (r: seq<string>)
    ensures Distinct(r)
    ensures forall x :: x in r <==> x in s
  {
    if s == [] then []
    else
      var d := Dedup(s[..|s| - 1]);
      var x := s[|s| - 1];
      assert s == s[..|s| - 1] + [x];
      if x in d then d else d + [x]
  }

  /** The dialog's check boxes, in order: the normal partitions, then the risky ones. */
  function Keys(partitions: seq<string>): seq<string>
  {
    Dedup(Filter(partitions, IsNormal) + Filter(partitions, IsRisky))
  }

  /** Ticked exactly for the normal partitions. */
  function DefaultChecks(names: seq<string>): (r: seq<bool>)
    ensures |r| == |names|
  {
    seq(|names|, i requires 0 <= i < |names| => IsNormal(names[i]))
  }

  function AllChecked(n: nat): (r: seq<bool>)
    ensures |r| == n
  {
    seq(n, i => true)
  }

  function Inverted(c: seq<bool>): (r: seq<bool>)
    ensures |r| == |c|
  {
    seq(|c|, i requires 0 <= i < |c| => !c[i])
  }

  /** The names whose box is ticked, in box order. */
  function Selected(names: seq<string>, checks: seq<bool>): (r: seq<string>)
    requires |checks| == |names|
    ensures forall x :: x in r <==> exists i :: 0 <= i < |names| && names[i] == x && checks[i]
    decreases |names|
  {
    if names == [] then []
    else
      var k := |names| - 1;
      var before := Selected(names[..k], checks[..k]);
      assert forall i :: 0 <= i < k ==> names[..k][i] == names[i] && checks[..k][i] == checks[i];
      before + if checks[k] then [names[k]] else []
  }

  /** The classification loop of `_populate`. */
  method Classify(partitions: seq<string>) returns (normal: seq<string>, risky: seq<string>)
    ensures normal == Filter(partitions, IsNormal) && risky == Filter(partitions, IsRisky)
  {
    normal, risky := [], [];
    for i := 0 to |partitions|
      invariant normal == Filter(partitions[..i], IsNormal)
      invariant risky == Filter(partitions[..i], IsRisky)
    {
      var p := partitions[i];
      FilterSnoc(partitions[..i], p, IsNormal);
      FilterSnoc(partitions[..i], p, IsRisky);
      PrefixSnoc(partitions, i);
      var risk := IsRisky(p);
      assert IsNormal(p) == !risk;
      if risk {
        risky := risky + [p];
      } else {
        normal := normal + [p];
      }
    }
    PrefixAll(partitions);
  }

  /** Adding a box per item to a dictionary whose keys came from `before`. */
  method AddBoxes(keys: seq<string>, items: seq<string>, ghost before: seq<string>) returns (r: seq<string>)
    requires keys == Dedup(before)
    ensures r == Dedup(before + items)
  {
    r := keys;
    assert before + items[..0] == before;
    for i := 0 to |items|
      invariant r == Dedup(before + items[..i])
    {
      assert before + items[..i + 1] == (before + items[..i]) + [items[i]];
      if items[i] !in r {
        r := r + [items[i]];
      }
    }
    assert items[..|items|] == items;
  }

  class PartitionSelection {
    /** The check box names, in dictionary order. */
    const names: seq<string>
    /** Whether each box is ticked. */
    const checked: array<bool>

    predicate Valid()
    {
      checked.Length == |names| && Distinct(names)
    }

    /** `__init__` with `_populate`: classify, then add the boxes. */
    constructor(partitions: seq<string>)
      ensures Valid() && fresh(checked)
      ensures names == Keys(partitions)
      ensures checked[..] == DefaultChecks(names)
    {
      var normal, risky := Classify(partitions);
      var keys := AddBoxes([], normal, []);
      assert [] + normal == normal;
      keys := AddBoxes(keys, risky, normal);
      names := keys;
      checked := new bool[|keys|](i requires 0 <= i < |keys| => IsNormal(keys[i]));
    }

    /** `select_all`. */
    method SelectAll()
      requires Valid()
      modifies checked
      ensures checked[..] == AllChecked(|names|)
    {
      for i := 0 to checked.Length
        invariant forall k :: 0 <= k < i ==> checked[k]
      {
        checked[i] := true;
      }
    }

    /** `invert_selection`. */
    method InvertSelection()
      requires Valid()
      modifies checked
      ensures checked[..] == Inverted(old(checked[..]))
    {
      for i := 0 to checked.Length
        invariant forall k :: 0 <= k < i ==> checked[k] == !old(checked[k])
        invariant forall k :: i <= k < checked.Length ==> checked[k] == old(checked[k])
      {
        checked[i] := !checked[i];
      }
    }

    /** `select_default`. */
    method SelectDefault()
      requires Valid()
      modifies checked
      ensures checked[..] == DefaultChecks(names)
    {
      for i := 0 to checked.Length
        invariant forall k :: 0 <= k < i ==> checked[k] == IsNormal(names[k])
      {
        checked[i] := !IsRisky(names[i]);
      }
    }

    /** `get_selected`. */
    method GetSelected() returns (r: seq<string>)
      requires Valid()
      ensures r == Selected(names, checked[..])
    {
      r := [];
      for i := 0 to checked.Length
        invariant r == Selected(names[..i], checked[..i])
      {
        assert names[..i + 1][..i] == names[..i] && checked[..i + 1][..i] == checked[..i];
        if checked[i] {
          r := r + [names[i]];
        }
      }
      assert names[..|names|] == names && checked[..checked.Length] == checked[..];
    }
  }

  // ---------------------------------------------------------------- properties

  /** Dictionary keys from two lists with no name in common. */
  lemma {:induction false} DedupAppendDisjoint(a: seq<string>, b: seq<string>)
    requires forall x :: x in b ==> x !in a
    ensures Dedup(a + b) == Dedup(a) + Dedup(b)
    decreases |b|
  {
    if b == [] {
      assert a + b == a;
    } else {
      var k := |b| - 1;
      DedupAppendDisjoint(a, b[..k]);
      assert (a + b)[..|a + b| - 1] == a + b[..k];
      assert (a + b)[|a + b| - 1] == b[k];
    }
  }

  /** One box per scanned name, no name twice, and every normal box before every risky
      one. */
  lemma KeysLayout(partitions: seq<string>)
    ensures Distinct(Keys(partitions))
    ensures forall x :: x in Keys(partitions) <==> x in partitions
    ensures Keys(partitions) == Dedup(Filter(partitions, IsNormal)) + Dedup(Filter(partitions, IsRisky))
    ensures forall i, j :: 0 <= i < j < |Keys(partitions)| && IsRisky(Keys(partitions)[i]) ==> IsRisky(Keys(partitions)[j])
  {
    var normal := Filter(partitions, IsNormal);
    var risky := Filter(partitions, IsRisky);
    DedupAppendDisjoint(normal, risky);
    var keys := Keys(partitions);
    var dn := Dedup(normal);
    assert forall i :: 0 <= i < |dn| ==> IsNormal(keys[i]) by {
      forall i | 0 <= i < |dn|
        ensures IsNormal(keys[i])
      {
        assert keys[i] == dn[i] && dn[i] in normal;
      }
    }
    assert forall i :: |dn| <= i < |keys| ==> IsRisky(keys[i]) by {
      forall i | |dn| <= i < |keys|
        ensures IsRisky(keys[i])
      {
        assert keys[i] in Dedup(risky);
      }
    }
  }

  /** Selecting over two runs of boxes. */
  lemma {:induction false} SelectedAppend(a: seq<string>, ca: seq<bool>, b: seq<string>, cb: seq<bool>)
    requires |ca| == |a| && |cb| == |b|
    ensures Selected(a + b, ca + cb) == Selected(a, ca) + Selected(b, cb)
    decreases |b|
  {
    if b == [] {
      assert a + b == a && ca + cb == ca;
    } else {
      var k := |b| - 1;
      SelectedAppend(a, ca, b[..k], cb[..k]);
      assert (a + b)[..|a + b| - 1] == a + b[..k];
      assert (ca + cb)[..|ca + cb| - 1] == ca + cb[..k];
    }
  }

  lemma {:induction false} SelectedAll(names: seq<string>)
    ensures Selected(names, AllChecked(|names|)) == names
    decreases |names|
  {
    if names != [] {
      var k := |names| - 1;
      assert AllChecked(|names|)[..k] == AllChecked(k);
      SelectedAll(names[..k]);
      assert names[..k] + [names[k]] == names;
    }
  }

  lemma {:induction false} SelectedNone(names: seq<string>, c: seq<bool>)
    requires |c| == |names| && forall i :: 0 <= i < |c| ==> !c[i]
    ensures Selected(names, c) == []
    decreases |names|
  {
    if names != [] {
      SelectedNone(names[..|names| - 1], c[..|names| - 1]);
    }
  }

  /** Select-all selects every box, in box order. */
  lemma SelectAllSelectsEvery(names: seq<string>)
    ensures Selected(names, AllChecked(|names|)) == names
  {
    SelectedAll(names);
  }

  function NoneChecked(n: nat): (r: seq<bool>)
    ensures |r| == n
  {
    seq(n, i => false)
  }

  /** The default boxes of normal names followed by risky names. */
  lemma DefaultChecksSplit(a: seq<string>, b: seq<string>)
    requires forall i :: 0 <= i < |a| ==> IsNormal(a[i])
    requires forall i :: 0 <= i < |b| ==> IsRisky(b[i])
    ensures DefaultChecks(a + b) == AllChecked(|a|) + NoneChecked(|b|)
  {
    var d := DefaultChecks(a + b);
    forall i | 0 <= i < |a + b|
      ensures d[i] == (AllChecked(|a|) + NoneChecked(|b|))[i]
    {
      if i < |a| { assert (a + b)[i] == a[i]; } else { assert (a + b)[i] == b[i - |a|]; }
    }
  }

  /** Right after opening (or after "default"), the selection is the normal partitions,
      once each, in scan order. */
  lemma OpeningSelection(partitions: seq<string>)
    ensures Selected(Keys(partitions), DefaultChecks(Keys(partitions))) == Dedup(Filter(partitions, IsNormal))
  {
    KeysLayout(partitions);
    var dn := Dedup(Filter(partitions, IsNormal));
    var dr := Dedup(Filter(partitions, IsRisky));
    assert forall i :: 0 <= i < |dn| ==> dn[i] in Filter(partitions, IsNormal);
    assert forall i :: 0 <= i < |dr| ==> dr[i] in Filter(partitions, IsRisky);
    DefaultChecksSplit(dn, dr);
    SelectedAppend(dn, AllChecked(|dn|), dr, NoneChecked(|dr|));
    SelectedAll(dn);
    SelectedNone(dr, NoneChecked(|dr|));
  }

  /** The default selection is exactly the normal names. */
  lemma DefaultSelectsNormal(names: seq<string>)
    ensures forall x :: x in Selected(names, DefaultChecks(names)) <==> x in names && IsNormal(x)
  {
  }

  /** Inverting twice restores the boxes. */
  lemma InvertTwice(c: seq<bool>)
    ensures Inverted(Inverted(c)) == c
  {
  }

  /** With distinct names, inverting selects exactly the names that were not selected. */
  lemma InvertComplements(names: seq<string>, c: seq<bool>)
    requires Distinct(names) && |c| == |names|
    ensures forall x :: x in Selected(names, Inverted(c)) <==> x in names && x !in Selected(names, c)
  {
    forall x | x in names
      ensures x in Selected(names, Inverted(c)) <==> x !in Selected(names, c)
    {
      var i :| 0 <= i < |names| && names[i] == x;
      assert forall j :: 0 <= j < |names| && names[j] == x ==> j == i;
      assert Inverted(c)[i] == !c[i];
    }
  }
}
