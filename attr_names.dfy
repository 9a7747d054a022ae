/**
 * get_new_attr_name_with_prefix of torch.ao.quantization.fx.utils: the
 * attribute name made of a prefix and the least index whose name the module
 * does not have yet. The module's attribute names are given as a set.
 */
module AttrNames {
  import opened Strings

  function PrefixedName(prefix: string, i: nat): string
  {
    prefix + NatToString(i)
  }

  lemma PrefixedNameInjective(prefix: string, i: nat, j: nat)
    requires PrefixedName(prefix, i) == PrefixedName(prefix, j)
    ensures i == j
  {
    assert PrefixedName(prefix, i)[|prefix|..] == NatToString(i);
    assert PrefixedName(prefix, j)[|prefix|..] == NatToString(j);
    NatToStringInjective(i, j);
  }

  /** The names with the first k indices. */
  function NamesBelow(prefix: string, k: nat): set<string>
  {
    if k == 0 then {} else NamesBelow(prefix, k - 1) + {PrefixedName(prefix, k - 1)}
  }

  lemma {:induction false} NamesBelowHas(prefix: string, k: nat, j: nat)
    requires j < k
    ensures PrefixedName(prefix, j) in NamesBelow(prefix, k)
  {
    if j < k - 1 {
      NamesBelowHas(prefix, k - 1, j);
    }
  }

  lemma {:induction false} NamesBelowOnly(prefix: string, k: nat, x: string)
    requires x in NamesBelow(prefix, k)
    ensures exists j: nat :: j < k && x == PrefixedName(prefix, j)
  {
    if x != PrefixedName(prefix, k - 1) {
      NamesBelowOnly(prefix, k - 1, x);
    }
  }

  /** There are k names with the first k indices. */
  lemma {:induction false} NamesBelowCard(prefix: string, k: nat)
    ensures |NamesBelow(prefix, k)| == k
  {
    if k > 0 {
      NamesBelowCard(prefix, k - 1);
      if PrefixedName(prefix, k - 1) in NamesBelow(prefix, k - 1) {
        NamesBelowOnly(prefix, k - 1, PrefixedName(prefix, k - 1));
        var j: nat :| j < k - 1 && PrefixedName(prefix, k - 1) == PrefixedName(prefix, j);
        PrefixedNameInjective(prefix, j, k - 1);
      }
    }
  }

  /** When the first i names are taken and so is the next, there are more than i attributes. */
  lemma TakenBound(prefix: string, attrs: set<string>, i: nat)
    requires NamesBelow(prefix, i) <= attrs && PrefixedName(prefix, i) in attrs
    ensures NamesBelow(prefix, i + 1) <= attrs && i + 1 <= |attrs|
  {
    NamesBelowCard(prefix, i + 1);
    SubsetCard(NamesBelow(prefix, i + 1), attrs);
  }

  lemma SubsetCard(a: set<string>, b: set<string>)
    requires a <= b
    ensures |a| <= |b|
  {
    assert b == a + (b - a);
    assert a !! (b - a);
  }

  /** The first free name from index i on. */
  function FreshFrom(prefix: string, attrs: set<string>, i: nat): (name: string)
    requires NamesBelow(prefix, i) <= attrs
    ensures name !in attrs
    decreases |attrs| - i
  {
    if PrefixedName(prefix, i) !in attrs then PrefixedName(prefix, i)
    else
      TakenBound(prefix, attrs, i);
      FreshFrom(prefix, attrs, i + 1)
  }

  /** The name for a module with attributes `attrs`: the prefix with the least index not taken yet. */
  function FreshName(prefix: string, attrs: set<string>): (name: string)
    ensures name !in attrs
  {
    FreshFrom(prefix, attrs, 0)
  }

  lemma {:induction false} FreshFromIndex(prefix: string, attrs: set<string>, i: nat)
    requires NamesBelow(prefix, i) <= attrs
    ensures exists j: nat :: i <= j && FreshFrom(prefix, attrs, i) == PrefixedName(prefix, j) && NamesBelow(prefix, j) <= attrs
    decreases |attrs| - i
  {
    if PrefixedName(prefix, i) in attrs {
      TakenBound(prefix, attrs, i);
      FreshFromIndex(prefix, attrs, i + 1);
    }
  }

  /** The name carries the prefix, and every name with a smaller index is taken. */
  lemma FreshNameLeast(prefix: string, attrs: set<string>)
    ensures IsPrefix(prefix, FreshName(prefix, attrs))
    ensures exists j: nat :: FreshName(prefix, attrs) == PrefixedName(prefix, j) &&
                             forall i: nat :: i < j ==> PrefixedName(prefix, i) in attrs
  {
    FreshFromIndex(prefix, attrs, 0);
    var j: nat :| FreshName(prefix, attrs) == PrefixedName(prefix, j) && NamesBelow(prefix, j) <= attrs;
    forall i: nat | i < j
      ensures PrefixedName(prefix, i) in attrs
    {
      NamesBelowHas(prefix, j, i);
    }
    assert PrefixedName(prefix, j)[..|prefix|] == prefix;
  }

  /** The while loop of get_new_attr_name. */
  method NewAttrName(prefix: string, attrs: set<string>) returns (name: string)
    ensures name == FreshName(prefix, attrs)
  {
    var i := 0;
    name := PrefixedName(prefix, 0);
    while name in attrs
      invariant NamesBelow(prefix, i) <= attrs && name == PrefixedName(prefix, i)
      invariant FreshFrom(prefix, attrs, i) == FreshName(prefix, attrs)
      decreases |attrs| - i
    {
      TakenBound(prefix, attrs, i);
      i := i + 1;
      name := PrefixedName(prefix, i);
    }
  }
}
