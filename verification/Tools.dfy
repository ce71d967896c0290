/** CanonicalizeTools (pkg/hasher/canonicalize.go): a stable sort of tools by function name. */
module Tools {
  import opened Ordering
  import opened CanonicalJson
  import opened Canonic

  /** The function name of a tool, empty when it is missing or not a string. */
  function NameOf(t: Tool): string {
    TextAt(MembersOf(t.fn), "name")
  }

  /** `t` put behind every tool whose name is not greater. */
  function Place(ts: seq<Tool>, t: Tool): seq<Tool> {
    if ts == [] || !Less(NameOf(t), NameOf(ts[|ts| - 1])) then ts + [t]
    else Place(ts[..|ts| - 1], t) + [ts[|ts| - 1]]
  }

  function StableSort(ts: seq<Tool>): seq<Tool> {
    if ts == [] then [] else Place(StableSort(ts[..|ts| - 1]), ts[|ts| - 1])
  }

  /** The tools called `name`, in order. */
  function Named(ts: seq<Tool>, name: string): seq<Tool> {
    if ts == [] then []
    else Named(ts[..|ts| - 1], name) + if NameOf(ts[|ts| - 1]) == name then [ts[|ts| - 1]] else []
  }

  /** The same tools of every name, in the same order. */
  ghost predicate NamedAlike(a: seq<Tool>, b: seq<Tool>) {
    forall name :: Named(a, name) == Named(b, name)
  }

  predicate Ordered(ts: seq<Tool>) {
    forall i, j | 0 <= i < j < |ts| :: !Less(NameOf(ts[j]), NameOf(ts[i]))
  }

  // Placing and sorting.

  lemma NotLessTransitive(a: string, b: string, c: string)
    requires !Less(b, a) && !Less(c, b)
    ensures !Less(c, a)
  {
    if Less(c, a) {
      if b == a { assert false; }
      else {
        LessTotal(a, b);
        LessTransitive(c, a, b);
        assert false;
      }
    }
  }

  lemma SplitSnoc(ts: seq<Tool>, t: Tool, k: nat)
    requires k < |ts|
    ensures var n := |ts| - 1; (ts[..n][..k] + [t] + ts[..n][k..]) + [ts[n]] == ts[..k] + [t] + ts[k..]
  {
  }

  lemma {:induction false} PlaceAt(ts: seq<Tool>, t: Tool, k: nat)
    requires k <= |ts| && (k == 0 || !Less(NameOf(t), NameOf(ts[k - 1])))
    requires forall i | k <= i < |ts| :: Less(NameOf(t), NameOf(ts[i]))
    ensures Place(ts, t) == ts[..k] + [t] + ts[k..]
  {
    if k < |ts| {
      PlaceAt(ts[..|ts| - 1], t, k);
      SplitSnoc(ts, t, k);
    } else {
      assert ts[..k] + [t] + ts[k..] == ts + [t];
    }
  }

  lemma {:induction false} PlaceSpot(ts: seq<Tool>, t: Tool) returns (k: nat)
    requires Ordered(ts)
    ensures k <= |ts| && (k == 0 || !Less(NameOf(t), NameOf(ts[k - 1])))
    ensures forall i | k <= i < |ts| :: Less(NameOf(t), NameOf(ts[i]))
    ensures Place(ts, t) == ts[..k] + [t] + ts[k..]
  {
    k := |ts|;
    while k > 0 && Less(NameOf(t), NameOf(ts[k - 1]))
      invariant k <= |ts|
      invariant forall i | k <= i < |ts| :: Less(NameOf(t), NameOf(ts[i]))
    {
      k := k - 1;
    }
    PlaceAt(ts, t, k);
  }

  lemma OrderedAround(ts: seq<Tool>, t: Tool, k: nat)
    requires Ordered(ts) && k <= |ts|
    requires forall i | 0 <= i < k :: !Less(NameOf(t), NameOf(ts[i]))
    requires forall i | k <= i < |ts| :: !Less(NameOf(ts[i]), NameOf(t))
    ensures Ordered(ts[..k] + [t] + ts[k..])
  {
    var r := ts[..k] + [t] + ts[k..];
    forall i, j | 0 <= i < j < |r| ensures !Less(NameOf(r[j]), NameOf(r[i])) {
      assert r[i] == if i < k then ts[i] else if i == k then t else ts[i - 1];
      assert r[j] == if j < k then ts[j] else if j == k then t else ts[j - 1];
    }
  }

  lemma PlaceKeepsOrdered(ts: seq<Tool>, t: Tool)
    requires Ordered(ts)
    ensures Ordered(Place(ts, t))
  {
    var k := PlaceSpot(ts, t);
    forall i | 0 <= i < k ensures !Less(NameOf(t), NameOf(ts[i])) {
      if i < k - 1 { NotLessTransitive(NameOf(ts[i]), NameOf(ts[k - 1]), NameOf(t)); }
    }
    forall i | k <= i < |ts| ensures !Less(NameOf(ts[i]), NameOf(t)) { LessAsymmetric(NameOf(t), NameOf(ts[i])); }
    OrderedAround(ts, t, k);
  }

  lemma {:induction false} SortIsOrdered(ts: seq<Tool>)
    ensures Ordered(StableSort(ts))
  {
    if ts != [] {
      SortIsOrdered(ts[..|ts| - 1]);
      PlaceKeepsOrdered(StableSort(ts[..|ts| - 1]), ts[|ts| - 1]);
    }
  }

  lemma {:induction false} NamedSnoc(ts: seq<Tool>, t: Tool, name: string)
    ensures Named(ts + [t], name) == Named(ts, name) + if NameOf(t) == name then [t] else []
  {
    assert (ts + [t])[..|ts|] == ts;
  }

  lemma SwapTails(p: seq<Tool>, t: Tool, u: Tool, name: string)
    requires NameOf(t) != NameOf(u)
    ensures var a, b := if NameOf(t) == name then [t] else [], if NameOf(u) == name then [u] else [];
            (p + a) + b == (p + b) + a
  {
  }

  lemma {:induction false} PlaceAppendsToItsName(ts: seq<Tool>, t: Tool, name: string)
    ensures Named(Place(ts, t), name) == Named(ts, name) + if NameOf(t) == name then [t] else []
  {
    if ts == [] || !Less(NameOf(t), NameOf(ts[|ts| - 1])) { NamedSnoc(ts, t, name); }
    else {
      var n := |ts| - 1;
      LessAsymmetric(NameOf(t), NameOf(ts[n]));
      PlaceAppendsToItsName(ts[..n], t, name);
      NamedSnoc(Place(ts[..n], t), ts[n], name);
      SwapTails(Named(ts[..n], name), t, ts[n], name);
    }
  }

  /** Stability: sorting keeps the tools of each name in their order. */
  lemma {:induction false} SortKeepsNamed(ts: seq<Tool>, name: string)
    ensures Named(StableSort(ts), name) == Named(ts, name)
  {
    if ts != [] {
      SortKeepsNamed(ts[..|ts| - 1], name);
      PlaceAppendsToItsName(StableSort(ts[..|ts| - 1]), ts[|ts| - 1], name);
    }
  }

  lemma {:induction false} NamedAbsent(ts: seq<Tool>, name: string)
    requires forall i | 0 <= i < |ts| :: NameOf(ts[i]) != name
    ensures Named(ts, name) == []
  {
    if ts != [] { NamedAbsent(ts[..|ts| - 1], name); }
  }

  /** In an ordered list no name is greater than the last one. */
  lemma LastIsGreatest(a: seq<Tool>, name: string)
    requires Ordered(a) && a != [] && Less(NameOf(a[|a| - 1]), name)
    ensures Named(a, name) == []
  {
    var n := |a| - 1;
    LessAsymmetric(NameOf(a[n]), name);
    assert forall i | 0 <= i < n :: !Less(NameOf(a[n]), NameOf(a[i]));
    NamedAbsent(a, name);
  }

  lemma NamedNonempty(a: seq<Tool>)
    requires a != []
    ensures var x := a[|a| - 1];
            Named(a, NameOf(x)) == Named(a[..|a| - 1], NameOf(x)) + [x] && Named(a, NameOf(x)) != []
  {
  }

  lemma SameLastName(a: seq<Tool>, b: seq<Tool>)
    requires Ordered(a) && Ordered(b) && NamedAlike(a, b) && a != [] && b != []
    ensures NameOf(a[|a| - 1]) == NameOf(b[|b| - 1])
  {
    var x, y := NameOf(a[|a| - 1]), NameOf(b[|b| - 1]);
    NamedNonempty(a);
    NamedNonempty(b);
    if x != y {
      LessTotal(x, y);
      if Less(x, y) { LastIsGreatest(a, y); } else { LastIsGreatest(b, x); }
      assert false;
    }
  }

  lemma SameLast(a: seq<Tool>, b: seq<Tool>)
    requires Ordered(a) && Ordered(b) && NamedAlike(a, b) && a != [] && b != []
    ensures a[|a| - 1] == b[|b| - 1]
  {
    SameLastName(a, b);
    NamedNonempty(a);
    NamedNonempty(b);
    var name := NameOf(a[|a| - 1]);
    assert Named(a, name) == Named(b, name);
    var group := Named(a, name);
    assert group[|group| - 1] == a[|a| - 1] && group[|group| - 1] == b[|b| - 1];
  }

  lemma NamedAlikeEmpty(a: seq<Tool>, b: seq<Tool>)
    requires NamedAlike(a, b)
    ensures a == [] <==> b == []
  {
    if a != [] { NamedNonempty(a); assert Named(a, NameOf(a[|a| - 1])) == Named(b, NameOf(a[|a| - 1])); }
    if b != [] { NamedNonempty(b); assert Named(a, NameOf(b[|b| - 1])) == Named(b, NameOf(b[|b| - 1])); }
  }

  lemma FrontsAlike(a: seq<Tool>, b: seq<Tool>)
    requires NamedAlike(a, b) && a != [] && b != [] && a[|a| - 1] == b[|b| - 1]
    ensures NamedAlike(a[..|a| - 1], b[..|b| - 1])
  {
    var a', b' := a[..|a| - 1], b[..|b| - 1];
    forall name ensures Named(a', name) == Named(b', name) { DropLast(a, b, name); }
  }

  /** Any stable sorting algorithm computes the same list: order and stability leave no choice. */
  lemma {:induction false} StableOrderIsUnique(a: seq<Tool>, b: seq<Tool>)
    requires Ordered(a) && Ordered(b) && NamedAlike(a, b)
    ensures a == b
  {
    NamedAlikeEmpty(a, b);
    if a != [] {
      SameLast(a, b);
      FrontsAlike(a, b);
      StableOrderIsUnique(a[..|a| - 1], b[..|b| - 1]);
      assert a == a[..|a| - 1] + [a[|a| - 1]] && b == b[..|b| - 1] + [b[|b| - 1]];
    }
  }

  lemma DropLast(a: seq<Tool>, b: seq<Tool>, name: string)
    requires a != [] && b != [] && a[|a| - 1] == b[|b| - 1] && Named(a, name) == Named(b, name)
    ensures Named(a[..|a| - 1], name) == Named(b[..|b| - 1], name)
  {
    var x, p, q := a[|a| - 1], Named(a[..|a| - 1], name), Named(b[..|b| - 1], name);
    if NameOf(x) == name {
      assert p + [x] == q + [x];
      assert p == (p + [x])[..|p|] && q == (q + [x])[..|q|];
    } else {
      assert p + [] == p && q + [] == q;
    }
  }

  lemma NamedAlikeSortsAlike(a: seq<Tool>, b: seq<Tool>)
    requires NamedAlike(a, b)
    ensures StableSort(a) == StableSort(b)
  {
    SortIsOrdered(a);
    SortIsOrdered(b);
    forall name ensures Named(StableSort(a), name) == Named(StableSort(b), name) {
      SortKeepsNamed(a, name);
      SortKeepsNamed(b, name);
      assert Named(a, name) == Named(b, name);
    }
    StableOrderIsUnique(StableSort(a), StableSort(b));
  }

  /** Two tool lists canonicalize alike exactly when, for every name, their tools of that name are the
      same in the same order. */
  lemma SortedAlikeIffNamedAlike(a: seq<Tool>, b: seq<Tool>)
    ensures StableSort(a) == StableSort(b) <==> NamedAlike(a, b)
  {
    if StableSort(a) == StableSort(b) {
      forall name ensures Named(a, name) == Named(b, name) {
        SortKeepsNamed(a, name);
        SortKeepsNamed(b, name);
      }
    } else if NamedAlike(a, b) {
      NamedAlikeSortsAlike(a, b);
    }
  }

  lemma SortIsIdempotent(ts: seq<Tool>)
    ensures StableSort(StableSort(ts)) == StableSort(ts)
  {
    forall name ensures Named(StableSort(ts), name) == Named(ts, name) { SortKeepsNamed(ts, name); }
    SortedAlikeIffNamedAlike(StableSort(ts), ts);
  }

  lemma SnocMultiset(ts: seq<Tool>)
    requires ts != []
    ensures multiset(ts) == multiset(ts[..|ts| - 1]) + multiset{ts[|ts| - 1]}
  {
    assert ts == ts[..|ts| - 1] + [ts[|ts| - 1]];
  }

  lemma {:induction false} PlaceIsPermutation(ts: seq<Tool>, t: Tool)
    ensures multiset(Place(ts, t)) == multiset(ts) + multiset{t}
  {
    if !(ts == [] || !Less(NameOf(t), NameOf(ts[|ts| - 1]))) {
      PlaceIsPermutation(ts[..|ts| - 1], t);
      SnocMultiset(ts);
    }
  }

  lemma {:induction false} SortIsPermutation(ts: seq<Tool>)
    ensures multiset(StableSort(ts)) == multiset(ts)
  {
    if ts != [] {
      SortIsPermutation(ts[..|ts| - 1]);
      PlaceIsPermutation(StableSort(ts[..|ts| - 1]), ts[|ts| - 1]);
      SnocMultiset(ts);
    }
  }

  // When the order of tools does not matter.

  lemma {:induction false} NamedCounts(ts: seq<Tool>, name: string, t: Tool)
    ensures multiset(Named(ts, name))[t] == if NameOf(t) == name then multiset(ts)[t] else 0
  {
    if ts != [] {
      NamedCounts(ts[..|ts| - 1], name, t);
      assert ts == ts[..|ts| - 1] + [ts[|ts| - 1]];
    }
  }

  lemma {:induction false} ConstantEqual(a: seq<Tool>, b: seq<Tool>)
    requires multiset(a) == multiset(b) && forall i, j | 0 <= i < |a| && 0 <= j < |a| :: a[i] == a[j]
    ensures a == b
  {
    assert |a| == |multiset(a)| == |multiset(b)| == |b|;
    forall i | 0 <= i < |a| ensures a[i] == b[i] {
      assert b[i] in multiset(b);
      assert b[i] in multiset(a);
      assert b[i] in a;
    }
  }

  /** Tools of one name are all equal. */
  ghost predicate NamesDetermineTools(ts: seq<Tool>) {
    forall s, t | s in ts && t in ts && NameOf(s) == NameOf(t) :: s == t
  }

  /** Reordering a tool list never changes its canonical form if and only if tools of the same name are
      equal; in particular it never does when all names differ. */
  lemma OrderDoesNotMatterIff(a: seq<Tool>)
    ensures NamesDetermineTools(a) <==> forall b: seq<Tool> | multiset(b) == multiset(a) ::
            StableSort(b) == StableSort(a)
  {
    if NamesDetermineTools(a) {
      forall b: seq<Tool> | multiset(b) == multiset(a) ensures StableSort(b) == StableSort(a) {
        forall name ensures Named(a, name) == Named(b, name) { NamedOfPermutation(a, b, name); }
        SortedAlikeIffNamedAlike(b, a);
      }
    } else {
      var s, t :| s in a && t in a && NameOf(s) == NameOf(t) && s != t;
      var b, c := SwappedPair(a, s, t);
      SortedAlikeIffNamedAlike(b, c);
      HeadOfNamed(b);
      HeadOfNamed(c);
      assert StableSort(b) != StableSort(c);
    }
  }

  lemma NamedOfPermutation(a: seq<Tool>, b: seq<Tool>, name: string)
    requires multiset(a) == multiset(b) && NamesDetermineTools(a)
    ensures Named(a, name) == Named(b, name)
  {
    var p, q := Named(a, name), Named(b, name);
    forall t ensures multiset(p)[t] == multiset(q)[t] { NamedCounts(a, name, t); NamedCounts(b, name, t); }
    assert multiset(p) == multiset(q);
    forall i, j | 0 <= i < |p| && 0 <= j < |p| ensures p[i] == p[j] {
      assert p[i] in multiset(p) && p[j] in multiset(p);
      NamedCounts(a, name, p[i]);
      NamedCounts(a, name, p[j]);
      assert p[i] in multiset(a) && p[j] in multiset(a);
    }
    ConstantEqual(p, q);
  }

  lemma MovedToFront(a: seq<Tool>, i: nat)
    requires i < |a|
    ensures multiset([a[i]] + (a[..i] + a[i + 1..])) == multiset(a)
  {
    assert a == a[..i] + ([a[i]] + a[i + 1..]);
    assert multiset([a[i]] + (a[..i] + a[i + 1..])) == multiset{a[i]} + (multiset(a[..i]) + multiset(a[i + 1..]));
  }

  /** Two orders of the same tools that start with `s` and with `t`. */
  lemma SwappedPair(a: seq<Tool>, s: Tool, t: Tool) returns (b: seq<Tool>, c: seq<Tool>)
    requires s in a && t in a
    ensures multiset(b) == multiset(a) == multiset(c) && b != [] && c != [] && b[0] == s && c[0] == t
  {
    var i :| 0 <= i < |a| && a[i] == s;
    var j :| 0 <= j < |a| && a[j] == t;
    MovedToFront(a, i);
    MovedToFront(a, j);
    b, c := [a[i]] + (a[..i] + a[i + 1..]), [a[j]] + (a[..j] + a[j + 1..]);
  }

  lemma {:induction false} HeadOfNamed(ts: seq<Tool>)
    requires ts != []
    ensures Named(ts, NameOf(ts[0])) != [] && Named(ts, NameOf(ts[0]))[0] == ts[0]
  {
    if |ts| > 1 { HeadOfNamed(ts[..|ts| - 1]); }
  }

  // The method: copy, then sort the copy in place by insertion.

  /** One swap moves `t` a place down between the elements of `before`. */
  lemma Swapped(before: seq<Tool>, t: Tool, j: nat)
    requires 0 < j <= |before|
    ensures var now := before[..j] + [t] + before[j..];
            && now[j] == t && now[j - 1] == before[j - 1]
            && now[j := now[j - 1]][j - 1 := t] == before[..j - 1] + [t] + before[j - 1..]
  {
  }

  /** Moves element `i` down past the greater names before it. */
  method Sink(sorted: array<Tool>, i: nat)
    requires i < sorted.Length
    modifies sorted
    ensures Ordered(old(sorted[..i])) ==> sorted[..i + 1] == Place(old(sorted[..i]), old(sorted[i]))
    ensures forall k | i < k < sorted.Length :: sorted[k] == old(sorted[k])
  {
    ghost var before, t := sorted[..i], sorted[i];
    var j := i;
    assert sorted[..i + 1] == before[..i] + [t] + before[i..];
    while j > 0 && Less(NameOf(sorted[j]), NameOf(sorted[j - 1]))
      invariant 0 <= j <= i
      invariant sorted[..i + 1] == before[..j] + [t] + before[j..]
      invariant forall k | i < k < sorted.Length :: sorted[k] == old(sorted[k])
      invariant forall k | j <= k < i :: Less(NameOf(t), NameOf(before[k]))
    {
      Swapped(before, t, j);
      ghost var now := sorted[..i + 1];
      assert sorted[j] == now[j] && sorted[j - 1] == now[j - 1];
      sorted[j], sorted[j - 1] := sorted[j - 1], sorted[j];
      assert sorted[..i + 1] == now[j := now[j - 1]][j - 1 := t];
      j := j - 1;
    }
    ghost var now := sorted[..i + 1];
    assert now[j] == t == sorted[j];
    if j > 0 { assert now[j - 1] == before[j - 1] == sorted[j - 1]; }
    PlaceAt(before, t, j);
  }

  lemma SortSnoc(tools: seq<Tool>, i: nat)
    requires i < |tools|
    ensures StableSort(tools[..i + 1]) == Place(StableSort(tools[..i]), tools[i]) && Ordered(StableSort(tools[..i]))
  {
    assert tools[..i + 1][..i] == tools[..i];
    SortIsOrdered(tools[..i]);
  }

  method CanonicalizeTools(tools: seq<Tool>) returns (result: seq<Tool>)
    ensures result == StableSort(tools)
  {
    if |tools| <= 1 {
      assert |tools| == 1 ==> tools == [] + [tools[0]];
      return tools;
    }
    var sorted := new Tool[|tools|](i requires 0 <= i < |tools| => tools[i]);
    for i := 0 to sorted.Length
      invariant sorted.Length == |tools|
      invariant sorted[..i] == StableSort(tools[..i])
      invariant forall k | i <= k < |tools| :: sorted[k] == tools[k]
    {
      SortSnoc(tools, i);
      Sink(sorted, i);
    }
    assert tools[..|tools|] == tools;
    result := sorted[..sorted.Length];
  }
}
