/** Merging pod-specific and mesh-wide exclusion lists, and why only their elements matter. */
module Exclusions {
  import opened Collections
  import opened Netfilter
  import opened Iptables

  /** The list without the later copies of repeated elements. */
  function Deduplicated<T(==)>(list: seq<T>): seq<T> {
    if list == [] then []
    else
      var rest, last := list[..|list| - 1], list[|list| - 1];
      Deduplicated(rest) + if last in rest then [] else [last]
  }

  predicate NoRepetition<T(==)>(list: seq<T>) {
    forall i, j :: 0 <= i < j < |list| ==> list[i] != list[j]
  }

  lemma {:induction false} DeduplicatedElements<T>(list: seq<T>)
    ensures Elements(Deduplicated(list)) == Elements(list) && NoRepetition(Deduplicated(list))
  {
    if list != [] {
      var rest, last := list[..|list| - 1], list[|list| - 1];
      DeduplicatedElements(rest);
      assert list == rest + [last];
      assert last in Deduplicated(rest) <==> last in Elements(Deduplicated(rest));
      assert Elements(list) == Elements(rest) + {last};
    }
  }

  predicate FirstAt<T(==)>(list: seq<T>, x: T, i: nat) {
    i < |list| && list[i] == x && x !in list[..i]
  }

  /** The elements come in the order of their first occurrences. */
  lemma {:induction false} DeduplicatedKeepsOrder<T>(list: seq<T>, i: nat, j: nat, a: nat, b: nat)
    requires i < j < |Deduplicated(list)|
    requires FirstAt(list, Deduplicated(list)[i], a) && FirstAt(list, Deduplicated(list)[j], b)
    ensures a < b
  {
    var rest, last := list[..|list| - 1], list[|list| - 1];
    DeduplicatedElements(rest);
    var d := Deduplicated(rest);
    assert d[i] in Elements(d);
    FirstInRest(list, d[i], a);
    if j < |d| {
      assert d[j] in Elements(d);
      FirstInRest(list, d[j], b);
      DeduplicatedKeepsOrder(rest, i, j, a, b);
    } else {
      assert forall k :: 0 <= k < |rest| ==> list[k] == rest[k] != last;
    }
  }

  lemma FirstInRest<T>(list: seq<T>, x: T, i: nat)
    requires list != [] && x in list[..|list| - 1] && FirstAt(list, x, i)
    ensures FirstAt(list[..|list| - 1], x, i)
  {
    var rest := list[..|list| - 1];
    var k :| 0 <= k < |rest| && rest[k] == x;
    assert forall m :: 0 <= m < i ==> list[m] == list[..i][m] != x;
    assert rest[..i] == list[..i];
  }

  lemma DeduplicatedAppend<T>(list: seq<T>, x: T)
    ensures Deduplicated(list + [x]) == Deduplicated(list) + if x in Elements(list) then [] else [x]
    ensures Elements(list + [x]) == Elements(list) + {x}
  {
    assert (list + [x])[..|list|] == list;
  }

  /** One of the loops of the merge functions: appends the elements of `more` that have not been seen. */
  method AddUnseen<T(==)>(ghost done: seq<T>, merged: seq<T>, seen: set<T>, more: seq<T>)
    returns (merged': seq<T>, seen': set<T>)
    requires merged == Deduplicated(done) && seen == Elements(done)
    ensures merged' == Deduplicated(done + more) && seen' == Elements(done + more)
  {
    merged', seen' := merged, seen;
    ghost var soFar := done;
    for i := 0 to |more|
      invariant soFar == done + more[..i]
      invariant merged' == Deduplicated(soFar) && seen' == Elements(soFar)
    {
      var x := more[i];
      DeduplicatedAppend(soFar, x);
      if x !in seen' {
        merged' := merged' + [x];
      }
      seen' := seen' + {x};
      soFar := soFar + [x];
    }
    assert soFar == done + more;
  }

  /** mergePortExclusionLists: the mesh-wide ports come first. */
  method MergePortExclusionLists(podSpecific: seq<int>, meshWide: seq<int>) returns (merged: seq<int>)
    ensures merged == Deduplicated(meshWide + podSpecific)
  {
    var seen;
    merged, seen := AddUnseen([], [], {}, meshWide);
    assert [] + meshWide == meshWide;
    merged, seen := AddUnseen(meshWide, merged, seen, podSpecific);
  }

  /** mergeIPRangeLists: the pod-specific ranges come first. */
  method MergeIPRangeLists(podSpecific: seq<Cidr>, meshWide: seq<Cidr>) returns (merged: seq<Cidr>)
    ensures merged == Deduplicated(podSpecific + meshWide)
  {
    var seen;
    merged, seen := AddUnseen([], [], {}, podSpecific);
    assert [] + podSpecific == podSpecific;
    merged, seen := AddUnseen(podSpecific, merged, seen, meshWide);
  }

  /** The settings agree up to the order and repetition of their lists. */
  predicate SameElements(s: Settings, r: Settings) {
    && s.mode == r.mode && s.podIP == r.podIP
    && Elements(s.outboundRangeExclusions) == Elements(r.outboundRangeExclusions)
    && Elements(s.outboundRangeInclusions) == Elements(r.outboundRangeInclusions)
    && Elements(s.outboundPortExclusions) == Elements(r.outboundPortExclusions)
    && Elements(s.inboundPortExclusions) == Elements(r.inboundPortExclusions)
    && Elements(s.ifaceExclusions) == Elements(r.ifaceExclusions)
  }

  lemma ElementsDecideMembership<T>(a: seq<T>, b: seq<T>)
    requires Elements(a) <= Elements(b)
    ensures forall x :: x in a ==> x in b
  {
    assert forall x :: x in a ==> x in Elements(a);
  }

  lemma ElementsDecideRange(address: nat, a: seq<Cidr>, b: seq<Cidr>)
    requires Elements(a) <= Elements(b)
    ensures InSomeRange(address, a) ==> InSomeRange(address, b)
  {
    ElementsDecideMembership(a, b);
  }

  lemma ElementsDecideIface(s: Settings, r: Settings, p: Packet)
    requires Elements(s.ifaceExclusions) <= Elements(r.ifaceExclusions)
    ensures IfaceExcluded(s, p) ==> IfaceExcluded(r, p)
  {
    ElementsDecideMembership(s.ifaceExclusions, r.ifaceExclusions);
  }

  lemma ExpectedOfSameElements(s: Settings, r: Settings, p: Packet)
    requires SameElements(s, r)
    ensures Expected(s, p) == Expected(r, p)
  {
    ElementsDecideIface(s, r, p);
    ElementsDecideIface(r, s, p);
    ElementsDecideRange(p.dst, s.outboundRangeExclusions, r.outboundRangeExclusions);
    ElementsDecideRange(p.dst, r.outboundRangeExclusions, s.outboundRangeExclusions);
    ElementsDecideRange(p.dst, s.outboundRangeInclusions, r.outboundRangeInclusions);
    ElementsDecideRange(p.dst, r.outboundRangeInclusions, s.outboundRangeInclusions);
    assert forall list: seq<int> :: p.dport in list <==> p.dport in Elements(list);
    assert forall list: seq<Cidr> :: list != [] ==> list[0] in Elements(list);
  }

  /** Lists act as sets: permuting or repeating their elements never changes what the generated table does
      to a packet. */
  lemma ListsActAsSets(s: Settings, r: Settings, p: Packet)
    requires SameElements(s, r)
    ensures Evaluate(LoadedTable(s), p) == Evaluate(LoadedTable(r), p)
  {
    TableIsCorrect(s, p);
    TableIsCorrect(r, p);
    ExpectedOfSameElements(s, r, p);
  }

  /** The settings of a pod once its lists are merged with the mesh-wide ones by the merge functions. */
  function Merged(pod: Settings, mesh: Settings): Settings {
    pod.(outboundPortExclusions := Deduplicated(mesh.outboundPortExclusions + pod.outboundPortExclusions),
         inboundPortExclusions := Deduplicated(mesh.inboundPortExclusions + pod.inboundPortExclusions),
         outboundRangeExclusions := Deduplicated(pod.outboundRangeExclusions + mesh.outboundRangeExclusions),
         outboundRangeInclusions := Deduplicated(pod.outboundRangeInclusions + mesh.outboundRangeInclusions))
  }

  /** The plain unions of the same lists. */
  function United(pod: Settings, mesh: Settings): Settings {
    pod.(outboundPortExclusions := pod.outboundPortExclusions + mesh.outboundPortExclusions,
         inboundPortExclusions := pod.inboundPortExclusions + mesh.inboundPortExclusions,
         outboundRangeExclusions := pod.outboundRangeExclusions + mesh.outboundRangeExclusions,
         outboundRangeInclusions := pod.outboundRangeInclusions + mesh.outboundRangeInclusions)
  }

  lemma MergeElements<T>(a: seq<T>, b: seq<T>)
    ensures Elements(Deduplicated(a + b)) == Elements(a) + Elements(b) == Elements(b + a) == Elements(a + b)
  {
    DeduplicatedElements(a + b);
  }

  /** Merging with the merge functions, in their different orders, has the effect of the plain union on every packet. */
  lemma MergedListsActAsUnion(pod: Settings, mesh: Settings, p: Packet)
    ensures Evaluate(LoadedTable(Merged(pod, mesh)), p) == Evaluate(LoadedTable(United(pod, mesh)), p)
  {
    MergeElements(mesh.outboundPortExclusions, pod.outboundPortExclusions);
    MergeElements(mesh.inboundPortExclusions, pod.inboundPortExclusions);
    MergeElements(pod.outboundRangeExclusions, mesh.outboundRangeExclusions);
    MergeElements(pod.outboundRangeInclusions, mesh.outboundRangeInclusions);
    ListsActAsSets(Merged(pod, mesh), United(pod, mesh), p);
  }

  /** `more` excludes at least what `s` excludes and is otherwise the same. */
  predicate ExcludesMore(s: Settings, more: Settings) {
    && s.mode == more.mode && s.podIP == more.podIP && s.outboundRangeInclusions == more.outboundRangeInclusions
    && Elements(s.outboundRangeExclusions) <= Elements(more.outboundRangeExclusions)
    && Elements(s.outboundPortExclusions) <= Elements(more.outboundPortExclusions)
    && Elements(s.inboundPortExclusions) <= Elements(more.inboundPortExclusions)
    && Elements(s.ifaceExclusions) <= Elements(more.ifaceExclusions)
  }

  lemma ExpectedWithMoreExclusions(s: Settings, more: Settings, p: Packet)
    requires ExcludesMore(s, more)
    ensures Expected(more, p) == Expected(s, p) || Expected(more, p) == Untouched
  {
    ElementsDecideIface(s, more, p);
    ElementsDecideRange(p.dst, s.outboundRangeExclusions, more.outboundRangeExclusions);
    ElementsDecideMembership(s.outboundPortExclusions, more.outboundPortExclusions);
    ElementsDecideMembership(s.inboundPortExclusions, more.inboundPortExclusions);
  }

  /** Adding exclusions only ever turns redirections into untouched packets. */
  lemma ExclusionsOnlyRelease(s: Settings, more: Settings, p: Packet)
    requires ExcludesMore(s, more)
    ensures Evaluate(LoadedTable(more), p) == Evaluate(LoadedTable(s), p) || Evaluate(LoadedTable(more), p) == Untouched
  {
    TableIsCorrect(s, p);
    TableIsCorrect(more, p);
    ExpectedWithMoreExclusions(s, more, p);
  }
}
