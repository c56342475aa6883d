/** Host lists, which a merge keeps sorted and free of repetitions. */
module Hostnames {
  import opened Collections

  /** The order of sort.Strings. */
  predicate Less(a: string, b: string) {
    b != [] && (a == [] || a[0] < b[0] || (a[0] == b[0] && Less(a[1..], b[1..])))
  }

  /** The order of strings character by character, where a proper prefix comes first. */
  lemma {:induction false} LessIff(a: string, b: string)
    ensures Less(a, b) <==>
            a < b || exists k: nat :: k < |a| && k < |b| && a[..k] == b[..k] && a[k] < b[k]
  {
    if a != [] && b != [] {
      if a[0] == b[0] {
        LessIff(a[1..], b[1..]);
        FirstDifference(a, b);
        assert a < b <==> a[1..] < b[1..];
      } else if a[0] < b[0] {
        assert a[..0] == b[..0];
      } else {
        assert forall k: nat :: 0 < k <= |a| && k <= |b| ==> a[..k][0] != b[..k][0];
      }
    }
  }

  lemma FirstDifference(a: string, b: string)
    requires a != [] && b != [] && a[0] == b[0]
    ensures (exists k: nat :: k < |a| && k < |b| && a[..k] == b[..k] && a[k] < b[k]) <==>
            exists k: nat :: k < |a[1..]| && k < |b[1..]| && a[1..][..k] == b[1..][..k] && a[1..][k] < b[1..][k]
  {
    forall k: nat | k < |a| && k < |b| && a[..k] == b[..k] && a[k] < b[k]
      ensures k > 0 && a[1..][..k - 1] == b[1..][..k - 1] && a[1..][k - 1] < b[1..][k - 1]
    {
      assert a[1..][..k - 1] == a[..k][1..] && b[1..][..k - 1] == b[..k][1..];
    }
    forall k: nat | k < |a[1..]| && k < |b[1..]| && a[1..][..k] == b[1..][..k] && a[1..][k] < b[1..][k]
      ensures a[..k + 1] == b[..k + 1] && a[k + 1] < b[k + 1]
    {
      assert a[..k + 1] == [a[0]] + a[1..][..k] && b[..k + 1] == [b[0]] + b[1..][..k];
    }
  }

  lemma {:induction false} LessIsTotal(a: string, b: string)
    ensures a == b || Less(a, b) || Less(b, a)
  {
    if a != [] && b != [] && a[0] == b[0] {
      LessIsTotal(a[1..], b[1..]);
      assert a == [a[0]] + a[1..] && b == [b[0]] + b[1..];
    }
  }

  lemma {:induction false} LessIsTransitive(a: string, b: string, c: string)
    requires Less(a, b) && Less(b, c)
    ensures Less(a, c)
  {
    if a != [] && a[0] == b[0] == c[0] {
      LessIsTransitive(a[1..], b[1..], c[1..]);
    }
  }

  predicate Ascending(hosts: seq<string>) {
    forall i, j :: 0 <= i < j < |hosts| ==> Less(hosts[i], hosts[j])
  }

  /** The list with one more host in its place. */
  function Insert(host: string, hosts: seq<string>): seq<string> {
    if hosts == [] then [host]
    else if host == hosts[0] then hosts
    else if Less(host, hosts[0]) then [host] + hosts
    else [hosts[0]] + Insert(host, hosts[1..])
  }

  lemma {:induction false} InsertElements(host: string, hosts: seq<string>)
    ensures Elements(Insert(host, hosts)) == Elements(hosts) + {host}
  {
    if hosts != [] {
      InsertElements(host, hosts[1..]);
      assert hosts == [hosts[0]] + hosts[1..];
      assert Elements(hosts) == {hosts[0]} + Elements(hosts[1..]);
      assert Elements([hosts[0]] + Insert(host, hosts[1..])) == {hosts[0]} + Elements(Insert(host, hosts[1..]));
    }
  }

  lemma AscendingPrepend(host: string, hosts: seq<string>)
    requires Ascending(hosts) && forall h <- hosts :: Less(host, h)
    ensures Ascending([host] + hosts)
  {
  }

  lemma {:induction false} InsertAscends(host: string, hosts: seq<string>)
    requires Ascending(hosts)
    ensures Ascending(Insert(host, hosts))
  {
    if hosts == [] || host == hosts[0] {
    } else if Less(host, hosts[0]) {
      forall h <- hosts
        ensures Less(host, h)
      {
        if h != hosts[0] {
          LessIsTransitive(host, hosts[0], h);
        }
      }
      AscendingPrepend(host, hosts);
    } else {
      LessIsTotal(host, hosts[0]);
      InsertAscends(host, hosts[1..]);
      InsertElements(host, hosts[1..]);
      forall h <- Insert(host, hosts[1..])
        ensures Less(hosts[0], h)
      {
        assert h in Elements(Insert(host, hosts[1..]));
      }
      AscendingPrepend(hosts[0], Insert(host, hosts[1..]));
    }
  }

  method SlicesUnionIfSubset(first: seq<string>, second: seq<string>) returns (union: seq<string>)
    ensures Ascending(union)
    ensures Elements(union) ==
            if Elements(first) <= Elements(second) || Elements(second) <= Elements(first)
            then Elements(first) + Elements(second) else {}
  {
    union := [];
    if Elements(first) <= Elements(second) || Elements(second) <= Elements(first) {
      var both := first + second;
      for i := 0 to |both|
        invariant Ascending(union) && Elements(union) == Elements(both[..i])
      {
        InsertElements(both[i], union);
        InsertAscends(both[i], union);
        union := Insert(both[i], union);
        assert Elements(both[..i + 1]) == Elements(both[..i]) + {both[i]};
      }
      assert both[..|both|] == both;
    }
  }
}
