/** A small model of the nat table of iptables: chains of rules, the commands that build them, and the walk
    of a packet. */
module Netfilter {
  import opened Wrappers

  datatype Chain = Prerouting | Output | ProxyInbound | ProxyInRedirect | ProxyOutbound | ProxyOutRedirect

  datatype Protocol = Tcp | NotTcp

  /** An IPv4 address block, section 3.1 of RFC 4632: the addresses that share the first `bits` bits with `base`. */
  datatype Cidr = Cidr(base: nat, bits: nat)

  datatype Hook = Arriving | Leaving

  /** `iface` is the interface the packet arrives on or leaves through; `uid` owns the sending socket, if
      there is one. */
  datatype Packet = Packet(hook: Hook, protocol: Protocol, iface: string, dst: nat, dport: int, uid: Option<int>)

  datatype Match =
    | OnProtocol(protocol: Protocol)
    | InIface(pattern: string)
    | OutIface(pattern: string)
    | Dst(range: Cidr)
    | NotDst(range: Cidr)
    | Owner(uid: int)
    | NotOwner(uid: int)
    | Dport(port: int)
    | Dports(ports: seq<int>)

  datatype Target = Jump(chain: Chain) | Return | Redirect(port: int) | Accept | Dnat(address: nat)

  datatype Rule = Rule(matches: seq<Match>, target: Target)

  datatype Command = Append(chain: Chain, rule: Rule) | Insert(chain: Chain, rule: Rule)

  datatype Verdict = Untouched | Redirected(port: int) | Accepted | Dnatted(address: nat)

  function Pow2(n: nat): (r: nat)
    ensures r > 0
  {
    if n == 0 then 1 else 2 * Pow2(n - 1)
  }

  predicate InRange(address: nat, range: Cidr) {
    range.bits <= 32 && address / Pow2(32 - range.bits) == range.base / Pow2(32 - range.bits)
  }

  /** The address lies in the block of 2^(32 - bits) addresses that holds the base. */
  predicate InBlock(address: nat, range: Cidr) {
    range.bits <= 32 &&
    var size := Pow2(32 - range.bits);
    var first := range.base - range.base % size;
    first <= address < first + size
  }

  lemma RangeIsBlock(address: nat, range: Cidr)
    ensures InRange(address, range) <==> InBlock(address, range)
  {
    if range.bits <= 32 {
      SameQuotient(address, range.base, Pow2(32 - range.bits));
    }
  }

  /** The blocks at the boundaries of octets. */
  lemma OctetBlocks(address: nat, base: nat)
    ensures InRange(address, Cidr(base, 32)) <==> address == base
    ensures InRange(address, Cidr(base, 24)) <==> address / 0x100 == base / 0x100
    ensures InRange(address, Cidr(base, 16)) <==> address / 0x1_0000 == base / 0x1_0000
    ensures InRange(address, Cidr(base, 8)) <==> address / 0x100_0000 == base / 0x100_0000
    ensures address < 0x1_0000_0000 && base < 0x1_0000_0000 ==> InRange(address, Cidr(base, 0))
  {
    OctetSizes();
  }

  lemma OctetSizes()
    ensures Pow2(0) == 1 && Pow2(8) == 0x100 && Pow2(16) == 0x1_0000 && Pow2(24) == 0x100_0000
    ensures Pow2(32) == 0x1_0000_0000
  {
    assert Pow2(4) == 16 && Pow2(8) == 0x100;
    assert Pow2(12) == 0x1000 && Pow2(16) == 0x1_0000;
    assert Pow2(20) == 0x10_0000 && Pow2(24) == 0x100_0000;
    assert Pow2(28) == 0x1000_0000;
  }

  lemma SameQuotient(a: nat, b: nat, size: nat)
    requires size > 0
    ensures a / size == b / size <==> b - b % size <= a < b - b % size + size
  {
    QuotientIff(a, b / size, size);
    assert b - b % size == b / size * size;
  }

  lemma QuotientIff(a: nat, q: nat, size: nat)
    requires size > 0
    ensures a / size == q <==> q * size <= a < q * size + size
  {
    var p := a / size;
    assert a == p * size + a % size;
    if p < q {
      Multiples(p + 1, q, size);
    } else if q < p {
      Multiples(q + 1, p, size);
    }
  }

  lemma Multiples(x: nat, y: nat, size: nat)
    requires x <= y
    ensures x * size <= y * size && (x - 1) * size == x * size - size
  {
    assert y * size == x * size + (y - x) * size;
  }

  /** An interface name; a trailing '+' in the pattern matches any name with that prefix. */
  predicate IfaceMatches(pattern: string, iface: string) {
    if pattern != "" && pattern[|pattern| - 1] == '+' then pattern[..|pattern| - 1] <= iface else pattern == iface
  }

  predicate Satisfies(p: Packet, m: Match) {
    match m
    case OnProtocol(protocol) => p.protocol == protocol
    case InIface(pattern) => p.hook == Arriving && IfaceMatches(pattern, p.iface)
    case OutIface(pattern) => p.hook == Leaving && IfaceMatches(pattern, p.iface)
    case Dst(range) => InRange(p.dst, range)
    case NotDst(range) => !InRange(p.dst, range)
    case Owner(uid) => p.uid == Some(uid)
    case NotOwner(uid) => p.uid != Some(uid)
    case Dport(port) => p.dport == port
    case Dports(ports) => p.dport in ports
  }

  predicate Applies(r: Rule, p: Packet) {
    forall m :: m in r.matches ==> Satisfies(p, m)
  }

  lemma AppliesToOne(p: Packet, a: Match, t: Target)
    ensures Applies(Rule([a], t), p) <==> Satisfies(p, a)
  {
    assert a in [a];
  }

  lemma AppliesToTwo(p: Packet, a: Match, b: Match, t: Target)
    ensures Applies(Rule([a, b], t), p) <==> Satisfies(p, a) && Satisfies(p, b)
  {
    assert a in [a, b] && b in [a, b];
  }

  lemma AppliesToThree(p: Packet, a: Match, b: Match, c: Match, t: Target)
    ensures Applies(Rule([a, b, c], t), p) <==> Satisfies(p, a) && Satisfies(p, b) && Satisfies(p, c)
  {
    assert a in [a, b, c] && b in [a, b, c] && c in [a, b, c];
  }

  lemma AppliesToFour(p: Packet, a: Match, b: Match, c: Match, d: Match, t: Target)
    ensures Applies(Rule([a, b, c, d], t), p) <==>
        Satisfies(p, a) && Satisfies(p, b) && Satisfies(p, c) && Satisfies(p, d)
  {
    assert a in [a, b, c, d] && b in [a, b, c, d] && c in [a, b, c, d] && d in [a, b, c, d];
  }

  // ---------------------------------------------------------------------------
  // Building chains

  function LoadOne(rules: seq<Rule>, c: Command, chain: Chain): seq<Rule> {
    if c.chain != chain then rules else if c.Append? then rules + [c.rule] else [c.rule] + rules
  }

  /** The rules of a chain after running the commands on it, from given rules. */
  function Load(rules: seq<Rule>, commands: seq<Command>, chain: Chain): seq<Rule>
    decreases |commands|
  {
    if commands == [] then rules
    else
      var c := commands[0];
      Load(LoadOne(rules, c, chain), commands[1..], chain)
  }

  function Appends(chain: Chain, rules: seq<Rule>): seq<Command> {
    seq(|rules|, i requires 0 <= i < |rules| => Append(chain, rules[i]))
  }

  function Inserts(chain: Chain, rules: seq<Rule>): seq<Command> {
    seq(|rules|, i requires 0 <= i < |rules| => Insert(chain, rules[i]))
  }

  function Reversed(rules: seq<Rule>): seq<Rule> {
    seq(|rules|, i requires 0 <= i < |rules| => rules[|rules| - 1 - i])
  }

  lemma {:induction false} LoadConcat(rules: seq<Rule>, a: seq<Command>, b: seq<Command>, chain: Chain)
    ensures Load(rules, a + b, chain) == Load(Load(rules, a, chain), b, chain)
    decreases |a|
  {
    if a == [] {
      assert a + b == b;
    } else {
      var c := a[0];
      assert (a + b)[1..] == a[1..] + b;
      LoadConcat(LoadOne(rules, c, chain), a[1..], b, chain);
    }
  }

  lemma LoadFirst(rules: seq<Rule>, c: Command, commands: seq<Command>, chain: Chain)
    ensures Load(rules, [c] + commands, chain) == Load(LoadOne(rules, c, chain), commands, chain)
  {
    assert ([c] + commands)[1..] == commands;
  }

  lemma AppendsTail(target: Chain, more: seq<Rule>)
    requires more != []
    ensures Appends(target, more) == [Append(target, more[0])] + Appends(target, more[1..])
  {
  }

  lemma AppendedOnto(rules: seq<Rule>, more: seq<Rule>)
    requires more != []
    ensures rules + [more[0]] + more[1..] == rules + more
  {
  }

  lemma {:induction false} LoadAppends(rules: seq<Rule>, target: Chain, more: seq<Rule>, chain: Chain)
    ensures Load(rules, Appends(target, more), chain) == if chain == target then rules + more else rules
    decreases |more|
  {
    if more != [] {
      AppendsTail(target, more);
      LoadFirst(rules, Append(target, more[0]), Appends(target, more[1..]), chain);
      if chain == target {
        LoadAppends(rules + [more[0]], target, more[1..], chain);
        AppendedOnto(rules, more);
      } else {
        LoadAppends(rules, target, more[1..], chain);
      }
    }
  }

  lemma InsertsTail(target: Chain, more: seq<Rule>)
    requires more != []
    ensures Inserts(target, more) == [Insert(target, more[0])] + Inserts(target, more[1..])
  {
  }

  lemma ReversedOnto(more: seq<Rule>, rules: seq<Rule>)
    requires more != []
    ensures Reversed(more[1..]) + ([more[0]] + rules) == Reversed(more) + rules
  {
    assert Reversed(more) == Reversed(more[1..]) + [more[0]];
  }

  lemma {:induction false} LoadInserts(rules: seq<Rule>, target: Chain, more: seq<Rule>, chain: Chain)
    ensures Load(rules, Inserts(target, more), chain) == if chain == target then Reversed(more) + rules else rules
    decreases |more|
  {
    if more != [] {
      InsertsTail(target, more);
      LoadFirst(rules, Insert(target, more[0]), Inserts(target, more[1..]), chain);
      if chain == target {
        LoadInserts([more[0]] + rules, target, more[1..], chain);
        ReversedOnto(more, rules);
      } else {
        LoadInserts(rules, target, more[1..], chain);
      }
    }
  }

  // ---------------------------------------------------------------------------
  // Walking chains

  /** Built-in chains jump to user chains, and those to the redirect chains. */
  function Rank(c: Chain): nat {
    match c
    case Prerouting => 2
    case Output => 2
    case ProxyInbound => 1
    case ProxyOutbound => 1
    case ProxyInRedirect => 0
    case ProxyOutRedirect => 0
  }

  /** Jumps go down the ranks, so every walk ends. */
  predicate Descends(rules: seq<Rule>, rank: nat) {
    forall r :: r in rules && r.target.Jump? ==> Rank(r.target.chain) < rank
  }

  /** The rules of each chain; a loaded table has no jump that goes up. */
  type Table = t: map<Chain, seq<Rule>> | (forall c: Chain :: c in t && Descends(t[c], Rank(c)))
    witness map c: Chain | true :: []

  /** How the walk of one chain ends. Returning and running off the end both resume the calling chain. */
  datatype Walked = OffTheEnd | Returned | Decided(verdict: Verdict)

  function Walk(t: Table, rules: seq<Rule>, rank: nat, p: Packet): Walked
    requires Descends(rules, rank)
    decreases rank, |rules|
  {
    if rules == [] then OffTheEnd
    else if !Applies(rules[0], p) then Walk(t, rules[1..], rank, p)
    else
      match rules[0].target
      case Return => Returned
      case Redirect(port) => Decided(Redirected(port))
      case Accept => Decided(Accepted)
      case Dnat(address) => Decided(Dnatted(address))
      case Jump(c) =>
        assert rules[0] in rules;
        var inner := Walk(t, t[c], Rank(c), p);
        if inner.Decided? then inner else Walk(t, rules[1..], rank, p)
  }

  /** What the table does to a packet; the policy of the built-in chains leaves it alone. */
  function Evaluate(t: Table, p: Packet): Verdict {
    var hook := if p.hook == Arriving then Prerouting else Output;
    var walked := Walk(t, t[hook], Rank(hook), p);
    if walked.Decided? then walked.verdict else Untouched
  }

  lemma {:induction false} WalkConcat(t: Table, a: seq<Rule>, b: seq<Rule>, rank: nat, p: Packet)
    requires Descends(a, rank) && Descends(b, rank)
    ensures Descends(a + b, rank)
    ensures Walk(t, a + b, rank, p) == if Walk(t, a, rank, p).OffTheEnd? then Walk(t, b, rank, p)
        else Walk(t, a, rank, p)
    decreases |a|
  {
    if a == [] {
      assert a + b == b;
    } else {
      assert (a + b)[1..] == a[1..] + b;
      WalkConcat(t, a[1..], b, rank, p);
    }
  }

  /** A block of RETURN rules returns exactly when one of them applies; their order does not matter. */
  lemma {:induction false} WalkReturns(t: Table, rules: seq<Rule>, rank: nat, p: Packet)
    requires forall r :: r in rules ==> r.target == Return
    ensures Descends(rules, rank)
    ensures Walk(t, rules, rank, p) == if exists r :: r in rules && Applies(r, p) then Returned else OffTheEnd
    decreases |rules|
  {
    if rules != [] {
      WalkReturns(t, rules[1..], rank, p);
      assert forall r :: r in rules <==> r == rules[0] || r in rules[1..];
    }
  }

  /** A block of jumps to a chain that decides every packet of this kind decides it exactly when one of them applies. */
  lemma {:induction false} WalkJumps(t: Table, rules: seq<Rule>, rank: nat, p: Packet, c: Chain, verdict: Verdict)
    requires (forall r :: r in rules ==> r.target == Jump(c)) && Rank(c) < rank
    requires Walk(t, t[c], Rank(c), p) == Decided(verdict)
    ensures Descends(rules, rank)
    ensures Walk(t, rules, rank, p) == if exists r :: r in rules && Applies(r, p) then Decided(verdict) else OffTheEnd
    decreases |rules|
  {
    if rules != [] {
      WalkJumps(t, rules[1..], rank, p, c, verdict);
      assert forall r :: r in rules <==> r == rules[0] || r in rules[1..];
    }
  }
}
