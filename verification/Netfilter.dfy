/** The part of the kernel's packet filter that knockd drives through iptables: the INPUT
    chain and knockd's own chain, and what each command does to them (src/firewall.c). */
module Netfilter {
  import opened Common

  /** An INPUT rule: the jump to knockd's chain, or some rule of the operator's. */
  datatype Rule = Jump | Operator(id: nat)

  /** "-s source -p tcp --dport dport -j ACCEPT" in knockd's chain. */
  datatype GrantRule = GrantRule(source: Address, dport: int)

  /** chain is None while knockd's chain does not exist. */
  datatype Ruleset = Ruleset(input: seq<Rule>, chain: Option<multiset<GrantRule>>)

  datatype Command =
    | NewChain
    | FlushChain
    | CheckJump
    | InsertJump
    | DeleteJump
    | DeleteChain
    | InsertGrant(rule: GrantRule)
    | DeleteGrant(rule: GrantRule)

  /** Whether iptables accepts the command at all. */
  predicate Possible(s: Ruleset, c: Command) {
    match c
    case NewChain => s.chain == None
    case FlushChain => s.chain.Some?
    case CheckJump => Jump in s.input
    case InsertJump => s.chain.Some?
    case DeleteJump => Jump in s.input
    case DeleteChain => s.chain == Some(multiset{}) && Jump !in s.input
    case InsertGrant(_) => s.chain.Some?
    case DeleteGrant(r) => s.chain.Some? && r in s.chain.value
  }

  function Effect(s: Ruleset, c: Command): Ruleset
    requires Possible(s, c)
  {
    match c
    case NewChain => s.(chain := Some(multiset{}))
    case FlushChain => s.(chain := Some(multiset{}))
    case CheckJump => s
    case InsertJump => s.(input := [Jump] + s.input)
    case DeleteJump => s.(input := WithoutJump(s.input))
    case DeleteChain => s.(chain := None)
    case InsertGrant(r) => s.(chain := Some(s.chain.value + multiset{r}))
    case DeleteGrant(r) => s.(chain := Some(s.chain.value - multiset{r}))
  }

  /** One iptables invocation: it takes effect, or fails and changes nothing. It can fail
      for reasons of its own (ok), or because the command is impossible. */
  function Run(s: Ruleset, c: Command, ok: bool): (Ruleset, bool) {
    if ok && Possible(s, c) then (Effect(s, c), true) else (s, false)
  }

  // ---------- INPUT as a list ----------

  /** Where the first jump is; the length if there is none. */
  function JumpIndex(input: seq<Rule>): (j: nat)
    ensures j <= |input|
    ensures forall i :: 0 <= i < j ==> input[i] != Jump
    ensures j < |input| ==> input[j] == Jump
  {
    if input == [] || input[0] == Jump then 0 else 1 + JumpIndex(input[1..])
  }

  /** INPUT with its first jump removed, as deleting a rule by its specification does. */
  function WithoutJump(input: seq<Rule>): seq<Rule> {
    var j := JumpIndex(input);
    if j == |input| then input else DeleteAt(input, j)
  }

  function InsertAt(input: seq<Rule>, i: nat, r: Rule): seq<Rule>
    requires i <= |input|
  {
    input[..i] + [r] + input[i..]
  }

  function DeleteAt(input: seq<Rule>, i: nat): seq<Rule>
    requires i < |input|
  {
    input[..i] + input[i + 1..]
  }

  /** The position i has in INPUT once the first jump is taken out. */
  function Seen(input: seq<Rule>, i: nat): nat {
    if i > JumpIndex(input) then i - 1 else i
  }

  lemma FirstJumpAt(input: seq<Rule>, j: nat)
    requires j < |input| && input[j] == Jump && forall i :: 0 <= i < j ==> input[i] != Jump
    ensures JumpIndex(input) == j
  {
  }

  lemma InsertThenDelete(s: seq<Rule>, i: nat, j: nat, r: Rule)
    requires i <= |s| && j < |s|
    ensures if i <= j then DeleteAt(InsertAt(s, i, r), j + 1) == InsertAt(DeleteAt(s, j), i, r)
            else DeleteAt(InsertAt(s, i, r), j) == InsertAt(DeleteAt(s, j), i - 1, r)
  {
    var t, d := InsertAt(s, i, r), DeleteAt(s, j);
    if i <= j {
      assert DeleteAt(t, j + 1) == InsertAt(d, i, r);
    } else {
      assert DeleteAt(t, j) == InsertAt(d, i - 1, r);
    }
  }

  lemma DeleteThenDelete(s: seq<Rule>, i: nat, j: nat)
    requires i < |s| && j < |s| && i != j
    ensures if i < j then DeleteAt(DeleteAt(s, i), j - 1) == DeleteAt(DeleteAt(s, j), i)
            else DeleteAt(DeleteAt(s, i), j) == DeleteAt(DeleteAt(s, j), i - 1)
  {
    var t, d := DeleteAt(s, i), DeleteAt(s, j);
    if i < j {
      assert DeleteAt(t, j - 1) == DeleteAt(d, i);
    } else {
      assert DeleteAt(t, j) == DeleteAt(d, i - 1);
    }
  }

  /** The operator's insertions and deletions commute with taking the first jump out. */
  lemma InsertCommutes(input: seq<Rule>, i: nat, r: Rule)
    requires i <= |input| && r != Jump && Jump in input
    ensures Jump in InsertAt(input, i, r)
    ensures Seen(input, i) <= |WithoutJump(input)|
    ensures WithoutJump(InsertAt(input, i, r)) == InsertAt(WithoutJump(input), Seen(input, i), r)
  {
    var j, after := JumpIndex(input), InsertAt(input, i, r);
    hide JumpIndex;
    FirstJumpAt(after, if i <= j then j + 1 else j);
    InsertThenDelete(input, i, j, r);
  }

  lemma DeleteCommutes(input: seq<Rule>, i: nat)
    requires i < |input| && input[i] != Jump && Jump in input
    ensures Jump in DeleteAt(input, i)
    ensures Seen(input, i) < |WithoutJump(input)|
    ensures WithoutJump(DeleteAt(input, i)) == DeleteAt(WithoutJump(input), Seen(input, i))
  {
    var j, after := JumpIndex(input), DeleteAt(input, i);
    hide JumpIndex;
    FirstJumpAt(after, if i < j then j - 1 else j);
    DeleteThenDelete(input, i, j);
  }

  // ---------- verdicts ----------

  datatype Packet = Packet(src: Address, tcp: bool, dport: int)

  datatype Decision = Accept | Drop | NoMatch

  predicate ChainAccepts(chain: Option<multiset<GrantRule>>, p: Packet) {
    p.tcp && chain.Some? && GrantRule(p.src, p.dport) in chain.value
  }

  /** The verdict of an INPUT list: the first rule that decides, else the chain's policy.
      decide says what each of the operator's rules makes of the packet. */
  function Verdict(input: seq<Rule>, chain: Option<multiset<GrantRule>>, decide: (nat, Packet) -> Decision,
                   policy: Decision, p: Packet): Decision
  {
    if input == [] then policy
    else
      var d := if input[0].Operator? then decide(input[0].id, p)
               else if ChainAccepts(chain, p) then Accept else NoMatch;
      if d != NoMatch then d else Verdict(input[1..], chain, decide, policy, p)
  }

  /** The operator's rules alone. */
  function OperatorRules(input: seq<Rule>): seq<Rule> {
    if input == [] then []
    else if input[0] == Jump then OperatorRules(input[1..])
    else [input[0]] + OperatorRules(input[1..])
  }

  /** A packet the chain does not accept passes every jump as if it were not there. */
  lemma {:induction false} JumpsTransparent(input: seq<Rule>, chain: Option<multiset<GrantRule>>,
                                            decide: (nat, Packet) -> Decision, policy: Decision, p: Packet)
    requires !ChainAccepts(chain, p)
    ensures Verdict(input, chain, decide, policy, p) == Verdict(OperatorRules(input), None, decide, policy, p)
  {
    if input != [] {
      JumpsTransparent(input[1..], chain, decide, policy, p);
      if input[0] != Jump {
        assert OperatorRules(input)[1..] == OperatorRules(input[1..]);
      }
    }
  }
}
