/** The fail-closed RTP firewall reconciler (app/services/firewall_sync.py). `Chain` is the INPUT
    chain as the packet filter walks it; `Reconciler` issues the insert and delete commands. */
module Firewall {

  // 5100 + 16 node windows of 100 ports
  const REMOTE_MIN: nat := 5100
  const REMOTE_MAX: nat := 6699

  // ---------- rules ----------

  /** The comment that tags one of the reconciler's own rules. */
  datatype Comment = Backstop | PortTag(binding: string, port: nat)

  datatype Spec = Accept(host: string, port: nat) | DropRange(lo: nat, hi: nat)

  datatype Rule = Rule(spec: Spec, comment: Comment)

  /** A rule of the chain: tagged by the reconciler, or somebody else's. */
  datatype ChainRule = Own(rule: Rule) | Foreign(id: nat)

  type Chain = seq<ChainRule>

  const BACKSTOP := Rule(DropRange(REMOTE_MIN, REMOTE_MAX), Backstop)

  // ---------- what the bindings ask for ----------

  datatype Binding = Binding(id: string, node: string, remote: bool, rtpPort: nat)

  /** The binding store's dict (in its order) and each known node's host. */
  datatype Config = Config(bindings: seq<Binding>, hosts: map<string, string>) {
    predicate UniqueIds() {
      forall i, j :: 0 <= i < j < |bindings| ==> bindings[i].id != bindings[j].id
    }
  }

  function AcceptsOf(b: Binding, hosts: map<string, string>): seq<Rule> {
    if !b.remote || b.node !in hosts || hosts[b.node] == "" then []
    else [Rule(Accept(hosts[b.node], b.rtpPort), PortTag(b.id, b.rtpPort)),
          Rule(Accept(hosts[b.node], b.rtpPort + 1), PortTag(b.id, b.rtpPort + 1))]
  }

  function AcceptRules(bs: seq<Binding>, hosts: map<string, string>): seq<Rule> {
    if bs == [] then [] else AcceptRules(bs[..|bs| - 1], hosts) + AcceptsOf(bs[|bs| - 1], hosts)
  }

  function Desired(c: Config): seq<Rule> {
    AcceptRules(c.bindings, c.hosts) + [BACKSTOP]
  }

  function Want(c: Config): set<Comment> {
    set r | r in Desired(c) :: r.comment
  }

  // ---------- the chain and the commands ----------

  function OwnRules(ch: Chain): set<Rule> {
    set e | e in ch && e.Own? :: e.rule
  }

  function Tags(ch: Chain): set<Comment> {
    set r | r in OwnRules(ch) :: r.comment
  }

  datatype Command = Insert(rule: Rule) | Delete(rule: Rule)

  /** `iptables -D` removes the first rule with exactly these arguments, if there is one. */
  function Without(ch: Chain, r: Rule): Chain {
    if ch == [] then []
    else if ch[0] == Own(r) then ch[1..]
    else [ch[0]] + Without(ch[1..], r)
  }

  function Exec(ch: Chain, c: Command): Chain {
    match c
    case Insert(r) => [Own(r)] + ch
    case Delete(r) => Without(ch, r)
  }

  function Run(ch: Chain, cs: seq<Command>): Chain {
    if cs == [] then ch else Exec(Run(ch, cs[..|cs| - 1]), cs[|cs| - 1])
  }

  // ---------- the plan ----------

  function Missing(rs: seq<Rule>, have: set<Comment>): seq<Rule> {
    if rs == [] then []
    else Missing(rs[..|rs| - 1], have) + (if rs[|rs| - 1].comment in have then [] else [rs[|rs| - 1]])
  }

  function Backstops(rs: seq<Rule>, yes: bool): seq<Rule> {
    if rs == [] then []
    else Backstops(rs[..|rs| - 1], yes) + (if rs[|rs| - 1].comment.Backstop? == yes then [rs[|rs| - 1]] else [])
  }

  function Inserts(rs: seq<Rule>): seq<Command> {
    seq(|rs|, i requires 0 <= i < |rs| => Insert(rs[i]))
  }

  /** Deletions for the stale rules of a chain, in chain order. */
  function Deletes(ch: Chain, stale: set<Comment>): seq<Command> {
    if ch == [] then []
    else (if ch[0].Own? && ch[0].rule.comment in stale then [Delete(ch[0].rule)] else []) + Deletes(ch[1..], stale)
  }

  datatype Plan = Plan(add: seq<Rule>, remove: set<Comment>)

  /** Desired against current, by tag only. */
  function PlanFor(ch: Chain, c: Config): Plan {
    Plan(Missing(Desired(c), Tags(ch)), Tags(ch) - Want(c))
  }

  /** The insertions of one apply: the backstop before the ACCEPTs. */
  function AddCommands(add: seq<Rule>): seq<Command> {
    Inserts(Backstops(add, true)) + Inserts(Backstops(add, false))
  }

  /** Everything one apply issues, in order; the deletions are read off the chain as it is after
      the insertions. */
  function PlanCommands(ch: Chain, plan: Plan): seq<Command> {
    AddCommands(plan.add) + Deletes(Run(ch, AddCommands(plan.add)), plan.remove)
  }

  function Commands(ch: Chain, c: Config): seq<Command> {
    PlanCommands(ch, PlanFor(ch, c))
  }

  function Reconciled(ch: Chain, c: Config): Chain {
    Run(ch, Commands(ch, c))
  }

  // ---------- the program ----------

  method DesiredRules(c: Config) returns (rules: seq<Rule>)
    ensures rules == Desired(c)
  {
    rules := [];
    for i := 0 to |c.bindings|
      invariant rules == AcceptRules(c.bindings[..i], c.hosts)
    {
      var b := c.bindings[i];
      assert c.bindings[..i + 1][..i] == c.bindings[..i];
      if !b.remote { continue; }
      if b.node !in c.hosts || c.hosts[b.node] == "" { continue; }
      rules := rules + AcceptsOf(b, c.hosts);
    }
    assert c.bindings[..|c.bindings|] == c.bindings;
    rules := rules + [BACKSTOP];
  }

  class Reconciler {
    var input: Chain
    ghost var issued: seq<Command>

    constructor (ch: Chain)
      ensures input == ch && issued == []
    {
      input, issued := ch, [];
    }

    /** `iptables -I INPUT 1`. */
    method InsertTop(r: Rule)
      modifies this
      ensures input == Exec(old(input), Insert(r)) && issued == old(issued) + [Insert(r)]
    {
      input := [Own(r)] + input;
      issued := issued + [Insert(r)];
    }

    /** `iptables -D INPUT` with the rule's own arguments. */
    method DeleteRule(r: Rule)
      modifies this
      ensures input == Exec(old(input), Delete(r)) && issued == old(issued) + [Delete(r)]
    {
      input := Without(input, r);
      issued := issued + [Delete(r)];
    }

    method InsertAll(rs: seq<Rule>)
      modifies this
      ensures input == Run(old(input), Inserts(rs)) && issued == old(issued) + Inserts(rs)
    {
      for i := 0 to |rs|
        invariant input == Run(old(input), Inserts(rs[..i])) && issued == old(issued) + Inserts(rs[..i])
      {
        InsertTop(rs[i]);
        assert Inserts(rs[..i + 1]) == Inserts(rs[..i]) + [Insert(rs[i])];
      }
      assert rs[..|rs|] == rs;
    }

    /** Deletes the stale rules that one listing of the chain shows. */
    method DeleteStale(stale: set<Comment>)
      modifies this
      ensures input == Run(old(input), Deletes(old(input), stale))
      ensures issued == old(issued) + Deletes(old(input), stale)
    {
      var lines := input;
      ghost var done: seq<Command> := [];
      for i := 0 to |lines|
        invariant done + Deletes(lines[i..], stale) == Deletes(lines, stale)
        invariant input == Run(lines, done) && issued == old(issued) + done
      {
        assert lines[i..][1..] == lines[i + 1..] && lines[i..][0] == lines[i];
        if lines[i].Own? && lines[i].rule.comment in stale {
          DeleteRule(lines[i].rule);
          ghost var d := Delete(lines[i].rule);
          RunSnoc(lines, done, d);
          DeletesStep(lines, stale, i, done);
          done := done + [d];
        } else {
          assert Deletes(lines[i..], stale) == Deletes(lines[i + 1..], stale);
        }
      }
      assert done == Deletes(lines, stale);
    }

    /** The plan's insertions, the backstop first. */
    method InsertMissing(add: seq<Rule>)
      modifies this
      ensures input == Run(old(input), AddCommands(add)) && issued == old(issued) + AddCommands(add)
    {
      InsertAll(Backstops(add, true));
      InsertAll(Backstops(add, false));
      RunAppend(old(input), Inserts(Backstops(add, true)), Inserts(Backstops(add, false)));
    }

    method ApplyPlan(plan: Plan)
      modifies this
      ensures issued == old(issued) + PlanCommands(old(input), plan)
      ensures input == Run(old(input), PlanCommands(old(input), plan))
    {
      InsertMissing(plan.add);
      ghost var mid := input;
      if plan.remove != {} {
        DeleteStale(plan.remove);
      } else {
        NothingStale(mid, plan.remove);
      }
      RunAppend(old(input), AddCommands(plan.add), Deletes(mid, plan.remove));
    }

    /** Diffs desired against current tags; with `apply`, inserts what is missing, then deletes
        what is stale. */
    method Reconcile(c: Config, apply: bool) returns (plan: Plan)
      modifies this
      ensures plan == PlanFor(old(input), c)
      ensures issued == old(issued) + if apply then Commands(old(input), c) else []
      ensures input == if apply then Reconciled(old(input), c) else old(input)
    {
      var desired := DesiredRules(c);
      var want := set r | r in desired :: r.comment;
      var have := Tags(input);
      plan := Plan(Missing(desired, have), have - want);
      if apply {
        ApplyPlan(plan);
      }
    }
  }

  lemma {:induction false} RunAppend(ch: Chain, a: seq<Command>, b: seq<Command>)
    ensures Run(ch, a + b) == Run(Run(ch, a), b)
    decreases b
  {
    if b == [] {
      assert a + b == a;
    } else {
      assert (a + b)[..|a + b| - 1] == a + b[..|b| - 1];
      RunAppend(ch, a, b[..|b| - 1]);
    }
  }

  lemma DeletesStep(lines: Chain, stale: set<Comment>, i: nat, done: seq<Command>)
    requires i < |lines| && lines[i].Own? && lines[i].rule.comment in stale
    ensures done + Deletes(lines[i..], stale) == (done + [Delete(lines[i].rule)]) + Deletes(lines[i + 1..], stale)
  {
    assert lines[i..][1..] == lines[i + 1..];
  }

  lemma RunSnoc(ch: Chain, cs: seq<Command>, c: Command)
    ensures Run(ch, cs + [c]) == Exec(Run(ch, cs), c)
  {
    assert (cs + [c])[..|cs|] == cs;
  }

  lemma NothingStale(ch: Chain, stale: set<Comment>)
    requires stale == {}
    ensures Deletes(ch, stale) == []
  {
  }
}
