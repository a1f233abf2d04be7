/** What the reconciler guarantees about packets: the shape of the chain over every run, its
    verdicts, and what an observer sees in every intermediate chain of one apply. */
module FirewallLaws {
  import opened Colons
  import opened Decimal
  import opened Firewall

  // ---------- first-match semantics ----------

  datatype Packet = Packet(udp: bool, src: string, port: nat)

  datatype Answer = Accepts | Drops | Passes

  /** Everything the reconciler does not own: what foreign rules answer, and the chain's policy. */
  datatype World = World(foreign: (nat, Packet) -> Answer, policy: bool)

  predicate Hits(s: Spec, p: Packet) {
    p.udp &&
    match s
    case Accept(host, port) => p.src == host && p.port == port
    case DropRange(lo, hi) => lo <= p.port <= hi
  }

  /** The verdict of the first rule that answers. */
  predicate Accepted(ch: Chain, p: Packet, w: World) {
    if ch == [] then w.policy
    else
      match ch[0]
      case Own(r) => if Hits(r.spec, p) then r.spec.Accept? else Accepted(ch[1..], p, w)
      case Foreign(id) =>
        match w.foreign(id, p)
        case Accepts => true
        case Drops => false
        case Passes => Accepted(ch[1..], p, w)
  }

  predicate InRange(p: Packet) {
    p.udp && 5100 <= p.port <= 6699
  }

  predicate Grants(r: Rule, p: Packet) {
    r.spec.Accept? && Hits(r.spec, p)
  }

  /** Some tagged ACCEPT of the chain matches the packet. */
  ghost predicate Allows(ch: Chain, p: Packet) {
    exists r :: r in OwnRules(ch) && Grants(r, p)
  }

  // ---------- the shape of the chain ----------

  predicate AllForeign(ch: Chain) {
    forall e :: e in ch ==> e.Foreign?
  }

  /** Tagged ACCEPTs, then the one backstop, then everybody else's rules. */
  predicate Shaped(ch: Chain) {
    ch != [] && ch[0].Own? &&
    if ch[0].rule == BACKSTOP then AllForeign(ch[1..])
    else ch[0].rule.spec.Accept? && ch[0].rule.comment.PortTag? && Shaped(ch[1..])
  }

  lemma OwnOfCons(e: ChainRule, ch: Chain)
    ensures OwnRules([e] + ch) == (if e.Own? then {e.rule} else {}) + OwnRules(ch)
  {
    var all := [e] + ch;
    forall r | r in (if e.Own? then {e.rule} else {}) + OwnRules(ch) ensures r in OwnRules(all) {
      if r in OwnRules(ch) { assert Own(r) in all; } else { assert all[0] == Own(r); }
    }
  }

  lemma OwnOfForeign(ch: Chain)
    requires AllForeign(ch)
    ensures OwnRules(ch) == {}
  {
  }

  /** In a shaped chain the tagged rules alone decide every packet of the remote range: ACCEPT
      exactly when one of them matches, DROP otherwise, whatever lies below. */
  lemma {:induction false} ShapedVerdict(ch: Chain, p: Packet, w: World)
    requires Shaped(ch) && InRange(p)
    ensures Accepted(ch, p, w) <==> Allows(ch, p)
  {
    assert ch == [ch[0]] + ch[1..];
    OwnOfCons(ch[0], ch[1..]);
    if ch[0].rule == BACKSTOP {
      OwnOfForeign(ch[1..]);
    } else {
      ShapedVerdict(ch[1..], p, w);
    }
  }

  /** The rules that the reconciler does not own, in order. */
  function Others(ch: Chain): Chain {
    if ch == [] then [] else (if ch[0].Foreign? then [ch[0]] else []) + Others(ch[1..])
  }

  /** Every other packet that no tagged ACCEPT matches is decided by everybody else's rules, as if the
      reconciler had none: the DROP reaches no port beyond the range, and no other protocol. */
  lemma {:induction false} OutsideIsPassedOn(ch: Chain, p: Packet, w: World)
    requires Shaped(ch) && !InRange(p) && !Allows(ch, p)
    ensures Accepted(ch, p, w) <==> Accepted(Others(ch), p, w)
  {
    assert ch == [ch[0]] + ch[1..];
    OwnOfCons(ch[0], ch[1..]);
    assert Others(ch) == Others(ch[1..]);
    if ch[0].rule == BACKSTOP {
      OthersAreAll(ch[1..]);
      assert !Hits(DropRange(5100, 6699), p);
    } else {
      assert ch[0].rule in OwnRules(ch);
      assert !Grants(ch[0].rule, p);
      OutsideIsPassedOn(ch[1..], p, w);
    }
  }

  lemma {:induction false} OthersAreAll(ch: Chain)
    requires AllForeign(ch)
    ensures Others(ch) == ch
  {
    if ch != [] { OthersAreAll(ch[1..]); }
  }

  lemma {:induction false} ShapedHasBackstop(ch: Chain)
    requires Shaped(ch)
    ensures BACKSTOP in OwnRules(ch)
    ensures forall r :: r in OwnRules(ch) ==> r == BACKSTOP || (r.spec.Accept? && r.comment.PortTag?)
  {
    assert ch == [ch[0]] + ch[1..];
    OwnOfCons(ch[0], ch[1..]);
    if ch[0].rule == BACKSTOP { OwnOfForeign(ch[1..]); } else { ShapedHasBackstop(ch[1..]); }
  }

  // ---------- the insertion phase ----------

  lemma {:induction false} InsertsGrow(ch: Chain, rs: seq<Rule>)
    ensures OwnRules(Run(ch, Inserts(rs))) == OwnRules(ch) + set r | r in rs
    ensures Shaped(ch) && (forall r :: r in rs ==> r.spec.Accept? && r.comment.PortTag?) ==> Shaped(Run(ch, Inserts(rs)))
    decreases rs
  {
    if rs != [] {
      var init, last := rs[..|rs| - 1], rs[|rs| - 1];
      assert rs == init + [last];
      assert Inserts(rs)[..|rs| - 1] == Inserts(init);
      InsertsGrow(ch, init);
      OwnOfCons(Own(last), Run(ch, Inserts(init)));
    } else {
      assert Inserts(rs) == [];
    }
  }

  lemma {:induction false} MissingIs(rs: seq<Rule>, have: set<Comment>)
    ensures forall r :: r in Missing(rs, have) <==> r in rs && r.comment !in have
    decreases rs
  {
    if rs != [] {
      assert rs == rs[..|rs| - 1] + [rs[|rs| - 1]];
      MissingIs(rs[..|rs| - 1], have);
    }
  }

  lemma {:induction false} BackstopsAre(rs: seq<Rule>, yes: bool)
    ensures forall r :: r in Backstops(rs, yes) <==> r in rs && r.comment.Backstop? == yes
    decreases rs
  {
    if rs != [] {
      assert rs == rs[..|rs| - 1] + [rs[|rs| - 1]];
      BackstopsAre(rs[..|rs| - 1], yes);
    }
  }

  /** The desired list: exactly one backstop, at its end, and port-tagged ACCEPTs for exactly the
      RTP and RTCP ports of the remote bindings whose node has a host. */
  lemma {:induction false} AcceptRulesAre(bs: seq<Binding>, hosts: map<string, string>)
    ensures forall r :: r in AcceptRules(bs, hosts) <==>
      exists b :: b in bs && b.remote && b.node in hosts && hosts[b.node] != "" &&
        r.spec.Accept? && r.spec.host == hosts[b.node] && r.spec.port in {b.rtpPort, b.rtpPort + 1} &&
        r.comment == PortTag(b.id, r.spec.port)
    decreases bs
  {
    if bs != [] {
      var init, last := bs[..|bs| - 1], bs[|bs| - 1];
      AcceptRulesAre(init, hosts);
      assert bs == init + [last];
    }
  }

  lemma DesiredAre(c: Config)
    ensures BACKSTOP in Desired(c)
    ensures forall r :: r in Desired(c) ==> r == BACKSTOP || (r.spec.Accept? && r.comment.PortTag?)
  {
    AcceptRulesAre(c.bindings, c.hosts);
    assert Desired(c)[|Desired(c)| - 1] == BACKSTOP;
  }

  /** One desired rule per tag: the tag names the binding and the port. */
  lemma TagsNameRules(c: Config, r: Rule, s: Rule)
    requires c.UniqueIds() && r in Desired(c) && s in Desired(c) && r.comment == s.comment
    ensures r == s
  {
    AcceptRulesAre(c.bindings, c.hosts);
  }

  /** The tag as the text of an iptables comment. */
  function TagText(c: Comment): string {
    match c
    case Backstop => "camnode:backstop"
    case PortTag(binding, port) => "camnode:" + binding + ":" + Dec(port)
  }

  /** The text of a tag tells everything, whatever a binding is called: comparing texts is comparing
      tags. */
  lemma TagTextsTellApart(c: Comment, d: Comment)
    ensures TagText(c) == TagText(d) <==> c == d
  {
    if TagText(c) == TagText(d) {
      if c.PortTag? && d.PortTag? {
        LastColon("camnode:" + c.binding, Dec(c.port), "camnode:" + d.binding, Dec(d.port));
        assert ("camnode:" + c.binding)[8..] == c.binding && ("camnode:" + d.binding)[8..] == d.binding;
        DecTellsApart(c.port, d.port);
      } else if c.PortTag? || d.PortTag? {
        var t := if c.PortTag? then c else d;
        LastColon("camnode:" + t.binding, Dec(t.port), "camnode", "backstop");
      }
    }
  }

  lemma {:induction false} NoBackstops(rs: seq<Rule>)
    requires forall r :: r in rs ==> r.comment.PortTag?
    ensures Backstops(rs, true) == []
    decreases rs
  {
    if rs != [] {
      assert rs[|rs| - 1] in rs;
      NoBackstops(rs[..|rs| - 1]);
    }
  }

  /** The backstop insertion is there exactly when the chain has no backstop tag. */
  lemma BackstopInsert(ch: Chain, c: Config)
    ensures Backstops(PlanFor(ch, c).add, true) == if Backstop in Tags(ch) then [] else [BACKSTOP]
  {
    var d := Desired(c);
    var accepts := Missing(AcceptRules(c.bindings, c.hosts), Tags(ch));
    AcceptRulesAre(c.bindings, c.hosts);
    MissingIs(AcceptRules(c.bindings, c.hosts), Tags(ch));
    NoBackstops(accepts);
    assert d[..|d| - 1] == AcceptRules(c.bindings, c.hosts) && d[|d| - 1] == BACKSTOP;
    var m := PlanFor(ch, c).add;
    if Backstop in Tags(ch) {
      assert m == accepts;
    } else {
      assert m == accepts + [BACKSTOP];
      assert m[..|m| - 1] == accepts;
    }
  }

  // ---------- the deletion phase ----------

  /** The chain with its first `k` stale rules gone. */
  function Purged(ch: Chain, stale: set<Comment>, k: nat): Chain {
    if ch == [] || k == 0 then ch
    else if ch[0].Own? && ch[0].rule.comment in stale then Purged(ch[1..], stale, k - 1)
    else [ch[0]] + Purged(ch[1..], stale, k)
  }

  lemma {:induction false} WithoutSkips(pre: Chain, rest: Chain, r: Rule)
    requires Own(r) !in pre
    requires rest != [] && rest[0] == Own(r)
    ensures Without(pre + rest, r) == pre + rest[1..]
    decreases pre
  {
    if pre == [] {
      assert pre + rest == rest;
    } else {
      assert (pre + rest)[1..] == pre[1..] + rest;
      WithoutSkips(pre[1..], rest, r);
      assert pre + rest[1..] == [pre[0]] + (pre[1..] + rest[1..]);
    }
  }

  /** Deleting by listed rule removes exactly the listed occurrences, in order. */
  lemma {:induction false} DeletesPurge(pre: Chain, rest: Chain, stale: set<Comment>, k: nat)
    requires forall r :: r in OwnRules(pre) ==> r.comment !in stale
    requires k <= |Deletes(rest, stale)|
    ensures Run(pre + rest, Deletes(rest, stale)[..k]) == pre + Purged(rest, stale, k)
    decreases rest
  {
    var ds := Deletes(rest, stale);
    if k > 0 {
      var e := rest[0];
      if e.Own? && e.rule.comment in stale {
        assert forall x :: x in pre && x.Own? ==> x.rule in OwnRules(pre);
        WithoutSkips(pre, rest, e.rule);
        assert ds[..k] == [Delete(e.rule)] + Deletes(rest[1..], stale)[..k - 1];
        RunAppend(pre + rest, [Delete(e.rule)], Deletes(rest[1..], stale)[..k - 1]);
        assert Run(pre + rest, [Delete(e.rule)]) == pre + rest[1..] by {
          assert [Delete(e.rule)][..0] == [];
        }
        DeletesPurge(pre, rest[1..], stale, k - 1);
      } else {
        assert pre + rest == (pre + [e]) + rest[1..];
        assert ds == Deletes(rest[1..], stale);
        assert forall r :: r in OwnRules(pre + [e]) ==> r in OwnRules(pre) || e == Own(r);
        DeletesPurge(pre + [e], rest[1..], stale, k);
        assert pre + Purged(rest, stale, k) == (pre + [e]) + Purged(rest[1..], stale, k);
      }
    }
  }

  lemma {:induction false} PurgedKeeps(ch: Chain, stale: set<Comment>, k: nat)
    ensures OwnRules(Purged(ch, stale, k)) <= OwnRules(ch)
    ensures forall r :: r in OwnRules(ch) && r.comment !in stale ==> r in OwnRules(Purged(ch, stale, k))
    ensures k >= |Deletes(ch, stale)| ==> forall r :: r in OwnRules(Purged(ch, stale, k)) ==> r.comment !in stale
    ensures Shaped(ch) && Backstop !in stale ==> Shaped(Purged(ch, stale, k))
    ensures AllForeign(ch) ==> Purged(ch, stale, k) == ch
    decreases ch
  {
    if ch != [] {
      assert ch == [ch[0]] + ch[1..];
      OwnOfCons(ch[0], ch[1..]);
      if ch[0].Own? && ch[0].rule.comment in stale {
        if k > 0 { PurgedKeeps(ch[1..], stale, k - 1); }
      } else {
        PurgedKeeps(ch[1..], stale, k);
        OwnOfCons(ch[0], Purged(ch[1..], stale, k));
        if k > 0 { assert Purged(ch, stale, k) == [ch[0]] + Purged(ch[1..], stale, k); }
      }
    }
  }

  // ---------- one apply, command by command ----------

  function Added(ch: Chain, c: Config): set<Rule> {
    set r | r in Desired(c) && r.comment !in Tags(ch)
  }

  function Kept(ch: Chain, c: Config): set<Rule> {
    set r | r in OwnRules(ch) && r.comment in Want(c)
  }

  /** The chain after the first `k` commands of one apply. */
  function Midway(ch: Chain, c: Config, k: nat): Chain
    requires k <= |Commands(ch, c)|
  {
    Run(ch, Commands(ch, c)[..k])
  }

  /** After the insertions: everything old, plus what was missing. */
  lemma PlanAdds(ch: Chain, add: seq<Rule>)
    ensures OwnRules(Run(ch, AddCommands(add))) == OwnRules(ch) + RulesOf(add)
  {
    BackstopsAre(add, true);
    BackstopsAre(add, false);
    InsertsGrow(ch, Backstops(add, true));
    InsertsGrow(Run(ch, Inserts(Backstops(add, true))), Backstops(add, false));
    RunAppend(ch, Inserts(Backstops(add, true)), Inserts(Backstops(add, false)));
  }

  lemma RunOne(ch: Chain, cmd: Command)
    ensures Run(ch, [cmd]) == Exec(ch, cmd)
  {
    assert [cmd][..0] == [];
  }

  /** The chain once the backstop is known to be in place. */
  function WithBackstop(ch: Chain): Chain {
    if Shaped(ch) then ch else [Own(BACKSTOP)] + ch
  }

  lemma BackstopInPlace(ch: Chain, c: Config)
    requires Shaped(ch) || AllForeign(ch)
    ensures Run(ch, Inserts(Backstops(PlanFor(ch, c).add, true))) == WithBackstop(ch)
    ensures Shaped(WithBackstop(ch))
  {
    BackstopInsert(ch, c);
    if Shaped(ch) {
      ShapedHasBackstop(ch);
      assert BACKSTOP.comment in Tags(ch);
    } else {
      OwnOfForeign(ch);
    }
    BackstopRun(ch, Backstops(PlanFor(ch, c).add, true));
  }

  lemma BackstopRun(ch: Chain, bs: seq<Rule>)
    requires Shaped(ch) || AllForeign(ch)
    requires bs == if Shaped(ch) then [] else [BACKSTOP]
    ensures Run(ch, Inserts(bs)) == WithBackstop(ch) && Shaped(WithBackstop(ch))
  {
    if Shaped(ch) {
      assert Inserts([]) == [];
    } else {
      assert Inserts([BACKSTOP]) == [Insert(BACKSTOP)];
      RunOne(ch, Insert(BACKSTOP));
      assert WithBackstop(ch)[1..] == ch;
    }
  }

  lemma PortAccepts(ch: Chain, c: Config)
    ensures forall r :: r in Backstops(PlanFor(ch, c).add, false) ==> r.spec.Accept? && r.comment.PortTag?
  {
    MissingIs(Desired(c), Tags(ch));
    BackstopsAre(PlanFor(ch, c).add, false);
    DesiredAre(c);
  }

  lemma AcceptsKeepShape(ch: Chain, add: seq<Rule>, k: nat)
    requires Shaped(Run(ch, Inserts(Backstops(add, true))))
    requires forall r :: r in Backstops(add, false) ==> r.spec.Accept? && r.comment.PortTag?
    requires |Backstops(add, true)| <= k <= |AddCommands(add)|
    ensures Shaped(Run(ch, AddCommands(add)[..k]))
  {
    var bs, acc := Backstops(add, true), Backstops(add, false);
    var rest := acc[..k - |bs|];
    assert AddCommands(add)[..k] == Inserts(bs) + Inserts(rest);
    RunAppend(ch, Inserts(bs), Inserts(rest));
    InsertsGrow(Run(ch, Inserts(bs)), rest);
  }

  /** From the first insertion on, a chain the reconciler shaped, or one with no tagged rule yet,
      is shaped. */
  lemma AddsShape(ch: Chain, c: Config, k: nat)
    requires Shaped(ch) || AllForeign(ch)
    requires k <= |AddCommands(PlanFor(ch, c).add)|
    requires AllForeign(ch) ==> k > 0
    ensures Shaped(Run(ch, AddCommands(PlanFor(ch, c).add)[..k]))
  {
    BackstopInPlace(ch, c);
    PortAccepts(ch, c);
    BackstopInsert(ch, c);
    if k == 0 {
      assert AddCommands(PlanFor(ch, c).add)[..k] == [];
    } else {
      AcceptsKeepShape(ch, PlanFor(ch, c).add, k);
    }
  }

  /** The chain while the deletions run. */
  lemma PlanDeletingIs(ch: Chain, plan: Plan, k: nat)
    requires |AddCommands(plan.add)| <= k <= |PlanCommands(ch, plan)|
    ensures var adds := AddCommands(plan.add);
      Run(ch, PlanCommands(ch, plan)[..k]) == Purged(Run(ch, adds), plan.remove, k - |adds|)
  {
    var adds := AddCommands(plan.add);
    var mid := Run(ch, adds);
    var ds := Deletes(mid, plan.remove);
    assert (adds + ds)[..k] == adds + ds[..k - |adds|];
    RunAppend(ch, adds, ds[..k - |adds|]);
    DeletesPurge([], mid, plan.remove, k - |adds|);
    assert [] + mid == mid;
    var purged := Purged(mid, plan.remove, k - |adds|);
    assert [] + purged == purged;
  }

  lemma DeletingIs(ch: Chain, c: Config, k: nat)
    requires |AddCommands(PlanFor(ch, c).add)| <= k <= |Commands(ch, c)|
    ensures var adds := AddCommands(PlanFor(ch, c).add);
      Midway(ch, c, k) == Purged(Run(ch, adds), PlanFor(ch, c).remove, k - |adds|)
  {
    PlanDeletingIs(ch, PlanFor(ch, c), k);
  }

  lemma PlanMidway(ch: Chain, plan: Plan, k: nat)
    requires k <= |PlanCommands(ch, plan)|
    ensures var mid, all := OwnRules(Run(ch, PlanCommands(ch, plan)[..k])), OwnRules(ch) + RulesOf(plan.add);
      && mid <= all
      && (k <= |AddCommands(plan.add)| ==> OwnRules(ch) <= mid)
      && (k >= |AddCommands(plan.add)| ==> forall r :: r in all && r.comment !in plan.remove ==> r in mid)
      && (k == |PlanCommands(ch, plan)| ==> forall r :: r in mid ==> r.comment !in plan.remove)
  {
    var adds := AddCommands(plan.add);
    if k <= |adds| {
      PrefixOfInserts(ch, plan.add, k);
      assert PlanCommands(ch, plan)[..k] == adds[..k];
    }
    if k >= |adds| {
      PlanAdds(ch, plan.add);
      PlanDeletingIs(ch, plan, k);
      PurgedKeeps(Run(ch, adds), plan.remove, k - |adds|);
    }
  }

  /** Every intermediate chain holds the kept rules and nothing but old and added ones; until the
      insertions end nothing old is missing, and from then on everything added is there. */
  lemma MidwayRules(ch: Chain, c: Config, k: nat)
    requires k <= |Commands(ch, c)|
    ensures Kept(ch, c) <= OwnRules(Midway(ch, c, k)) <= OwnRules(ch) + Added(ch, c)
    ensures k <= |AddCommands(PlanFor(ch, c).add)| ==> OwnRules(ch) <= OwnRules(Midway(ch, c, k))
    ensures k >= |AddCommands(PlanFor(ch, c).add)| ==> Kept(ch, c) + Added(ch, c) <= OwnRules(Midway(ch, c, k))
    ensures k == |Commands(ch, c)| ==> OwnRules(Midway(ch, c, k)) == Kept(ch, c) + Added(ch, c)
  {
    PlanMidway(ch, PlanFor(ch, c), k);
    MissingIs(Desired(c), Tags(ch));
    assert RulesOf(PlanFor(ch, c).add) == Added(ch, c);
    WantedStay(ch, c);
  }

  lemma WantedStay(ch: Chain, c: Config)
    ensures forall r :: r in OwnRules(ch) + Added(ch, c) ==> (r.comment !in PlanFor(ch, c).remove <==> r in Kept(ch, c) + Added(ch, c))
  {
    forall r | r in OwnRules(ch) ensures r.comment in Tags(ch) {}
    forall r | r in Desired(c) ensures r.comment in Want(c) {}
  }

  function RulesOf(rs: seq<Rule>): set<Rule> {
    set r | r in rs
  }

  lemma PrefixOfInserts(ch: Chain, add: seq<Rule>, k: nat)
    requires k <= |AddCommands(add)|
    ensures OwnRules(ch) <= OwnRules(Run(ch, AddCommands(add)[..k])) <= OwnRules(ch) + RulesOf(add)
  {
    var bs, acc := Backstops(add, true), Backstops(add, false);
    BackstopsAre(add, true);
    BackstopsAre(add, false);
    PrefixSplits(bs, acc, k);
    if k <= |bs| {
      InsertsGrow(ch, bs[..k]);
    } else {
      RunAppend(ch, Inserts(bs), Inserts(acc[..k - |bs|]));
      InsertsGrow(ch, bs);
      InsertsGrow(Run(ch, Inserts(bs)), acc[..k - |bs|]);
    }
  }

  lemma PrefixSplits(bs: seq<Rule>, acc: seq<Rule>, k: nat)
    requires k <= |Inserts(bs) + Inserts(acc)|
    ensures (Inserts(bs) + Inserts(acc))[..k] ==
      if k <= |bs| then Inserts(bs[..k]) else Inserts(bs) + Inserts(acc[..k - |bs|])
  {
  }

  // ---------- main results: the chain ----------

  /** In every intermediate chain of one apply, from the first insertion on: tagged ACCEPTs above
      one backstop above everybody else's rules. */
  lemma StaysShaped(ch: Chain, c: Config, k: nat)
    requires Shaped(ch) || AllForeign(ch)
    requires k <= |Commands(ch, c)| && (AllForeign(ch) ==> k > 0)
    ensures Shaped(Midway(ch, c, k))
  {
    var adds := AddCommands(PlanFor(ch, c).add);
    if k <= |adds| {
      assert Commands(ch, c)[..k] == adds[..k];
      AddsShape(ch, c, k);
    } else {
      DeletingKeepsShape(ch, c, k);
    }
  }

  lemma DeletingKeepsShape(ch: Chain, c: Config, k: nat)
    requires Shaped(ch) || AllForeign(ch)
    requires |AddCommands(PlanFor(ch, c).add)| < k <= |Commands(ch, c)|
    ensures Shaped(Midway(ch, c, k))
  {
    if AllForeign(ch) {
      OwnOfForeign(ch);
      BackstopInsert(ch, c);
      InsertsFirst(PlanFor(ch, c).add);
    }
    AddsShape(ch, c, |AddCommands(PlanFor(ch, c).add)|);
    BackstopWanted(c);
    PlanDeletingKeeps(ch, PlanFor(ch, c), k);
  }

  lemma InsertsFirst(add: seq<Rule>)
    requires Backstops(add, true) != []
    ensures |AddCommands(add)| > 0
  {
  }

  lemma PlanDeletingKeeps(ch: Chain, plan: Plan, k: nat)
    requires |AddCommands(plan.add)| < k <= |PlanCommands(ch, plan)| && Backstop !in plan.remove
    requires Shaped(Run(ch, AddCommands(plan.add)[..|AddCommands(plan.add)|]))
    ensures Shaped(Run(ch, PlanCommands(ch, plan)[..k]))
  {
    var adds := AddCommands(plan.add);
    assert adds[..|adds|] == adds;
    PlanDeletingIs(ch, plan, k);
    PurgedKeeps(Run(ch, adds), plan.remove, k - |adds|);
  }

  lemma BackstopWanted(c: Config)
    ensures Backstop in Want(c)
  {
    DesiredAre(c);
    assert BACKSTOP.comment in Want(c);
  }

  lemma FinalRules(ch: Chain, c: Config)
    ensures OwnRules(Reconciled(ch, c)) == Kept(ch, c) + Added(ch, c)
  {
    MidwayRules(ch, c, |Commands(ch, c)|);
    assert Commands(ch, c)[..|Commands(ch, c)|] == Commands(ch, c);
  }

  /** From any chain at all, one apply leaves exactly the desired tags. */
  lemma TagsConverge(ch: Chain, c: Config)
    ensures Tags(Reconciled(ch, c)) == Want(c)
  {
    FinalRules(ch, c);
    var after := OwnRules(Reconciled(ch, c));
    forall t | t in Want(c) ensures t in Tags(Reconciled(ch, c)) {
      var d :| d in Desired(c) && d.comment == t;
      if t in Tags(ch) {
        var r :| r in OwnRules(ch) && r.comment == t;
        assert r in Kept(ch, c) && r in after;
      } else {
        assert d in Added(ch, c) && d in after;
      }
    }
    forall t | t in Tags(Reconciled(ch, c)) ensures t in Want(c) {
      var r :| r in after && r.comment == t;
    }
  }

  lemma {:induction false} NothingMissing(rs: seq<Rule>, have: set<Comment>)
    requires forall r :: r in rs ==> r.comment in have
    ensures Missing(rs, have) == []
    decreases rs
  {
    if rs != [] {
      assert rs[|rs| - 1] in rs;
      NothingMissing(rs[..|rs| - 1], have);
    }
  }

  /** A second plan right after an apply is a no-op, from any chain. */
  lemma SecondPlanIsNoop(ch: Chain, c: Config)
    ensures PlanFor(Reconciled(ch, c), c) == Plan([], {}) && Commands(Reconciled(ch, c), c) == []
  {
    TagsConverge(ch, c);
    NothingMissing(Desired(c), Want(c));
    NothingToDo(Reconciled(ch, c));
  }

  lemma NothingToDo(ch: Chain)
    ensures PlanCommands(ch, Plan([], {})) == []
  {
    assert Inserts([]) == [] && AddCommands([]) == [];
    NothingStale(Run(ch, AddCommands([])), {});
  }

  function ReconciledAll(ch: Chain, cs: seq<Config>): Chain {
    if cs == [] then ch else Reconciled(ReconciledAll(ch, cs[..|cs| - 1]), cs[|cs| - 1])
  }

  /** Starting with no tagged rule, after every sequence of applies with changing bindings the
      chain is shaped and carries exactly the tags of the last configuration. */
  lemma {:induction false} RunsStayShaped(ch: Chain, cs: seq<Config>)
    requires AllForeign(ch) && cs != []
    ensures Shaped(ReconciledAll(ch, cs)) && Tags(ReconciledAll(ch, cs)) == Want(cs[|cs| - 1])
    decreases cs
  {
    var before, c := ReconciledAll(ch, cs[..|cs| - 1]), cs[|cs| - 1];
    if |cs| > 1 { RunsStayShaped(ch, cs[..|cs| - 1]); }
    TagsConverge(before, c);
    if AllForeign(before) {
      OwnOfForeign(before);
      BackstopInsert(before, c);
      assert |Commands(before, c)| > 0;
    }
    StaysShaped(before, c, |Commands(before, c)|);
    assert Commands(before, c)[..|Commands(before, c)|] == Commands(before, c);
  }

  // ---------- main results: which packets get in ----------

  /** No rule of the chain differs from the desired rule of the same tag (no node host moved). */
  ghost predicate NoneMoved(ch: Chain, c: Config) {
    forall r, d :: r in OwnRules(ch) && d in Desired(c) && r.comment == d.comment ==> r == d
  }

  function DesiredSet(c: Config): set<Rule> {
    set d | d in Desired(c)
  }

  /** The diff compares tags only, so an apply installs exactly the desired rules if and only if no
      tag already in the chain carries an outdated rule. */
  lemma ExactIffNoneMoved(ch: Chain, c: Config)
    requires c.UniqueIds()
    ensures OwnRules(Reconciled(ch, c)) == DesiredSet(c) <==> NoneMoved(ch, c)
  {
    FinalRules(ch, c);
    var after := OwnRules(Reconciled(ch, c));
    var all := DesiredSet(c);
    if NoneMoved(ch, c) {
      forall r | r in after ensures r in all {
        if r in Kept(ch, c) { var d :| d in Desired(c) && d.comment == r.comment; }
      }
      forall d | d in all ensures d in after {
        if d.comment in Tags(ch) {
          var r :| r in OwnRules(ch) && r.comment == d.comment;
          assert r in Kept(ch, c);
        } else {
          assert d in Added(ch, c);
        }
      }
    }
    if after == all {
      forall r, d | r in OwnRules(ch) && d in Desired(c) && r.comment == d.comment ensures r == d {
        assert r.comment in Want(c) && r in Kept(ch, c) && r in after;
        TagsNameRules(c, r, d);
      }
    }
  }

  /** A desired ACCEPT matches the packet: its source is the host of a remote binding's node and
      its port is that binding's RTP or RTCP port. */
  ghost predicate DesiredFlow(c: Config, p: Packet) {
    exists b :: b in c.bindings && b.remote && b.node in c.hosts && c.hosts[b.node] != "" &&
      p.udp && p.src == c.hosts[b.node] && (p.port == b.rtpPort || p.port == b.rtpPort + 1)
  }

  lemma DesiredFlowIs(c: Config, p: Packet)
    ensures DesiredFlow(c, p) <==> exists d :: d in Desired(c) && Grants(d, p)
  {
    AcceptRulesAre(c.bindings, c.hosts);
    if DesiredFlow(c, p) {
      var b :| b in c.bindings && b.remote && b.node in c.hosts && c.hosts[b.node] != "" &&
        p.udp && p.src == c.hosts[b.node] && (p.port == b.rtpPort || p.port == b.rtpPort + 1);
      var d := Rule(Accept(c.hosts[b.node], p.port), PortTag(b.id, p.port));
      assert d in AcceptRules(c.bindings, c.hosts);
      assert d in Desired(c) && Grants(d, p);
    }
  }

  /** No tag that both configurations want changes its rule between them. */
  ghost predicate Agree(before: Config, after: Config) {
    forall r, d :: r in Desired(before) && d in Desired(after) && r.comment == d.comment ==> r == d
  }

  /** Every configuration of the run agrees with the next one; a node may leave and come back elsewhere. */
  ghost predicate StepwiseStable(cs: seq<Config>)
    decreases cs
  {
    |cs| <= 1 || (StepwiseStable(cs[..|cs| - 1]) && Agree(cs[|cs| - 2], cs[|cs| - 1]))
  }

  /** After every apply of the run, the chain carries exactly the rules desired then. */
  ghost predicate AlwaysExact(ch: Chain, cs: seq<Config>)
    decreases cs
  {
    cs == [] || (AlwaysExact(ch, cs[..|cs| - 1]) && OwnRules(ReconciledAll(ch, cs)) == DesiredSet(cs[|cs| - 1]))
  }

  /** Starting with no tagged rule, every apply of a run installs exactly the desired rules if and only if
      consecutive configurations agree on the tags they share. */
  lemma {:induction false} AlwaysExactIff(ch: Chain, cs: seq<Config>)
    requires AllForeign(ch) && forall i :: 0 <= i < |cs| ==> cs[i].UniqueIds()
    ensures AlwaysExact(ch, cs) <==> StepwiseStable(cs)
    decreases cs
  {
    if |cs| == 1 {
      assert ReconciledAll(ch, cs) == Reconciled(ch, cs[0]);
      FirstIsExact(ch, cs[0]);
      assert AlwaysExact(ch, cs[..0]);
    } else if |cs| > 1 {
      var init, c := cs[..|cs| - 1], cs[|cs| - 1];
      AlwaysExactIff(ch, init);
      assert init[|init| - 1] == cs[|cs| - 2];
      if AlwaysExact(ch, init) { NextIsExactIff(ReconciledAll(ch, init), cs[|cs| - 2], c); }
    }
  }

  lemma FirstIsExact(ch: Chain, c: Config)
    requires AllForeign(ch) && c.UniqueIds()
    ensures OwnRules(Reconciled(ch, c)) == DesiredSet(c)
  {
    OwnOfForeign(ch);
    ExactIffNoneMoved(ch, c);
  }

  lemma NextIsExactIff(ch: Chain, before: Config, after: Config)
    requires OwnRules(ch) == DesiredSet(before) && after.UniqueIds()
    ensures OwnRules(Reconciled(ch, after)) == DesiredSet(after) <==> Agree(before, after)
  {
    ExactIffNoneMoved(ch, after);
    AgreeIsNoneMoved(ch, before, after);
  }

  lemma AgreeIsNoneMoved(ch: Chain, before: Config, after: Config)
    requires OwnRules(ch) == DesiredSet(before)
    ensures NoneMoved(ch, after) <==> Agree(before, after)
  {
    forall r ensures r in OwnRules(ch) <==> r in Desired(before) {}
  }

  lemma StableRunsAreExact(ch: Chain, cs: seq<Config>)
    requires AllForeign(ch) && cs != [] && StepwiseStable(cs)
    requires forall i :: 0 <= i < |cs| ==> cs[i].UniqueIds()
    ensures OwnRules(ReconciledAll(ch, cs)) == DesiredSet(cs[|cs| - 1])
  {
    AlwaysExactIff(ch, cs);
  }

  /** The fail-closed claim: after every run whose consecutive configurations agree, a UDP packet of
      the remote range is let in exactly when its source and port are a binding's own, whatever the
      other rules and the policy say. */
  lemma OnlyOwnNodesGetIn(ch: Chain, cs: seq<Config>, p: Packet, w: World)
    requires AllForeign(ch) && cs != [] && StepwiseStable(cs) && InRange(p)
    requires forall i :: 0 <= i < |cs| ==> cs[i].UniqueIds()
    ensures Accepted(ReconciledAll(ch, cs), p, w) <==> DesiredFlow(cs[|cs| - 1], p)
  {
    RunsStayShaped(ch, cs);
    StableRunsAreExact(ch, cs);
    ShapedVerdict(ReconciledAll(ch, cs), p, w);
    DesiredFlowIs(cs[|cs| - 1], p);
  }

  // ---------- main results: no drop window ----------

  /** Something that lets the packet in survives the apply: a tagged ACCEPT whose tag is still
      wanted, or a missing desired rule. */
  ghost predicate Covered(ch: Chain, c: Config, p: Packet) {
    || (exists r :: r in OwnRules(ch) && r.comment in Want(c) && Grants(r, p))
    || (exists d :: d in Desired(c) && d.comment !in Tags(ch) && Grants(d, p))
  }

  /** A packet let in before an apply is let in by every intermediate chain exactly when something
      that lets it in survives; a new tag for an unchanged flow is such a thing. */
  lemma NoDropWindowIff(ch: Chain, c: Config, p: Packet, w: World)
    requires Shaped(ch) && InRange(p) && Accepted(ch, p, w)
    ensures (forall k: nat :: k <= |Commands(ch, c)| ==> Accepted(Midway(ch, c, k), p, w)) <==> Covered(ch, c, p)
  {
    var n := |Commands(ch, c)|;
    if Covered(ch, c, p) {
      forall k: nat | k <= n ensures Accepted(Midway(ch, c, k), p, w) { CoveredStays(ch, c, p, w, k); }
    } else {
      MidwayVerdict(ch, c, p, w, n);
      MidwayRules(ch, c, n);
    }
  }

  lemma MidwayVerdict(ch: Chain, c: Config, p: Packet, w: World, k: nat)
    requires Shaped(ch) && InRange(p) && k <= |Commands(ch, c)|
    ensures Accepted(Midway(ch, c, k), p, w) <==> Allows(Midway(ch, c, k), p)
  {
    assert !AllForeign(ch) by { assert ch[0] in ch; }
    StaysShaped(ch, c, k);
    ShapedVerdict(Midway(ch, c, k), p, w);
  }

  lemma CoveredStays(ch: Chain, c: Config, p: Packet, w: World, k: nat)
    requires Shaped(ch) && InRange(p) && Accepted(ch, p, w) && Covered(ch, c, p) && k <= |Commands(ch, c)|
    ensures Accepted(Midway(ch, c, k), p, w)
  {
    ShapedVerdict(ch, p, w);
    MidwayVerdict(ch, c, p, w, k);
    MidwayRules(ch, c, k);
    if k <= |AddCommands(PlanFor(ch, c).add)| {
      var r :| r in OwnRules(ch) && Grants(r, p);
      assert r in OwnRules(Midway(ch, c, k));
    } else if r :| r in OwnRules(ch) && r.comment in Want(c) && Grants(r, p) {
      assert r in Kept(ch, c) && r in OwnRules(Midway(ch, c, k));
    } else {
      var d :| d in Desired(c) && d.comment !in Tags(ch) && Grants(d, p);
      assert d in Added(ch, c) && d in OwnRules(Midway(ch, c, k));
    }
  }

  /** In particular, when no host moved, a flow that is in the chain and still desired is never
      dropped, under whichever tag it is desired. */
  lemma RetaggingDropsNothing(ch: Chain, c: Config, p: Packet, w: World, k: nat)
    requires Shaped(ch) && NoneMoved(ch, c) && InRange(p) && Accepted(ch, p, w) && DesiredFlow(c, p)
    requires k <= |Commands(ch, c)|
    ensures Accepted(Midway(ch, c, k), p, w)
  {
    DesiredFlowIs(c, p);
    var d :| d in Desired(c) && Grants(d, p);
    if d.comment in Tags(ch) {
      var r :| r in OwnRules(ch) && r.comment == d.comment;
      assert r == d && d.comment in Want(c);
    }
    NoDropWindowIff(ch, c, p, w);
  }

  // ---------- where the code falls short ----------

  /** A configuration change that moves hosts but keeps all tags is not repaired: the plan is a
      no-op, so the packets that only the new configuration desires stay dropped and those that only
      the old one desired stay let in. */
  lemma MovedHostNotRepaired(ch: Chain, c0: Config, c1: Config, p: Packet, w: World)
    requires AllForeign(ch) && c0.UniqueIds() && Want(c0) == Want(c1) && InRange(p)
    ensures var once := Reconciled(ch, c0);
      PlanFor(once, c1) == Plan([], {}) && Reconciled(once, c1) == once &&
      (Accepted(Reconciled(once, c1), p, w) <==> DesiredFlow(c0, p))
  {
    var once := Reconciled(ch, c0);
    TagsConverge(ch, c0);
    NothingMissing(Desired(c1), Tags(once));
    NothingToDo(once);
    OneApplyIsExact(ch, c0, p, w);
  }

  lemma OneApplyIsExact(ch: Chain, c: Config, p: Packet, w: World)
    requires AllForeign(ch) && c.UniqueIds() && InRange(p)
    ensures Accepted(Reconciled(ch, c), p, w) <==> DesiredFlow(c, p)
  {
    assert [c][..0] == [] && ReconciledAll(ch, [c]) == Reconciled(ch, c);
    OnlyOwnNodesGetIn(ch, [c], p, w);
  }

  /** Such a change is as simple as one node getting a new address. */
  lemma HostsDoMove() returns (c0: Config, c1: Config, p: Packet)
    ensures c0.UniqueIds() && Want(c0) == Want(c1) && InRange(p) && DesiredFlow(c1, p) && !DesiredFlow(c0, p)
  {
    var b := Binding("cam", "n", true, 5100);
    c0, c1 := Config([b], map["n" := "10.0.0.1"]), Config([b], map["n" := "10.0.0.2"]);
    p := Packet(true, "10.0.0.2", 5100);
    assert b in c1.bindings;
    var tags := {PortTag("cam", 5100), PortTag("cam", 5101), Backstop};
    forall c | c == c0 || c == c1 ensures Want(c) == tags {
      var d := Desired(c);
      assert c.bindings[..0] == [] && AcceptRules(c.bindings, c.hosts) == [] + AcceptsOf(b, c.hosts);
      assert d[0] in d && d[1] in d && d[2] in d && |d| == 3;
      assert d[0].comment in Want(c) && d[1].comment in Want(c) && d[2].comment in Want(c);
    }
  }

  /** The first apply does open a drop window: whatever foreign rules let in before, every packet of
      the remote range is dropped after the first command, desired or not. */
  lemma FirstApplyHasAWindow(ch: Chain, c: Config, p: Packet, w: World)
    requires AllForeign(ch) && InRange(p)
    ensures |Commands(ch, c)| > 0 && !Accepted(Midway(ch, c, 1), p, w)
  {
    OwnOfForeign(ch);
    BackstopInsert(ch, c);
    BackstopFirst(PlanFor(ch, c).add, Commands(ch, c));
    BackstopDrops(ch, p, w);
  }

  lemma BackstopDrops(ch: Chain, p: Packet, w: World)
    requires InRange(p)
    ensures !Accepted(Run(ch, [Insert(BACKSTOP)]), p, w)
  {
    RunOne(ch, Insert(BACKSTOP));
  }

  lemma BackstopFirst(add: seq<Rule>, cs: seq<Command>)
    requires Backstops(add, true) == [BACKSTOP] && AddCommands(add) <= cs
    ensures |cs| > 0 && cs[..1] == [Insert(BACKSTOP)]
  {
    assert Inserts([BACKSTOP]) == [Insert(BACKSTOP)];
    assert AddCommands(add)[0] == Insert(BACKSTOP);
  }

  lemma {:induction false} ShapedSplit(accepts: Chain, below: Chain)
    requires forall e :: e in accepts ==> e.Own? && e.rule.spec.Accept? && e.rule.comment.PortTag?
    ensures Shaped(accepts + [Own(BACKSTOP)] + below) <==> AllForeign(below)
    decreases accepts
  {
    var whole := accepts + [Own(BACKSTOP)] + below;
    if accepts == [] {
      assert whole[1..] == below;
    } else {
      assert whole[1..] == accepts[1..] + [Own(BACKSTOP)] + below;
      ShapedSplit(accepts[1..], below);
    }
  }

  lemma {:induction false} InsertedOnTop(ch: Chain, rs: seq<Rule>) returns (top: Chain)
    ensures Run(ch, Inserts(rs)) == top + ch
    ensures forall e :: e in top ==> e.Own? && e.rule in rs
    decreases rs
  {
    if rs == [] {
      top := [];
      assert Inserts(rs) == [];
    } else {
      var init := rs[..|rs| - 1];
      var t := InsertedOnTop(ch, init);
      assert Inserts(rs)[..|rs| - 1] == Inserts(init);
      top := [Own(rs[|rs| - 1])] + t;
    }
  }

  lemma {:induction false} PurgedBelow(top: Chain, ch: Chain, stale: set<Comment>, k: nat)
    requires forall e :: e in top ==> e.Own? && e.rule.comment !in stale
    ensures Purged(top + ch, stale, k) == top + Purged(ch, stale, k)
    decreases top
  {
    if top == [] {
      assert top + ch == ch;
      assert top + Purged(ch, stale, k) == Purged(ch, stale, k);
    } else {
      assert (top + ch)[1..] == top[1..] + ch;
      PurgedBelow(top[1..], ch, stale, k);
      assert top + Purged(ch, stale, k) == [top[0]] + (top[1..] + Purged(ch, stale, k));
    }
  }

  lemma OwnFreeIsForeign(ch: Chain)
    ensures OwnRules(ch) == {} <==> AllForeign(ch)
  {
    forall e | e in ch && e.Own? ensures e.rule in OwnRules(ch) {}
  }

  /** A missing backstop goes in below the new ACCEPTs and above everything already there. */
  lemma LostBackstopAdds(ch: Chain, add: seq<Rule>) returns (top: Chain)
    requires Backstops(add, true) == [BACKSTOP]
    ensures Run(ch, AddCommands(add)) == top + [Own(BACKSTOP)] + ch
    ensures forall e :: e in top ==> e.Own? && e.rule in Backstops(add, false)
  {
    assert Inserts([BACKSTOP]) == [Insert(BACKSTOP)];
    RunOne(ch, Insert(BACKSTOP));
    top := InsertedOnTop([Own(BACKSTOP)] + ch, Backstops(add, false));
    RunAppend(ch, [Insert(BACKSTOP)], Inserts(Backstops(add, false)));
    assert top + ([Own(BACKSTOP)] + ch) == top + [Own(BACKSTOP)] + ch;
  }

  /** A chain that has lost its backstop gets a new one on top of the ACCEPTs it kept: such an apply
      restores the shape exactly when no tag in the chain is still wanted. */
  lemma LostBackstopIff(ch: Chain, c: Config)
    requires Backstop !in Tags(ch)
    ensures Shaped(Reconciled(ch, c)) <==> Tags(ch) !! Want(c)
  {
    BackstopInsert(ch, c);
    var top := LostBackstopAdds(ch, PlanFor(ch, c).add);
    var k := LostBackstopChain(ch, c, top);
    LostBackstopResult(top, ch, c, PlanFor(ch, c).remove, k);
  }

  lemma LostBackstopChain(ch: Chain, c: Config, top: Chain) returns (k: nat)
    requires Run(ch, AddCommands(PlanFor(ch, c).add)) == top + [Own(BACKSTOP)] + ch
    ensures Reconciled(ch, c) == Purged(top + [Own(BACKSTOP)] + ch, PlanFor(ch, c).remove, k)
  {
    var n := |Commands(ch, c)|;
    DeletingIs(ch, c, n);
    assert Commands(ch, c)[..n] == Commands(ch, c);
    k := n - |AddCommands(PlanFor(ch, c).add)|;
  }

  lemma LostBackstopResult(top: Chain, ch: Chain, c: Config, stale: set<Comment>, k: nat)
    requires Backstop !in Tags(ch) && stale == Tags(ch) - Want(c)
    requires forall e :: e in top ==> e.Own? && e.rule in Backstops(PlanFor(ch, c).add, false)
    requires Reconciled(ch, c) == Purged(top + [Own(BACKSTOP)] + ch, stale, k)
    ensures Shaped(Reconciled(ch, c)) <==> Tags(ch) !! Want(c)
  {
    var above, below := top + [Own(BACKSTOP)], Purged(ch, stale, k);
    AboveIsWanted(top, ch, c);
    PurgedBelow(above, ch, stale, k);
    PurgedKeeps(ch, stale, k);
    ShapedSplit(top, below);
    FinalRules(ch, c);
    BelowIsKept(above, below, ch, c);
  }

  lemma AboveIsWanted(top: Chain, ch: Chain, c: Config)
    requires Backstop !in Tags(ch)
    requires forall e :: e in top ==> e.Own? && e.rule in Backstops(PlanFor(ch, c).add, false)
    ensures forall e :: e in top ==> e.rule.spec.Accept? && e.rule.comment.PortTag?
    ensures forall e :: e in top + [Own(BACKSTOP)] ==> e.Own? && e.rule in Added(ch, c) && e.rule.comment in Want(c)
  {
    AddedAreWanted(ch, c);
    PortAccepts(ch, c);
  }

  lemma AddedAreWanted(ch: Chain, c: Config)
    ensures forall r :: r in Backstops(PlanFor(ch, c).add, false) || r == BACKSTOP ==> r.comment in Want(c)
    ensures Backstop !in Tags(ch) ==> forall r :: r in Backstops(PlanFor(ch, c).add, false) || r == BACKSTOP ==> r in Added(ch, c)
  {
    MissingIs(Desired(c), Tags(ch));
    BackstopsAre(PlanFor(ch, c).add, false);
    DesiredAre(c);
  }

  /** What lies below the new backstop carries a tag exactly when something was kept. */
  lemma BelowIsKept(above: Chain, below: Chain, ch: Chain, c: Config)
    requires OwnRules(above + below) == Kept(ch, c) + Added(ch, c) && OwnRules(below) <= OwnRules(ch)
    requires forall e :: e in above ==> e.Own? && e.rule in Added(ch, c)
    ensures AllForeign(below) <==> Tags(ch) !! Want(c)
  {
    OwnFreeIsForeign(below);
    if !(Tags(ch) !! Want(c)) {
      var t :| t in Tags(ch) && t in Want(c);
      var r :| r in OwnRules(ch) && r.comment == t;
      assert r in Kept(ch, c);
      assert Own(r) in above + below;
      assert Own(r) !in above;
      assert r in OwnRules(below);
    }
    if !AllForeign(below) {
      var r :| r in OwnRules(below);
      assert Own(r) in above + below;
      assert r in OwnRules(above + below);
      assert r.comment in Tags(ch);
    }
  }
}
