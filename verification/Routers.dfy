/** The HTTP routers of a configuration: their rules, where they listen, and which of them win. */
module Routers {
  import opened Basics
  import opened Topologies
  import opened Rules
  import opened RulePriority
  import opened ConfigWrites
  import opened ConfigTheorems
  import opened ConfigResult
  import opened LastWrites

  // ---- Entrypoints of places ----

  /** Places get different entrypoints, up to the end of the HTTP range. */
  lemma PlacesDiffer(env: Env, i: nat, j: nat)
    ensures HTTPEntryPoint(env, i).None? <==> i > env.maxHTTP as int - env.minHTTP as int
    ensures HTTPEntryPoint(env, i).Some? ==> (HTTPEntryPoint(env, i) == HTTPEntryPoint(env, j) <==> i == j)
    ensures i <= j && HTTPEntryPoint(env, j).Some? ==> HTTPEntryPoint(env, i).Some?
    ensures HTTPEntryPoint(env, 0).Some? ==> HTTPEntryPoint(env, 0).value == HTTPEntry(env.minHTTP)
    ensures i <= j && HTTPEntryPoint(env, j).Some? ==>
              && HTTPEntryPoint(env, i).value.HTTPEntry? && HTTPEntryPoint(env, j).value.HTTPEntry?
              && HTTPEntryPoint(env, j).value.port as int - HTTPEntryPoint(env, i).value.port as int == j - i
  {
  }

  /**
   A port of a service has a router exactly when its traffic is HTTP, its annotations can be read, and it has a
   place.
   */
  lemma PortRouterExactly(env: Env, t: Topo, conf: Conf, s: Key, port: Int32)
    requires Ready(t) && ConfigOf(env, t, conf)
    ensures HTTPRouter(PortRouter(s, port)) in conf <==>
            && s in t.services && t.services[s].annotations.trafficType == Some(HTTP)
            && t.services[s].annotations.scheme.Some? && t.services[s].annotations.middlewares.Some?
            && exists i :: 0 <= i < |t.services[s].ports| && t.services[s].ports[i].port == port
                           && env.minHTTP as int + i <= env.maxHTTP as int
  {
    hide ConfigOf, Ready;
    var k := HTTPRouter(PortRouter(s, port));
    if k in conf {
      HTTPEntryMeans(env, t, conf, k);
    }
    if s in t.services && ServesHTTP(t.services[s]) {
      PortRouterIs(env, t, conf, s, port);
    }
  }

  /** An indirect rule ends in a condition that no direct rule ends in. */
  lemma RulesDiffer(svc: Service, specs: seq<TrafficSpec>)
    ensures DirectRule(svc, specs) != IndirectRule(svc, specs)
  {
    hide SpecsRule;
    var direct, indirect := DirectRule(svc, specs), IndirectRule(svc, specs);
    assert indirect[|indirect| - 1] == Atom(FORWARDED);
    assert direct[|direct| - 1] != Atom(FORWARDED);
  }

  // ---- Routers of splits ----

  /** The split that a router of a split belongs to. */
  lemma SplitOfRouter(env: Env, t: Topo, conf: Conf, r: RouterKey)
    requires Ready(t) && ConfigOf(env, t, conf) && HTTPRouter(r) in conf
             && (r.SplitDirectRouter? || r.SplitIndirectRouter?)
    ensures var k := Key(r.split, r.owner.namespace);
            && r.owner in t.services && ServesHTTP(t.services[r.owner]) && SplitReady(t, r.owner, k)
            && IsSplitRouter(HTTPRouter(r), t.splits[k]) && BackendsKnown(t, t.splits[k].backends)
            && LastPlace(env, t.services[r.owner].ports, r.port, 0).Some?
            && Some(conf[HTTPRouter(r)]) ==
               var svc, ts := t.services[r.owner], t.splits[k];
               var j := LastPlace(env, svc.ports, r.port, 0).value;
               SplitRouter(env, ts, svc, Middlewares(svc), HTTPRouter(r), SplitRule(env, svc, ts, j),
                           HTTPEntryPoint(env, j).value)
  {
    hide ConfigOf, SplitRouter, SplitRule, BackendsKnown, HTTPEntryPoint;
    HTTPEntryMeans(env, t, conf, HTTPRouter(r));
    var k := Key(r.split, r.owner.namespace);
    assert SplitReady(t, r.owner, k);
    SplitRouterIs(env, t, conf, r.owner, k, HTTPRouter(r));
  }

  /**
   Not every direct router of a split has the direct rule. It has exactly when the last place of its port is the
   first, or when there are no indirect routers because the service backs no split or ACL is off. Elsewhere it
   asks for the header of the indirect rule.
   */
  lemma SplitDirectRuleExactly(env: Env, t: Topo, conf: Conf, s: Key, n: string, port: Int32)
    requires Ready(t) && ConfigOf(env, t, conf) && HTTPRouter(SplitDirectRouter(s, n, port)) in conf
    ensures s in t.services && Key(n, s.namespace) in t.splits && LastPlace(env, t.services[s].ports, port, 0).Some?
    ensures var svc, v := t.services[s], conf[HTTPRouter(SplitDirectRouter(s, n, port))];
            var j := LastPlace(env, svc.ports, port, 0).value;
            && v.Router? && v.entryPoints == [HTTPEntryPoint(env, j).value]
            && (v.rule == DirectRule(svc, t.splits[Key(n, s.namespace)].rules) <==>
                 j == 0 || svc.backendOf == [] || !env.acl)
  {
    hide Ready, ConfigOf, DirectRule, IndirectRule, Priority;
    SplitOfRouter(env, t, conf, SplitDirectRouter(s, n, port));
    RulesDiffer(t.services[s], t.splits[Key(n, s.namespace)].rules);
  }

  // ---- Routers of targets ----

  /** The target that decides about key k, which is made for targets called n. */
  function Decider(env: Env, t: Topo, svc: Service, k: ConfKey, n: string): Option<TargetKey> {
    LastIn(svc.trafficTargets, tk => WritesTo(env, t, svc, k, n, tk))
  }

  /** What a router of a target is: that of the last target of the name with an entrypoint for the port. */
  lemma TargetOfRouter(env: Env, t: Topo, conf: Conf, r: RouterKey)
    requires Ready(t) && ConfigOf(env, t, conf) && HTTPRouter(r) in conf
             && (r.TargetDirectRouter? || r.TargetIndirectRouter?)
    ensures env.acl && r.owner in t.services && ServesHTTP(t.services[r.owner])
    ensures var svc := t.services[r.owner];
            var d := Decider(env, t, svc, HTTPRouter(r), r.target);
            && d.Some? && d.value in svc.trafficTargets && d.value in t.targets && t.targets[d.value].name == r.target
            && LastPlace(env, t.targets[d.value].destination.ports, r.port, 0).Some?
            && Some(conf[HTTPRouter(r)]) ==
                 TargetEntry(env, t, t.targets[d.value], svc, Middlewares(svc), HTTPRouter(r))
  {
    hide ConfigOf, DirectRule, IndirectRule, HTTPEntryPoint;
    HTTPEntryMeans(env, t, conf, HTTPRouter(r));
    TargetEntryIs(env, t, conf, r.owner, r.target, HTTPRouter(r));
  }

  /**
   A direct router of a target has the direct rule exactly when the last place of its port among the ports of the
   destination is the first, or the service backs no split. That place also decides where the router listens: it
   listens where place i of the service does exactly when both places are the same.
   */
  lemma TargetDirectRouteExactly(env: Env, t: Topo, conf: Conf, s: Key, n: string, port: Int32, i: nat)
    requires Ready(t) && ConfigOf(env, t, conf) && HTTPRouter(TargetDirectRouter(s, n, port)) in conf
             && HTTPEntryPoint(env, i).Some?
    ensures s in t.services && Decider(env, t, t.services[s], HTTPRouter(TargetDirectRouter(s, n, port)), n).Some?
    ensures var svc, k := t.services[s], HTTPRouter(TargetDirectRouter(s, n, port));
            var tk := Decider(env, t, svc, k, n).value;
            tk in t.targets && LastPlace(env, t.targets[tk].destination.ports, port, 0).Some? && conf[k].Router?
    ensures var svc, k := t.services[s], HTTPRouter(TargetDirectRouter(s, n, port));
            var tt := t.targets[Decider(env, t, svc, k, n).value];
            var j := LastPlace(env, tt.destination.ports, port, 0).value;
            && (conf[k].rule == DirectRule(svc, tt.rules) <==> j == 0 || svc.backendOf == [])
            && (conf[k].entryPoints == [HTTPEntryPoint(env, i).value] <==> i == j)
  {
    hide Ready, ConfigOf, DirectRule, IndirectRule, Priority, Decider;
    TargetOfRouter(env, t, conf, TargetDirectRouter(s, n, port));
    var svc := t.services[s];
    var tt := t.targets[Decider(env, t, svc, HTTPRouter(TargetDirectRouter(s, n, port)), n).value];
    RulesDiffer(svc, tt.rules);
    PlacesDiffer(env, i, LastPlace(env, tt.destination.ports, port, 0).value);
  }

  // ---- Priorities ----

  function TierOf(r: RouterKey): int {
    match r
    case ReadinessRouter => 0
    case PortRouter(_, _) => 1
    case TargetDirectRouter(_, _, _) => 2
    case TargetIndirectRouter(_, _, _) => 3
    case SplitDirectRouter(_, _, _) => 4
    case SplitIndirectRouter(_, _, _) => 3
  }

  /** A router that lets nobody through: with ACL, that of a port of a service. */
  predicate BlocksAll(env: Env, r: RouterKey) {
    env.acl && r.PortRouter?
  }

  /**
   The priority of every router of a configuration. The indirect router of a split is not in the tier of splits,
   but in that of the indirect routers of targets.
   */
  lemma RouterPriority(env: Env, t: Topo, conf: Conf, r: RouterKey)
    requires Ready(t) && ConfigOf(env, t, conf) && HTTPRouter(r) in conf && !r.ReadinessRouter?
    ensures var v := conf[HTTPRouter(r)];
            && v.Router? && Balanced(v.rule)
            && v.priority == if BlocksAll(env, r) then 1 else 1000 * TierOf(r) + Weight(v.rule) - 1
  {
    hide ConfigOf, Balanced, DirectRule, IndirectRule, ServiceRule, Priority, HTTPEntryPoint, Decider, Ready,
         BackendsKnown, Weight;
    RouterTier(env, t, conf, r);
    if !BlocksAll(env, r) {
      PriorityExact(conf[HTTPRouter(r)].rule, TierOf(r));
    }
  }

  lemma RouterTier(env: Env, t: Topo, conf: Conf, r: RouterKey)
    requires Ready(t) && ConfigOf(env, t, conf) && HTTPRouter(r) in conf && !r.ReadinessRouter?
    ensures var v := conf[HTTPRouter(r)];
            v.Router? && Balanced(v.rule) && v.priority == if BlocksAll(env, r) then BLOCK_ALL_PRIORITY
            else Priority(v.rule, TierOf(r))
  {
    hide ConfigOf, Balanced, DirectRule, IndirectRule, ServiceRule, Priority, HTTPEntryPoint, Decider, Ready,
         BackendsKnown;
    var k := HTTPRouter(r);
    HTTPEntryMeans(env, t, conf, k);
    var svc := t.services[r.owner];
    if r.PortRouter? {
      PortRouterIs(env, t, conf, r.owner, r.port);
      BalancedService(svc);
    } else if r.TargetDirectRouter? || r.TargetIndirectRouter? {
      TargetOfRouter(env, t, conf, r);
      PrintedRulesBalanced(svc, t.targets[Decider(env, t, svc, k, r.target).value].rules);
    } else {
      SplitOfRouter(env, t, conf, r);
      PrintedRulesBalanced(svc, t.splits[Key(r.split, r.owner.namespace)].rules);
    }
  }

  function RankOf(conf: Conf, r: RouterKey): int {
    if HTTPRouter(r) in conf && conf[HTTPRouter(r)].Router? then conf[HTTPRouter(r)].priority else 0
  }

  /** What the rule of router r counts for. */
  function WeightOf(conf: Conf, r: RouterKey): nat {
    if HTTPRouter(r) in conf && conf[HTTPRouter(r)].Router? then Weight(conf[HTTPRouter(r)].rule) else 0
  }

  /**
   Which of two routers wins. Between routers that do not block everything it is the one of the later tier, unless
   the rule of the other counts for at least a thousand more for each tier in between.
   */
  lemma WinsExactly(env: Env, t: Topo, conf: Conf, r: RouterKey, r': RouterKey)
    requires Ready(t) && ConfigOf(env, t, conf) && HTTPRouter(r) in conf && HTTPRouter(r') in conf
    requires !r.ReadinessRouter? && !r'.ReadinessRouter? && !BlocksAll(env, r) && !BlocksAll(env, r')
    ensures RankOf(conf, r) > RankOf(conf, r') <==>
              WeightOf(conf, r) + 1000 * TierOf(r) > WeightOf(conf, r') + 1000 * TierOf(r')
  {
    hide Ready, ConfigOf, Priority, Balanced, Weight;
    RouterPriority(env, t, conf, r);
    RouterPriority(env, t, conf, r');
  }

  /** The direct routers of splits win over all routers of targets and of services whose rules count for up to 1000. */
  lemma SplitWins(env: Env, t: Topo, conf: Conf, r: RouterKey, r': RouterKey)
    requires Ready(t) && ConfigOf(env, t, conf) && HTTPRouter(r) in conf && HTTPRouter(r') in conf
    requires r.SplitDirectRouter? && (r'.TargetDirectRouter? || r'.TargetIndirectRouter? || r'.PortRouter?)
    requires WeightOf(conf, r') <= 1000
    ensures RankOf(conf, r) > RankOf(conf, r')
  {
    hide Ready, ConfigOf, Priority, Balanced, Weight;
    if BlocksAll(env, r') {
      BlockAllRanksLast(env, t, conf, r', r);
    } else {
      WinsExactly(env, t, conf, r, r');
      HasWeight(env, t, conf, r);
    }
  }

  /** Every rule has a condition. */
  lemma HasWeight(env: Env, t: Topo, conf: Conf, r: RouterKey)
    requires Ready(t) && ConfigOf(env, t, conf) && HTTPRouter(r) in conf && !r.ReadinessRouter?
    ensures WeightOf(conf, r) > 0
  {
    hide Ready, ConfigOf, Priority, Inside;
    RouterPriority(env, t, conf, r);
  }

  /** A router that blocks everything gives way to every other router that is made for a service. */
  lemma BlockAllRanksLast(env: Env, t: Topo, conf: Conf, r: RouterKey, r': RouterKey)
    requires Ready(t) && ConfigOf(env, t, conf) && HTTPRouter(r) in conf && HTTPRouter(r') in conf
    requires BlocksAll(env, r) && !BlocksAll(env, r') && !r'.ReadinessRouter?
    ensures RankOf(conf, r) < RankOf(conf, r')
  {
    hide Ready, ConfigOf, Balanced, Weight;
    RouterPriority(env, t, conf, r);
    RouterPriority(env, t, conf, r');
    HasWeight(env, t, conf, r');
  }

  /**
   Splits do not always win: an indirect router of a split wins over an indirect router of a target exactly when
   its rule counts for more.
   */
  lemma SplitIndirectWinsExactly(env: Env, t: Topo, conf: Conf, r: RouterKey, r': RouterKey)
    requires Ready(t) && ConfigOf(env, t, conf) && HTTPRouter(r) in conf && HTTPRouter(r') in conf
    requires r.SplitIndirectRouter? && r'.TargetIndirectRouter?
    ensures RankOf(conf, r) > RankOf(conf, r') <==> WeightOf(conf, r) > WeightOf(conf, r')
  {
    hide Ready, ConfigOf, RankOf, WeightOf;
    WinsExactly(env, t, conf, r, r');
  }
}
