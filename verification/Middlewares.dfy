/** The middlewares of HTTP routers: those that the annotations of the service ask for, and the whitelist. */
module Middlewares {
  import opened Basics
  import opened Topologies
  import opened ConfigWrites
  import opened ConfigTheorems
  import opened ConfigResult
  import LW = LastWrites
  import opened Routers

  /** The annotations of svc ask for a middleware called name that does what, and for no later one of that name. */
  ghost predicate Annotates(svc: Service, name: string, what: string) {
    LW.ServesHTTP(svc) && exists i :: LastNamed(svc.annotations.middlewares.value, i, name, what)
  }

  predicate LastNamed(ms: seq<(string, string)>, i: int, name: string, what: string) {
    0 <= i < |ms| && ms[i] == (name, what) && forall j :: i < j < |ms| ==> ms[j].0 != name
  }

  lemma {:induction false} LastAnnotation(svc: Service, ms: seq<(string, string)>, name: string, what: string)
    ensures LW.Last(AnnotationWrites(svc, ms), HTTPMiddleware(Annotated(svc.OwnKey(), name))) == Some(Custom(what)) <==>
            exists i :: LastNamed(ms, i, name, what)
    ensures forall v :: LW.Last(AnnotationWrites(svc, ms), HTTPMiddleware(Annotated(svc.OwnKey(), name))) == Some(v) ==>
              v.Custom?
  {
    var k := HTTPMiddleware(Annotated(svc.OwnKey(), name));
    if ms != [] {
      var rest := AnnotationWrites(svc, ms[1..]);
      LastAnnotation(svc, ms[1..], name, what);
      LW.LastConcat([AnnotationWrites(svc, ms)[0]], rest, k);
      LW.LastOne(AnnotationWrites(svc, ms)[0], k);
      forall i | LastNamed(ms[1..], i, name, what)
        ensures LastNamed(ms, i + 1, name, what)
      {
        assert forall j :: i + 1 < j < |ms| ==> ms[j] == ms[1..][j - 1];
      }
      forall i | LastNamed(ms, i, name, what) && i > 0
        ensures LastNamed(ms[1..], i - 1, name, what)
      {
        assert forall j :: 0 < j < |ms| ==> ms[j] == ms[1..][j - 1];
      }
      if LastNamed(ms, 0, name, what) {
        NoneNamed(svc, ms[1..], name);
      }
      if rest != [] && LW.Last(rest, k).None? && ms[0] == (name, what) {
        NoneNamedBack(svc, ms[1..], name);
      }
    }
  }

  lemma {:induction false} NoneNamed(svc: Service, ms: seq<(string, string)>, name: string)
    requires forall j :: 0 <= j < |ms| ==> ms[j].0 != name
    ensures LW.Last(AnnotationWrites(svc, ms), HTTPMiddleware(Annotated(svc.OwnKey(), name))) == None
  {
    if ms != [] {
      NoneNamed(svc, ms[1..], name);
    }
  }

  lemma {:induction false} NoneNamedBack(svc: Service, ms: seq<(string, string)>, name: string)
    requires LW.Last(AnnotationWrites(svc, ms), HTTPMiddleware(Annotated(svc.OwnKey(), name))) == None
    ensures forall j :: 0 <= j < |ms| ==> ms[j].0 != name
  {
    if ms != [] {
      NoneNamedBack(svc, ms[1..], name);
      assert ms == [ms[0]] + ms[1..];
    }
  }

  /** The writes that decide about an annotated middleware. */
  lemma LastOfAnnotations(env: Env, t: Topo, s: Key, k: ConfKey)
    requires Ready(t) && s in t.services && LW.GroupOf(k).OwnMiddleware?
    ensures var svc := t.services[s];
            LW.Last(ServiceWrites(env, t, svc), k) ==
            if LW.ServesHTTP(svc) then LW.Last(AnnotationWrites(svc, svc.annotations.middlewares.value), k) else None
  {
    hide AnnotationWrites, TargetsWrites, SplitsWrites, HTTPServiceWrites, BlockAllWrites, StreamServiceWrites,
         LW.InGroup, AnnotationKeys, SplitReady;
    var svc := t.services[s];
    LW.LastNone(k);
    if Evaluable(svc) {
      var tt, scheme, keys := svc.annotations.trafficType.value, svc.annotations.scheme.value,
          AnnotationKeys(svc, Asked(svc));
      var first, own, last := AnnotationWrites(svc, Asked(svc)), OwnWrites(env, t, svc, scheme, tt, keys),
          SplitsWrites(env, t, svc.trafficSplits, scheme, tt, keys);
      LW.LastConcat(first, own, k);
      LW.LastConcat(first + own, last, k);
      LW.LastConcat(first + own, [], k);
      LW.SplitsNever(env, t, s, svc.trafficSplits, scheme, tt, keys, k);
      OwnNever(env, t, s, scheme, tt, keys, k);
      if tt != HTTP {
        NoAnnotations(svc);
      }
    }
  }

  lemma NoAnnotations(svc: Service)
    ensures AnnotationWrites(svc, []) == []
  {
  }

  lemma OwnNever(env: Env, t: Topo, s: Key, scheme: string, tt: TrafficType, keys: seq<MiddlewareKey>, k: ConfKey)
    requires Ready(t) && s in t.services && LW.GroupOf(k).OwnMiddleware?
    ensures LW.Last(OwnWrites(env, t, t.services[s], scheme, tt, keys), k) == None
  {
    hide TargetsWrites, HTTPServiceWrites, BlockAllWrites, StreamServiceWrites, LW.InGroup, SplitReady;
    var svc := t.services[s];
    LW.LastNone(k);
    LW.ServiceGroup(env, t, svc, scheme, keys, 0);
    if env.acl {
      var block, targets := if tt == HTTP then BlockAllWrites(env, svc, 0) else [],
          TargetsWrites(env, t, svc.trafficTargets, scheme, tt, keys);
      LW.LastConcat(block, targets, k);
      LW.TargetsNever(env, t, s, svc.trafficTargets, scheme, tt, keys, k);
      if tt == HTTP {
        LW.OtherGroup(block, LW.OwnHTTP, k);
      }
    } else {
      LW.StreamServiceGroup(env, t, svc, OverTCP, 0);
      LW.StreamServiceGroup(env, t, svc, OverUDP, 0);
      if tt == HTTP {
        LW.OtherGroup(HTTPServiceWrites(env, t, svc, scheme, keys, 0), LW.OwnHTTP, k);
      } else if tt != Unknown {
        LW.OtherGroup(StreamServiceWrites(env, t, svc, if tt == TCPType then OverTCP else OverUDP, 0), LW.OwnStream, k);
      }
    }
  }

  /** The annotated middlewares of a configuration are those that the annotations of known HTTP services ask for. */
  lemma AnnotatedExactly(env: Env, t: Topo, conf: Conf, s: Key, name: string, v: ConfValue)
    requires Ready(t) && ConfigOf(env, t, conf)
    ensures Entry(conf, HTTPMiddleware(Annotated(s, name))) == Some(v) <==>
            v.Custom? && s in t.services && Annotates(t.services[s], name, v.name)
  {
    hide ConfigOf, ServiceWrites, AnnotationWrites, SplitReady, LastNamed;
    var k := HTTPMiddleware(Annotated(s, name));
    LW.ConfLast(env, t, conf, k);
    if s in t.services {
      var svc := t.services[s];
      LastOfAnnotations(env, t, s, k);
      if LW.ServesHTTP(svc) {
        assert svc.OwnKey() == s;
        LastAnnotation(svc, svc.annotations.middlewares.value, name, if v.Custom? then v.name else "");
      }
    }
  }

  /**
   What an HTTP router goes through: nothing but the middleware that blocks everything, or the middlewares its
   service is annotated with, in their order, and with ACL its whitelist at the end.
   */
  lemma RouterMiddlewares(env: Env, t: Topo, conf: Conf, r: RouterKey)
    requires Ready(t) && ConfigOf(env, t, conf) && HTTPRouter(r) in conf && !r.ReadinessRouter?
    ensures r.owner in t.services && LW.ServesHTTP(t.services[r.owner]) && conf[HTTPRouter(r)].Router?
    ensures var ms, carried := t.services[r.owner].annotations.middlewares.value, conf[HTTPRouter(r)].middlewares;
            if env.acl && r.PortRouter? then carried == [BlockAllMiddleware]
            else
              && |carried| == |ms| + (if env.acl then 1 else 0)
              && (forall i :: 0 <= i < |ms| ==> carried[i] == Annotated(r.owner, ms[i].0))
              && (env.acl ==> Some(carried[|ms|]) == WhitelistOf(r))
  {
    hide ConfigOf, SplitReady, LW.TargetRule, LW.SplitRule, HTTPEntryPoint, LW.WritesTo, BackendsKnown,
         LW.LastPlace;
    LW.HTTPEntryMeans(env, t, conf, HTTPRouter(r));
    var svc := t.services[r.owner];
    assert svc.OwnKey() == r.owner;
    if r.PortRouter? {
      LW.PortRouterIs(env, t, conf, r.owner, r.port);
    } else if r.TargetDirectRouter? || r.TargetIndirectRouter? {
      TargetOfRouter(env, t, conf, r);
      var tk := Decider(env, t, svc, HTTPRouter(r), r.target).value;
      assert t.targets[tk].service == r.owner;
    } else {
      SplitOfRouter(env, t, conf, r);
    }
  }
}
