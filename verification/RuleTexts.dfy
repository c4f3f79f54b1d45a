/** The rules as the proxy is given them, character by character. */
module RuleTexts {
  import opened Basics
  import opened Topologies
  import opened Rules
  import opened RulePriority

  // ---- The texts of pkg/provider/rule.go ----

  function PathText(m: HTTPMatch): seq<string> {
    if m.pathRegex == "" then []
    else ["PathPrefix(`/{path:" + (if m.pathRegex[0] == '/' then m.pathRegex[1..] else m.pathRegex) + "}`)"]
  }

  function MethodText(m: HTTPMatch): seq<string> {
    if m.methods == [] || "*" in m.methods then [] else ["Method(`" + JoinText(m.methods, "`,`") + "`)"]
  }

  function HeaderText(h: (string, string)): string {
    "HeadersRegexp(`" + h.0 + "`, `" + h.1 + "`)"
  }

  function HeaderTexts(headers: seq<(string, string)>): seq<string> {
    if headers == [] then []
    else [JoinText(seq(|headers|, i requires 0 <= i < |headers| => HeaderText(headers[i])), " && ")]
  }

  function PartTexts(m: HTTPMatch): seq<string> {
    PathText(m) + MethodText(m) + HeaderTexts(m.headers)
  }

  function MatchText(m: HTTPMatch): seq<string> {
    var parts := PartTexts(m);
    if parts == [] then []
    else if |parts| > 1 then ["(" + JoinText(parts, " && ") + ")"]
    else [JoinText(parts, " && ")]
  }

  function MatchTexts(matches: seq<HTTPMatch>): seq<string> {
    if matches == [] then [] else MatchText(matches[0]) + MatchTexts(matches[1..])
  }

  function SpecTexts(specs: seq<TrafficSpec>): seq<string> {
    if specs == [] then []
    else (if specs[0].HTTPSpec? then MatchTexts(specs[0].matches) else []) + SpecTexts(specs[1..])
  }

  /** The text that the specs of a traffic-target or a traffic-split give. */
  function SpecsText(specs: seq<TrafficSpec>): string {
    JoinText(SpecTexts(specs), " || ")
  }

  function ServiceText(svc: Service): string {
    "Host(`" + svc.name + "." + svc.namespace + ".traefik.mesh`) || Host(`" + svc.clusterIP + "`)"
  }

  // ---- Texts of token rules ----

  function Texts(parts: seq<Rule>): seq<string> {
    seq(|parts|, i requires 0 <= i < |parts| => RuleText(parts[i]))
  }

  lemma {:induction false} TextConcat(a: Rule, b: Rule)
    ensures RuleText(a + b) == RuleText(a) + RuleText(b)
  {
    if a == [] {
      assert a + b == b;
    } else {
      assert (a + b)[1..] == a[1..] + b;
      TextConcat(a[1..], b);
    }
  }

  lemma TextOne(t: Token)
    ensures RuleText([t]) == TokenText(t)
  {
    assert RuleText([t]) == TokenText(t) + RuleText([]);
  }

  lemma {:induction false} TextJoin(parts: seq<Rule>, sep: Token)
    ensures RuleText(Join(parts, sep)) == JoinText(Texts(parts), TokenText(sep))
  {
    if |parts| > 1 {
      TextJoin(parts[1..], sep);
      assert Texts(parts)[1..] == Texts(parts[1..]);
      TextConcat(parts[0] + [sep], Join(parts[1..], sep));
      TextConcat(parts[0], [sep]);
      TextOne(sep);
    }
  }

  lemma TextParens(r: Rule)
    ensures RuleText(Parens(r)) == "(" + RuleText(r) + ")"
  {
    TextConcat([LParen] + r, [RParen]);
    TextConcat([LParen], r);
    TextOne(LParen);
    TextOne(RParen);
  }

  // ---- The texts of the printed rules ----

  lemma PathPart(m: HTTPMatch)
    ensures Texts(Atoms(PathCondition(m))) == PathText(m)
  {
    if m.pathRegex != "" {
      TextOne(Atom(PathCondition(m)[0]));
    }
  }

  lemma MethodPart(m: HTTPMatch)
    ensures Texts(Atoms(MethodCondition(m))) == MethodText(m)
  {
    if MethodCondition(m) != [] {
      TextOne(Atom(Method(m.methods)));
    }
  }

  lemma HeaderPart(headers: seq<(string, string)>)
    ensures headers != [] ==> HeaderTexts(headers) == [RuleText(Join(Atoms(HeaderConditions(headers)), And))]
  {
    var atoms := Atoms(HeaderConditions(headers));
    var texts := seq(|headers|, i requires 0 <= i < |headers| => HeaderText(headers[i]));
    forall i | 0 <= i < |headers|
      ensures Texts(atoms)[i] == texts[i]
    {
      TextOne(Atom(HeadersRegexp(headers[i].0, headers[i].1)));
    }
    assert Texts(atoms) == texts;
    TextJoin(atoms, And);
  }

  lemma TextsConcat(a: seq<Rule>, b: seq<Rule>)
    ensures Texts(a + b) == Texts(a) + Texts(b)
  {
  }

  lemma PartsText(m: HTTPMatch)
    ensures Texts(MatchParts(m)) == PartTexts(m)
  {
    hide PathCondition, MethodCondition, HeaderConditions, PathText, MethodText, RuleText;
    PathPart(m);
    MethodPart(m);
    HeaderPart(m.headers);
    var front := Atoms(PathCondition(m)) + Atoms(MethodCondition(m));
    TextsConcat(Atoms(PathCondition(m)), Atoms(MethodCondition(m)));
    TextsConcat(front, if m.headers == [] then [] else [Join(Atoms(HeaderConditions(m.headers)), And)]);
  }

  lemma MatchTextIs(m: HTTPMatch)
    ensures Texts(MatchRule(m)) == MatchText(m)
  {
    hide MatchParts, PartTexts, RuleText, Join;
    PartsText(m);
    TextJoin(MatchParts(m), And);
    TextParens(Join(MatchParts(m), And));
  }

  lemma {:induction false} MatchTextsAre(matches: seq<HTTPMatch>)
    ensures Texts(MatchRules(matches)) == MatchTexts(matches)
  {
    hide MatchRule, MatchText, RuleText;
    if matches != [] {
      MatchTextIs(matches[0]);
      MatchTextsAre(matches[1..]);
      TextsConcat(MatchRule(matches[0]), MatchRules(matches[1..]));
    }
  }

  lemma {:induction false} MatchRulesConcat(a: seq<HTTPMatch>, b: seq<HTTPMatch>)
    ensures MatchRules(a + b) == MatchRules(a) + MatchRules(b)
  {
    hide MatchRule;
    if a == [] {
      assert a + b == b;
    } else {
      assert (a + b)[1..] == a[1..] + b;
      MatchRulesConcat(a[1..], b);
    }
  }

  lemma {:induction false} SpecTextsAre(specs: seq<TrafficSpec>)
    ensures Texts(MatchRules(AllMatches(specs))) == SpecTexts(specs)
  {
    hide RuleText;
    if specs != [] {
      var first, rest := MatchesOf(specs[0]), AllMatches(specs[1..]);
      MatchRulesConcat(first, rest);
      TextsConcat(MatchRules(first), MatchRules(rest));
      MatchTextsAre(first);
      SpecTextsAre(specs[1..]);
    }
  }

  lemma SpecsTextIs(specs: seq<TrafficSpec>)
    ensures RuleText(SpecsRule(specs)) == SpecsText(specs)
    ensures SpecsRule(specs) == [] <==> SpecsText(specs) == ""
  {
    hide MatchRules, AllMatches, Join, SpecTexts;
    SpecTextsAre(specs);
    TextJoin(MatchRules(AllMatches(specs)), Or);
    TextEmpty(SpecsRule(specs));
  }

  lemma TextEmpty(r: Rule)
    ensures r == [] <==> RuleText(r) == ""
  {
    if r != [] {
      assert TokenText(r[0]) != "" by {
        if r[0].Atom? {
          ConditionTextEnds(r[0].cond);
        }
      }
    }
  }

  lemma ConditionTextEnds(c: Condition)
    ensures ConditionText(c) != ""
  {
    assert |ConditionText(c)| >= 1;
  }

  lemma ServiceTextIs(svc: Service)
    ensures RuleText(ServiceRule(svc)) == ServiceText(svc)
  {
    var a, b := Atom(Host(svc.name + "." + svc.namespace + ".traefik.mesh")), Atom(Host(svc.clusterIP));
    assert ServiceRule(svc) == [a] + [Or] + [b];
    TextConcat([a] + [Or], [b]);
    TextConcat([a], [Or]);
    TextOne(a);
    TextOne(Or);
    TextOne(b);
    HostText(svc.name, svc.namespace, svc.clusterIP);
  }

  lemma HostText(name: string, ns: string, ip: string)
    ensures "Host(`" + (name + "." + ns + ".traefik.mesh") + "`)" + " || " + ("Host(`" + ip + "`)") ==
            "Host(`" + name + "." + ns + ".traefik.mesh`) || Host(`" + ip + "`)"
  {
    var mid := ".traefik.mesh" + "`)" + " || " + "Host(`";
    assert mid == ".traefik.mesh`) || Host(`";
    HostRegroup("Host(`", name + "." + ns, ".traefik.mesh", "`)", " || ", "Host(`", ip + "`)");
    assert "Host(`" + name + "." + ns + mid + ip + "`)" == "Host(`" + (name + "." + ns) + mid + (ip + "`)");
    assert "Host(`" + ip + "`)" == "Host(`" + (ip + "`)");
  }

  lemma HostRegroup(a: string, b: string, c: string, d: string, e: string, f: string, g: string)
    ensures a + (b + c) + d + e + (f + g) == a + b + (c + d + e + f) + g
  {
  }

  /** The rule of a traffic-target or a traffic-split, as text. */
  lemma DirectText(svc: Service, specs: seq<TrafficSpec>)
    ensures RuleText(DirectRule(svc, specs)) ==
              if SpecsText(specs) == "" then ServiceText(svc)
              else "(" + ServiceText(svc) + ") && (" + SpecsText(specs) + ")"
  {
    hide SpecsRule, ServiceRule, SpecsText, ServiceText, RuleText;
    SpecsTextIs(specs);
    ServiceTextIs(svc);
    if SpecsText(specs) != "" {
      BothText(svc, specs);
    }
  }

  lemma BothText(svc: Service, specs: seq<TrafficSpec>)
    ensures RuleText(Parens(ServiceRule(svc)) + [And] + Parens(SpecsRule(specs))) ==
            "(" + ServiceText(svc) + ") && (" + SpecsText(specs) + ")"
  {
    hide SpecsRule, ServiceRule, SpecsText, ServiceText, RuleText, Parens;
    SpecsTextIs(specs);
    ServiceTextIs(svc);
    TextParens(ServiceRule(svc));
    TextParens(SpecsRule(specs));
    TextConcat(Parens(ServiceRule(svc)) + [And], Parens(SpecsRule(specs)));
    TextConcat(Parens(ServiceRule(svc)), [And]);
    TextOne(And);
    AndRegroup("(" + ServiceText(svc), SpecsText(specs));
  }

  lemma AndRegroup(a: string, b: string)
    ensures a + ")" + " && " + ("(" + b + ")") == a + ") && (" + b + ")"
  {
    assert ")" + " && " + "(" == ") && (";
    assert a + ")" + " && " + ("(" + b + ")") == a + (")" + " && " + "(") + b + ")";
  }

  const FORWARDED_TEXT := "HeadersRegexp(`X-Forwarded-For`, `.+`)"

  /** The rule of the router behind a traffic-split, as text. */
  lemma IndirectText(svc: Service, specs: seq<TrafficSpec>)
    ensures RuleText(IndirectRule(svc, specs)) ==
              if SpecsText(specs) == "" then "(" + ServiceText(svc) + ") && " + FORWARDED_TEXT
              else "(" + ServiceText(svc) + ") && (" + SpecsText(specs) + ") && " + FORWARDED_TEXT
  {
    hide SpecsRule, ServiceRule, SpecsText, ServiceText, RuleText, Parens, TokenText;
    SpecsTextIs(specs);
    ServiceTextIs(svc);
    ForwardedText();
    if SpecsText(specs) == "" {
      TextParens(ServiceRule(svc));
      LastText(Parens(ServiceRule(svc)), "(" + ServiceText(svc));
    } else {
      BothText(svc, specs);
      LastText(Parens(ServiceRule(svc)) + [And] + Parens(SpecsRule(specs)),
               "(" + ServiceText(svc) + ") && (" + SpecsText(specs));
    }
  }

  lemma LastText(r: Rule, t: string)
    requires RuleText(r) == t + ")"
    ensures RuleText(r + [And] + [Atom(FORWARDED)]) == t + ") && " + FORWARDED_TEXT
  {
    hide RuleText;
    TextConcat(r + [And], [Atom(FORWARDED)]);
    TextConcat(r, [And]);
    TextOne(And);
    ForwardedText();
    assert t + ")" + " && " == t + ") && ";
  }

  /** The rule of the readiness router. */
  lemma ReadinessText()
    ensures RuleText([Atom(Path("/ping"))]) == "Path(`/ping`)"
  {
    TextOne(Atom(Path("/ping")));
    assert "Path(`" + "/ping" + "`)" == "Path(`/ping`)";
  }

  lemma ForwardedText()
    ensures RuleText([Atom(FORWARDED)]) == FORWARDED_TEXT
  {
    TextOne(Atom(FORWARDED));
    assert "HeadersRegexp(`" + "X-Forwarded-For" + "`, `" + ".+" + "`)" == FORWARDED_TEXT;
  }
}
