/** Router rules as printed by pkg/provider/rule.go: token by token, and what a reader makes of them. */
module Rules {
  import opened Basics
  import opened Topologies

  /** What a rule tests of a request. The tests themselves are left to the proxy. */
  datatype Condition =
    | Host(host: string)
    | Path(path: string)
    | PathPrefix(regex: string)
    | Method(methods: seq<string>)
    | HeadersRegexp(header: string, regex: string)

  datatype Token = LParen | RParen | And | Or | Atom(cond: Condition)

  type Rule = seq<Token>

  // ---- Printing ----

  function Join(parts: seq<Rule>, sep: Token): Rule {
    if parts == [] then [] else if |parts| == 1 then parts[0] else parts[0] + [sep] + Join(parts[1..], sep)
  }

  function PathCondition(m: HTTPMatch): seq<Condition> {
    if m.pathRegex == "" then []
    else [PathPrefix(if m.pathRegex[0] == '/' then m.pathRegex[1..] else m.pathRegex)]
  }

  function MethodCondition(m: HTTPMatch): seq<Condition> {
    if m.methods == [] || "*" in m.methods then [] else [Method(m.methods)]
  }

  function HeaderConditions(headers: seq<(string, string)>): seq<Condition> {
    seq(|headers|, i requires 0 <= i < |headers| => HeadersRegexp(headers[i].0, headers[i].1))
  }

  /** Everything a match asks for. */
  function Conditions(m: HTTPMatch): seq<Condition> {
    PathCondition(m) + MethodCondition(m) + HeaderConditions(m.headers)
  }

  function Atoms(cs: seq<Condition>): seq<Rule> {
    seq(|cs|, i requires 0 <= i < |cs| => [Atom(cs[i])])
  }

  /** The parts of a match: all its headers together form one part. */
  function MatchParts(m: HTTPMatch): seq<Rule> {
    Atoms(PathCondition(m)) + Atoms(MethodCondition(m)) +
    if m.headers == [] then [] else [Join(Atoms(HeaderConditions(m.headers)), And)]
  }

  /** A match is put in parentheses only when it has more than one part. */
  function MatchRule(m: HTTPMatch): seq<Rule> {
    var parts := MatchParts(m);
    if parts == [] then []
    else if |parts| == 1 then [Join(parts, And)]
    else [[LParen] + Join(parts, And) + [RParen]]
  }

  function MatchRules(matches: seq<HTTPMatch>): seq<Rule> {
    if matches == [] then [] else MatchRule(matches[0]) + MatchRules(matches[1..])
  }

  function MatchesOf(spec: TrafficSpec): seq<HTTPMatch> {
    if spec.HTTPSpec? then spec.matches else []
  }

  function AllMatches(specs: seq<TrafficSpec>): seq<HTTPMatch> {
    if specs == [] then [] else MatchesOf(specs[0]) + AllMatches(specs[1..])
  }

  function SpecsRule(specs: seq<TrafficSpec>): Rule {
    Join(MatchRules(AllMatches(specs)), Or)
  }

  function ServiceRule(svc: Service): Rule {
    [Atom(Host(svc.name + "." + svc.namespace + ".traefik.mesh")), Or, Atom(Host(svc.clusterIP))]
  }

  function Parens(r: Rule): Rule {
    [LParen] + r + [RParen]
  }

  /** The rule of a traffic-target or a traffic-split on svc. */
  function DirectRule(svc: Service, specs: seq<TrafficSpec>): Rule {
    var r := SpecsRule(specs);
    if r == [] then ServiceRule(svc) else Parens(ServiceRule(svc)) + [And] + Parens(r)
  }

  const FORWARDED := HeadersRegexp("X-Forwarded-For", ".+")

  function IndirectRule(svc: Service, specs: seq<TrafficSpec>): Rule {
    var r := SpecsRule(specs);
    if r == [] then Parens(ServiceRule(svc)) + [And] + [Atom(FORWARDED)]
    else Parens(ServiceRule(svc)) + [And] + Parens(r) + [And] + [Atom(FORWARDED)]
  }

  // ---- Printing, as it is done ----

  lemma {:induction false} JoinSnoc(parts: seq<Rule>, last: Rule, sep: Token)
    requires parts != []
    ensures Join(parts + [last], sep) == Join(parts, sep) + [sep] + last
  {
    if |parts| > 1 {
      JoinSnoc(parts[1..], last, sep);
      assert (parts + [last])[1..] == parts[1..] + [last];
    }
  }

  method JoinRules(parts: seq<Rule>, sep: Token) returns (r: Rule)
    ensures r == Join(parts, sep)
  {
    r := [];
    for i := 0 to |parts|
      invariant r == Join(parts[..i], sep)
    {
      assert parts[..i + 1] == parts[..i] + [parts[i]];
      if i == 0 {
        r := parts[0];
      } else {
        JoinSnoc(parts[..i], parts[i], sep);
        r := r + [sep] + parts[i];
      }
    }
    assert parts[..|parts|] == parts;
  }

  method AppendMethodFilter(matchParts: seq<Rule>, m: HTTPMatch) returns (r: seq<Rule>)
    ensures r == matchParts + Atoms(MethodCondition(m))
  {
    if |m.methods| == 0 {
      return matchParts;
    }
    var matchAll := false;
    for i := 0 to |m.methods|
      invariant matchAll <==> "*" in m.methods[..i]
    {
      assert m.methods[..i + 1] == m.methods[..i] + [m.methods[i]];
      if m.methods[i] == "*" {
        matchAll := true;
        break;
      }
    }
    if !matchAll {
      assert m.methods[..|m.methods|] == m.methods;
      return matchParts + [[Atom(Method(m.methods))]];
    }
    r := matchParts;
  }

  method AppendHeaderFilter(matchParts: seq<Rule>, m: HTTPMatch) returns (r: seq<Rule>)
    ensures r == matchParts + if m.headers == [] then [] else [Join(Atoms(HeaderConditions(m.headers)), And)]
  {
    var rules: seq<Rule> := [];
    for i := 0 to |m.headers|
      invariant rules == Atoms(HeaderConditions(m.headers))[..i]
    {
      rules := rules + [[Atom(HeadersRegexp(m.headers[i].0, m.headers[i].1))]];
    }
    assert rules == Atoms(HeaderConditions(m.headers));
    r := matchParts;
    if |rules| > 0 {
      var joined := JoinRules(rules, And);
      r := r + [joined];
    }
  }

  /** The condition of one match, if it asks for anything. */
  method BuildMatchCondition(m: HTTPMatch) returns (conds: seq<Rule>)
    ensures conds == MatchRule(m)
  {
    var matchParts: seq<Rule> := Atoms(PathCondition(m));
    matchParts := AppendMethodFilter(matchParts, m);
    matchParts := AppendHeaderFilter(matchParts, m);
    conds := [];
    if |matchParts| > 0 {
      var matchCond := JoinRules(matchParts, And);
      if |matchParts| > 1 {
        matchCond := Parens(matchCond);
      }
      conds := [matchCond];
    }
  }

  method BuildHTTPRuleFromTrafficSpecs(specs: seq<TrafficSpec>) returns (r: Rule)
    ensures r == SpecsRule(specs)
  {
    hide MatchRule, MatchesOf;
    var orRules: seq<Rule> := [];
    for i := 0 to |specs|
      invariant orRules + MatchRules(AllMatches(specs[i..])) == MatchRules(AllMatches(specs))
    {
      assert specs[i..][1..] == specs[i + 1..];
      var ms := MatchesOf(specs[i]);
      var rest := AllMatches(specs[i + 1..]);
      assert ms[0..] + rest == AllMatches(specs[i..]);
      for j := 0 to |ms|
        invariant orRules + MatchRules(ms[j..] + rest) == MatchRules(AllMatches(specs))
      {
        assert (ms[j..] + rest)[1..] == ms[j + 1..] + rest;
        var conds := BuildMatchCondition(ms[j]);
        assert orRules + (conds + MatchRules(ms[j + 1..] + rest)) == orRules + conds + MatchRules(ms[j + 1..] + rest);
        orRules := orRules + conds;
      }
      assert ms[|ms|..] + rest == rest;
    }
    assert orRules + [] == orRules;
    r := JoinRules(orRules, Or);
  }

  // ---- Reading ----

  type Read = Option<(bool, Rule)>

  /** Reads alternatives: && binds tighter than ||. Yields the truth value of what was read, and the rest. */
  function ReadOr(r: Rule, v: Condition -> bool): (res: Read)
    ensures res.Some? ==> |res.value.1| < |r|
    decreases |r|, 2
  {
    match ReadAnd(r, v)
    case None => None
    case Some((a, rest)) =>
      if rest != [] && rest[0] == Or then
        match ReadOr(rest[1..], v)
        case None => None
        case Some((b, rest')) => Some((a || b, rest'))
      else Some((a, rest))
  }

  function ReadAnd(r: Rule, v: Condition -> bool): (res: Read)
    ensures res.Some? ==> |res.value.1| < |r|
    decreases |r|, 1
  {
    match ReadOne(r, v)
    case None => None
    case Some((a, rest)) =>
      if rest != [] && rest[0] == And then
        match ReadAnd(rest[1..], v)
        case None => None
        case Some((b, rest')) => Some((a && b, rest'))
      else Some((a, rest))
  }

  function ReadOne(r: Rule, v: Condition -> bool): (res: Read)
    ensures res.Some? ==> |res.value.1| < |r|
    decreases |r|, 0
  {
    if r == [] then None
    else
      match r[0]
      case Atom(c) => Some((v(c), r[1..]))
      case LParen =>
        (match ReadOr(r[1..], v)
         case None => None
         case Some((a, rest)) => if rest != [] && rest[0] == RParen then Some((a, rest[1..])) else None)
      case _ => None
  }

  /** The truth value of a rule under v: None when it cannot be read to its end. */
  function Meaning(r: Rule, v: Condition -> bool): Option<bool> {
    match ReadOr(r, v)
    case None => None
    case Some((a, rest)) => if rest == [] then Some(a) else None
  }

  // ---- What the printed rules mean ----

  predicate NoOp(rest: Rule, op: Token) {
    rest == [] || rest[0] != op
  }

  lemma ReadAtom(c: Condition, rest: Rule, v: Condition -> bool)
    requires NoOp(rest, And)
    ensures ReadAnd([Atom(c)] + rest, v) == Some((v(c), rest))
  {
    assert ([Atom(c)] + rest)[1..] == rest;
  }

  /** a || b */
  lemma OrStep(r: Rule, a: bool, tail: Rule, b: bool, rest: Rule, v: Condition -> bool)
    requires ReadAnd(r, v) == Some((a, [Or] + tail)) && ReadOr(tail, v) == Some((b, rest))
    ensures ReadOr(r, v) == Some((a || b, rest))
  {
    assert ([Or] + tail)[1..] == tail;
  }

  /** a && b */
  lemma AndStep(r: Rule, a: bool, tail: Rule, b: bool, rest: Rule, v: Condition -> bool)
    requires ReadOne(r, v) == Some((a, [And] + tail)) && ReadAnd(tail, v) == Some((b, rest))
    ensures ReadAnd(r, v) == Some((a && b, rest))
  {
    assert ([And] + tail)[1..] == tail;
  }

  lemma OrLast(r: Rule, a: bool, rest: Rule, v: Condition -> bool)
    requires ReadAnd(r, v) == Some((a, rest)) && NoOp(rest, Or)
    ensures ReadOr(r, v) == Some((a, rest))
  {
  }

  lemma AndLast(r: Rule, a: bool, rest: Rule, v: Condition -> bool)
    requires ReadOne(r, v) == Some((a, rest)) && NoOp(rest, And)
    ensures ReadAnd(r, v) == Some((a, rest))
  {
  }

  lemma {:induction false} ReadChain(cs: seq<Condition>, rest: Rule, v: Condition -> bool)
    requires cs != [] && NoOp(rest, And)
    ensures ReadAnd(Join(Atoms(cs), And) + rest, v) == Some((forall c :: c in cs ==> v(c), rest))
  {
    var r := Join(Atoms(cs), And) + rest;
    if |cs| == 1 {
      ReadAtom(cs[0], rest, v);
    } else {
      var tail := Join(Atoms(cs[1..]), And) + rest;
      assert Atoms(cs)[1..] == Atoms(cs[1..]);
      assert r == [Atom(cs[0])] + ([And] + tail);
      assert r[1..] == [And] + tail;
      ReadChain(cs[1..], rest, v);
      AndStep(r, v(cs[0]), tail, forall c :: c in cs[1..] ==> v(c), rest, v);
      assert cs == [cs[0]] + cs[1..];
    }
  }

  lemma ReadParens(r: Rule, a: bool, rest: Rule, v: Condition -> bool)
    requires ReadOr(r + ([RParen] + rest), v) == Some((a, [RParen] + rest))
    ensures ReadOne(Parens(r) + rest, v) == Some((a, rest))
  {
    assert (Parens(r) + rest)[1..] == r + ([RParen] + rest);
    assert ([RParen] + rest)[1..] == rest;
  }

  predicate AllTrue(cs: seq<Condition>, v: Condition -> bool) {
    forall c :: c in cs ==> v(c)
  }

  lemma {:induction false} JoinConcat(a: seq<Rule>, b: seq<Rule>, sep: Token)
    requires a != [] && b != []
    ensures Join(a + b, sep) == Join(a, sep) + [sep] + Join(b, sep)
  {
    assert (a + b)[1..] == a[1..] + b;
    if |a| > 1 {
      JoinConcat(a[1..], b, sep);
    }
  }

  /** Joining the parts of a match amounts to joining all its conditions. */
  lemma JoinParts(m: HTTPMatch)
    ensures Join(MatchParts(m), And) == Join(Atoms(Conditions(m)), And)
    ensures MatchParts(m) == [] <==> Conditions(m) == []
  {
    var front := Atoms(PathCondition(m)) + Atoms(MethodCondition(m));
    var headers := Atoms(HeaderConditions(m.headers));
    assert Atoms(Conditions(m)) == front + headers;
    if m.headers == [] {
      assert front + headers == front;
      assert MatchParts(m) == front;
    } else if front == [] {
      assert front + headers == headers;
      assert MatchParts(m) == [Join(headers, And)];
    } else {
      JoinConcat(front, headers, And);
      JoinConcat(front, [Join(headers, And)], And);
    }
  }

  /** A match reads as the conjunction of its conditions, with or without parentheses. */
  lemma ReadMatch(m: HTTPMatch, rest: Rule, v: Condition -> bool)
    requires Conditions(m) != [] && NoOp(rest, And)
    ensures |MatchRule(m)| == 1
    ensures ReadAnd(MatchRule(m)[0] + rest, v) == Some((AllTrue(Conditions(m), v), rest))
  {
    JoinParts(m);
    var joined := Join(Atoms(Conditions(m)), And);
    if |MatchParts(m)| == 1 {
      ReadChain(Conditions(m), rest, v);
    } else {
      ReadChain(Conditions(m), [RParen] + rest, v);
      ReadParens(joined, AllTrue(Conditions(m), v), rest, v);
      assert MatchRule(m)[0] == Parens(joined);
    }
  }

  /** Some match that has conditions has them all true. */
  predicate SomeMatch(matches: seq<HTTPMatch>, v: Condition -> bool) {
    exists i :: 0 <= i < |matches| && Conditions(matches[i]) != [] && AllTrue(Conditions(matches[i]), v)
  }

  predicate Unconditional(matches: seq<HTTPMatch>) {
    forall i :: 0 <= i < |matches| ==> Conditions(matches[i]) == []
  }

  lemma MatchRuleEmpty(m: HTTPMatch)
    ensures MatchRule(m) == [] <==> Conditions(m) == []
    ensures |MatchRule(m)| <= 1
  {
    JoinParts(m);
  }

  lemma {:induction false} MatchRulesEmpty(matches: seq<HTTPMatch>)
    ensures MatchRules(matches) == [] <==> Unconditional(matches)
  {
    hide Conditions, MatchRule;
    if matches != [] {
      MatchRuleEmpty(matches[0]);
      MatchRulesEmpty(matches[1..]);
      assert matches == [matches[0]] + matches[1..];
    }
  }

  lemma {:induction false} ReadMatches(matches: seq<HTTPMatch>, rest: Rule, v: Condition -> bool)
    requires !Unconditional(matches) && NoOp(rest, And) && NoOp(rest, Or)
    ensures ReadOr(Join(MatchRules(matches), Or) + rest, v) == Some((SomeMatch(matches, v), rest))
  {
    hide Conditions, MatchRule, MatchParts, ReadOr, ReadAnd, ReadOne, AllTrue;
    var m := matches[0];
    assert matches == [m] + matches[1..];
    MatchRuleEmpty(m);
    MatchRulesEmpty(matches[1..]);
    if Conditions(m) == [] {
      assert MatchRules(matches) == MatchRules(matches[1..]);
      ReadMatches(matches[1..], rest, v);
      assert forall i :: 0 < i < |matches| ==> matches[i] == matches[1..][i - 1];
      assert SomeMatch(matches, v) <==> SomeMatch(matches[1..], v);
    } else {
      var more := MatchRules(matches[1..]);
      SomeMatchFirst(matches, v);
      if more == [] {
        ReadMatch(m, rest, v);
        assert MatchRules(matches) == MatchRule(m);
        OrLast(MatchRule(m)[0] + rest, AllTrue(Conditions(m), v), rest, v);
      } else {
        ReadMatches(matches[1..], rest, v);
        var tail := Join(more, Or) + rest;
        ReadMatch(m, [Or] + tail, v);
        assert MatchRules(matches)[1..] == more;
        assert Join(MatchRules(matches), Or) + rest == MatchRule(m)[0] + ([Or] + tail);
        OrStep(MatchRule(m)[0] + ([Or] + tail), AllTrue(Conditions(m), v), tail, SomeMatch(matches[1..], v), rest, v);
      }
    }
  }

  lemma SomeMatchFirst(matches: seq<HTTPMatch>, v: Condition -> bool)
    requires matches != [] && Conditions(matches[0]) != []
    ensures SomeMatch(matches, v) <==> AllTrue(Conditions(matches[0]), v) || SomeMatch(matches[1..], v)
    ensures Unconditional(matches[1..]) ==> !SomeMatch(matches[1..], v)
  {
    hide Conditions, AllTrue;
    assert forall i :: 0 < i < |matches| ==> matches[i] == matches[1..][i - 1];
  }

  predicate HostMatches(svc: Service, v: Condition -> bool) {
    v(Host(svc.name + "." + svc.namespace + ".traefik.mesh")) || v(Host(svc.clusterIP))
  }

  lemma ReadService(svc: Service, rest: Rule, v: Condition -> bool)
    requires NoOp(rest, And) && NoOp(rest, Or)
    ensures ReadOr(ServiceRule(svc) + rest, v) == Some((HostMatches(svc, v), rest))
  {
    var a, b := ServiceRule(svc)[0].cond, ServiceRule(svc)[2].cond;
    assert ServiceRule(svc) + rest == [Atom(a)] + ([Or] + ([Atom(b)] + rest));
    ReadAtom(a, [Or] + ([Atom(b)] + rest), v);
    ReadAtom(b, rest, v);
    OrLast([Atom(b)] + rest, v(b), rest, v);
    OrStep(ServiceRule(svc) + rest, v(a), [Atom(b)] + rest, v(b), rest, v);
  }

  // ---- What the specs ask ----

  /** The match asks something of a request. */
  predicate Asks(m: HTTPMatch) {
    m.pathRegex != "" || (m.methods != [] && "*" !in m.methods) || m.headers != []
  }

  /** The path is tested against r, which is the asked pattern without the slash it may begin with. */
  predicate PathAsked(m: HTTPMatch, r: string) {
    m.pathRegex != "" && (m.pathRegex == "/" + r || (m.pathRegex == r && r[0] != '/'))
  }

  /** The request fulfils all that the match asks. */
  ghost predicate Fulfils(m: HTTPMatch, v: Condition -> bool) {
    && (forall r :: PathAsked(m, r) ==> v(PathPrefix(r)))
    && (m.methods != [] && "*" !in m.methods ==> v(Method(m.methods)))
    && (forall h :: h in m.headers ==> v(HeadersRegexp(h.0, h.1)))
  }

  predicate MatchAt(specs: seq<TrafficSpec>, i: int, j: int) {
    0 <= i < |specs| && specs[i].HTTPSpec? && 0 <= j < |specs[i].matches|
  }

  /** The specs let a request through: no match asks anything, or one that does is fulfilled. */
  ghost predicate SpecsHold(specs: seq<TrafficSpec>, v: Condition -> bool) {
    || (forall i, j :: MatchAt(specs, i, j) ==> !Asks(specs[i].matches[j]))
    || (exists i, j :: MatchAt(specs, i, j) && Asks(specs[i].matches[j]) && Fulfils(specs[i].matches[j], v))
  }

  lemma AsksExactly(m: HTTPMatch)
    ensures Conditions(m) != [] <==> Asks(m)
  {
    if m.pathRegex == "" && MethodCondition(m) == [] && m.headers == [] {
      assert Conditions(m) == [];
    } else {
      assert |Conditions(m)| > 0;
    }
  }

  lemma HeadersTrue(headers: seq<(string, string)>, v: Condition -> bool)
    ensures AllTrue(HeaderConditions(headers), v) <==> forall h :: h in headers ==> v(HeadersRegexp(h.0, h.1))
  {
    var cs := HeaderConditions(headers);
    forall h | h in headers && AllTrue(cs, v)
      ensures v(HeadersRegexp(h.0, h.1))
    {
      var i :| 0 <= i < |headers| && headers[i] == h;
      assert cs[i] == HeadersRegexp(h.0, h.1);
    }
  }

  lemma PathTrue(m: HTTPMatch, v: Condition -> bool)
    ensures AllTrue(PathCondition(m), v) <==> forall r :: PathAsked(m, r) ==> v(PathPrefix(r))
  {
    if m.pathRegex != "" {
      var r := if m.pathRegex[0] == '/' then m.pathRegex[1..] else m.pathRegex;
      assert m.pathRegex[0] == '/' ==> m.pathRegex == "/" + r;
      assert PathCondition(m) == [PathPrefix(r)] && PathAsked(m, r);
      forall r' | PathAsked(m, r')
        ensures r' == r
      {
        assert m.pathRegex == "/" + r' ==> m.pathRegex[1..] == r' && m.pathRegex[0] == '/';
      }
    }
  }

  lemma FulfilsExactly(m: HTTPMatch, v: Condition -> bool)
    ensures AllTrue(Conditions(m), v) <==> Fulfils(m, v)
  {
    hide PathCondition, HeaderConditions, PathAsked;
    PathTrue(m, v);
    HeadersTrue(m.headers, v);
    AllTrueConcat(PathCondition(m) + MethodCondition(m), HeaderConditions(m.headers), v);
    AllTrueConcat(PathCondition(m), MethodCondition(m), v);
  }

  lemma AllTrueConcat(a: seq<Condition>, b: seq<Condition>, v: Condition -> bool)
    ensures AllTrue(a + b, v) <==> AllTrue(a, v) && AllTrue(b, v)
  {
  }

  lemma {:induction false} AllMatchesExactly(specs: seq<TrafficSpec>, m: HTTPMatch)
    ensures m in AllMatches(specs) <==> exists i, j :: MatchAt(specs, i, j) && specs[i].matches[j] == m
  {
    if specs != [] {
      AllMatchesExactly(specs[1..], m);
      if m in MatchesOf(specs[0]) {
        var j :| 0 <= j < |specs[0].matches| && specs[0].matches[j] == m;
        assert MatchAt(specs, 0, j);
      } else if m in AllMatches(specs[1..]) {
        var i, j :| MatchAt(specs[1..], i, j) && specs[1..][i].matches[j] == m;
        assert MatchAt(specs, i + 1, j);
      }
      forall i, j | MatchAt(specs, i, j) && specs[i].matches[j] == m
        ensures m in AllMatches(specs)
      {
        assert i > 0 ==> MatchAt(specs[1..], i - 1, j) && specs[1..][i - 1].matches[j] == m;
      }
    }
  }

  lemma UnconditionalExactly(specs: seq<TrafficSpec>)
    ensures Unconditional(AllMatches(specs)) <==>
            forall i, j :: MatchAt(specs, i, j) ==> !Asks(specs[i].matches[j])
  {
    hide Conditions, Asks, AllMatches;
    var ms := AllMatches(specs);
    forall i, j | MatchAt(specs, i, j) && Unconditional(ms)
      ensures !Asks(specs[i].matches[j])
    {
      AllMatchesExactly(specs, specs[i].matches[j]);
      AsksExactly(specs[i].matches[j]);
    }
    forall k | 0 <= k < |ms| && forall i, j :: MatchAt(specs, i, j) ==> !Asks(specs[i].matches[j])
      ensures Conditions(ms[k]) == []
    {
      AllMatchesExactly(specs, ms[k]);
      AsksExactly(ms[k]);
    }
  }

  lemma SomeMatchExactly(specs: seq<TrafficSpec>, v: Condition -> bool)
    ensures SomeMatch(AllMatches(specs), v) <==>
            exists i, j :: MatchAt(specs, i, j) && Asks(specs[i].matches[j]) && Fulfils(specs[i].matches[j], v)
  {
    hide Conditions, Asks, AllMatches, AllTrue, Fulfils;
    var ms := AllMatches(specs);
    if SomeMatch(ms, v) {
      var k :| 0 <= k < |ms| && Conditions(ms[k]) != [] && AllTrue(Conditions(ms[k]), v);
      AllMatchesExactly(specs, ms[k]);
      AsksExactly(ms[k]);
      FulfilsExactly(ms[k], v);
    }
    forall i, j | MatchAt(specs, i, j) && Asks(specs[i].matches[j]) && Fulfils(specs[i].matches[j], v)
      ensures SomeMatch(ms, v)
    {
      var m := specs[i].matches[j];
      AllMatchesExactly(specs, m);
      AsksExactly(m);
      FulfilsExactly(m, v);
      var k :| 0 <= k < |ms| && ms[k] == m;
    }
  }

  lemma {:induction false} MatchRulesNonEmpty(matches: seq<HTTPMatch>)
    requires !Unconditional(matches)
    ensures Join(MatchRules(matches), Or) != []
  {
    ReadMatches(matches, [], _ => true);
    assert Join(MatchRules(matches), Or) + [] == Join(MatchRules(matches), Or);
  }

  lemma SpecsRuleEmpty(specs: seq<TrafficSpec>)
    ensures SpecsRule(specs) == [] <==> Unconditional(AllMatches(specs))
  {
    MatchRulesEmpty(AllMatches(specs));
    if !Unconditional(AllMatches(specs)) {
      MatchRulesNonEmpty(AllMatches(specs));
    }
  }

  /** "(specs)" followed by nothing, or by a last conjunct. */
  lemma {:induction false} ReadSpecs(specs: seq<TrafficSpec>, rest: Rule, tail: bool, v: Condition -> bool)
    requires !Unconditional(AllMatches(specs))
    requires rest == [] || (rest[0] == And && ReadAnd(rest[1..], v) == Some((tail, [])))
    ensures ReadAnd(Parens(SpecsRule(specs)) + rest, v) ==
              Some((SomeMatch(AllMatches(specs), v) && (rest != [] ==> tail), []))
  {
    hide ReadOr, ReadAnd, ReadOne, SomeMatch, Unconditional, MatchRules, AllMatches, Join;
    var r := Parens(SpecsRule(specs)) + rest;
    var some := SomeMatch(AllMatches(specs), v);
    ReadMatches(AllMatches(specs), [RParen] + rest, v);
    ReadParens(SpecsRule(specs), some, rest, v);
    if rest == [] {
      AndLast(r, some, rest, v);
    } else {
      assert rest == [And] + rest[1..];
      AndStep(r, some, rest[1..], tail, [], v);
    }
  }

  /** "(service) && (specs)" followed by nothing, or by a last conjunct. */
  lemma {:induction false} ReadBoth(svc: Service, specs: seq<TrafficSpec>, rest: Rule, tail: bool, v: Condition -> bool)
    requires !Unconditional(AllMatches(specs))
    requires rest == [] || (rest[0] == And && ReadAnd(rest[1..], v) == Some((tail, [])))
    ensures ReadAnd(Parens(ServiceRule(svc)) + [And] + Parens(SpecsRule(specs)) + rest, v) ==
            Some((HostMatches(svc, v) && SomeMatch(AllMatches(specs), v) && (rest != [] ==> tail), []))
  {
    hide ReadOr, ReadAnd, ReadOne, SomeMatch, HostMatches, ServiceRule, SpecsRule, Unconditional, AllMatches;
    var second := Parens(SpecsRule(specs)) + rest;
    var some, host := SomeMatch(AllMatches(specs), v), HostMatches(svc, v);
    ReadSpecs(specs, rest, tail, v);
    ReadService(svc, [RParen] + ([And] + second), v);
    ReadParens(ServiceRule(svc), host, [And] + second, v);
    assert Parens(ServiceRule(svc)) + [And] + Parens(SpecsRule(specs)) + rest ==
             Parens(ServiceRule(svc)) + ([And] + second);
    AndStep(Parens(ServiceRule(svc)) + ([And] + second), host, second, some && (rest != [] ==> tail), [], v);
  }

  /**
   The printed rule of a traffic-target or traffic-split is true of a request exactly when the host matches
   and the specs let it through, although matches of one part are printed without parentheses.
   */
  lemma DirectRuleMeaning(svc: Service, specs: seq<TrafficSpec>, v: Condition -> bool)
    ensures Meaning(DirectRule(svc, specs), v) == Some(HostMatches(svc, v) && SpecsHold(specs, v))
  {
    hide ReadOr, ReadAnd, ReadOne, SomeMatch, HostMatches, SpecsRule, ServiceRule, Unconditional, AllMatches;
    UnconditionalExactly(specs);
    SomeMatchExactly(specs, v);
    SpecsRuleEmpty(specs);
    if SpecsRule(specs) == [] {
      ReadService(svc, [], v);
      assert ServiceRule(svc) + [] == ServiceRule(svc);
    } else {
      var r := DirectRule(svc, specs);
      ReadBoth(svc, specs, [], true, v);
      assert Parens(ServiceRule(svc)) + [And] + Parens(SpecsRule(specs)) + [] == r;
      OrLast(r, HostMatches(svc, v) && SomeMatch(AllMatches(specs), v), [], v);
    }
  }

  /** Rules behind a traffic-split also ask for the header that a proxy adds. */
  lemma IndirectRuleMeaning(svc: Service, specs: seq<TrafficSpec>, v: Condition -> bool)
    ensures Meaning(IndirectRule(svc, specs), v) == Some(HostMatches(svc, v) && SpecsHold(specs, v) && v(FORWARDED))
  {
    hide ReadOr, ReadAnd, ReadOne, SomeMatch, HostMatches, SpecsRule, ServiceRule, Unconditional, AllMatches;
    UnconditionalExactly(specs);
    SomeMatchExactly(specs, v);
    SpecsRuleEmpty(specs);
    var host, forwarded := HostMatches(svc, v), v(FORWARDED);
    var last := [And] + [Atom(FORWARDED)];
    assert last[1..] == [Atom(FORWARDED)] == [Atom(FORWARDED)] + [];
    ReadAtom(FORWARDED, [], v);
    var r := IndirectRule(svc, specs);
    if SpecsRule(specs) == [] {
      assert r == Parens(ServiceRule(svc)) + last;
      ReadService(svc, [RParen] + last, v);
      ReadParens(ServiceRule(svc), host, last, v);
      AndStep(r, host, [Atom(FORWARDED)], forwarded, [], v);
      OrLast(r, host && forwarded, [], v);
    } else {
      assert r == Parens(ServiceRule(svc)) + [And] + Parens(SpecsRule(specs)) + last;
      ReadBoth(svc, specs, last, forwarded, v);
      OrLast(r, host && SomeMatch(AllMatches(specs), v) && forwarded, [], v);
    }
  }
}
