/** What the block in the CoreDNS configuration says, line by line, and where it sends the names of services. */
module Rewrites {
  import opened Basics
  import opened Texts
  import opened ShadowNames
  import opened StubDomains

  // ---- Lines ----

  function Lines(s: string): seq<string> {
    if s == "" then [""]
    else
      var rest := Lines(s[1..]);
      if s[0] == '\n' then [""] + rest
      else if rest == [] then [[s[0]]]
      else [[s[0]] + rest[0]] + rest[1..]
  }

  lemma {:induction false} FirstLine(line: string, rest: string)
    requires '\n' !in line
    ensures Lines(line + "\n" + rest) == [line] + Lines(rest)
  {
    var s := line + "\n" + rest;
    if line == "" {
      assert s[0] == '\n' && s[1..] == rest;
    } else {
      assert s[1..] == line[1..] + "\n" + rest && s[0] == line[0] != '\n';
      FirstLine(line[1..], rest);
      assert line == [line[0]] + line[1..];
      assert Lines(s[1..])[0] == line[1..] && Lines(s[1..])[1..] == Lines(rest);
    }
  }

  lemma {:induction false} OnlyLine(line: string)
    requires '\n' !in line
    ensures Lines(line) == [line]
  {
    if line != "" {
      OnlyLine(line[1..]);
      assert line == [line[0]] + line[1..];
    }
  }

  // ---- The two rewrite rules ----

  function Escaped(s: string): string {
    if s == "" then "" else (if s[0] == '.' then @"\." else [s[0]]) + Escaped(s[1..])
  }

  // What stands between the parentheses of the groups, and an escaped dot.
  const NAME_GROUP := "[a-zA-Z0-9-_]*"
  const NAMESPACE_GROUP := "[a-zv0-9-_]*"
  const DOT := @"\."

  function Group(chars: string): string {
    "(" + chars + ")"
  }

  function NamePattern(): string {
    Group(NAME_GROUP) + DOT + Group(NAMESPACE_GROUP) + DOT + "traefik" + DOT + "mesh"
  }

  function NameTarget(domain: string, mesh: string): string {
    mesh + "-{1}-6d61657368-{2}." + mesh + ".svc." + domain
  }

  function AnswerPattern(domain: string, mesh: string): string {
    mesh + "-" + Group(NAME_GROUP) + "-6d61657368-" + Group(NAME_GROUP) + DOT
    + mesh + DOT + "svc" + DOT + Escaped(domain)
  }

  function AnswerTarget(): string {
    "{1}.{2}.traefik.mesh"
  }

  function NameLine(domain: string, mesh: string): string {
    "        name regex " + NamePattern() + " " + NameTarget(domain, mesh)
  }

  function AnswerLine(domain: string, mesh: string): string {
    "        answer name " + AnswerPattern(domain, mesh) + " " + AnswerTarget()
  }

  /** A text as in the name of a domain or a namespace: none of its characters has a meaning in a rule or a pattern. */
  predicate Plain(s: string) {
    '\n' !in s && '\\' !in s && '(' !in s && '{' !in s
  }

  // ---- What the block says ----

  lemma {:induction false} EscapedIs(s: string)
    ensures ReplaceAll(s, '.', "\\.") == Escaped(s)
    ensures '\n' !in s ==> '\n' !in Escaped(s)
  {
    if s != "" {
      EscapedIs(s[1..]);
      assert s == [s[0]] + s[1..];
    }
  }

  lemma OpeningLines(rest: string)
    ensures Lines(Opening() + rest) == ["traefik.mesh:53 {", "    errors", "    rewrite continue {"] + Lines(rest)
  {
    hide Lines;
    var a, b, c := "traefik.mesh:53 {", "    errors", "    rewrite continue {";
    assert OPENING_1 == a + "\n" && OPENING_2 == b + "\n" && OPENING_3 == c + "\n";
    assert Opening() + rest == a + "\n" + (b + "\n" + (c + "\n" + rest));
    FirstLine(a, b + "\n" + (c + "\n" + rest));
    FirstLine(b, c + "\n" + rest);
    FirstLine(c, rest);
  }

  lemma NamePieces()
    ensures NAME_2 == Group(NAME_GROUP) + DOT
    ensures NAME_3 == Group(NAMESPACE_GROUP) + DOT
  {
  }

  lemma NameEnd()
    ensures NAME_4 == "traefik" + DOT + "mesh" + " "
    ensures NAME_1 == "        name regex " && NAME_5 == "-{1}-6d61657368-{2}."
  {
  }

  lemma NameRegroup(
    a: string, b: string, c: string, d: string, e: string, f: string, g: string, h: string, i: string, j: string)
    ensures a + (b + c) + (d + c) + (e + c + f + g) + h + i + h + j ==
            a + (b + c + d + c + e + c + f) + g + (h + i + h + j)
  {
    var p := b + c + d + c + e + c + f;
    assert a + (b + c) + (d + c) + (e + c + f + g) == a + p + g;
  }

  lemma NameIs(domain: string, mesh: string)
    ensures RewriteName(domain, mesh) == NameLine(domain, mesh) + "\n"
  {
    NamePieces();
    NameEnd();
    hide Group;
    NameRegroup(NAME_1, Group(NAME_GROUP), DOT, Group(NAMESPACE_GROUP), "traefik", "mesh", " ", mesh, NAME_5,
                ".svc.");
    NameTail(NAME_1 + NAME_2 + NAME_3 + NAME_4 + mesh + NAME_5 + mesh + ".svc.",
             NAME_1 + NamePattern() + " ", mesh + NAME_5 + mesh + ".svc.", domain);
  }

  lemma NameTail(whole: string, front: string, back: string, domain: string)
    requires whole == front + back
    ensures whole + domain + "\n" == front + (back + domain) + "\n"
  {
  }

  lemma AnswerPieces()
    ensures ANSWER_1 == "        answer name "
    ensures ANSWER_2 == "-" + Group(NAME_GROUP) && ANSWER_4 == Group(NAME_GROUP) + DOT
  {
  }

  lemma AnswerEnd()
    ensures ANSWER_5 == DOT + "svc" + DOT && ANSWER_6 == " " + AnswerTarget() + "\n"
  {
  }

  lemma AnswerRegroup(
    a: string, m: string, b: string, g: string, c: string, d: string, e: string, f: string, h: string, i: string)
    ensures a + m + (b + g) + c + (g + d) + m + (d + e + d) + f + (h + i) ==
            a + (m + b + g + c + g + d + m + d + e + d + f) + h + i
  {
    assert a + m + (b + g) + c + (g + d) + m + (d + e + d) == a + (m + b + g + c + g + d + m + d + e + d);
  }

  lemma AnswerIs(domain: string, mesh: string)
    ensures RewriteAnswer(domain, mesh) == AnswerLine(domain, mesh) + "\n"
  {
    EscapedIs(domain);
    AnswerPieces();
    AnswerEnd();
    hide Group, Escaped, AnswerTarget;
    var g := Group(NAME_GROUP);
    AnswerRegroup(ANSWER_1, mesh, "-", g, ANSWER_3, DOT, "svc", Escaped(domain), " ", AnswerTarget() + "\n");
    AnswerTail(ANSWER_1 + AnswerPattern(domain, mesh) + " ", AnswerTarget());
    assert ANSWER_6 == " " + (AnswerTarget() + "\n") by {
      AnswerBreak(AnswerTarget());
    }
  }

  lemma AnswerBreak(t: string)
    ensures " " + t + "\n" == " " + (t + "\n")
  {
  }

  lemma AnswerTail(front: string, t: string)
    ensures front + (t + "\n") == front + t + "\n"
  {
  }

  lemma RewriteLines(domain: string, mesh: string, rest: string)
    requires Plain(domain) && Plain(mesh)
    ensures Lines(RewriteName(domain, mesh) + (RewriteAnswer(domain, mesh) + rest)) ==
            [NameLine(domain, mesh), AnswerLine(domain, mesh)] + Lines(rest)
  {
    hide Lines, RewriteName, RewriteAnswer, NameLine, AnswerLine;
    NameIs(domain, mesh);
    AnswerIs(domain, mesh);
    RulesAreLines(domain, mesh);
    var a, b := NameLine(domain, mesh), AnswerLine(domain, mesh);
    assert RewriteName(domain, mesh) + (RewriteAnswer(domain, mesh) + rest) == a + "\n" + (b + "\n" + rest);
    FirstLine(a, b + "\n" + rest);
    FirstLine(b, rest);
  }

  lemma RulesAreLines(domain: string, mesh: string)
    requires Plain(domain) && Plain(mesh)
    ensures '\n' !in NameLine(domain, mesh) && '\n' !in AnswerLine(domain, mesh)
  {
    EscapedIs(domain);
    NoBreaks();
    hide Escaped, Group, AnswerTarget;
  }

  lemma NoBreaks()
    ensures '\n' !in Group(NAME_GROUP) && '\n' !in Group(NAMESPACE_GROUP) && '\n' !in DOT && '\n' !in AnswerTarget()
    ensures '\n' !in "-{1}-6d61657368-{2}."
  {
  }

  /** The line for CoreDNS before version 1.7; later versions have a blank line there. */
  function UpstreamLine(before17: bool): string {
    if before17 then "        upstream" else "        "
  }

  // The lines of the part that serves the names of the cluster.
  const POD_LINE := "        pods insecure"
  const FALL_LINE := "        fallthrough in-addr.arpa ip6.arpa"

  function ClusterLine(domain: string): string {
    "    kubernetes " + domain + " in-addr.arpa ip6.arpa {"
  }

  lemma PodPieces()
    ensures KUBERNETES_1 == "    kubernetes " && KUBERNETES_3 == POD_LINE + "\n"
  {
  }

  lemma ClusterEnd()
    ensures KUBERNETES_2 == " in-addr.arpa ip6.arpa {" + "\n"
  {
  }

  lemma UpstreamPieces(before17: bool)
    ensures "        " + (if before17 then "upstream" else "") == UpstreamLine(before17)
    ensures "    }\n" == "    }" + "\n"
  {
  }

  lemma FallPieces()
    ensures KUBERNETES_4 + KUBERNETES_5 == FALL_LINE + "\n"
  {
  }

  lemma KubernetesRegroup(
    a: string, d: string, b: string, n: string, c: string, e: string, f: string, g: string, h: string, i: string,
    rest: string)
    requires g + h == i + n
    ensures a + d + (b + n) + (c + n) + e + f + n + g + h + ("    }" + n) + rest ==
            (a + d + b) + n + (c + n + ((e + f) + n + (i + n + ("    }" + n + rest))))
  {
    assert a + d + (b + n) + (c + n) + e + f + n + g + h == a + d + (b + n) + (c + n) + e + f + n + (i + n);
  }

  lemma ClusterBreaks(domain: string)
    requires Plain(domain)
    ensures '\n' !in ClusterLine(domain)
  {
  }

  lemma FixedBreaks(before17: bool)
    ensures '\n' !in POD_LINE && '\n' !in UpstreamLine(before17) && '\n' !in FALL_LINE
  {
  }

  lemma KubernetesLines(domain: string, before17: bool, rest: string)
    requires Plain(domain)
    ensures Lines(Kubernetes(domain, before17) + rest) ==
            [ClusterLine(domain), POD_LINE, UpstreamLine(before17), FALL_LINE, "    }"] + Lines(rest)
  {
    PodPieces();
    ClusterEnd();
    UpstreamPieces(before17);
    FallPieces();
    hide Lines, UpstreamLine, Plain;
    var up := if before17 then "upstream" else "";
    KubernetesRegroup(KUBERNETES_1, domain, " in-addr.arpa ip6.arpa {", "\n", POD_LINE, "        ", up,
                      KUBERNETES_4, KUBERNETES_5, FALL_LINE, rest);
    ClusterBreaks(domain);
    FixedBreaks(before17);
    KubernetesSplit(ClusterLine(domain), POD_LINE, UpstreamLine(before17), FALL_LINE, rest);
  }

  lemma KubernetesSplit(a: string, b: string, c: string, d: string, rest: string)
    requires '\n' !in a && '\n' !in b && '\n' !in c && '\n' !in d
    ensures Lines(a + "\n" + (b + "\n" + (c + "\n" + (d + "\n" + ("    }" + "\n" + rest))))) ==
            [a, b, c, d, "    }"] + Lines(rest)
  {
    hide Lines;
    FirstLine(a, b + "\n" + (c + "\n" + (d + "\n" + ("    }" + "\n" + rest))));
    FirstLine(b, c + "\n" + (d + "\n" + ("    }" + "\n" + rest)));
    FirstLine(c, d + "\n" + ("    }" + "\n" + rest));
    FirstLine(d, "    }" + "\n" + rest);
    FirstLine("    }", rest);
  }

  lemma ClosingLines(rest: string)
    ensures Lines(Closing() + rest) ==
            ["    forward . /etc/resolv.conf", "    cache 30", "    loop", "    reload", "    loadbalance", "}"]
            + Lines(rest)
  {
    hide Lines;
    var a, b, c := "    forward . /etc/resolv.conf", "    cache 30", "    loop";
    var d, e, f := "    reload", "    loadbalance", "}";
    assert CLOSING_1 + CLOSING_2 == a + "\n" && CLOSING_3 == b + "\n" + (c + "\n") && CLOSING_4 == d + "\n";
    assert CLOSING_5 == e + "\n" + (f + "\n");
    var tail := d + "\n" + (e + "\n" + (f + "\n" + rest));
    assert Closing() + rest == a + "\n" + (b + "\n" + (c + "\n" + tail));
    FirstLine(a, b + "\n" + (c + "\n" + tail));
    FirstLine(b, c + "\n" + tail);
    FirstLine(c, tail);
    FirstLine(d, e + "\n" + (f + "\n" + rest));
    FirstLine(e, f + "\n" + rest);
    FirstLine(f, rest);
  }

  /** The lines in front of the rewrite rules, and behind them. */
  const FRONT := ["#### Begin Traefik Mesh Block", "traefik.mesh:53 {", "    errors", "    rewrite continue {"]

  function Back(domain: string, before17: bool): seq<string> {
    ["    }", ClusterLine(domain), POD_LINE, UpstreamLine(before17), FALL_LINE, "    }",
     "    forward . /etc/resolv.conf", "    cache 30", "    loop", "    reload", "    loadbalance", "}",
     "#### End Traefik Mesh Block"]
  }

  lemma BlockRegroup(
    h: string, n: string, o: string, r: string, s: string, e: string, k: string, c: string, t: string)
    ensures h + n + (o + r + s + (e + n) + k + c) + t == h + n + (o + (r + (s + (e + n + (k + (c + t))))))
  {
  }

  /** The block, line by line. */
  lemma BlockLines(a: Args)
    requires Plain(a.clusterDomain) && Plain(a.meshNamespace)
    ensures Lines(Block(a)) ==
            FRONT + [NameLine(a.clusterDomain, a.meshNamespace), AnswerLine(a.clusterDomain, a.meshNamespace)]
            + Back(a.clusterDomain, a.before17)
  {
    hide Lines, Opening, RewriteName, RewriteAnswer, Kubernetes, Closing, NameLine, AnswerLine, UpstreamLine,
         ClusterLine;
    var d, m := a.clusterDomain, a.meshNamespace;
    var tail := Closing() + TRAILER;
    var middle := Kubernetes(d, a.before17) + tail;
    var rules := RewriteName(d, m) + (RewriteAnswer(d, m) + ("    }" + "\n" + middle));
    assert "    }\n" == "    }" + "\n";
    assert HEADER == FRONT[0] && TRAILER == "#### End Traefik Mesh Block";
    assert '\n' !in HEADER && '\n' !in TRAILER;
    BlockRegroup(HEADER, "\n", Opening(), RewriteName(d, m), RewriteAnswer(d, m), "    }", Kubernetes(d, a.before17),
                 Closing(), TRAILER);
    FirstLine(HEADER, Opening() + rules);
    OpeningLines(rules);
    RewriteLines(d, m, "    }" + "\n" + middle);
    FirstLine("    }", middle);
    KubernetesLines(d, a.before17, tail);
    ClosingLines(TRAILER);
    OnlyLine(TRAILER);
  }

  /** The line that only versions before 1.7 understand is there exactly for these. */
  lemma UpstreamExactly(a: Args)
    requires Plain(a.clusterDomain) && Plain(a.meshNamespace)
    ensures "        upstream" in Lines(Block(a)) <==> a.before17
  {
    hide Lines, Block, NamePattern, AnswerPattern, NameTarget;
    BlockLines(a);
    var u := "        upstream";
    assert u[8] == 'u' && |u| == 16;
    assert NameLine(a.clusterDomain, a.meshNamespace)[8] == 'n';
    assert AnswerLine(a.clusterDomain, a.meshNamespace)[8] == 'a';
    assert u !in FRONT;
    assert u in Back(a.clusterDomain, a.before17) <==> a.before17 by {
      BackHasUpstream(a.clusterDomain, a.before17);
    }
  }

  lemma BackHasUpstream(domain: string, before17: bool)
    ensures "        upstream" in Back(domain, before17) <==> before17
  {
    var u, lines := "        upstream", Back(domain, before17);
    assert |u| == 16 && u[4] == ' ' && u[8] == 'u';
    assert lines[1][4] == 'k' && |lines[2]| == 21 && |lines[4]| == 41 && |lines[6]| == 30 && lines[7][4] == 'c';
    assert lines[10][4] == 'l' && |lines[12]| == 27 && |lines[0]| == 5 && |lines[5]| == 5 && |lines[8]| == 8;
    assert |lines[9]| == 10 && |lines[11]| == 1;
    assert lines[3] == UpstreamLine(before17) && (lines[3] == u <==> before17);
    assert forall i :: 0 <= i < |lines| && i != 3 ==> lines[i] != u;
  }

  // ---- Reading the rules ----

  /** What is behind the parenthesis that closes a group. */
  function AfterGroup(p: string): string {
    if p == "" then "" else if p[0] == ')' then p[1..] else AfterGroup(p[1..])
  }

  lemma {:induction false} AfterGroupShorter(p: string)
    ensures |AfterGroup(p)| <= |p|
  {
    if p != "" {
      AfterGroupShorter(p[1..]);
    }
  }

  /** The text that a pattern stands for when its groups are the given ones: an escaped character stands for itself. */
  function Spelled(p: string, groups: seq<string>): string
    decreases |p|
  {
    if p == "" then ""
    else if p[0] == '\\' && |p| > 1 then [p[1]] + Spelled(p[2..], groups)
    else if p[0] == '(' && groups != [] then
      AfterGroupShorter(p[1..]);
      groups[0] + Spelled(AfterGroup(p[1..]), groups[1..])
    else [p[0]] + Spelled(p[1..], groups)
  }

  /** A rewrite target with its two placeholders filled in. */
  function Filled(t: string, one: string, two: string): string
    decreases |t|
  {
    if t == "" then ""
    else if "{1}" <= t then one + Filled(t[3..], one, two)
    else if "{2}" <= t then two + Filled(t[3..], one, two)
    else [t[0]] + Filled(t[1..], one, two)
  }

  lemma {:induction false} SpelledPlain(p: string, rest: string, groups: seq<string>)
    requires '\\' !in p && '(' !in p
    ensures Spelled(p + rest, groups) == p + Spelled(rest, groups)
  {
    if p == "" {
      assert p + rest == rest;
    } else {
      assert (p + rest)[1..] == p[1..] + rest && p[0] in p && p == [p[0]] + p[1..];
      SpelledPlain(p[1..], rest, groups);
    }
  }

  lemma SpelledFirst(c: char, rest: string, groups: seq<string>)
    requires c != '\\' && c != '('
    ensures Spelled((if c == '.' then DOT else [c]) + rest, groups) == [c] + Spelled(rest, groups)
  {
    if c == '.' {
      SpelledDot(rest, groups);
    } else {
      assert ([c] + rest)[1..] == rest;
    }
  }

  lemma {:induction false} SpelledEscaped(s: string, rest: string, groups: seq<string>)
    requires '\\' !in s && '(' !in s
    ensures Spelled(Escaped(s) + rest, groups) == s + Spelled(rest, groups)
  {
    hide Spelled;
    if s == "" {
      assert Escaped(s) + rest == rest;
    } else {
      SpelledEscaped(s[1..], rest, groups);
      var first := if s[0] == '.' then DOT else [s[0]];
      assert s[0] in s && s == [s[0]] + s[1..];
      assert Escaped(s) + rest == first + (Escaped(s[1..]) + rest);
      SpelledFirst(s[0], Escaped(s[1..]) + rest, groups);
    }
  }

  lemma SpelledDot(rest: string, groups: seq<string>)
    ensures Spelled(@"\." + rest, groups) == "." + Spelled(rest, groups)
  {
    assert (@"\." + rest)[2..] == rest;
  }

  lemma {:induction false} AfterThis(body: string, rest: string)
    requires ')' !in body
    ensures AfterGroup(body + ")" + rest) == rest
  {
    if body == "" {
      assert (body + ")" + rest)[1..] == rest;
    } else {
      assert (body + ")" + rest)[1..] == body[1..] + ")" + rest && body[0] in body;
      AfterThis(body[1..], rest);
    }
  }

  lemma SpelledGroup(body: string, rest: string, groups: seq<string>)
    requires ')' !in body && groups != []
    ensures Spelled("(" + body + ")" + rest, groups) == groups[0] + Spelled(rest, groups[1..])
  {
    assert ("(" + body + ")" + rest)[1..] == body + ")" + rest;
    AfterThis(body, rest);
  }

  lemma {:induction false} FilledPlain(t: string, rest: string, one: string, two: string)
    requires '{' !in t
    ensures Filled(t + rest, one, two) == t + Filled(rest, one, two)
  {
    if t == "" {
      assert t + rest == rest;
    } else {
      var s := t + rest;
      assert s[1..] == t[1..] + rest && s[0] == t[0] && t[0] in t && t == [t[0]] + t[1..];
      FilledPlain(t[1..], rest, one, two);
    }
  }

  lemma FilledOne(rest: string, one: string, two: string)
    ensures Filled("{1}" + rest, one, two) == one + Filled(rest, one, two)
    ensures Filled("{2}" + rest, one, two) == two + Filled(rest, one, two)
  {
    assert ("{1}" + rest)[3..] == rest && ("{2}" + rest)[3..] == rest;
    assert ("{1}" + rest)[..3] == "{1}" && ("{2}" + rest)[..3] == "{2}";
    assert ("{2}" + rest)[1] == '2' && "{1}"[1] == '1';
  }

  /** The name of a service, as asked for in the mesh. */
  function MeshName(id: ServiceId): string {
    id.name + "." + id.namespace + ".traefik.mesh"
  }

  /** The name of its shadow service in the cluster. */
  function ClusterName(a: Args, id: ServiceId): string {
    ShadowName(a.meshNamespace, id) + "." + a.meshNamespace + ".svc." + a.clusterDomain
  }

  lemma NamePatternSpelled(id: ServiceId)
    ensures Spelled(NamePattern(), [id.name, id.namespace]) == MeshName(id)
  {
    hide Spelled;
    var one, two := "[a-zA-Z0-9-_]*", "[a-zv0-9-_]*";
    var end := @"\." + ("traefik" + (@"\." + ("mesh" + "")));
    var second := "(" + two + ")" + end;
    assert NamePattern() == "(" + one + ")" + (@"\." + second);
    SpelledGroup(one, @"\." + second, [id.name, id.namespace]);
    assert [id.name, id.namespace][1..] == [id.namespace] && [id.namespace][1..] == [];
    SpelledDot(second, [id.namespace]);
    SpelledGroup(two, end, [id.namespace]);
    SpelledDot("traefik" + (@"\." + ("mesh" + "")), []);
    SpelledPlain("traefik", @"\." + ("mesh" + ""), []);
    SpelledDot("mesh" + "", []);
    SpelledPlain("mesh", "", []);
    SpelledNothing([]);
    assert "." + ("traefik" + ("." + ("mesh" + ""))) == ".traefik.mesh";
    assert id.name + ("." + (id.namespace + ".traefik.mesh")) == MeshName(id);
  }

  lemma SpelledNothing(groups: seq<string>)
    ensures Spelled("", groups) == ""
  {
  }

  lemma NameTargetFilled(a: Args, id: ServiceId)
    requires Plain(a.clusterDomain) && Plain(a.meshNamespace)
    ensures Filled(NameTarget(a.clusterDomain, a.meshNamespace), id.name, id.namespace) == ClusterName(a, id)
  {
    hide Filled;
    var end := "." + a.meshNamespace + ".svc." + a.clusterDomain;
    var second := "{2}" + (end + "");
    var first := "{1}" + ("-6d61657368-" + second);
    TargetOpened(a.meshNamespace, a.clusterDomain);
    FilledPlain(a.meshNamespace + "-", first, id.name, id.namespace);
    FilledOne("-6d61657368-" + second, id.name, id.namespace);
    FilledPlain("-6d61657368-", second, id.name, id.namespace);
    FilledOne(end + "", id.name, id.namespace);
    FilledPlain(end, "", id.name, id.namespace);
    FilledNothing(id.name, id.namespace);
    assert end + "" == end && MARKER == "-6d61657368-";
    ClusterNameIs(a, id);
  }

  lemma TargetOpened(mesh: string, domain: string)
    ensures NameTarget(domain, mesh) ==
            (mesh + "-") + ("{1}" + ("-6d61657368-" + ("{2}" + ("." + mesh + ".svc." + domain + ""))))
  {
    TargetRegroup(mesh, "-", "{1}", "-6d61657368-", "{2}", ".", mesh + ".svc." + domain);
    assert "-{1}-6d61657368-{2}." == "-" + "{1}" + "-6d61657368-" + "{2}" + ".";
    assert "." + mesh + ".svc." + domain + "" == "." + (mesh + ".svc." + domain);
  }

  lemma TargetRegroup(m: string, a: string, b: string, c: string, d: string, e: string, f: string)
    ensures m + (a + b + c + d + e) + f == (m + a) + (b + (c + (d + (e + f))))
  {
  }

  lemma ClusterNameIs(a: Args, id: ServiceId)
    ensures ClusterName(a, id) ==
            (a.meshNamespace + "-")
            + (id.name + (MARKER + (id.namespace + ("." + a.meshNamespace + ".svc." + a.clusterDomain))))
  {
  }

  lemma FilledNothing(one: string, two: string)
    ensures Filled("", one, two) == ""
  {
  }

  lemma AnswerPatternSpelled(a: Args, id: ServiceId)
    requires Plain(a.clusterDomain) && Plain(a.meshNamespace)
    ensures Spelled(AnswerPattern(a.clusterDomain, a.meshNamespace), [id.name, id.namespace]) == ClusterName(a, id)
  {
    hide Spelled, Escaped;
    var group := "[a-zA-Z0-9-_]*";
    var end := Escaped(a.clusterDomain) + "";
    var svc := @"\." + ("svc" + (@"\." + end));
    var tail := @"\." + (a.meshNamespace + svc);
    var second := "(" + group + ")" + tail;
    var first := "(" + group + ")" + ("-6d61657368-" + second);
    AnswerOpened(a.meshNamespace, Group(group), DOT, Escaped(a.clusterDomain));
    SpelledPlain(a.meshNamespace + "-", first, [id.name, id.namespace]);
    SpelledGroup(group, "-6d61657368-" + second, [id.name, id.namespace]);
    assert [id.name, id.namespace][1..] == [id.namespace] && [id.namespace][1..] == [];
    SpelledPlain("-6d61657368-", second, [id.namespace]);
    SpelledGroup(group, tail, [id.namespace]);
    SpelledDot(a.meshNamespace + svc, []);
    SpelledPlain(a.meshNamespace, svc, []);
    SpelledDot("svc" + (@"\." + end), []);
    SpelledPlain("svc", @"\." + end, []);
    SpelledDot(end, []);
    SpelledEscaped(a.clusterDomain, "", []);
    SpelledNothing([]);
    assert MARKER == "-6d61657368-";
    var spelled := "." + (a.meshNamespace + ("." + ("svc" + ("." + (a.clusterDomain + "")))));
    assert spelled == "." + a.meshNamespace + ".svc." + a.clusterDomain;
    ClusterNameIs(a, id);
  }

  lemma AnswerOpened(m: string, g: string, d: string, f: string)
    ensures m + "-" + g + "-6d61657368-" + g + d + m + d + "svc" + d + f ==
            (m + "-") + (g + ("-6d61657368-" + (g + (d + (m + (d + ("svc" + (d + (f + "")))))))))
  {
    var front := m + "-" + g + "-6d61657368-" + g;
    assert front + d + m + d + "svc" + d + f == front + (d + (m + (d + ("svc" + (d + (f + ""))))));
  }

  lemma AnswerTargetFilled(id: ServiceId)
    ensures Filled(AnswerTarget(), id.name, id.namespace) == MeshName(id)
  {
    hide Filled;
    var second := "{2}" + (".traefik.mesh" + "");
    assert AnswerTarget() == "{1}" + ("." + second);
    FilledOne("." + second, id.name, id.namespace);
    FilledPlain(".", second, id.name, id.namespace);
    FilledOne(".traefik.mesh" + "", id.name, id.namespace);
    FilledPlain(".traefik.mesh", "", id.name, id.namespace);
    FilledNothing(id.name, id.namespace);
    assert id.name + ("." + (id.namespace + (".traefik.mesh" + ""))) == MeshName(id);
  }

  /**
   The block sends the name of every service in the mesh to its shadow service, and answers for the shadow service are
   given back the name that was asked for.
   */
  lemma NamesLeadToShadowServices(a: Args, id: ServiceId)
    requires Plain(a.clusterDomain) && Plain(a.meshNamespace)
    ensures exists pattern, target ::
              && "        name regex " + pattern + " " + target in Lines(Block(a))
              && Spelled(pattern, [id.name, id.namespace]) == MeshName(id)
              && Filled(target, id.name, id.namespace) == ClusterName(a, id)
    ensures exists pattern, target ::
              && "        answer name " + pattern + " " + target in Lines(Block(a))
              && Spelled(pattern, [id.name, id.namespace]) == ClusterName(a, id)
              && Filled(target, id.name, id.namespace) == MeshName(id)
  {
    hide Lines, Block, Spelled, Filled, NamePattern, NameTarget, AnswerPattern, AnswerTarget, MeshName, ClusterName,
         Back;
    BlockLines(a);
    var d, m := a.clusterDomain, a.meshNamespace;
    NamePatternSpelled(id);
    NameTargetFilled(a, id);
    AnswerPatternSpelled(a, id);
    AnswerTargetFilled(id);
    assert NameLine(d, m) == Lines(Block(a))[4] && AnswerLine(d, m) == Lines(Block(a))[5];
    assert "        name regex " + NamePattern() + " " + NameTarget(d, m) in Lines(Block(a));
    assert "        answer name " + AnswerPattern(d, m) + " " + AnswerTarget() in Lines(Block(a));
  }
}
