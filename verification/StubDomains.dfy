/** The text of the stub domain in a CoreDNS configuration: a block between two marker lines. */
module StubDomains {
  import opened Basics
  import opened Texts

  const HEADER := "#### Begin Traefik Mesh Block"
  const TRAILER := "#### End Traefik Mesh Block"

  // ---- Searching ----

  function IndexFrom(s: string, sub: string, i: nat): (r: Option<nat>)
    ensures r.Some? ==> i <= r.value && Occurs(s, sub, r.value) && forall j :: i <= j < r.value ==> !Occurs(s, sub, j)
    ensures r.None? ==> forall j :: i <= j ==> !Occurs(s, sub, j)
    decreases |s| - i
  {
    if i > |s| then None else if Occurs(s, sub, i) then Some(i) else IndexFrom(s, sub, i + 1)
  }

  /** Where sub first occurs in s. */
  function Index(s: string, sub: string): Option<nat> {
    IndexFrom(s, sub, 0)
  }

  /** What comes before the first occurrence of sub, or all of s. */
  function Before(s: string, sub: string): string {
    match Index(s, sub)
    case None => s
    case Some(i) => s[..i]
  }

  /** What comes after the first occurrence of sub, or nothing. */
  function After(s: string, sub: string): string {
    match Index(s, sub)
    case None => ""
    case Some(i) => s[i + |sub|..]
  }

  // ---- The block ----

  /** What the block is made from; before17 says that CoreDNS is older than version 1.7. */
  datatype Args = Args(clusterDomain: string, meshNamespace: string, before17: bool)

  function ReplaceAll(s: string, c: char, sub: string): string {
    if s == "" then "" else (if s[0] == c then sub else [s[0]]) + ReplaceAll(s[1..], c, sub)
  }

  // The fixed pieces of the block.
  const OPENING_1 := "traefik.mesh:53 {\n"
  const OPENING_2 := "    errors\n"
  const OPENING_3 := "    rewrite continue {\n"
  const NAME_1 := "        name regex "
  const NAME_2 := @"([a-zA-Z0-9-_]*)\."
  const NAME_3 := @"([a-zv0-9-_]*)\."
  const NAME_4 := @"traefik\.mesh "
  const NAME_5 := "-{1}-6d61657368-{2}."
  const ANSWER_1 := "        answer name "
  const ANSWER_2 := "-([a-zA-Z0-9-_]*)"
  const ANSWER_3 := "-6d61657368-"
  const ANSWER_4 := @"([a-zA-Z0-9-_]*)\."
  const ANSWER_5 := @"\.svc\."
  const ANSWER_6 := " {1}.{2}.traefik.mesh\n"
  const KUBERNETES_1 := "    kubernetes "
  const KUBERNETES_2 := " in-addr.arpa ip6.arpa {\n"
  const KUBERNETES_3 := "        pods insecure\n"
  const KUBERNETES_4 := "        fallthrough "
  const KUBERNETES_5 := "in-addr.arpa ip6.arpa\n"
  const CLOSING_1 := "    forward . "
  const CLOSING_2 := "/etc/resolv.conf\n"
  const CLOSING_3 := "    cache 30\n    loop\n"
  const CLOSING_4 := "    reload\n"
  const CLOSING_5 := "    loadbalance\n}\n"

  function Opening(): string {
    OPENING_1 + OPENING_2 + OPENING_3
  }

  function RewriteName(domain: string, ns: string): string {
    NAME_1 + NAME_2 + NAME_3 + NAME_4 + ns + NAME_5 + ns + ".svc." + domain + "\n"
  }

  function RewriteAnswer(domain: string, ns: string): string {
    ANSWER_1 + ns + ANSWER_2 + ANSWER_3 + ANSWER_4 + ns + ANSWER_5 + ReplaceAll(domain, '.', "\\.") + ANSWER_6
  }

  function Kubernetes(domain: string, before17: bool): string {
    KUBERNETES_1 + domain + KUBERNETES_2 + KUBERNETES_3
    + "        " + (if before17 then "upstream" else "") + "\n"
    + KUBERNETES_4 + KUBERNETES_5 + "    }\n"
  }

  function Closing(): string {
    CLOSING_1 + CLOSING_2 + CLOSING_3 + CLOSING_4 + CLOSING_5
  }

  function ServerBlock(a: Args): string {
    Opening() + RewriteName(a.clusterDomain, a.meshNamespace) + RewriteAnswer(a.clusterDomain, a.meshNamespace)
      + "    }\n"
    + Kubernetes(a.clusterDomain, a.before17) + Closing()
  }

  function Block(a: Args): string {
    HEADER + "\n" + ServerBlock(a) + TRAILER
  }

  // ---- Getting, removing and adding it ----

  /** None where the code slices out of range: the trailer ends before the header begins. */
  function GetStubDomain(config: string): Option<string> {
    var start, end := Index(config, HEADER), Index(config, TRAILER);
    if start.None? || end.None? then Some("")
    else if start.value > end.value + |TRAILER| then None
    else Some(config[start.value..end.value + |TRAILER|])
  }

  function RemoveStubDomain(config: string): string {
    if !Contains(config, HEADER) then config
    else Before(config, HEADER + "\n") + After(config, TRAILER + "\n")
  }

  /** The new text, and whether the block changed. */
  function AddStubDomain(config: string, a: Args): Option<(string, bool)> {
    match GetStubDomain(config)
    case None => None
    case Some(existing) =>
      var rest := if existing != "" then RemoveStubDomain(config) else config;
      Some((rest + "\n" + Block(a) + "\n", existing != Block(a)))
  }

  // ---- Texts without markers ----

  predicate Unmarked(s: string) {
    !Contains(s, HEADER) && !Contains(s, TRAILER)
  }

  predicate NoHash(s: string) {
    '#' !in s
  }

  predicate HashFree(a: Args) {
    NoHash(a.clusterDomain) && NoHash(a.meshNamespace)
  }

  /** The text is empty or its last line is complete. */
  predicate LineEnded(s: string) {
    s == "" || s[|s| - 1] == '\n'
  }

  lemma OccursWithin(p: string, q: string, sub: string, i: int)
    ensures i + |sub| <= |p| ==> (Occurs(p + q, sub, i) <==> Occurs(p, sub, i))
    ensures i >= |p| ==> (Occurs(p + q, sub, i) <==> Occurs(q, sub, i - |p|))
  {
    if 0 <= i && i + |sub| <= |p| {
      assert (p + q)[i..i + |sub|] == p[i..i + |sub|];
    }
    if i >= |p| && i + |sub| <= |p + q| {
      assert (p + q)[i..i + |sub|] == q[i - |p|..i - |p| + |sub|];
    }
  }

  lemma OccursChar(s: string, sub: string, i: int, o: int)
    ensures Occurs(s, sub, i) && 0 <= o < |sub| ==> s[i + o] == sub[o] && sub[o] in sub
  {
    if Occurs(s, sub, i) && 0 <= o < |sub| {
      assert s[i..i + |sub|][o] == s[i + o];
    }
  }

  /** An occurrence of a text without line breaks cannot straddle the end of a line. */
  lemma NoStraddle(p: string, q: string, sub: string, i: int)
    requires '\n' !in sub && p != "" && LineEnded(p) && 0 <= i < |p| < i + |sub|
    ensures !Occurs(p + q, sub, i)
  {
    OccursChar(p + q, sub, i, |p| - 1 - i);
  }

  lemma OccursContains(s: string, sub: string, i: int)
    requires Occurs(s, sub, i)
    ensures Contains(s, sub)
  {
  }

  lemma NewlineKeepsUnmarked(s: string)
    requires Unmarked(s)
    ensures Unmarked(s + "\n")
  {
    forall m, i | (m == HEADER || m == TRAILER) && 0 <= i <= |s + "\n"| - |m|
      ensures !Occurs(s + "\n", m, i)
    {
      OccursWithin(s, "\n", m, i);
      OccursChar(s + "\n", m, i, |s| - i);
      NotContained(s, m, i);
    }
  }

  /** The first occurrence of a text that starts a line, after lines that are free of it. */
  lemma IndexAtLine(p: string, sub: string, rest: string)
    requires '\n' !in sub && sub != "" && LineEnded(p) && !Contains(p, sub)
    ensures Index(p + sub + rest, sub) == Some(|p|)
  {
    assert p + sub + rest == p + (sub + rest);
    assert Occurs(sub + rest, sub, 0);
    OccursWithin(p, sub + rest, sub, |p|);
    forall i | 0 <= i < |p|
      ensures !Occurs(p + (sub + rest), sub, i)
    {
      OccursWithin(p, sub + rest, sub, i);
      if i + |sub| > |p| {
        NoStraddle(p, sub + rest, sub, i);
      } else if Occurs(p, sub, i) {
        OccursContains(p, sub, i);
      }
    }
  }

  /** The same for the text with more behind it. */
  lemma IndexLonger(s: string, sub: string, more: string, i: nat)
    requires Index(s, sub) == Some(i) && Occurs(s, sub + more, i)
    ensures Index(s, sub + more) == Some(i)
  {
    forall j | 0 <= j < i
      ensures !Occurs(s, sub + more, j)
    {
      if Occurs(s, sub + more, j) {
        assert s[j..j + |sub|] == s[j..j + |sub + more|][..|sub|] == sub;
        assert Occurs(s, sub, j);
      }
    }
  }

  // ---- A block between unmarked lines and anything ----

  lemma {:induction false} ReplaceNoHash(s: string)
    requires NoHash(s)
    ensures NoHash(ReplaceAll(s, '.', "\\."))
  {
    if s != "" {
      ReplaceNoHash(s[1..]);
    }
  }

  lemma OpeningNoHash()
    ensures NoHash(Opening())
  {
    assert NoHash(OPENING_1) && NoHash(OPENING_2) && NoHash(OPENING_3);
  }

  lemma NameNoHash(domain: string, ns: string)
    requires NoHash(domain) && NoHash(ns)
    ensures NoHash(RewriteName(domain, ns))
  {
    assert NoHash(NAME_1) && NoHash(NAME_2) && NoHash(NAME_3) && NoHash(NAME_4) && NoHash(NAME_5);
  }

  lemma AnswerNoHash(domain: string, ns: string)
    requires NoHash(domain) && NoHash(ns)
    ensures NoHash(RewriteAnswer(domain, ns))
  {
    ReplaceNoHash(domain);
    assert NoHash(ANSWER_1) && NoHash(ANSWER_2) && NoHash(ANSWER_3) && NoHash(ANSWER_4) && NoHash(ANSWER_5)
           && NoHash(ANSWER_6);
  }

  lemma KubernetesNoHash(domain: string, before17: bool)
    requires NoHash(domain)
    ensures NoHash(Kubernetes(domain, before17))
  {
    assert NoHash(KUBERNETES_1) && NoHash(KUBERNETES_2) && NoHash(KUBERNETES_3) && NoHash(KUBERNETES_4)
           && NoHash(KUBERNETES_5);
  }

  lemma ClosingNoHash()
    ensures NoHash(Closing()) && Closing() != "" && LineEnded(Closing())
  {
    assert NoHash(CLOSING_1) && NoHash(CLOSING_2) && NoHash(CLOSING_3) && NoHash(CLOSING_4) && NoHash(CLOSING_5);
    assert CLOSING_5[|CLOSING_5| - 1] == '\n';
  }

  lemma ServerNoHash(a: Args)
    requires HashFree(a)
    ensures NoHash(ServerBlock(a)) && LineEnded(ServerBlock(a)) && ServerBlock(a) != ""
  {
    hide Opening, RewriteName, RewriteAnswer, Kubernetes, Closing;
    OpeningNoHash();
    NameNoHash(a.clusterDomain, a.meshNamespace);
    AnswerNoHash(a.clusterDomain, a.meshNamespace);
    KubernetesNoHash(a.clusterDomain, a.before17);
    ClosingNoHash();
  }

  lemma MarkerChars()
    ensures |HEADER| == 29 && HEADER[5] == 'B' && forall j :: 4 <= j < |HEADER| ==> HEADER[j] != '#'
    ensures |TRAILER| == 27 && TRAILER[5] == 'E' && forall j :: 0 <= j < 4 ==> TRAILER[j] == '#'
  {
  }

  lemma FrontChars(server: string)
    requires NoHash(server)
    ensures var q := HEADER + "\n" + server;
            |q| > 5 && q[5] == 'B' && forall j :: 4 <= j < |q| ==> q[j] != '#'
  {
    MarkerChars();
    var q := HEADER + "\n" + server;
    assert forall j :: 0 <= j < 29 ==> q[j] == HEADER[j];
    assert forall j :: 29 < j < |q| ==> q[j] == server[j - 30] && q[j] in server;
  }

  /** A text cannot occur where its hashes or its sixth character do not fit. */
  lemma NotHere(q: string, sub: string, o: nat)
    requires |q| > 5 && |sub| > 5 && q[5] != sub[5]
    requires forall j :: 4 <= j < |q| ==> q[j] != '#'
    requires forall j :: 0 <= j < 4 ==> sub[j] == '#'
    ensures !Occurs(q, sub, o)
  {
    hide Occurs;
    OccursChar(q, sub, o, 0);
    OccursChar(q, sub, o, 4 - o);
    OccursChar(q, sub, o, 5);
    OccursFits(q, sub, o);
  }

  /** The trailer does not occur in what precedes it in the block. */
  lemma NoTrailerBefore(server: string, o: nat)
    requires NoHash(server)
    ensures !Occurs(HEADER + "\n" + server, TRAILER, o)
  {
    hide Occurs;
    MarkerChars();
    FrontChars(server);
    NotHere(HEADER + "\n" + server, TRAILER, o);
  }

  lemma OccursFits(s: string, sub: string, i: int)
    ensures Occurs(s, sub, i) ==> 0 <= i && i + |sub| <= |s|
  {
  }

  lemma TrailerFound(p: string, a: Args, rest: string)
    requires Unmarked(p) && LineEnded(p) && HashFree(a)
    ensures Index(p + Block(a) + rest, TRAILER) == Some(|p + Block(a)| - |TRAILER|)
  {
    hide Index, Contains, Occurs, ServerBlock;
    ServerNoHash(a);
    var q := HEADER + "\n" + ServerBlock(a);
    forall i | 0 <= i <= |p + q| - |TRAILER|
      ensures !Occurs(p + q, TRAILER, i)
    {
      OccursWithin(p, q, TRAILER, i);
      if i >= |p| {
        NoTrailerBefore(ServerBlock(a), i - |p|);
      } else if i + |TRAILER| > |p| {
        NoStraddle(p, q, TRAILER, i);
      } else {
        NotContained(p, TRAILER, i);
      }
    }
    NeverOccurs(p + q, TRAILER);
    assert (p + q)[|p + q| - 1] == q[|q| - 1] == ServerBlock(a)[|ServerBlock(a)| - 1];
    IndexAtLine(p + q, TRAILER, rest);
    assert p + Block(a) + rest == p + q + TRAILER + rest;
  }

  lemma NotContained(s: string, sub: string, i: int)
    requires !Contains(s, sub)
    ensures !Occurs(s, sub, i)
  {
    if Occurs(s, sub, i) {
      OccursContains(s, sub, i);
    }
  }

  lemma NeverOccurs(s: string, sub: string)
    requires forall i :: 0 <= i <= |s| - |sub| ==> !Occurs(s, sub, i)
    ensures !Contains(s, sub)
  {
  }

  lemma HeaderFound(p: string, a: Args, rest: string)
    requires Unmarked(p) && LineEnded(p)
    ensures Index(p + Block(a) + rest, HEADER) == Some(|p|)
    ensures Contains(p + Block(a) + rest, HEADER)
    ensures Index(p + Block(a) + rest, HEADER + "\n") == Some(|p|)
  {
    hide Index, Contains, Occurs, ServerBlock;
    var more := "\n" + (ServerBlock(a) + TRAILER + rest);
    var s := p + HEADER + more;
    Regroup(p, HEADER, "\n", ServerBlock(a), TRAILER, rest);
    IndexAtLine(p, HEADER, more);
    HeaderOccurs(p, ServerBlock(a) + TRAILER + rest);
    OccursContains(s, HEADER, |p|);
    IndexLonger(s, HEADER, "\n", |p|);
  }

  lemma Regroup(p: string, h: string, n: string, sv: string, t: string, rest: string)
    ensures p + (h + n + sv + t) + rest == p + h + (n + (sv + t + rest))
  {
  }

  lemma HeaderOccurs(p: string, rest: string)
    ensures Occurs(p + HEADER + ("\n" + rest), HEADER, |p|) && Occurs(p + HEADER + ("\n" + rest), HEADER + "\n", |p|)
  {
    var s := p + HEADER + ("\n" + rest);
    assert s[|p|..|p| + |HEADER|] == HEADER;
    assert s[|p|..|p| + |HEADER| + 1] == HEADER + "\n";
  }

  /** The block is found as it was written. */
  lemma GetFindsBlock(p: string, a: Args, rest: string)
    requires Unmarked(p) && LineEnded(p) && HashFree(a)
    ensures GetStubDomain(p + Block(a) + "\n" + rest) == Some(Block(a))
  {
    hide Index, Contains, Occurs, Block;
    assert p + Block(a) + "\n" + rest == p + Block(a) + ("\n" + rest);
    HeaderFound(p, a, "\n" + rest);
    TrailerFound(p, a, "\n" + rest);
    BlockLength(a);
    assert (p + Block(a) + ("\n" + rest))[|p|..|p + Block(a)|] == Block(a);
  }

  lemma BlockLength(a: Args)
    ensures |Block(a)| >= |HEADER| + |TRAILER|
  {
    hide ServerBlock;
  }

  /** Removing takes out the block and its line end, and leaves all around it as it is, edited by hand or not. */
  lemma RemoveTakesBlockOut(p: string, a: Args, rest: string)
    requires Unmarked(p) && LineEnded(p) && HashFree(a)
    ensures RemoveStubDomain(p + Block(a) + "\n" + rest) == p + rest
  {
    hide Index, Contains, Occurs, Block;
    var s := p + Block(a) + ("\n" + rest);
    assert p + Block(a) + "\n" + rest == s;
    HeaderFound(p, a, "\n" + rest);
    TrailerFound(p, a, "\n" + rest);
    BlockEnd(p, a, rest);
    var at := |p + Block(a)| - |TRAILER|;
    IndexLonger(s, TRAILER, "\n", at);
    assert s[..|p|] == p;
    assert s[at + |TRAILER + "\n"|..] == rest;
  }

  lemma BlockEnd(p: string, a: Args, rest: string)
    ensures Occurs(p + Block(a) + ("\n" + rest), TRAILER + "\n", |p + Block(a)| - |TRAILER|)
  {
    hide ServerBlock;
    var front := p + HEADER + "\n" + ServerBlock(a);
    assert p + Block(a) + ("\n" + rest) == front + (TRAILER + "\n" + rest);
    assert |front| == |p + Block(a)| - |TRAILER|;
    assert (front + (TRAILER + "\n" + rest))[|front|..|front| + |TRAILER + "\n"|] == TRAILER + "\n";
  }

  /** Adding to a text without markers appends the block, which counts as a change. */
  lemma AddToUnmarked(s: string, a: Args)
    requires Unmarked(s)
    ensures AddStubDomain(s, a) == Some((s + "\n" + Block(a) + "\n", true))
    ensures RemoveStubDomain(s) == s
  {
    hide Block;
    BlockLength(a);
    if Index(s, HEADER).Some? {
      OccursContains(s, HEADER, Index(s, HEADER).value);
    }
  }

  /** Adding to a text with a block moves it to the end, and counts as a change when the block differs. */
  lemma AddReplacesBlock(p: string, a: Args, rest: string, b: Args)
    requires Unmarked(p) && LineEnded(p) && HashFree(a)
    ensures AddStubDomain(p + Block(a) + "\n" + rest, b) ==
              Some((p + rest + "\n" + Block(b) + "\n", Block(a) != Block(b)))
  {
    hide Index, Contains, Occurs, Block, GetStubDomain, RemoveStubDomain;
    GetFindsBlock(p, a, rest);
    RemoveTakesBlockOut(p, a, rest);
    BlockLength(a);
  }

  // ---- Texts edited by hand ----

  /** Every header begins behind the end of some trailer. */
  ghost predicate TrailerFirst(config: string) {
    Contains(config, HEADER) && exists j ::
      Occurs(config, TRAILER, j) && forall i :: Occurs(config, HEADER, i) ==> i > j + |TRAILER|
  }

  lemma IndexExactly(s: string, sub: string)
    ensures Index(s, sub).Some? <==> Contains(s, sub)
    ensures Index(s, sub).Some? ==> Occurs(s, sub, Index(s, sub).value)
    ensures Index(s, sub).Some? ==> forall j :: Occurs(s, sub, j) ==> Index(s, sub).value <= j
  {
  }

  /** When looking for the block slices out of range, which ends the program. */
  lemma GetPanicsExactly(config: string)
    ensures GetStubDomain(config).None? <==> TrailerFirst(config)
  {
    hide Index, Occurs, Contains;
    IndexExactly(config, HEADER);
    IndexExactly(config, TRAILER);
    if GetStubDomain(config).None? {
      var j := Index(config, TRAILER).value;
      assert Occurs(config, TRAILER, j);
    }
    if TrailerFirst(config) {
      var j :| Occurs(config, TRAILER, j) && forall i :: Occurs(config, HEADER, i) ==> i > j + |TRAILER|;
      OccursContains(config, TRAILER, j);
    }
  }

  /** A text that does so: the two marker lines the wrong way round. */
  lemma SwappedMarkersPanic()
    ensures GetStubDomain(TRAILER + "\n" + HEADER).None?
  {
    hide Index, Contains, Occurs;
    MarkerChars();
    var s := TRAILER + "\n" + HEADER;
    IndexAtLine(TRAILER + "\n", HEADER, "") by {
      NoHeaderInTrailer();
    }
    assert TRAILER + "\n" + HEADER + "" == s;
    IndexAtLine("", TRAILER, "\n" + HEADER) by {
      EmptyHasNone(TRAILER);
    }
    assert "" + TRAILER + ("\n" + HEADER) == s;
  }

  lemma EmptyHasNone(sub: string)
    requires sub != ""
    ensures !Contains("", sub)
  {
  }

  lemma NoHeaderInTrailer()
    ensures !Contains(TRAILER + "\n", HEADER)
  {
    MarkerChars();
  }

  /** Without its trailer line, removing a block drops everything behind the header. */
  lemma RemoveDropsRest(p: string, rest: string)
    requires Unmarked(p) && LineEnded(p) && !Contains(p + HEADER + ("\n" + rest), TRAILER + "\n")
    ensures RemoveStubDomain(p + HEADER + ("\n" + rest)) == p
  {
    hide Index, Contains, Occurs;
    var s := p + HEADER + ("\n" + rest);
    IndexAtLine(p, HEADER, "\n" + rest);
    HeaderOccurs(p, rest);
    OccursContains(s, HEADER, |p|);
    IndexLonger(s, HEADER, "\n", |p|);
    IndexExactly(s, TRAILER + "\n");
    assert s[..|p|] == p && p + "" == p;
  }
}
