/** The text of a rule, and the priority computed by counting operators in it. */
module RulePriority {
  import opened Basics
  import opened Texts
  import opened Topologies
  import opened Rules

  // ---- Text ----

  function JoinText(parts: seq<string>, sep: string): string {
    if parts == [] then "" else if |parts| == 1 then parts[0] else parts[0] + sep + JoinText(parts[1..], sep)
  }

  function ConditionText(c: Condition): string {
    match c
    case Host(h) => "Host(`" + h + "`)"
    case Path(p) => "Path(`" + p + "`)"
    case PathPrefix(r) => "PathPrefix(`/{path:" + r + "}`)"
    case Method(ms) => "Method(`" + JoinText(ms, "`,`") + "`)"
    case HeadersRegexp(h, r) => "HeadersRegexp(`" + h + "`, `" + r + "`)"
  }

  function TokenText(t: Token): string {
    match t
    case LParen => "("
    case RParen => ")"
    case And => " && "
    case Or => " || "
    case Atom(c) => ConditionText(c)
  }

  function RuleText(r: Rule): string {
    if r == [] then "" else TokenText(r[0]) + RuleText(r[1..])
  }

  /** strings.Count, for a text of two characters: occurrences do not overlap. */
  function Count(s: string, op: string): nat
    requires |op| == 2
  {
    if |s| < 2 then 0 else if s[..2] == op then 1 + Count(s[2..], op) else Count(s[1..], op)
  }

  const AND_TEXT := "&&"
  const OR_TEXT := "||"

  /** Tiers of routers: later ones win over earlier ones. */
  const SERVICE_TIER := 1
  const TARGET_DIRECT_TIER := 2
  const TARGET_INDIRECT_TIER := 3
  const SPLIT_TIER := 4

  function Priority(r: Rule, tier: int): int {
    tier * 1000 + (Count(RuleText(r), AND_TEXT) + Count(RuleText(r), OR_TEXT))
  }

  // ---- Counting ----

  function Occurrences(r: Rule, t: Token): nat {
    if r == [] then 0 else (if r[0] == t then 1 else 0) + Occurrences(r[1..], t)
  }

  function NumAtoms(r: Rule): nat {
    if r == [] then 0 else (if r[0].Atom? then 1 else 0) + NumAtoms(r[1..])
  }

  function NumOps(r: Rule): nat {
    Occurrences(r, And) + Occurrences(r, Or)
  }

  /** No condition of the rule contains the text of an operator. */
  predicate Clean(r: Rule) {
    forall i :: 0 <= i < |r| && r[i].Atom? ==>
      !Contains(ConditionText(r[i].cond), AND_TEXT) && !Contains(ConditionText(r[i].cond), OR_TEXT)
  }

  /** How often the text of an operator occurs inside the conditions of the rule; these are counted too. */
  function Inside(r: Rule, op: string): nat
    requires |op| == 2
  {
    if r == [] then 0 else (if r[0].Atom? then Count(ConditionText(r[0].cond), op) else 0) + Inside(r[1..], op)
  }

  /** What a rule counts for: its conditions, and the operator texts inside them. */
  function Weight(r: Rule): nat {
    NumAtoms(r) + Inside(r, AND_TEXT) + Inside(r, OR_TEXT)
  }

  /** A text that does not end in half an operator is counted apart from what follows. */
  lemma {:induction false} CountConcat(a: string, b: string, op: string)
    requires |op| == 2 && op[0] == op[1] && (a == [] || a[|a| - 1] != op[0])
    ensures Count(a + b, op) == Count(a, op) + Count(b, op)
  {
    if a == [] {
      assert a + b == b;
    } else if |a| == 1 {
      assert (a + b)[1..] == b;
      assert |a + b| >= 2 ==> (a + b)[..2][0] == a[0];
    } else {
      assert (a + b)[..2] == a[..2];
      if a[..2] == op {
        assert (a + b)[2..] == a[2..] + b;
        assert a[..2][1] == a[1];
        CountConcat(a[2..], b, op);
      } else {
        assert (a + b)[1..] == a[1..] + b;
        CountConcat(a[1..], b, op);
      }
    }
  }

  lemma {:induction false} CountNone(s: string, op: string)
    requires |op| == 2 && !Contains(s, op)
    ensures Count(s, op) == 0
  {
    if |s| >= 2 {
      assert !Occurs(s, op, 0);
      forall i | 0 <= i <= |s[1..]| - 2
        ensures !Occurs(s[1..], op, i)
      {
        assert s[1..][i..i + 2] == s[i + 1..i + 1 + 2];
        assert !Occurs(s, op, i + 1);
      }
      CountNone(s[1..], op);
    }
  }

  /** A text is counted exactly when it contains the operator. */
  lemma {:induction false} CountSome(s: string, op: string)
    requires |op| == 2 && Contains(s, op)
    ensures Count(s, op) > 0
  {
    if s[..2] != op {
      var i :| 0 <= i <= |s| - 2 && Occurs(s, op, i);
      assert s[i..i + 2] == s[1..][i - 1..i - 1 + 2];
      assert Occurs(s[1..], op, i - 1);
      CountSome(s[1..], op);
    }
  }

  lemma TokenCount(t: Token, op: string)
    requires op == AND_TEXT || op == OR_TEXT
    ensures Count(TokenText(t), op) ==
            if t.Atom? then Count(ConditionText(t.cond), op)
            else if (t == And && op == AND_TEXT) || (t == Or && op == OR_TEXT) then 1 else 0
    ensures TokenText(t) != [] && TokenText(t)[|TokenText(t)| - 1] != op[0]
  {
    hide Count;
    if t == LParen || t == RParen {
      CountShort(TokenText(t), op);
    } else if !t.Atom? {
      var text := if t == And then AND_TEXT else OR_TEXT;
      assert TokenText(t) == " " + text + " ";
      assert AND_TEXT[0] != OR_TEXT[0];
      OperatorCount(text, op);
    }
  }

  lemma CountShort(s: string, op: string)
    requires |s| < 2 && |op| == 2
    ensures Count(s, op) == 0
  {
  }

  lemma OperatorCount(text: string, op: string)
    requires |text| == 2 && |op| == 2 && op[0] == op[1] != ' '
    ensures Count(" " + text + " ", op) == if text == op then 1 else 0
  {
    var s := text + " ";
    assert " " + text + " " == " " + s;
    CountConcat(" ", s, op);
    assert s[..2] == text && s[2..] == " ";
    if text != op {
      var t := s[1..];
      assert t[..2] == t && t[1] == ' ';
      assert t[1..] == " ";
      assert t != op;
      assert Count(t, op) == Count(t[1..], op) == 0;
    }
  }

  lemma {:induction false} RuleCount(r: Rule)
    ensures Count(RuleText(r), AND_TEXT) == Occurrences(r, And) + Inside(r, AND_TEXT)
    ensures Count(RuleText(r), OR_TEXT) == Occurrences(r, Or) + Inside(r, OR_TEXT)
  {
    hide ConditionText;
    if r != [] {
      RuleCount(r[1..]);
      TokenCount(r[0], AND_TEXT);
      TokenCount(r[0], OR_TEXT);
      CountConcat(TokenText(r[0]), RuleText(r[1..]), AND_TEXT);
      CountConcat(TokenText(r[0]), RuleText(r[1..]), OR_TEXT);
    }
  }

  lemma {:induction false} InsideExactly(r: Rule)
    ensures Inside(r, AND_TEXT) + Inside(r, OR_TEXT) == 0 <==> Clean(r)
  {
    hide ConditionText, Count, Contains;
    if r != [] {
      InsideExactly(r[1..]);
      assert Clean(r) <==> Clean([r[0]]) && Clean(r[1..]) by {
        CleanStep(r);
      }
      if r[0].Atom? {
        CountExactly(ConditionText(r[0].cond), AND_TEXT);
        CountExactly(ConditionText(r[0].cond), OR_TEXT);
      }
      assert [r[0]][0] == r[0];
    }
  }

  lemma CleanStep(r: Rule)
    requires r != []
    ensures Clean(r) <==> Clean([r[0]]) && Clean(r[1..])
  {
    hide ConditionText, Contains;
    assert forall i :: 0 < i < |r| ==> r[i] == r[1..][i - 1];
    assert [r[0]][0] == r[0];
    if Clean(r) {
      assert forall i :: 0 <= i < |r[1..]| ==> r[1..][i] == r[i + 1];
    }
  }

  lemma CountExactly(s: string, op: string)
    requires |op| == 2
    ensures Count(s, op) == 0 <==> !Contains(s, op)
  {
    if Contains(s, op) {
      CountSome(s, op);
    } else {
      CountNone(s, op);
    }
  }

  function Repeat(c: char, n: nat): string {
    seq(n, _ => c)
  }

  /** Occurrences do not overlap: a run of characters counts for half its length. */
  lemma {:induction false} CountRun(c: char, n: nat)
    ensures Count(Repeat(c, n), [c, c]) == n / 2
  {
    if n >= 2 {
      assert Repeat(c, n)[..2] == [c, c] && Repeat(c, n)[2..] == Repeat(c, n - 2);
      CountRun(c, n - 2);
    }
  }

  // ---- One operator fewer than there are conditions ----

  predicate Balanced(r: Rule) {
    NumAtoms(r) == NumOps(r) + 1
  }

  lemma {:induction false} CountsAdd(a: Rule, b: Rule)
    ensures NumAtoms(a + b) == NumAtoms(a) + NumAtoms(b) && NumOps(a + b) == NumOps(a) + NumOps(b)
  {
    if a == [] {
      assert a + b == b;
    } else {
      assert (a + b)[1..] == a[1..] + b;
      CountsAdd(a[1..], b);
    }
  }

  lemma CountsOne(t: Token)
    ensures NumAtoms([t]) == (if t.Atom? then 1 else 0) && NumOps([t]) == (if t == And || t == Or then 1 else 0)
  {
    var r := [t];
    assert r[1..] == [];
    assert NumAtoms(r[1..]) == 0 && Occurrences(r[1..], And) == 0 && Occurrences(r[1..], Or) == 0;
  }

  lemma BalancedJoinOne(a: Rule, op: Token, b: Rule)
    requires Balanced(a) && Balanced(b) && (op == And || op == Or)
    ensures Balanced(a + [op] + b)
  {
    CountsAdd(a, [op]);
    CountsAdd(a + [op], b);
    CountsOne(op);
  }

  lemma BalancedParens(r: Rule)
    requires Balanced(r)
    ensures Balanced(Parens(r))
  {
    CountsAdd([LParen], r);
    CountsAdd([LParen] + r, [RParen]);
    CountsOne(LParen);
    CountsOne(RParen);
  }

  lemma BalancedAtom(c: Condition)
    ensures Balanced([Atom(c)])
  {
    CountsOne(Atom(c));
  }

  lemma {:induction false} BalancedJoin(parts: seq<Rule>, op: Token)
    requires parts != [] && (op == And || op == Or) && forall i :: 0 <= i < |parts| ==> Balanced(parts[i])
    ensures Balanced(Join(parts, op))
  {
    if |parts| > 1 {
      BalancedJoin(parts[1..], op);
      BalancedJoinOne(parts[0], op, Join(parts[1..], op));
    }
  }

  lemma BalancedAtoms(cs: seq<Condition>)
    ensures forall i :: 0 <= i < |cs| ==> Balanced(Atoms(cs)[i])
  {
    forall i | 0 <= i < |cs|
      ensures Balanced(Atoms(cs)[i])
    {
      BalancedAtom(cs[i]);
    }
  }

  lemma BalancedMatch(m: HTTPMatch)
    ensures forall i :: 0 <= i < |MatchRule(m)| ==> Balanced(MatchRule(m)[i])
  {
    JoinParts(m);
    if Conditions(m) != [] {
      BalancedAtoms(Conditions(m));
      BalancedJoin(Atoms(Conditions(m)), And);
      BalancedParens(Join(Atoms(Conditions(m)), And));
    }
  }

  lemma {:induction false} BalancedMatches(matches: seq<HTTPMatch>)
    ensures forall i :: 0 <= i < |MatchRules(matches)| ==> Balanced(MatchRules(matches)[i])
  {
    if matches != [] {
      BalancedMatch(matches[0]);
      BalancedMatches(matches[1..]);
    }
  }

  lemma BalancedService(svc: Service)
    ensures Balanced(ServiceRule(svc))
  {
    var r := ServiceRule(svc);
    BalancedAtom(r[0].cond);
    BalancedAtom(r[2].cond);
    BalancedJoinOne([r[0]], Or, [r[2]]);
    assert r == [r[0]] + [Or] + [r[2]];
  }

  /** Every printed rule has one operator fewer than it has conditions. */
  lemma PrintedRulesBalanced(svc: Service, specs: seq<TrafficSpec>)
    ensures Balanced(DirectRule(svc, specs)) && Balanced(IndirectRule(svc, specs))
  {
    var first, second, last := Parens(ServiceRule(svc)), Parens(SpecsRule(specs)), [Atom(FORWARDED)];
    BalancedService(svc);
    BalancedParens(ServiceRule(svc));
    BalancedAtom(FORWARDED);
    BalancedJoinOne(first, And, last);
    if SpecsRule(specs) != [] {
      BalancedMatches(AllMatches(specs));
      BalancedJoin(MatchRules(AllMatches(specs)), Or);
      BalancedParens(SpecsRule(specs));
      BalancedJoinOne(first, And, second);
      BalancedJoinOne(first + [And] + second, And, last);
    }
  }

  /**
   So its priority tells its tier and what the rule counts for; and its number of conditions exactly when none of them
   contains the text of an operator.
   */
  lemma PriorityExact(r: Rule, tier: int)
    requires Balanced(r)
    ensures Priority(r, tier) == 1000 * tier + Weight(r) - 1
    ensures Priority(r, tier) == 1000 * tier + NumAtoms(r) - 1 <==> Clean(r)
  {
    hide Clean;
    RuleCount(r);
    InsideExactly(r);
  }

  lemma PrintedPriority(svc: Service, specs: seq<TrafficSpec>, tier: int)
    ensures var direct, indirect := DirectRule(svc, specs), IndirectRule(svc, specs);
            && (Priority(direct, tier) == 1000 * tier + NumAtoms(direct) - 1 <==> Clean(direct))
            && (Priority(indirect, tier) == 1000 * tier + NumAtoms(indirect) - 1 <==> Clean(indirect))
  {
    hide DirectRule, IndirectRule, Clean, Priority, NumAtoms;
    PrintedRulesBalanced(svc, specs);
    PriorityExact(DirectRule(svc, specs), tier);
    PriorityExact(IndirectRule(svc, specs), tier);
  }

  /** The priority of the routers that block everything. */
  const BLOCK_ALL_PRIORITY := SERVICE_TIER
}
