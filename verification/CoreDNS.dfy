/** Patching and restoring the configuration of CoreDNS, and what a run of both leaves. */
module CoreDNS {
  import opened Basics
  import opened Texts
  import opened StubDomains

  type Data = map<string, string>

  const CUSTOM_KEY := "traefik.mesh.server"
  const COREFILE_KEY := "Corefile"

  datatype DNSError = NoDeployment | NoVersion | NoConfigMap | SliceOutOfRange

  /**
   What the cluster holds: whether CoreDNS is deployed, the data of the two ConfigMaps, None when one cannot be
   got, and how often the pods of CoreDNS were restarted.
   */
  datatype DNSState = DNSState(deployed: bool, custom: Option<Data>, coredns: Option<Data>, restarts: nat)

  /** A missing entry reads as the empty string. */
  function Get(data: Data, key: string): string {
    if key in data then data[key] else ""
  }

  /** The configuration that gets patched: the custom one when there is one. */
  function ActiveText(c: DNSState): string {
    if c.custom.Some? then Get(c.custom.value, CUSTOM_KEY)
    else if c.coredns.Some? then Get(c.coredns.value, COREFILE_KEY)
    else ""
  }

  function WithText(c: DNSState, text: string): DNSState {
    if c.custom.Some? then c.(custom := Some(c.custom.value[CUSTOM_KEY := text]))
    else if c.coredns.Some? then c.(coredns := Some(c.coredns.value[COREFILE_KEY := text]))
    else c
  }

  type Outcome = Result<(DNSState, bool), DNSError>

  /**
   Patching: nothing is stored and nothing restarted unless the block changed. before17 is None when the version
   cannot be read.
   */
  function Configured(c: DNSState, clusterDomain: string, meshNamespace: string, before17: Option<bool>): Outcome {
    if !c.deployed then Failure(NoDeployment)
    else if before17.None? then Failure(NoVersion)
    else if c.custom.None? && c.coredns.None? then Failure(NoConfigMap)
    else
      match AddStubDomain(ActiveText(c), Args(clusterDomain, meshNamespace, before17.value))
      case None => Failure(SliceOutOfRange)
      case Some((text, changed)) =>
        if changed then Success((WithText(c, text).(restarts := c.restarts + 1), true)) else Success((c, false))
  }

  function Restored(c: DNSState): Result<DNSState, DNSError> {
    if !c.deployed then Failure(NoDeployment)
    else if c.custom.Some? then Success(c.(custom := Some(c.custom.value - {CUSTOM_KEY}), restarts := c.restarts + 1))
    else if c.coredns.Some? then Success(WithText(c, RemoveStubDomain(ActiveText(c))).(restarts := c.restarts + 1))
    else Failure(NoConfigMap)
  }

  class Client {
    var deployed: bool
    var custom: Option<Data>
    var coredns: Option<Data>
    var restarts: nat

    constructor (c: DNSState)
      ensures View() == c
    {
      deployed, custom, coredns, restarts := c.deployed, c.custom, c.coredns, c.restarts;
    }

    ghost function View(): DNSState
      reads this
    {
      DNSState(deployed, custom, coredns, restarts)
    }

    method ConfigureCoreDNS(clusterDomain: string, meshNamespace: string, before17: Option<bool>)
        returns (r: Result<bool, DNSError>)
      modifies this
      ensures match Configured(old(View()), clusterDomain, meshNamespace, before17)
              case Failure(e) => r == Failure(e) && View() == old(View())
              case Success((after, changed)) => r == Success(changed) && View() == after
      ensures r == Failure(NoDeployment) <==> !old(deployed)
      ensures r == Failure(NoVersion) <==> old(deployed) && before17.None?
      ensures r == Failure(NoConfigMap) <==> old(deployed) && before17.Some? && old(custom.None? && coredns.None?)
      ensures r.Success? ==> restarts == old(restarts) + if r.value then 1 else 0
    {
      hide AddStubDomain;
      if !deployed {
        return Failure(NoDeployment);
      }
      if before17.None? {
        return Failure(NoVersion);
      }
      var args := Args(clusterDomain, meshNamespace, before17.value);
      var patched: Option<(string, bool)>;
      if custom.Some? {
        patched := AddStubDomain(Get(custom.value, CUSTOM_KEY), args);
      } else if coredns.Some? {
        patched := AddStubDomain(Get(coredns.value, COREFILE_KEY), args);
      } else {
        return Failure(NoConfigMap);
      }
      if patched.None? {
        return Failure(SliceOutOfRange);
      }
      var (text, changed) := patched.value;
      if !changed {
        return Success(false);
      }
      if custom.Some? {
        custom := Some(custom.value[CUSTOM_KEY := text]);
      } else {
        coredns := Some(coredns.value[COREFILE_KEY := text]);
      }
      restarts := restarts + 1;
      return Success(true);
    }

    method RestoreCoreDNS() returns (r: Result<(), DNSError>)
      modifies this
      ensures match Restored(old(View()))
              case Failure(e) => r == Failure(e) && View() == old(View())
              case Success(after) => r == Success(()) && View() == after
      ensures r == Failure(NoDeployment) <==> !old(deployed)
      ensures r == Failure(NoConfigMap) <==> old(deployed) && old(custom.None? && coredns.None?)
      ensures r.Success? ==> restarts == old(restarts) + 1
    {
      hide RemoveStubDomain;
      if !deployed {
        return Failure(NoDeployment);
      }
      if custom.Some? {
        custom := Some(custom.value - {CUSTOM_KEY});
      } else if coredns.Some? {
        coredns := Some(coredns.value[COREFILE_KEY := RemoveStubDomain(Get(coredns.value, COREFILE_KEY))]);
      } else {
        return Failure(NoConfigMap);
      }
      restarts := restarts + 1;
      return Success(());
    }
  }

  /** CoreDNS is there to be patched. */
  predicate Patchable(c: DNSState) {
    c.deployed && (c.custom.Some? || c.coredns.Some?)
  }

  /** When a configure runs into the slice that is out of range. */
  lemma ConfigurePanicsExactly(c: DNSState, a: Args)
    ensures Configured(c, a.clusterDomain, a.meshNamespace, Some(a.before17)) == Failure(SliceOutOfRange) <==>
            Patchable(c) && TrailerFirst(ActiveText(c))
  {
    hide RemoveStubDomain, Block, GetStubDomain, TrailerFirst;
    GetPanicsExactly(ActiveText(c));
  }

  /** The text p with the block behind it, on lines of its own. */
  function WithBlock(p: string, a: Args): string {
    p + "\n" + Block(a) + "\n"
  }

  /** Configuring fails for want of a deployment, of its version or of a ConfigMap, looked for in this order. */
  lemma ConfigureFailsExactly(c: DNSState, clusterDomain: string, meshNamespace: string, before17: Option<bool>)
    ensures var r := Configured(c, clusterDomain, meshNamespace, before17);
            && (r == Failure(NoDeployment) <==> !c.deployed)
            && (r == Failure(NoVersion) <==> c.deployed && before17.None?)
            && (r == Failure(NoConfigMap) <==> before17.Some? && c.deployed && !Patchable(c))
  {
    hide AddStubDomain;
  }

  /** Restoring asks for no version, and it cannot run into a slice that is out of range. */
  lemma RestoreFailsExactly(c: DNSState)
    ensures var r := Restored(c);
            && (r == Failure(NoDeployment) <==> !c.deployed)
            && (r == Failure(NoConfigMap) <==> c.deployed && !Patchable(c))
            && (r.Success? <==> Patchable(c))
  {
    hide RemoveStubDomain;
  }

  /**
   The block goes to the end of the entry of the mesh in the custom configuration, or of the Corefile if there is no
   custom configuration.
   */
  lemma ConfiguredEntry(c: DNSState, a: Args)
    requires Patchable(c)
    ensures match Configured(c, a.clusterDomain, a.meshNamespace, Some(a.before17))
            case Failure(_) => true
            case Success((after, changed)) =>
              changed ==>
                exists p :: WithBlock(p, a) ==
                  if c.custom.Some? then after.custom.value["traefik.mesh.server"] else after.coredns.value["Corefile"]
  {
    hide Block, GetStubDomain, RemoveStubDomain;
    var existing := GetStubDomain(ActiveText(c));
    if existing.Some? {
      var p := if existing.value != "" then RemoveStubDomain(ActiveText(c)) else ActiveText(c);
      assert AddStubDomain(ActiveText(c), a) == Some((WithBlock(p, a), existing.value != Block(a)));
    }
  }

  /** Restoring removes the entry of the mesh from a custom configuration, and the block alone from the Corefile. */
  lemma RestoredEntry(c: DNSState, p: string, a: Args, rest: string)
    requires Patchable(c) && Unmarked(p) && LineEnded(p) && HashFree(a)
    requires c.custom.None? ==> Get(c.coredns.value, "Corefile") == p + Block(a) + "\n" + rest
    ensures Restored(c).Success?
    ensures var after := Restored(c).value;
            if c.custom.Some? then
              && after.custom.Some?
              && forall k :: k in after.custom.value <==> k in c.custom.value && k != "traefik.mesh.server"
            else after.coredns.Some? && Get(after.coredns.value, "Corefile") == p + rest
  {
    hide Block, Unmarked, RemoveStubDomain;
    RemoveTakesBlockOut(p, a, rest);
  }

  // ---- Runs ----

  datatype Op = Configure(args: Args) | Restore

  /** A failing operation changes nothing. */
  function Step(c: DNSState, op: Op): DNSState {
    match op
    case Configure(a) =>
      (match Configured(c, a.clusterDomain, a.meshNamespace, Some(a.before17))
       case Failure(_) => c
       case Success((after, _)) => after)
    case Restore =>
      match Restored(c)
      case Failure(_) => c
      case Success(after) => after
  }

  predicate ReportsChange(c: DNSState, op: Op) {
    match op
    case Configure(a) =>
      (match Configured(c, a.clusterDomain, a.meshNamespace, Some(a.before17))
       case Failure(_) => false
       case Success((_, changed)) => changed)
    case Restore => false
  }

  function Run(c: DNSState, ops: seq<Op>): DNSState {
    if ops == [] then c else Step(Run(c, ops[..|ops| - 1]), ops[|ops| - 1])
  }

  /** How many configures of the run report a change. */
  function Changes(c: DNSState, ops: seq<Op>): nat {
    if ops == [] then 0
    else
      var earlier := ops[..|ops| - 1];
      Changes(c, earlier) + if ReportsChange(Run(c, earlier), ops[|ops| - 1]) then 1 else 0
  }

  function Restores(ops: seq<Op>): nat {
    if ops == [] then 0 else Restores(ops[..|ops| - 1]) + if ops[|ops| - 1].Restore? then 1 else 0
  }

  function Newlines(k: nat): string {
    if k == 0 then "" else Newlines(k - 1) + "\n"
  }

  /** The text with k line breaks behind it. */
  function Broken(text: string, k: nat): string {
    text + Newlines(k)
  }

  /** The same for a text whose last line is complete. */
  function Ending(p: string, a: Args): string {
    p + Block(a) + "\n"
  }

  /** What the last operation leaves at the end. */
  function Tail(ops: seq<Op>): string {
    if ops == [] || ops[|ops| - 1].Restore? then "" else Block(ops[|ops| - 1].args) + "\n"
  }

  predicate HashFreeOps(ops: seq<Op>) {
    forall i :: 0 <= i < |ops| && ops[i].Configure? ==> HashFree(ops[i].args)
  }

  lemma {:induction false} NewlinesUnmarked(c: string, k: nat)
    requires Unmarked(c)
    ensures Unmarked(c + Newlines(k)) && |Newlines(k)| == k && (k > 0 ==> LineEnded(c + Newlines(k)))
  {
    hide Unmarked;
    if k == 0 {
      assert c + Newlines(k) == c;
    } else {
      NewlinesUnmarked(c, k - 1);
      NewlineKeepsUnmarked(c + Newlines(k - 1));
      assert c + Newlines(k) == c + Newlines(k - 1) + "\n";
    }
  }

  /** A configure on a text that ends with a block, or has none. */
  lemma ConfigureStep(c: DNSState, p: string, current: Option<Args>, a: Args)
    requires Patchable(c) && Unmarked(p) && (current.Some? ==> LineEnded(p) && HashFree(current.value))
    requires ActiveText(c) == if current.Some? then Ending(p, current.value) else p
    ensures ReportsChange(c, Configure(a)) <==> current.None? || Block(current.value) != Block(a)
    ensures ActiveText(Step(c, Configure(a))) ==
            if ReportsChange(c, Configure(a)) then WithBlock(p, a) else ActiveText(c)
    ensures !ReportsChange(c, Configure(a)) ==> Step(c, Configure(a)) == c
    ensures Step(c, Configure(a)).restarts == c.restarts + if ReportsChange(c, Configure(a)) then 1 else 0
    ensures Patchable(Step(c, Configure(a))) && (Step(c, Configure(a)).custom.None? <==> c.custom.None?)
  {
    hide Block, Unmarked, AddStubDomain;
    match current {
      case None =>
        AddToUnmarked(p, a);
      case Some(b) =>
        AddReplacesBlock(p, b, "", a);
        assert p + Block(b) + "\n" + "" == p + Block(b) + "\n";
        assert p + "" == p;
    }
  }

  /** A restore takes a block off, if there is one; a custom configuration is deleted as a whole. */
  lemma RestoreStep(c: DNSState, p: string, current: Option<Args>)
    requires Patchable(c) && Unmarked(p) && (current.Some? ==> LineEnded(p) && HashFree(current.value))
    requires ActiveText(c) == if current.Some? then Ending(p, current.value) else p
    ensures ActiveText(Step(c, Restore)) == if c.custom.Some? then "" else p
    ensures !ReportsChange(c, Restore) && Step(c, Restore).restarts == c.restarts + 1
    ensures Patchable(Step(c, Restore)) && (Step(c, Restore).custom.None? <==> c.custom.None?)
  {
    hide Block, Unmarked, RemoveStubDomain;
    match current {
      case None =>
        AddToUnmarked(p, Args("", "", false));
      case Some(b) =>
        RemoveTakesBlockOut(p, b, "");
        assert p + Block(b) + "\n" + "" == p + Block(b) + "\n";
        assert p + "" == p;
    }
  }

  /** The arguments behind the block at the end, if there is one. */
  function Current(ops: seq<Op>): Option<Args> {
    if ops == [] || ops[|ops| - 1].Restore? then None else Some(ops[|ops| - 1].args)
  }

  /** The text of an unmarked configuration after ops. */
  predicate TextIs(c: DNSState, ops: seq<Op>) {
    && ActiveText(Run(c, ops)) == ActiveText(c) + Newlines(Changes(c, ops)) + Tail(ops)
    && (Tail(ops) != "" ==> Changes(c, ops) > 0)
    && Run(c, ops).restarts == c.restarts + Changes(c, ops) + Restores(ops)
    && Patchable(Run(c, ops)) && (Run(c, ops).custom.None? <==> c.custom.None?)
  }

  /** What comes before the block at the end. */
  lemma TextSplits(c: DNSState, ops: seq<Op>) returns (p: string)
    requires TextIs(c, ops) && Unmarked(ActiveText(c)) && HashFreeOps(ops)
    ensures p == Broken(ActiveText(c), Changes(c, ops)) && Unmarked(p)
    ensures Current(ops).Some? ==> LineEnded(p) && HashFree(Current(ops).value)
    ensures ActiveText(Run(c, ops)) == if Current(ops).Some? then Ending(p, Current(ops).value) else p
  {
    hide Run, Changes, Block, ActiveText, Unmarked;
    p := ActiveText(c) + Newlines(Changes(c, ops));
    NewlinesUnmarked(ActiveText(c), Changes(c, ops));
    if Current(ops).Some? {
      assert p + (Block(Current(ops).value) + "\n") == p + Block(Current(ops).value) + "\n";
    } else {
      assert p + "" == p;
    }
  }

  /** The parts of TextIs after one more configure. */
  lemma ConfigureCounts(c: DNSState, ops: seq<Op>, a: Args)
    requires ops != [] && ops[|ops| - 1] == Configure(a)
    ensures var earlier := ops[..|ops| - 1];
            && Run(c, ops) == Step(Run(c, earlier), Configure(a))
            && Changes(c, ops) == Changes(c, earlier) + (if ReportsChange(Run(c, earlier), Configure(a)) then 1 else 0)
            && Restores(ops) == Restores(earlier) && Tail(ops) == Block(a) + "\n" && Tail(ops) != ""
  {
    hide Step, ReportsChange, Block;
  }

  lemma OneMoreBreak(text: string, k: nat, a: Args)
    ensures WithBlock(Broken(text, k), a) == Ending(Broken(text, k + 1), a)
  {
    hide Block;
    assert text + Newlines(k) + "\n" == text + Newlines(k + 1);
  }

  lemma TextFromParts(c: DNSState, ops: seq<Op>, a: Args)
    requires ActiveText(Run(c, ops)) == Ending(Broken(ActiveText(c), Changes(c, ops)), a)
    requires Tail(ops) == Block(a) + "\n" && Changes(c, ops) > 0
    requires Run(c, ops).restarts == c.restarts + Changes(c, ops) + Restores(ops)
    requires Patchable(Run(c, ops)) && (Run(c, ops).custom.None? <==> c.custom.None?)
    ensures TextIs(c, ops)
  {
    hide Run, Changes, Restores, Block, ActiveText, Newlines, Patchable;
    var p := Broken(ActiveText(c), Changes(c, ops));
    assert p + Block(a) + "\n" == p + (Block(a) + "\n");
  }

  lemma OneMoreConfigure(c: DNSState, ops: seq<Op>, a: Args)
    requires ops != [] && ops[|ops| - 1] == Configure(a) && TextIs(c, ops[..|ops| - 1])
    requires Unmarked(ActiveText(c)) && HashFreeOps(ops)
    ensures TextIs(c, ops)
  {
    hide Run, Step, Changes, Restores, Tail, ReportsChange, Block, Unmarked, ActiveText, Patchable, Broken, WithBlock,
         Ending, TextIs;
    var earlier := ops[..|ops| - 1];
    var p := TextSplits(c, earlier);
    TextMeans(c, earlier);
    ConfigureStep(Run(c, earlier), p, Current(earlier), a);
    ConfigureCounts(c, ops, a);
    if ReportsChange(Run(c, earlier), Configure(a)) {
      OneMoreBreak(ActiveText(c), Changes(c, earlier), a);
    } else {
      SameEnding(p, Current(earlier).value, a);
    }
    TextFromParts(c, ops, a);
  }

  lemma TextMeans(c: DNSState, ops: seq<Op>)
    requires TextIs(c, ops)
    ensures Current(ops).Some? ==> Changes(c, ops) > 0
    ensures Run(c, ops).restarts == c.restarts + Changes(c, ops) + Restores(ops)
    ensures Patchable(Run(c, ops)) && (Run(c, ops).custom.None? <==> c.custom.None?)
  {
    hide Run, Changes, Restores, Block, ActiveText, Newlines, Patchable;
    if Current(ops).Some? {
      assert Tail(ops)[|Block(Current(ops).value)|] == '\n';
    }
  }

  lemma SameEnding(p: string, a: Args, b: Args)
    requires Block(a) == Block(b)
    ensures Ending(p, a) == Ending(p, b)
  {
    hide Block;
  }

  lemma OneMoreRestore(c: DNSState, ops: seq<Op>)
    requires ops != [] && ops[|ops| - 1] == Restore && TextIs(c, ops[..|ops| - 1])
    requires Unmarked(ActiveText(c)) && HashFreeOps(ops) && c.custom.None?
    ensures TextIs(c, ops)
  {
    hide Step, ReportsChange, Block, Unmarked, ActiveText, Patchable;
    var earlier := ops[..|ops| - 1];
    var p := TextSplits(c, earlier);
    RestoreStep(Run(c, earlier), p, Current(earlier));
    assert p == p + Tail(ops);
  }

  /**
   From a configuration without markers, any run of configures and restores leaves that configuration, one line
   break for each configure that reported a change, and the block of the last operation if that is a configure.
   A custom configuration is covered as long as it is not restored. Pods are restarted once for each change and
   each restore.
   */
  lemma {:induction false} RunText(c: DNSState, ops: seq<Op>)
    requires Patchable(c) && Unmarked(ActiveText(c)) && HashFreeOps(ops) && (c.custom.None? || Restores(ops) == 0)
    ensures TextIs(c, ops)
  {
    hide Unmarked, ActiveText;
    if ops == [] {
      assert ActiveText(c) + Newlines(0) + "" == ActiveText(c);
    } else {
      RunText(c, ops[..|ops| - 1]);
      match ops[|ops| - 1]
      case Configure(a) => OneMoreConfigure(c, ops, a);
      case Restore => OneMoreRestore(c, ops);
    }
  }

  /** A restore deletes a custom configuration, so that the count starts again from the empty text. */
  lemma CustomRestarts(c: DNSState, before: seq<Op>, after: seq<Op>)
    requires Patchable(c) && c.custom.Some? && HashFreeOps(before + [Restore] + after) && Restores(after) == 0
    ensures var c' := Run(c, before + [Restore]);
            ActiveText(Run(c', after)) == Newlines(Changes(c', after)) + Tail(after)
  {
    var c' := Run(c, before + [Restore]);
    assert (before + [Restore])[..|before|] == before;
    RunKeepsCustom(c, before);
    assert ActiveText(c') == "";
    assert forall i :: 0 <= i < |after| ==> after[i] == (before + [Restore] + after)[|before| + 1 + i];
    EmptyUnmarked();
    RunText(c', after);
    assert "" + Newlines(Changes(c', after)) == Newlines(Changes(c', after));
  }

  lemma EmptyUnmarked()
    ensures Unmarked("")
  {
  }

  lemma {:induction false} RunKeepsCustom(c: DNSState, ops: seq<Op>)
    requires Patchable(c) && c.custom.Some?
    ensures Patchable(Run(c, ops)) && Run(c, ops).custom.Some?
  {
    hide AddStubDomain;
    if ops != [] {
      RunKeepsCustom(c, ops[..|ops| - 1]);
    }
  }

  /** After a configure, one that makes the same block reports no change and leaves everything as it is. */
  lemma RepeatIsQuiet(c: DNSState, ops: seq<Op>, a: Args)
    requires Patchable(c) && Unmarked(ActiveText(c)) && HashFreeOps(ops) && (c.custom.None? || Restores(ops) == 0)
    requires ops != [] && ops[|ops| - 1].Configure? && Block(ops[|ops| - 1].args) == Block(a)
    ensures !ReportsChange(Run(c, ops), Configure(a)) && Step(Run(c, ops), Configure(a)) == Run(c, ops)
  {
    hide Run, Step, ReportsChange, Block, Unmarked, ActiveText, Changes;
    RunText(c, ops);
    var p := TextSplits(c, ops);
    ConfigureStep(Run(c, ops), p, Current(ops), a);
  }

  predicate NoConfigure(ops: seq<Op>) {
    forall i :: 0 <= i < |ops| ==> ops[i].Restore?
  }

  /** The first configure of a run always reports a change. */
  lemma {:induction false} NoChangeMeansNoConfigure(c: DNSState, ops: seq<Op>)
    requires Patchable(c) && Unmarked(ActiveText(c)) && HashFreeOps(ops) && (c.custom.None? || Restores(ops) == 0)
    ensures Changes(c, ops) == 0 <==> NoConfigure(ops)
  {
    hide Step, Unmarked, ActiveText, Patchable, Run, TextIs;
    if ops != [] {
      var earlier, op := ops[..|ops| - 1], ops[|ops| - 1];
      NoChangeMeansNoConfigure(c, earlier);
      assert NoConfigure(ops) <==> NoConfigure(earlier) && op.Restore?;
      if op.Configure? && NoConfigure(earlier) {
        FirstConfigureReports(c, earlier, op.args);
      }
    }
  }

  lemma FirstConfigureReports(c: DNSState, ops: seq<Op>, a: Args)
    requires Patchable(c) && Unmarked(ActiveText(c)) && HashFreeOps(ops) && (c.custom.None? || Restores(ops) == 0)
    requires NoConfigure(ops)
    ensures ReportsChange(Run(c, ops), Configure(a))
  {
    hide Run, Step, ReportsChange, Block, Unmarked, ActiveText, Changes;
    RunText(c, ops);
    var p := TextSplits(c, ops);
    assert Current(ops).None?;
    ConfigureStep(Run(c, ops), p, None, a);
  }

  /**
   A restore never brings back the configuration that was there before CoreDNS was configured: it leaves the line
   breaks put in front of blocks. The Corefile is as before exactly when the run holds no configure at all.
   */
  lemma RestoreIsExact(c: DNSState, ops: seq<Op>)
    requires Patchable(c) && c.custom.None? && Unmarked(ActiveText(c)) && HashFreeOps(ops)
    requires ops != [] && ops[|ops| - 1] == Restore
    ensures ActiveText(Run(c, ops)) == ActiveText(c) <==> forall i :: 0 <= i < |ops| ==> ops[i].Restore?
  {
    hide Run, Unmarked, ActiveText, Changes, Patchable;
    RunText(c, ops);
    NoChangeMeansNoConfigure(c, ops);
    NewlinesUnmarked(ActiveText(c), Changes(c, ops));
    assert |ActiveText(Run(c, ops))| == |ActiveText(c)| + Changes(c, ops);
    if Changes(c, ops) == 0 {
      assert ActiveText(c) + "" + "" == ActiveText(c);
    }
  }

  /** Nothing but the patched entry is touched. */
  lemma StepFrame(c: DNSState, op: Op)
    ensures Step(c, op).custom.Some? <==> c.custom.Some?
    ensures Step(c, op).coredns.Some? <==> c.coredns.Some?
    ensures c.custom.Some? ==> Step(c, op).coredns == c.coredns
    ensures c.custom.Some? ==> forall k ::
              k != CUSTOM_KEY ==> Get(Step(c, op).custom.value, k) == Get(c.custom.value, k)
    ensures c.coredns.Some? ==> forall k ::
              k != COREFILE_KEY ==> Get(Step(c, op).coredns.value, k) == Get(c.coredns.value, k)
  {
    hide AddStubDomain, RemoveStubDomain;
  }
}
