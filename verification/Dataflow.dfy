/** Runs of the worklist engine over one body, as records of the block transfers it performed.
    A record determines the block states; what a finished record guarantees is proved here, for
    whatever order blocks were picked in. */
module Dataflow {
  import opened Options
  import opened Types
  import opened TrackedTypes
  import opened Mir
  import opened Domains
  import opened CollectorDomains
  import opened Transfers

  /** One application of a block's transfer: the call in it had the recorded effects. */
  datatype Step = Step(block: nat, input: Domain, effects: seq<CallEffect>, output: Domain)

  /** The compiler, the body and the substitution a run is about, and the state it starts from. */
  datatype Setting = Setting(tcx: Tcx, body: Body, substs: seq<Ty>, bottom: Domain)

  ghost predicate ValidStep(e: Setting, s: Step) {
    && s.block < |e.body.blocks|
    && BlockEffect(e.tcx, e.body, e.substs, s.input, s.block, s.effects) == Some(s.output)
  }

  function Successors(e: Setting, b: nat): set<nat> {
    if b < |e.body.blocks| then e.body.blocks[b].successors else {}
  }

  function JoinIntoSuccessors(entries: seq<Domain>, targets: set<nat>, output: Domain): seq<Domain> {
    seq(|entries|, k requires 0 <= k < |entries| =>
      if k in targets then JoinDomains(entries[k], output) else entries[k])
  }

  /** The entry states of all blocks after the recorded transfers. */
  ghost function Entries(e: Setting, trace: seq<Step>): (entries: seq<Domain>)
    ensures |entries| == |e.body.blocks|
    decreases |trace|
  {
    if trace == [] then seq(|e.body.blocks|, _ => e.bottom)
    else
      var last := trace[|trace| - 1];
      JoinIntoSuccessors(Entries(e, trace[..|trace| - 1]), Successors(e, last.block), last.output)
  }

  /** Every recorded transfer started from the entry state its block had at that time. */
  ghost predicate IsRun(e: Setting, trace: seq<Step>) {
    forall i {:trigger StepOk(e, trace, i)} | 0 <= i < |trace| :: StepOk(e, trace, i)
  }

  ghost predicate StepOk(e: Setting, trace: seq<Step>, i: nat)
    requires i < |trace|
  {
    && ValidStep(e, trace[i])
    && trace[i].block in e.body.reachable
    && trace[i].input == Entries(e, trace[..i])[trace[i].block]
  }

  /** Some recorded transfer of `b` started from its present entry state, and its output has
      reached all successors. */
  ghost predicate Settled(e: Setting, trace: seq<Step>, b: nat)
    requires b < |e.body.blocks|
  {
    exists i :: 0 <= i < |trace| && SettledBy(e, Entries(e, trace), trace[i], b)
  }

  ghost predicate SettledBy(e: Setting, entries: seq<Domain>, s: Step, b: nat)
    requires |entries| == |e.body.blocks| && b < |e.body.blocks|
  {
    && s.block == b
    && s.input == entries[b]
    && forall t | t in Successors(e, b) && t < |entries| :: Leq(s.output, entries[t])
  }

  /** The engine stops when every reachable block has settled. */
  ghost predicate IsFixpoint(e: Setting, trace: seq<Step>) {
    && WellFormedBody(e.body)
    && IsRun(e, trace)
    && forall b | b in e.body.reachable :: Settled(e, trace, b)
  }

  /** After the fixpoint every block's transfer is applied once more to its entry state. */
  ghost predicate AreBlockEnds(e: Setting, trace: seq<Step>, ends: seq<Step>) {
    && |ends| == |e.body.blocks|
    && forall b | 0 <= b < |ends| ::
         && ValidStep(e, ends[b]) && ends[b].block == b && ends[b].input == Entries(e, trace)[b]
  }

  /** The join of all block ends, the first one being the accumulator. */
  function JoinAll(ends: seq<Step>): Domain
    requires ends != []
    decreases |ends|
  {
    if |ends| == 1 then ends[0].output
    else JoinDomains(JoinAll(ends[..|ends| - 1]), ends[|ends| - 1].output)
  }

  // ---------------------------------------------------------------------------------------
  // Shapes

  /** Joining two states above `bottom` stays above it, and above both. */
  lemma JoinAbove(bottom: Domain, a: Domain, b: Domain)
    requires Leq(bottom, a) && Leq(bottom, b)
    ensures SameShape(a, b)
    ensures Leq(bottom, JoinDomains(a, b)) && Leq(a, JoinDomains(a, b)) && Leq(b, JoinDomains(a, b))
  {
    assert SameShape(a, b);
    JoinIsLeastUpperBound(a, b);
    LeqTransitive(bottom, a, JoinDomains(a, b));
  }

  /** What the last recorded transfer did to one entry. */
  lemma LastStep(e: Setting, trace: seq<Step>, b: nat)
    requires trace != [] && b < |e.body.blocks|
    ensures var init, last := trace[..|trace| - 1], trace[|trace| - 1];
            Entries(e, trace)[b] ==
              if b in Successors(e, last.block) then JoinDomains(Entries(e, init)[b], last.output) else Entries(e, init)[b]
  {
  }

  lemma {:induction false} EntriesShape(e: Setting, trace: seq<Step>, b: nat)
    requires IsRun(e, trace) && b < |e.body.blocks|
    ensures Leq(e.bottom, Entries(e, trace)[b])
    decreases |trace|
  {
    if trace != [] {
      var init, last := trace[..|trace| - 1], trace[|trace| - 1];
      PrefixIsRun(e, trace, |trace| - 1);
      EntriesShape(e, init, b);
      StepShape(e, trace, |trace| - 1);
      LastStep(e, trace, b);
      JoinAbove(e.bottom, Entries(e, init)[b], last.output);
    }
  }

  lemma PrefixIsRun(e: Setting, trace: seq<Step>, n: nat)
    requires IsRun(e, trace) && n <= |trace|
    ensures IsRun(e, trace[..n])
  {
    forall i | 0 <= i < n ensures StepOk(e, trace[..n], i) {
      assert StepOk(e, trace, i);
      assert trace[..n][..i] == trace[..i];
    }
  }

  lemma {:induction false} StepShape(e: Setting, trace: seq<Step>, i: nat)
    requires IsRun(e, trace) && i < |trace|
    ensures Leq(e.bottom, trace[i].output)
    decreases |trace|, 0
  {
    var s := trace[i];
    assert StepOk(e, trace, i);
    PrefixIsRun(e, trace, i);
    EntriesShape(e, trace[..i], s.block);
    BlockInflates(e.tcx, e.body, e.substs, s.input, s.block, s.effects);
    LeqTransitive(e.bottom, s.input, s.output);
  }

  lemma EndShape(e: Setting, trace: seq<Step>, ends: seq<Step>, b: nat)
    requires IsRun(e, trace) && AreBlockEnds(e, trace, ends) && b < |ends|
    ensures Leq(e.bottom, ends[b].output)
  {
    EntriesShape(e, trace, b);
    BlockInflates(e.tcx, e.body, e.substs, ends[b].input, b, ends[b].effects);
    LeqTransitive(e.bottom, ends[b].input, ends[b].output);
  }

  lemma {:induction false} JoinAllAboveBottom(bottom: Domain, ends: seq<Step>)
    requires ends != [] && forall k | 0 <= k < |ends| :: Leq(bottom, ends[k].output)
    ensures Leq(bottom, JoinAll(ends))
    decreases |ends|
  {
    if |ends| > 1 {
      var init, last := ends[..|ends| - 1], ends[|ends| - 1];
      JoinAllAboveBottom(bottom, init);
      JoinAbove(bottom, JoinAll(init), last.output);
    }
  }

  lemma {:induction false} JoinAllBounds(bottom: Domain, ends: seq<Step>, b: nat)
    requires forall k | 0 <= k < |ends| :: Leq(bottom, ends[k].output)
    requires b < |ends|
    ensures Leq(ends[b].output, JoinAll(ends))
    decreases |ends|
  {
    if |ends| > 1 {
      var init, last := ends[..|ends| - 1], ends[|ends| - 1];
      JoinAllAboveBottom(bottom, init);
      JoinAbove(bottom, JoinAll(init), last.output);
      if b < |init| {
        JoinAllBounds(bottom, init, b);
        LeqTransitive(init[b].output, JoinAll(init), JoinAll(ends));
      }
    }
  }

  lemma {:induction false} JoinAllLeast(ends: seq<Step>, top: Domain)
    requires ends != [] && forall b | 0 <= b < |ends| :: Leq(ends[b].output, top)
    ensures Leq(JoinAll(ends), top)
    decreases |ends|
  {
    if |ends| > 1 {
      JoinAllLeast(ends[..|ends| - 1], top);
      JoinBelow(JoinAll(ends[..|ends| - 1]), ends[|ends| - 1].output, top);
    }
  }

  // ---------------------------------------------------------------------------------------
  // Progress of the engine

  /** Recording one more transfer. */
  lemma ExtendRun(e: Setting, trace: seq<Step>, s: Step)
    requires IsRun(e, trace) && ValidStep(e, s) && s.block in e.body.reachable
    requires s.input == Entries(e, trace)[s.block]
    ensures IsRun(e, trace + [s])
    ensures Entries(e, trace + [s]) == JoinIntoSuccessors(Entries(e, trace), Successors(e, s.block), s.output)
  {
    var longer := trace + [s];
    assert longer[..|longer| - 1] == trace;
    forall i | 0 <= i < |longer| ensures StepOk(e, longer, i) {
      if i < |trace| {
        assert StepOk(e, trace, i);
        assert longer[..i] == trace[..i] && longer[i] == trace[i];
      } else {
        assert longer[..i] == trace;
      }
    }
  }

  /** A block whose entry state did not change stays settled; the one just run becomes settled. */
  lemma SettledAfter(e: Setting, trace: seq<Step>, s: Step, c: nat, entries': seq<Domain>)
    requires IsRun(e, trace) && ValidStep(e, s) && s.input == Entries(e, trace)[s.block]
    requires c < |e.body.blocks| && (c == s.block || Settled(e, trace, c))
    requires entries' == JoinIntoSuccessors(Entries(e, trace), Successors(e, s.block), s.output)
    requires entries' == Entries(e, trace + [s])
    requires entries'[c] == Entries(e, trace)[c]
    requires forall t | t in Successors(e, s.block) && t < |entries'| :: Leq(s.output, entries'[t])
    requires forall b | 0 <= b < |entries'| :: Leq(Entries(e, trace)[b], entries'[b])
    ensures Settled(e, trace + [s], c)
  {
    var longer := trace + [s];
    if c == s.block {
      assert longer[|trace|] == s;
      assert SettledBy(e, entries', longer[|trace|], c);
    } else {
      var i :| 0 <= i < |trace| && SettledBy(e, Entries(e, trace), trace[i], c);
      assert longer[i] == trace[i];
      forall t | t in Successors(e, c) && t < |entries'| ensures Leq(trace[i].output, entries'[t]) {
        LeqTransitive(trace[i].output, Entries(e, trace)[t], entries'[t]);
      }
      assert SettledBy(e, entries', longer[i], c);
    }
  }

  /** All reachable blocks that are not scheduled are settled after a step. */
  lemma SettledOutside(e: Setting, trace: seq<Step>, s: Step, entries: seq<Domain>, entries': seq<Domain>,
                       work: set<nat>, work': set<nat>)
    requires WellFormedBody(e.body) && IsRun(e, trace) && ValidStep(e, s)
    requires entries == Entries(e, trace) && s.input == entries[s.block]
    requires entries' == JoinIntoSuccessors(entries, Successors(e, s.block), s.output)
    requires entries' == Entries(e, trace + [s])
    requires forall c | c in e.body.reachable && c !in work :: Settled(e, trace, c)
    requires work - {s.block} <= work'
    requires forall b | 0 <= b < |entries| && b !in work' :: entries'[b] == entries[b]
    requires forall t | t in Successors(e, s.block) :: t < |entries'| && Leq(s.output, entries'[t])
    requires forall b | 0 <= b < |entries'| :: Leq(entries[b], entries'[b])
    ensures forall c | c in e.body.reachable && c !in work' :: Settled(e, trace + [s], c)
  {
    forall c | c in e.body.reachable && c !in work'
      ensures Settled(e, trace + [s], c)
    {
      SettledAfter(e, trace, s, c, entries');
    }
  }

  // ---------------------------------------------------------------------------------------
  // Path soundness

  /** A transfer per block; `None` is a panic. */
  type Transfer = (nat, Domain) -> Option<Domain>

  ghost predicate Monotone(f: Transfer) {
    forall b: nat, d, d' | Leq(d, d') && f(b, d).Some? && f(b, d').Some? :: Leq(f(b, d).value, f(b, d').value)
  }

  /** The recorded transfer did at least what `f` does. */
  ghost predicate AtLeast(f: Transfer, s: Step) {
    f(s.block, s.input).Some? && Leq(f(s.block, s.input).value, s.output)
  }

  /** The recorded transfer did no more than `f` does. */
  ghost predicate AtMost(f: Transfer, s: Step) {
    f(s.block, s.input).Some? && Leq(s.output, f(s.block, s.input).value)
  }

  ghost predicate IsPath(e: Setting, path: seq<nat>) {
    && path != [] && path[0] == 0
    && forall k | 0 <= k < |path| - 1 :: path[k + 1] in Successors(e, path[k])
  }

  /** The state accumulated from `bottom` by running the blocks of the path but the last one. */
  ghost function PathState(f: Transfer, bottom: Domain, path: seq<nat>): Option<Domain>
    requires path != []
    decreases |path|
  {
    if |path| == 1 then Some(bottom)
    else
      match PathState(f, bottom, path[..|path| - 1])
      case None => None
      case Some(d) => f(path[|path| - 2], d)
  }

  /** The path does not panic under `f`. */
  ghost predicate PathRuns(e: Setting, f: Transfer, path: seq<nat>) {
    && IsPath(e, path)
    && PathState(f, e.bottom, path).Some?
    && f(path[|path| - 1], PathState(f, e.bottom, path).value).Some?
  }

  ghost function AlongPath(e: Setting, f: Transfer, path: seq<nat>): Domain
    requires PathRuns(e, f, path)
  {
    f(path[|path| - 1], PathState(f, e.bottom, path).value).value
  }

  /** The transfer started from the entry state its block has in the end. */
  ghost predicate IsFinalVisit(e: Setting, trace: seq<Step>, i: nat)
    requires i < |trace|
  {
    trace[i].block < |e.body.blocks| && trace[i].input == Entries(e, trace)[trace[i].block]
  }

  /** All final visits did at least what `f` does; what earlier ones found is not asked. */
  ghost predicate FinallyAtLeast(e: Setting, trace: seq<Step>, f: Transfer) {
    forall i | 0 <= i < |trace| && IsFinalVisit(e, trace, i) :: AtLeast(f, trace[i])
  }

  lemma {:induction false} PathStaysBelowEntries(e: Setting, trace: seq<Step>, f: Transfer, path: seq<nat>)
    requires IsFixpoint(e, trace) && Monotone(f) && FinallyAtLeast(e, trace, f)
    requires IsPath(e, path) && PathState(f, e.bottom, path).Some?
    ensures path[|path| - 1] in e.body.reachable
    ensures Leq(PathState(f, e.bottom, path).value, Entries(e, trace)[path[|path| - 1]])
    decreases |path|
  {
    if |path| == 1 {
      EntriesShape(e, trace, 0);
    } else {
      var init := path[..|path| - 1];
      PathStaysBelowEntries(e, trace, f, init);
      var b, t := init[|init| - 1], path[|path| - 1];
      assert path[|path| - 2 + 1] in Successors(e, path[|path| - 2]);
      assert Settled(e, trace, b);
      var i :| 0 <= i < |trace| && SettledBy(e, Entries(e, trace), trace[i], b);
      var d := PathState(f, e.bottom, init).value;
      assert IsFinalVisit(e, trace, i) && AtLeast(f, trace[i]);
      LeqTransitive(f(b, d).value, f(b, trace[i].input).value, trace[i].output);
      LeqTransitive(f(b, d).value, trace[i].output, Entries(e, trace)[t]);
    }
  }

  /** Whatever a path through the body accumulates is contained in the summary. */
  lemma PathSoundness(e: Setting, trace: seq<Step>, ends: seq<Step>, f: Transfer, path: seq<nat>)
    requires IsFixpoint(e, trace) && AreBlockEnds(e, trace, ends) && Monotone(f)
    requires FinallyAtLeast(e, trace, f) && forall b | 0 <= b < |ends| :: AtLeast(f, ends[b])
    requires PathRuns(e, f, path)
    ensures Leq(AlongPath(e, f, path), JoinAll(ends))
  {
    PathStaysBelowEntries(e, trace, f, path);
    var b, d := path[|path| - 1], PathState(f, e.bottom, path).value;
    assert AtLeast(f, ends[b]);
    LeqTransitive(f(b, d).value, f(b, ends[b].input).value, ends[b].output);
    forall c | 0 <= c < |ends| ensures Leq(e.bottom, ends[c].output) {
      EndShape(e, trace, ends, c);
    }
    JoinAllBounds(e.bottom, ends, b);
    LeqTransitive(f(b, d).value, ends[b].output, JoinAll(ends));
  }

  // ---------------------------------------------------------------------------------------
  // Least solution and order independence

  /** A family of block states above `bottom` that every transfer and edge keeps. */
  ghost predicate IsSolution(e: Setting, f: Transfer, family: seq<Domain>) {
    && |family| == |e.body.blocks|
    && (forall b | 0 <= b < |family| :: Leq(e.bottom, family[b]))
    && forall b | b in e.body.reachable && b < |family| ::
         && f(b, family[b]).Some?
         && forall t | t in Successors(e, b) && t < |family| :: Leq(f(b, family[b]).value, family[t])
  }

  lemma JoinBelow(a: Domain, b: Domain, top: Domain)
    requires Leq(a, top) && Leq(b, top)
    ensures Leq(JoinDomains(a, b), top)
  {
    assert SameShape(a, b);
    JoinIsLeastUpperBound(a, b);
  }

  /** A transfer that does no more than `f`, from below a solution, stays below it. */
  lemma StepStaysBelow(e: Setting, f: Transfer, family: seq<Domain>, s: Step, b: nat)
    requires Monotone(f) && IsSolution(e, f, family) && AtMost(f, s)
    requires s.block in e.body.reachable && s.block < |family| && Leq(s.input, family[s.block])
    requires b in Successors(e, s.block) && b < |family|
    ensures Leq(s.output, family[b])
  {
    var o, o' := f(s.block, s.input).value, f(s.block, family[s.block]).value;
    LeqTransitive(s.output, o, o');
    LeqTransitive(s.output, o', family[b]);
  }

  /** A run never leaves a solution, at any point and in whatever order. */
  lemma {:induction false} RunStaysBelowSolutions(e: Setting, trace: seq<Step>, f: Transfer, family: seq<Domain>, b: nat)
    requires IsRun(e, trace) && Monotone(f) && IsSolution(e, f, family) && b < |family|
    requires forall i | 0 <= i < |trace| :: AtMost(f, trace[i])
    ensures Leq(Entries(e, trace)[b], family[b])
    decreases |trace|
  {
    if trace != [] {
      var n := |trace| - 1;
      var init, last := trace[..n], trace[n];
      assert StepOk(e, trace, n);
      PrefixIsRun(e, trace, n);
      assert forall i | 0 <= i < n :: init[i] == trace[i];
      RunStaysBelowSolutions(e, init, f, family, b);
      LastStep(e, trace, b);
      if b in Successors(e, last.block) {
        RunStaysBelowSolutions(e, init, f, family, last.block);
        StepStaysBelow(e, f, family, last, b);
        JoinBelow(Entries(e, init)[b], last.output, family[b]);
      }
    }
  }

  /** The transfer with every call's effects held fixed, one list per block. */
  function FixedTransfer(e: Setting, effects: nat -> seq<CallEffect>): Transfer {
    (b: nat, d: Domain) =>
      if b < |e.body.blocks| then BlockEffect(e.tcx, e.body, e.substs, d, b, effects(b)) else None
  }

  lemma FixedTransferMonotone(e: Setting, effects: nat -> seq<CallEffect>)
    ensures Monotone(FixedTransfer(e, effects))
  {
    var f := FixedTransfer(e, effects);
    forall b: nat, d, d' | Leq(d, d') && f(b, d).Some? && f(b, d').Some?
      ensures Leq(f(b, d).value, f(b, d').value)
    {
      BlockMonotone(e.tcx, e.body, e.substs, d, d', b, effects(b));
    }
  }

  ghost predicate SameEffects(es: seq<CallEffect>, es': seq<CallEffect>) {
    forall x :: x in es <==> x in es'
  }

  /** Every recorded transfer found the call of its block doing `effects`, in whatever order. */
  ghost predicate HasFixedEffects(steps: seq<Step>, effects: nat -> seq<CallEffect>) {
    forall i | 0 <= i < |steps| :: SameEffects(steps[i].effects, effects(steps[i].block))
  }

  lemma FixedStep(e: Setting, effects: nat -> seq<CallEffect>, s: Step)
    requires ValidStep(e, s) && SameEffects(s.effects, effects(s.block))
    ensures FixedTransfer(e, effects)(s.block, s.input) == Some(s.output)
    ensures AtLeast(FixedTransfer(e, effects), s) && AtMost(FixedTransfer(e, effects), s)
  {
    var mid := AfterStatements(e.tcx, e.body, e.substs, s.input, e.body.blocks[s.block].statements).value;
    EffectsIgnoreOrder(e.tcx, e.body, mid, Destination(e.body.blocks[s.block].terminator), s.effects, effects(s.block));
  }

  /** With call effects held fixed, the engine's result is a solution, and the least one. */
  lemma FixpointIsLeastSolution(e: Setting, trace: seq<Step>, effects: nat -> seq<CallEffect>)
    requires IsFixpoint(e, trace) && HasFixedEffects(trace, effects)
    ensures IsSolution(e, FixedTransfer(e, effects), Entries(e, trace))
    ensures forall family, b: nat | IsSolution(e, FixedTransfer(e, effects), family) && b < |family| ::
              Leq(Entries(e, trace)[b], family[b])
  {
    var f := FixedTransfer(e, effects);
    var entries := Entries(e, trace);
    FixedTransferMonotone(e, effects);
    forall i | 0 <= i < |trace| ensures AtMost(f, trace[i]) {
      assert StepOk(e, trace, i);
      FixedStep(e, effects, trace[i]);
    }
    forall b | 0 <= b < |entries| ensures Leq(e.bottom, entries[b]) {
      EntriesShape(e, trace, b);
    }
    forall b | b in e.body.reachable && b < |entries|
      ensures f(b, entries[b]).Some?
      ensures forall t | t in Successors(e, b) && t < |entries| :: Leq(f(b, entries[b]).value, entries[t])
    {
      assert Settled(e, trace, b);
      var i :| 0 <= i < |trace| && SettledBy(e, entries, trace[i], b);
      assert StepOk(e, trace, i);
      FixedStep(e, effects, trace[i]);
    }
    forall family, b: nat | IsSolution(e, f, family) && b < |family|
      ensures Leq(entries[b], family[b])
    {
      RunStaysBelowSolutions(e, trace, f, family, b);
    }
  }

  lemma {:induction false} JoinAllDetermined(ends: seq<Step>, ends': seq<Step>)
    requires |ends| == |ends'| && ends != []
    requires forall b | 0 <= b < |ends| :: ends[b].output == ends'[b].output
    ensures JoinAll(ends) == JoinAll(ends')
    decreases |ends|
  {
    if |ends| > 1 {
      JoinAllDetermined(ends[..|ends| - 1], ends'[..|ends| - 1]);
    }
  }

  /** Any two finished runs, whatever order they picked blocks in, end in the same block states
      and give the same summary. */
  lemma OrderIndependence(e: Setting, trace: seq<Step>, ends: seq<Step>, trace': seq<Step>, ends': seq<Step>,
                          effects: nat -> seq<CallEffect>)
    requires IsFixpoint(e, trace) && AreBlockEnds(e, trace, ends)
    requires IsFixpoint(e, trace') && AreBlockEnds(e, trace', ends')
    requires HasFixedEffects(trace, effects) && HasFixedEffects(trace', effects)
    requires HasFixedEffects(ends, effects) && HasFixedEffects(ends', effects)
    ensures Entries(e, trace) == Entries(e, trace')
    ensures JoinAll(ends) == JoinAll(ends')
  {
    FixpointIsLeastSolution(e, trace, effects);
    FixpointIsLeastSolution(e, trace', effects);
    forall b | 0 <= b < |e.body.blocks|
      ensures Entries(e, trace)[b] == Entries(e, trace')[b]
      ensures ends[b].output == ends'[b].output
    {
      LeqAntisymmetric(Entries(e, trace)[b], Entries(e, trace')[b]);
      FixedStep(e, effects, ends[b]);
      FixedStep(e, effects, ends'[b]);
    }
    JoinAllDetermined(ends, ends');
  }

  /** The call of each block did at least `effects` when the block was last visited and at its end.
      Earlier visits may have found less. */
  ghost predicate FinallyDid(e: Setting, trace: seq<Step>, ends: seq<Step>, effects: nat -> seq<CallEffect>) {
    && (forall i | 0 <= i < |trace| && IsFinalVisit(e, trace, i) :: EffectsWithin(effects(trace[i].block), trace[i].effects))
    && (forall b | 0 <= b < |ends| :: EffectsWithin(effects(b), ends[b].effects))
  }

  lemma StepDidAtLeast(e: Setting, effects: nat -> seq<CallEffect>, s: Step)
    requires ValidStep(e, s) && EffectsWithin(effects(s.block), s.effects)
    ensures AtLeast(FixedTransfer(e, effects), s)
  {
    var mid := AfterStatements(e.tcx, e.body, e.substs, s.input, e.body.blocks[s.block].statements).value;
    LeqReflexive(mid);
    FewerEffectsGiveLess(e.tcx, e.body, mid, mid, Destination(e.body.blocks[s.block].terminator), effects(s.block), s.effects);
  }

  lemma DidAtLeast(e: Setting, trace: seq<Step>, ends: seq<Step>, effects: nat -> seq<CallEffect>)
    requires IsRun(e, trace) && AreBlockEnds(e, trace, ends) && FinallyDid(e, trace, ends, effects)
    ensures Monotone(FixedTransfer(e, effects)) && FinallyAtLeast(e, trace, FixedTransfer(e, effects))
    ensures forall b | 0 <= b < |ends| :: AtLeast(FixedTransfer(e, effects), ends[b])
  {
    var f := FixedTransfer(e, effects);
    FixedTransferMonotone(e, effects);
    forall i | 0 <= i < |trace| && IsFinalVisit(e, trace, i) ensures AtLeast(f, trace[i]) {
      assert StepOk(e, trace, i);
      StepDidAtLeast(e, effects, trace[i]);
    }
    forall b | 0 <= b < |ends| ensures AtLeast(f, ends[b]) {
      StepDidAtLeast(e, effects, ends[b]);
    }
  }

  /** Path soundness for the body's own transfers: a path on which every call does no more than it
      was last recorded to do accumulates no more than the summary. */
  lemma PathSoundnessOfBody(e: Setting, trace: seq<Step>, ends: seq<Step>, effects: nat -> seq<CallEffect>, path: seq<nat>)
    requires IsFixpoint(e, trace) && AreBlockEnds(e, trace, ends) && FinallyDid(e, trace, ends, effects)
    requires PathRuns(e, FixedTransfer(e, effects), path)
    ensures Leq(AlongPath(e, FixedTransfer(e, effects), path), JoinAll(ends))
  {
    DidAtLeast(e, trace, ends, effects);
    PathSoundness(e, trace, ends, FixedTransfer(e, effects), path);
  }
}
