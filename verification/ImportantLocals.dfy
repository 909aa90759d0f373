/** Which locals of a callee depend on important locals of its caller. */
module ImportantLocals {
  import opened Options
  import opened Types
  import opened Mir

  /** What is asked of the compiler and of the information flow analysis: `dependents` are the
      locals of a body that depend on the given argument locals. */
  datatype FlowContext = FlowContext(
    isConstructor: DefId -> bool,
    isClosure: DefId -> bool,
    mirAvailable: DefId -> bool,
    argCount: DefId -> nat,
    dependents: (DefId, set<nat>) -> set<nat>)

  /** A bigger set of arguments has more dependents. */
  ghost predicate MonotoneFlow(cx: FlowContext) {
    forall did, a, b {:trigger cx.dependents(did, a), cx.dependents(did, b)} | a <= b ::
      cx.dependents(did, a) <= cx.dependents(did, b)
  }

  /** An argument depends on itself. */
  ghost predicate ExtensiveFlow(cx: FlowContext) {
    forall did, a {:trigger cx.dependents(did, a)} :: a <= cx.dependents(did, a)
  }

  /** The operand is a whole local. */
  function PlainLocal(op: Operand): Option<nat> {
    match op
    case Copy(p) => if p.proj == [] then Some(p.local) else None
    case Move(p) => if p.proj == [] then Some(p.local) else None
    case Constant(_) => None
  }

  /** The panic in `transition`: closures take themselves, and possibly a tuple of arguments. */
  predicate ConventionHolds(cx: FlowContext, call: FunctionCall) {
    cx.isClosure(call.DefIdOf()) && !cx.isConstructor(call.DefIdOf()) ==> |call.args| == 1 || |call.args| == 2
  }

  /** The locals of the first `n` arguments. */
  function ArgumentLocals(n: nat): (locals: set<nat>)
    ensures forall i :: i in locals <==> 1 <= i <= n
  {
    if n == 0 then {} else ArgumentLocals(n - 1) + {n}
  }

  /** The argument locals of the callee that become important. For a closure called with a packed
      tuple these are all of them, whatever the caller passes. */
  function ImportantTargets(cx: FlowContext, locals: set<nat>, call: FunctionCall): set<nat> {
    if cx.isClosure(call.DefIdOf()) then
      if |call.args| == 2 then ArgumentLocals(cx.argCount(call.DefIdOf())) else {1}
    else
      set i | 0 <= i < |call.args| && PlainLocal(call.args[i]).Some? && PlainLocal(call.args[i]).value in locals :: i + 1
  }

  function Spread(cx: FlowContext, did: DefId, targets: set<nat>): set<nat> {
    if cx.mirAvailable(did) then cx.dependents(did, targets) else targets
  }

  /** The important locals of the callee. */
  function Transition(cx: FlowContext, locals: set<nat>, call: FunctionCall): set<nat>
    requires ConventionHolds(cx, call)
  {
    if cx.isConstructor(call.DefIdOf()) then {}
    else Spread(cx, call.DefIdOf(), ImportantTargets(cx, locals, call))
  }

  /** `from_important_args`. */
  function FromImportantArgs(cx: FlowContext, args: set<nat>, did: DefId): set<nat> {
    cx.dependents(did, args)
  }

  /** More important locals in the caller give more in the callee. */
  lemma TransitionMonotone(cx: FlowContext, a: set<nat>, b: set<nat>, call: FunctionCall)
    requires MonotoneFlow(cx) && a <= b && ConventionHolds(cx, call)
    ensures Transition(cx, a, call) <= Transition(cx, b, call)
  {
    assert ImportantTargets(cx, a, call) <= ImportantTargets(cx, b, call);
  }

  /** The operand copies or moves the whole local `x`. */
  predicate PassesLocal(op: Operand, x: nat) {
    op == Copy(Place(x, [])) || op == Move(Place(x, []))
  }

  /** Position `i` of the call receives taint: by a tainted local that is copied or moved as a whole, or,
      for a closure, by the calling convention. */
  ghost predicate Receives(cx: FlowContext, tainted: set<nat>, call: FunctionCall, i: nat) {
    if cx.isClosure(call.DefIdOf()) then
      if |call.args| == 2 then i < cx.argCount(call.DefIdOf()) else |call.args| == 1 && i == 0
    else
      i < |call.args| && exists x :: x in tainted && PassesLocal(call.args[i], x)
  }

  /** What depends on argument `i` of a definition; where its body is not available, the argument alone. */
  function Entered(cx: FlowContext, did: DefId, i: nat): set<nat> {
    match cx.mirAvailable(did)
    case true => cx.dependents(did, {i + 1})
    case false => {i + 1}
  }

  lemma PlainLocalPasses(op: Operand, x: nat)
    ensures PlainLocal(op) == Some(x) <==> PassesLocal(op, x)
  {
    if PlainLocal(op) == Some(x) {
      assert op.place == Place(x, []);
    }
  }

  /** The important argument locals of the callee are exactly the receiving positions, counted from 1. */
  lemma TargetIsReceiver(cx: FlowContext, locals: set<nat>, call: FunctionCall, x: nat)
    requires ConventionHolds(cx, call) && !cx.isConstructor(call.DefIdOf())
    ensures x in ImportantTargets(cx, locals, call) <==> x > 0 && Receives(cx, locals, call, x - 1)
  {
    if x > 0 && !cx.isClosure(call.DefIdOf()) && x - 1 < |call.args| {
      forall y: nat ensures PlainLocal(call.args[x - 1]) == Some(y) <==> PassesLocal(call.args[x - 1], y) {
        PlainLocalPasses(call.args[x - 1], y);
      }
      assert x - 1 + 1 == x;
    }
  }

  /** Whatever the flow analysis finds: a constructor has no important locals; of any other callee they are the
      dependents of the receiving positions, or those positions where its body is not available. */
  lemma TransitionExactly(cx: FlowContext, locals: set<nat>, call: FunctionCall, received: set<nat>)
    requires cx.isClosure(call.DefIdOf()) ==> cx.isConstructor(call.DefIdOf()) || |call.args| == 1 || |call.args| == 2
    requires forall x :: x in received <==> x > 0 && Receives(cx, locals, call, x - 1)
    ensures cx.isConstructor(call.DefIdOf()) ==> Transition(cx, locals, call) == {}
    ensures !cx.isConstructor(call.DefIdOf()) && cx.mirAvailable(call.DefIdOf()) ==>
              Transition(cx, locals, call) == cx.dependents(call.DefIdOf(), received)
    ensures !cx.isConstructor(call.DefIdOf()) && !cx.mirAvailable(call.DefIdOf()) ==> Transition(cx, locals, call) == received
  {
    if !cx.isConstructor(call.DefIdOf()) {
      forall x: nat ensures x in ImportantTargets(cx, locals, call) <==> x in received {
        TargetIsReceiver(cx, locals, call, x);
      }
      assert ImportantTargets(cx, locals, call) == received;
    }
  }

  /** What depends on a receiving argument alone is important in the callee. */
  lemma ReceivedTaintIsImportant(cx: FlowContext, tainted: set<nat>, locals: set<nat>, call: FunctionCall, i: nat)
    requires MonotoneFlow(cx) && tainted <= locals && ConventionHolds(cx, call)
    requires !cx.isConstructor(call.DefIdOf()) && Receives(cx, tainted, call, i)
    ensures Entered(cx, call.DefIdOf(), i) <= Transition(cx, locals, call)
  {
    assert Receives(cx, locals, call, i);
    TargetIsReceiver(cx, locals, call, i + 1);
    assert {i + 1} <= ImportantTargets(cx, locals, call);
  }

  /** The dependents of several arguments are those of each. */
  ghost predicate DistributiveFlow(cx: FlowContext) {
    && (forall did {:trigger cx.dependents(did, {})} :: cx.dependents(did, {}) == {})
    && forall did, a, b {:trigger cx.dependents(did, a), cx.dependents(did, b)} ::
         cx.dependents(did, a + b) == cx.dependents(did, a) + cx.dependents(did, b)
  }

  lemma {:induction false} SpreadsFromOne(cx: FlowContext, did: DefId, targets: set<nat>, x: nat)
    requires DistributiveFlow(cx)
    ensures x in Spread(cx, did, targets) <==> exists t :: t in targets && x in Spread(cx, did, {t})
    decreases targets
  {
    if targets == {} {
      assert cx.dependents(did, {}) == {};
    } else {
      var t :| t in targets;
      var rest := targets - {t};
      assert rest + {t} == targets;
      SpreadsFromOne(cx, did, rest, x);
      assert cx.dependents(did, rest + {t}) == cx.dependents(did, rest) + cx.dependents(did, {t});
    }
  }

  /** Argument `i` of the call received taint, and `x` depends on it. */
  ghost predicate DependsOnReceiver(cx: FlowContext, locals: set<nat>, call: FunctionCall, x: nat, i: nat) {
    Receives(cx, locals, call, i) && x in Entered(cx, call.DefIdOf(), i)
  }

  /** Taint in the callee can be traced back, and all of it: a local of the callee is important exactly
      when it depends on a single argument that received taint from the caller. */
  lemma ImportantExactlyByReceivedTaint(cx: FlowContext, locals: set<nat>, call: FunctionCall, x: nat)
    requires DistributiveFlow(cx) && ConventionHolds(cx, call)
    ensures x in Transition(cx, locals, call) <==>
            !cx.isConstructor(call.DefIdOf()) && exists i: nat :: DependsOnReceiver(cx, locals, call, x, i)
  {
    var did := call.DefIdOf();
    if !cx.isConstructor(did) {
      SpreadsFromOne(cx, did, ImportantTargets(cx, locals, call), x);
      if x in Transition(cx, locals, call) {
        var t :| t in ImportantTargets(cx, locals, call) && x in Spread(cx, did, {t});
        TargetIsReceiver(cx, locals, call, t);
        assert Spread(cx, did, {t}) == Entered(cx, did, t - 1);
        assert DependsOnReceiver(cx, locals, call, x, t - 1);
      }
      if i: nat :| DependsOnReceiver(cx, locals, call, x, i) {
        TargetIsReceiver(cx, locals, call, i + 1);
        assert i + 1 in ImportantTargets(cx, locals, call);
      }
    }
  }

  /** Taints of a caller do not interact: what two sets of locals make important in a callee is what
      each of them does. A closure's arguments are important whatever the caller passes. */
  lemma TransitionDistributes(cx: FlowContext, a: set<nat>, b: set<nat>, call: FunctionCall)
    requires DistributiveFlow(cx) && ConventionHolds(cx, call)
    ensures Transition(cx, a + b, call) == Transition(cx, a, call) + Transition(cx, b, call)
    ensures cx.isClosure(call.DefIdOf()) ==> Transition(cx, a, call) == Transition(cx, b, call)
  {
    forall x: nat
      ensures x in Transition(cx, a + b, call) <==> x in Transition(cx, a, call) || x in Transition(cx, b, call)
    {
      ImportantExactlyByReceivedTaint(cx, a, call, x);
      ImportantExactlyByReceivedTaint(cx, b, call, x);
      ImportantExactlyByReceivedTaint(cx, a + b, call, x);
      forall i: nat
        ensures DependsOnReceiver(cx, a + b, call, x, i) <==> DependsOnReceiver(cx, a, call, x, i) || DependsOnReceiver(cx, b, call, x, i)
      {
      }
    }
  }

  /** The origin starts with what depends on any one of its important arguments. */
  lemma {:induction false} ImportantArgsExactly(cx: FlowContext, args: set<nat>, did: DefId, x: nat)
    requires DistributiveFlow(cx)
    ensures x in FromImportantArgs(cx, args, did) <==> exists a :: a in args && x in cx.dependents(did, {a})
    decreases args
  {
    if args == {} {
      assert cx.dependents(did, {}) == {};
    } else {
      var a :| a in args;
      var rest := args - {a};
      assert rest + {a} == args;
      ImportantArgsExactly(cx, rest, did, x);
      assert cx.dependents(did, rest + {a}) == cx.dependents(did, rest) + cx.dependents(did, {a});
    }
  }
}
