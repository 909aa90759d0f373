/** Tracked types against the types values really have: a tracked type admits the actual type of a
    value, and the operations on tracked types follow the actual types, except where a type that
    hides something is rebuilt from a declaration. */
module TypeSoundness {
  import opened Options
  import opened Types
  import opened TrackedTypes
  import opened Mir
  import opened Domains
  import opened CollectorDomains
  import opened Transfers
  import opened ClosureStorage
  import opened Resolution

  /** A value of type `ty` may be where `t` is tracked. */
  predicate Admits(t: TrackedTy, ty: Ty) {
    match t
    case Present(x) => ty == x
    case Erased(deps) => ty in deps
  }

  lemma BelowAdmits(a: TrackedTy, b: TrackedTy, ty: Ty)
    requires Below(a, b) && Admits(a, ty)
    ensures Admits(b, ty)
  {
  }

  /** Mapping loses the actual type exactly when a `Present` type is turned into one that hides something. */
  lemma MapAdmitsExactly(t: TrackedTy, f: Ty -> Ty, ty: Ty)
    requires Admits(t, ty)
    ensures Admits(Map(t, f), f(ty)) <==> t.Erased? || !ContainsErased(f(ty))
  {
  }

  /** A packed tuple admits the tuple of the actual types, whatever mixture of shapes was packed. */
  lemma PackAdmits(ops: seq<TrackedTy>, tys: seq<Ty>)
    requires |ops| == |tys| && forall i | 0 <= i < |ops| :: Tracked(ops[i]) && Admits(ops[i], tys[i])
    ensures Admits(Pack(ops), Ty(Tuple, tys))
  {
    if AllPresent(ops) {
      assert tys == seq(|ops|, i requires 0 <= i < |ops| => assert ops[i].Present?; ops[i].ty);
      forall i | 0 <= i < |tys| ensures !ContainsErased(tys[i]) {
        assert Tracked(ops[i]);
      }
      TupleHidesNothing(tys);
    } else {
      ProductIsAllChoices(SlotsOf(ops), tys);
    }
  }

  // ---------------------------------------------------------------------------------------
  // Rvalues

  /** The actual types of the places of a frame. */
  type RealTypes = Place -> Ty

  function RealOperand(actual: RealTypes, op: Operand): Ty {
    match op
    case Constant(ty) => ty
    case Copy(p) => actual(p)
    case Move(p) => actual(p)
  }

  /** The cast leaves the value the type it has underneath. */
  predicate Carries(kind: CastKind, ty: Ty) {
    kind.Coercion? || (kind.Transmute? && ty.head.FnPtr?)
  }

  /** The actual type of an rvalue. */
  function RealRvalue(tcx: Tcx, substs: seq<Ty>, actual: RealTypes, rvalue: Rvalue): Option<Ty> {
    match rvalue
    case Use(op) => Some(RealOperand(actual, op))
    case Repeat(op, count) => Some(Ty(Array(count), [RealOperand(actual, op)]))
    case ThreadLocalRef(ty) => Some(ty)
    case RefOf(mutbl, p) => Some(RefTo(mutbl, actual(p)))
    case AddressOf(mutbl, p) => Some(Ty(RawPtr(mutbl), [actual(p)]))
    case Len => Some(USIZE)
    case Cast(kind, op, ty) =>
      Some(if Carries(kind, ty) then RealOperand(actual, op) else ty)
    case BinaryOp(op, lhs, _) => Some(if op.Compare? then BOOL else RealOperand(actual, lhs))
    case CheckedBinaryOp(op, lhs, _) =>
      Some(Ty(Tuple, [if op.Compare? then BOOL else RealOperand(actual, lhs), BOOL]))
    case UnaryOp(op) => Some(RealOperand(actual, op))
    case Discriminant(p) => Some(tcx.discriminantTy(actual(p)))
    case NullaryOp => Some(USIZE)
    case Aggregate(kind, ops) =>
      (match kind
       case ArrayOf(ty) => Some(Ty(Array(|ops|), [ty]))
       case TupleOf => Some(Ty(Tuple, seq(|ops|, i requires 0 <= i < |ops| => RealOperand(actual, ops[i]))))
       case AdtOf(ty) => Some(Subst(ty, substs))
       case ClosureOf(ty) => Some(ty)
       case GeneratorOf => None)
    case ShallowInitBox(ty) => Some(tcx.boxOf(ty))
    case CopyForDeref(p) => Some(actual(p))
  }

  /** The places and operands an rvalue takes its type from. */
  function TypedOperands(rvalue: Rvalue): seq<Operand> {
    match rvalue
    case Use(op) => [op]
    case Repeat(op, _) => [op]
    case RefOf(_, p) => [Copy(p)]
    case AddressOf(_, p) => [Copy(p)]
    case Cast(kind, op, ty) => if Carries(kind, ty) then [op] else []
    case BinaryOp(op, lhs, _) => if op.Compare? then [] else [lhs]
    case CheckedBinaryOp(op, lhs, _) => if op.Compare? then [] else [lhs]
    case UnaryOp(op) => [op]
    case Discriminant(p) => [Copy(p)]
    case Aggregate(kind, ops) => if kind.TupleOf? then ops else []
    case CopyForDeref(p) => [Copy(p)]
    case _ => []
  }

  /** A place operand's tracked type admits its actual type. Of constants nothing is asked. */
  ghost predicate OperandAdmitted(tcx: Tcx, body: Body, d: Domain, actual: RealTypes, op: Operand) {
    op.Constant? ||
    (Tracked(OperandTracked(tcx, body, d, op)) && Admits(OperandTracked(tcx, body, d, op), RealOperand(actual, op)))
  }

  /** Of a constant whose type hides something nothing is tracked. */
  predicate HidingConstant(op: Operand) {
    op.Constant? && ContainsErased(op.ty)
  }

  predicate TakesHidingConstant(rvalue: Rvalue) {
    exists i | 0 <= i < |TypedOperands(rvalue)| :: HidingConstant(TypedOperands(rvalue)[i])
  }

  /** The tracked type is rebuilt from a type instead of being carried along as a set. */
  predicate Rebuilt(tcx: Tcx, body: Body, d: Domain, rvalue: Rvalue) {
    match rvalue
    case Repeat(op, _) => OperandTracked(tcx, body, d, op).Present?
    case RefOf(_, p) => PlaceTracked(tcx, body, d, p).Present?
    case AddressOf(_, p) => PlaceTracked(tcx, body, d, p).Present?
    case Discriminant(p) => PlaceTracked(tcx, body, d, p).Present?
    case CheckedBinaryOp(op, lhs, _) => op.Compare? || OperandTracked(tcx, body, d, lhs).Present?
    case Cast(kind, _, ty) => !Carries(kind, ty) && !kind.Conversion?
    case Aggregate(kind, _) => !kind.TupleOf?
    case ThreadLocalRef(_) => true
    case ShallowInitBox(_) => true
    case _ => false
  }

  /** A conversion is tracked with the types of its operand, and the type it makes is none of them. */
  predicate ConvertsAway(tcx: Tcx, body: Body, d: Domain, rvalue: Rvalue) {
    rvalue.Cast? && rvalue.kind.Conversion? && rvalue.ty !in TypesOf(OperandTracked(tcx, body, d, rvalue.operand))
  }

  /** Nothing on the way to a value of type `ty` loses the type: no constant that hides something, no
      rebuilding of a type that does, and no conversion away from what is tracked. */
  predicate KeepsType(tcx: Tcx, body: Body, d: Domain, rvalue: Rvalue, ty: Ty) {
    && !TakesHidingConstant(rvalue)
    && !(Rebuilt(tcx, body, d, rvalue) && ContainsErased(ty))
    && !ConvertsAway(tcx, body, d, rvalue)
  }

  lemma OperandAdmittedExactly(tcx: Tcx, body: Body, d: Domain, actual: RealTypes, op: Operand)
    requires OperandAdmitted(tcx, body, d, actual, op)
    ensures Tracked(OperandTracked(tcx, body, d, op))
    ensures Admits(OperandTracked(tcx, body, d, op), RealOperand(actual, op)) <==> !HidingConstant(op)
    ensures HidingConstant(op) ==> OperandTracked(tcx, body, d, op) == Erased({})
  {
  }

  /** Packing operands one of which tracks nothing loses everything. */
  lemma TupleAdmitsExactly(tcx: Tcx, body: Body, d: Domain, actual: RealTypes, ops: seq<Operand>)
    requires forall i | 0 <= i < |ops| :: OperandAdmitted(tcx, body, d, actual, ops[i])
    ensures var tys := seq(|ops|, i requires 0 <= i < |ops| => RealOperand(actual, ops[i]));
            Admits(Pack(OperandsTracked(tcx, body, d, ops)), Ty(Tuple, tys)) <==>
            forall i | 0 <= i < |ops| :: !HidingConstant(ops[i])
  {
    var tys := seq(|ops|, i requires 0 <= i < |ops| => RealOperand(actual, ops[i]));
    var tracked := OperandsTracked(tcx, body, d, ops);
    forall i | 0 <= i < |ops|
      ensures Tracked(tracked[i]) && (Admits(tracked[i], tys[i]) <==> !HidingConstant(ops[i]))
      ensures HidingConstant(ops[i]) ==> tracked[i] == Erased({})
    {
      OperandAdmittedExactly(tcx, body, d, actual, ops[i]);
    }
    if k :| 0 <= k < |ops| && HidingConstant(ops[k]) {
      PackNothing(tracked, k);
    } else {
      PackAdmits(tracked, tys);
    }
  }

  /** If the tracked types of the places an rvalue reads admit their actual types, then the rvalue's
      tracked type admits its actual type exactly unless a constant it takes its type from hides
      something, or it is rebuilt and hides something, or it is converted to a type not tracked for its
      operand. Taking the address of a place of known type, for instance, yields a raw pointer of which
      nothing is tracked, and converting a known type to another always loses the other. */
  lemma RvalueAdmitsExactly(tcx: Tcx, body: Body, substs: seq<Ty>, d: Domain, actual: RealTypes, rvalue: Rvalue)
    requires RvalueTracked(tcx, body, substs, d, rvalue).Some? && RealRvalue(tcx, substs, actual, rvalue).Some?
    requires forall i | 0 <= i < |TypedOperands(rvalue)| :: OperandAdmitted(tcx, body, d, actual, TypedOperands(rvalue)[i])
    ensures var t, ty := RvalueTracked(tcx, body, substs, d, rvalue).value, RealRvalue(tcx, substs, actual, rvalue).value;
            Admits(t, ty) <==> KeepsType(tcx, body, d, rvalue, ty)
  {
    if TypedOperands(rvalue) != [] {
      OperandAdmittedExactly(tcx, body, d, actual, TypedOperands(rvalue)[0]);
    }
    match rvalue
    case Repeat(op, count) =>
      if !HidingConstant(op) {
        MapAdmitsExactly(OperandTracked(tcx, body, d, op), ty => Ty(Array(count), [ty]), RealOperand(actual, op));
      }
    case RefOf(mutbl, p) => MapAdmitsExactly(PlaceTracked(tcx, body, d, p), ty => RefTo(mutbl, ty), actual(p));
    case AddressOf(mutbl, p) => MapAdmitsExactly(PlaceTracked(tcx, body, d, p), ty => Ty(RawPtr(mutbl), [ty]), actual(p));
    case Aggregate(kind, ops) =>
      if kind.TupleOf? {
        TupleAdmitsExactly(tcx, body, d, actual, ops);
        assert TakesHidingConstant(rvalue) <==> exists i | 0 <= i < |ops| :: HidingConstant(ops[i]);
      }
    case _ =>
  }

  // ---------------------------------------------------------------------------------------
  // Assignments, arguments and returned values

  /** The assigned place admits the assigned actual type; where the place tracks a set, so do all
      places inside it that track one. */
  lemma UpdateAdmits(tcx: Tcx, body: Body, d: Domain, p: Place, t: TrackedTy, ty: Ty, q: Place)
    requires Update(tcx, body, d, p, t).Some? && Admits(t, ty)
    requires d.places[p].Present? ==> d.places[p].ty == ty
    requires q in d.places && q in tcx.interiorPaths(body, p)
    ensures Admits(Update(tcx, body, d, p, t).value.places[p], ty)
    ensures d.places[p].Erased? && d.places[q].Erased? ==>
              ProjectTy(tcx, ty, VariantOf(p), Tail(p, q)).Some? &&
              Admits(Update(tcx, body, d, p, t).value.places[q], ProjectTy(tcx, ty, VariantOf(p), Tail(p, q)).value)
  {
    var joined := Join(d.places[p], t);
    assert Projectable(tcx, body, p, joined);
    assert ProjectTracked(tcx, joined, p, q).Some?;
    if d.places[p].Erased? {
      assert ty in joined.deps;
    }
  }

  /** One assignment: a destination that tracks one type admits that one and no other; one that tracks a
      set admits the assigned actual type exactly if it did so before or nothing on the way loses it. */
  lemma AssignmentAdmitsExactly(tcx: Tcx, body: Body, substs: seq<Ty>, d: Domain, actual: RealTypes, p: Place, rvalue: Rvalue)
    requires StatementEffect(tcx, body, substs, d, Assign(p, rvalue)).Some? && RealRvalue(tcx, substs, actual, rvalue).Some?
    requires forall i | 0 <= i < |TypedOperands(rvalue)| :: OperandAdmitted(tcx, body, d, actual, TypedOperands(rvalue)[i])
    ensures var d', ty := StatementEffect(tcx, body, substs, d, Assign(p, rvalue)).value, RealRvalue(tcx, substs, actual, rvalue).value;
            && p in d.places && p in d'.places
            && (Admits(d'.places[p], ty) <==>
                if d.places[p].Present? then d.places[p].ty == ty else ty in d.places[p].deps || KeepsType(tcx, body, d, rvalue, ty))
  {
    RvalueAdmitsExactly(tcx, body, substs, d, actual, rvalue);
    UpdatePropagates(tcx, body, d, p, RvalueTracked(tcx, body, substs, d, rvalue).value);
  }

  /** Merging keeps the actual argument types, provided the declared types that hide nothing are right. */
  lemma MergeAdmits(inferred: seq<TrackedTy>, provided: seq<TrackedTy>, tys: seq<Ty>)
    requires |inferred| == |tys| && forall i | 0 <= i < |tys| :: Admits(inferred[i], tys[i])
    requires forall i | 0 <= i < |provided| && i < |tys| :: provided[i].Present? ==> provided[i].ty == tys[i]
    ensures |Merge(inferred, provided)| == |tys|
    ensures forall i | 0 <= i < |tys| :: Admits(Merge(inferred, provided)[i], tys[i])
    ensures |provided| == |tys| ==> forall i | 0 <= i < |tys| && provided[i].Present? :: Merge(inferred, provided)[i].Present?
  {
  }

  /** A returned value's actual type is admitted by what the caller is told. */
  lemma ReturnAdmits(tcx: Tcx, body: Body, d: Domain, ty: Ty)
    requires RETURN_PLACE in d.places && Admits(d.places[RETURN_PLACE], ty)
    requires !ContainsErased(tcx.placeTy(body, RETURN_PLACE)) ==> tcx.placeTy(body, RETURN_PLACE) == ty
    ensures ReturnType(tcx, body, d.places).Some? && Admits(ReturnType(tcx, body, d.places).value, ty)
    ensures !ContainsErased(tcx.placeTy(body, RETURN_PLACE)) ==> ReturnType(tcx, body, d.places) == Some(Present(ty))
  {
  }

  /** A closure call packs its arguments into a tuple and the callee spreads them again: the closure
      sees exactly the tracked types the caller packed, unless some argument of several tracks
      nothing. */
  lemma ClosureCallRestoresArguments(closure: TrackedTy, ops: seq<TrackedTy>)
    requires forall i | 0 <= i < |ops| :: Tracked(ops[i])
    requires |ops| == 1 || forall i | 0 <= i < |ops| :: TypesOf(ops[i]) != {}
    ensures var args := AsClosureArgs([closure, Pack(ops)]);
            && args.Some? && |args.value| == 1 + |ops| && args.value[0] == closure
            && forall i | 0 <= i < |ops| :: TypesOf(args.value[1 + i]) == TypesOf(ops[i])
  {
    PackThenSpread(ops);
    var fields := SpreadTuple(Pack(ops)).value;
    assert AsClosureArgs([closure, Pack(ops)]).value == [closure] + fields;
  }

  /** Spreading a tuple that admits the actual tuple type gives fields that admit the field types,
      exactly unless the tuple type was known and the field hides something. */
  lemma SpreadAdmitsExactly(t: TrackedTy, tys: seq<Ty>, i: nat)
    requires Admits(t, Ty(Tuple, tys)) && SpreadTuple(t).Some? && i < |tys|
    ensures |SpreadTuple(t).value| == |tys|
    ensures Admits(SpreadTuple(t).value[i], tys[i]) <==> t.Erased? || !ContainsErased(tys[i])
  {
    if t.Erased? {
      assert |Ty(Tuple, tys).args| == |tys|;
    }
  }

  /** The declared argument types that hide nothing are the actual ones, from position `from` on. */
  ghost predicate DeclarationsRight(tcx: Tcx, instance: Instance, tys: seq<Ty>, from: nat) {
    DeclaredArgs(tcx, instance).Some? &&
    var declared := DeclaredArgs(tcx, instance).value;
    forall i | from <= i < |declared| && i < from + |tys| :: declared[i].Present? ==> declared[i].ty == tys[i - from]
  }

  /** A regular callee is analyzed with argument types that admit the actual ones. */
  lemma RegularArgumentsAdmit(tcx: Tcx, instance: Instance, args: seq<TrackedTy>, closures: map<DefId, ClosureInfo>, tys: seq<Ty>)
    requires !tcx.isClosure(instance.did) && Assemble(tcx, instance, args, closures).Fine?
    requires |args| == |tys| && forall i | 0 <= i < |tys| :: Admits(args[i], tys[i])
    requires DeclarationsRight(tcx, instance, tys, 0)
    ensures var g := Assemble(tcx, instance, args, closures).value;
            g.instance == instance && |g.trackedArgs| == |tys| &&
            forall i | 0 <= i < |tys| :: Admits(g.trackedArgs[i], tys[i])
  {
    MergeAdmits(args, DeclaredArgs(tcx, instance).value, tys);
  }

  /** A closure is analyzed with argument types, after itself, that admit the types packed in the
      tuple it is called with; but of a field that hides something in a tuple of known type. */
  lemma ClosureArgumentsAdmit(tcx: Tcx, instance: Instance, args: seq<TrackedTy>, closures: map<DefId, ClosureInfo>, tys: seq<Ty>)
    requires tcx.isClosure(instance.did) && Assemble(tcx, instance, args, closures).Fine?
    requires |args| == 2 && Admits(args[1], Ty(Tuple, tys))
    requires DeclarationsRight(tcx, instance, tys, 1)
    ensures var g := Assemble(tcx, instance, args, closures).value;
            && g.ClosureFunction? && instance.did in closures && g.info == closures[instance.did]
            && |g.trackedArgs| == 1 + |tys|
            && forall i | 0 <= i < |tys| && (args[1].Erased? || !ContainsErased(tys[i])) :: Admits(g.trackedArgs[1 + i], tys[i])
  {
    var g := Assemble(tcx, instance, args, closures).value;
    var inferred, declared := AsClosureArgs(args).value, DeclaredArgs(tcx, instance).value;
    SpreadHasLength(args[1], tys);
    assert |inferred| == 1 + |tys| && g.trackedArgs == Merge(inferred, declared);
    forall i | 0 <= i < |tys| && (args[1].Erased? || !ContainsErased(tys[i]))
      ensures Admits(g.trackedArgs[1 + i], tys[i])
    {
      SpreadAdmitsExactly(args[1], tys, i);
      assert inferred[1 + i] == SpreadTuple(args[1]).value[i];
      MergeAdmitsAt(inferred, declared, 1 + i, tys[i]);
    }
  }

  lemma SpreadHasLength(t: TrackedTy, tys: seq<Ty>)
    requires Admits(t, Ty(Tuple, tys)) && SpreadTuple(t).Some?
    ensures |SpreadTuple(t).value| == |tys|
  {
    if tys != [] {
      SpreadAdmitsExactly(t, tys, 0);
    } else {
      assert |Ty(Tuple, tys).args| == 0;
    }
  }

  lemma MergeAdmitsAt(inferred: seq<TrackedTy>, provided: seq<TrackedTy>, i: nat, ty: Ty)
    requires i < |inferred| && Admits(inferred[i], ty)
    requires i < |provided| && provided[i].Present? ==> provided[i].ty == ty
    ensures i < |Merge(inferred, provided)| && Admits(Merge(inferred, provided)[i], ty)
  {
  }

  // ---------------------------------------------------------------------------------------
  // Arguments and captured variables in the start state

  /** `t` is known at `p`: the place tracks no set, or its set has all types of `t`. */
  predicate KnownAt(d: Domain, p: Place, t: TrackedTy) {
    p in d.places && (d.places[p].Present? || TypesOf(t) <= d.places[p].deps)
  }

  lemma AugmentKnows(tcx: Tcx, body: Body, d: Domain, p: Place, t: TrackedTy, q: Place, s: TrackedTy)
    requires Augment(tcx, body, d, p, t).Some?
    ensures KnownAt(Augment(tcx, body, d, p, t).value, p, t)
    ensures KnownAt(d, q, s) ==> KnownAt(Augment(tcx, body, d, p, t).value, q, s)
  {
  }

  lemma {:induction false} AugmentArgsKeepsKnown(tcx: Tcx, body: Body, d: Domain, args: seq<TrackedTy>, i: nat, q: Place, s: TrackedTy)
    requires AugmentArgs(tcx, body, d, args, i).Some? && KnownAt(d, q, s)
    ensures KnownAt(AugmentArgs(tcx, body, d, args, i).value, q, s)
    decreases |args| - i
  {
    if i < |args| {
      AugmentKnows(tcx, body, d, Place(i + 1, []), args[i], q, s);
      AugmentArgsKeepsKnown(tcx, body, Augment(tcx, body, d, Place(i + 1, []), args[i]).value, args, i + 1, q, s);
    }
  }

  lemma {:induction false} ArgsArrive(tcx: Tcx, body: Body, d: Domain, args: seq<TrackedTy>, i: nat, k: nat)
    requires AugmentArgs(tcx, body, d, args, i).Some? && i <= k < |args|
    ensures KnownAt(AugmentArgs(tcx, body, d, args, i).value, Place(k + 1, []), args[k])
    decreases |args| - i
  {
    var next := Augment(tcx, body, d, Place(i + 1, []), args[i]).value;
    if i == k {
      AugmentKnows(tcx, body, d, Place(i + 1, []), args[i], Place(i + 1, []), args[i]);
      AugmentArgsKeepsKnown(tcx, body, next, args, i + 1, Place(k + 1, []), args[k]);
    } else {
      ArgsArrive(tcx, body, next, args, i + 1, k);
    }
  }

  lemma {:induction false} AugmentUpvarsKeepsKnown(tcx: Tcx, body: Body, d: Domain, upvars: seq<TrackedTy>, i: nat, q: Place, s: TrackedTy)
    requires AugmentUpvars(tcx, body, d, upvars, i).Some? && KnownAt(d, q, s)
    ensures KnownAt(AugmentUpvars(tcx, body, d, upvars, i).value, q, s)
    decreases |upvars| - i
  {
    if i < |upvars| {
      AugmentKnows(tcx, body, d, UpvarPlace(tcx, body, i), upvars[i], q, s);
      AugmentUpvarsKeepsKnown(tcx, body, Augment(tcx, body, d, UpvarPlace(tcx, body, i), upvars[i]).value, upvars, i + 1, q, s);
    }
  }

  lemma {:induction false} UpvarsArrive(tcx: Tcx, body: Body, d: Domain, upvars: seq<TrackedTy>, i: nat, k: nat)
    requires AugmentUpvars(tcx, body, d, upvars, i).Some? && i <= k < |upvars|
    ensures KnownAt(AugmentUpvars(tcx, body, d, upvars, i).value, UpvarPlace(tcx, body, k), upvars[k])
    decreases |upvars| - i
  {
    var next := Augment(tcx, body, d, UpvarPlace(tcx, body, i), upvars[i]).value;
    if i == k {
      AugmentKnows(tcx, body, d, UpvarPlace(tcx, body, i), upvars[i], UpvarPlace(tcx, body, i), upvars[i]);
      AugmentUpvarsKeepsKnown(tcx, body, next, upvars, i + 1, UpvarPlace(tcx, body, k), upvars[k]);
    } else {
      UpvarsArrive(tcx, body, next, upvars, i + 1, k);
    }
  }

  /** Where captured variable `k` is: a field of the closure, which is the first argument, by reference or by value. */
  predicate HoldsCapture(tcx: Tcx, body: Body, k: nat, q: Place) {
    if tcx.placeTy(body, Place(1, [])).head.Ref? then q == Place(1, [Deref, Field(k)]) else q == Place(1, [Field(k)])
  }

  /** Every argument type is known at its local and every captured type at its field when the body
      starts; a closure's own first argument is left to its captured variables. */
  lemma StartStateKnowsInputs(tcx: Tcx, f: PartialFunction)
    requires Bottom(tcx, f).Some?
    ensures forall k | (if tcx.isClosure(f.instance.did) then 1 else 0) <= k < |f.trackedArgs| ::
              KnownAt(Bottom(tcx, f).value, Place(k + 1, []), f.trackedArgs[k])
    ensures f.ClosureFunction? ==> forall k | 0 <= k < |f.info.upvars| ::
              KnownAt(Bottom(tcx, f).value, UpvarPlace(tcx, tcx.bodyOf(f.instance), k), f.info.upvars[k])
    ensures f.ClosureFunction? ==> forall k, q | 0 <= k < |f.info.upvars| && HoldsCapture(tcx, tcx.bodyOf(f.instance), k, q) ::
              KnownAt(Bottom(tcx, f).value, q, f.info.upvars[k])
  {
    var body := tcx.bodyOf(f.instance);
    var declared := Domain(DeclaredPlaces(tcx, body), {}, {});
    var d := if f.ClosureFunction? then AugmentUpvars(tcx, body, declared, f.info.upvars, 0).value else declared;
    var from := if tcx.isClosure(f.instance.did) then 1 else 0;
    forall k | from <= k < |f.trackedArgs|
      ensures KnownAt(Bottom(tcx, f).value, Place(k + 1, []), f.trackedArgs[k])
    {
      ArgsArrive(tcx, body, d, f.trackedArgs, from, k);
    }
    if f.ClosureFunction? {
      forall k | 0 <= k < |f.info.upvars|
        ensures KnownAt(Bottom(tcx, f).value, UpvarPlace(tcx, body, k), f.info.upvars[k])
      {
        UpvarsArrive(tcx, body, declared, f.info.upvars, 0, k);
        AugmentArgsKeepsKnown(tcx, body, d, f.trackedArgs, from, UpvarPlace(tcx, body, k), f.info.upvars[k]);
      }
    }
  }
}
