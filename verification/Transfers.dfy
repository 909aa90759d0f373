/** The transfer functions on domain values: the tracked type of an rvalue, statements, and the
    effect of a call once its callees and their returned types are known. */
module Transfers {
  import opened Options
  import opened Types
  import opened TrackedTypes
  import opened Mir
  import opened Domains
  import opened CollectorDomains

  function PlaceTracked(tcx: Tcx, body: Body, d: Domain, p: Place): TrackedTy {
    LookupOr(d, p, tcx.placeTy(body, p))
  }

  function BinaryTracked(op: BinOp, lhs: TrackedTy, rhs: TrackedTy): Option<TrackedTy> {
    match op
    case Arith => if lhs == rhs then Some(lhs) else None
    case Shift => Some(lhs)
    case Compare => Some(Present(BOOL))
  }

  function OperandsTracked(tcx: Tcx, body: Body, d: Domain, ops: seq<Operand>): seq<TrackedTy> {
    ArgumentTypes(tcx, body, d, ops)
  }

  function AggregateTracked(tcx: Tcx, body: Body, substs: seq<Ty>, d: Domain,
                            kind: AggregateKind, ops: seq<Operand>): Option<TrackedTy>
  {
    match kind
    case ArrayOf(ty) => Some(FromTy(Ty(Array(|ops|), [ty])))
    case TupleOf => Some(Pack(OperandsTracked(tcx, body, d, ops)))
    case AdtOf(ty) => Some(FromTy(Subst(ty, substs)))
    case ClosureOf(ty) => Some(FromTy(ty))
    case GeneratorOf => None
  }

  /** The tracked type of an rvalue in a body instantiated with `substs`. `None` is a panic:
      arithmetic on operands tracked differently, or a generator. */
  function RvalueTracked(tcx: Tcx, body: Body, substs: seq<Ty>, d: Domain, rvalue: Rvalue): Option<TrackedTy> {
    match rvalue
    case Use(op) => Some(OperandTracked(tcx, body, d, op))
    case Repeat(op, count) => Some(Map(OperandTracked(tcx, body, d, op), ty => Ty(Array(count), [ty])))
    case ThreadLocalRef(ty) => Some(FromTy(ty))
    case RefOf(mutbl, p) => Some(Map(PlaceTracked(tcx, body, d, p), ty => RefTo(mutbl, ty)))
    case AddressOf(mutbl, p) => Some(Map(PlaceTracked(tcx, body, d, p), ty => Ty(RawPtr(mutbl), [ty])))
    case Len => Some(FromTy(USIZE))
    case Cast(kind, op, ty) =>
      Some(match kind
           case PointerExposeAddress => FromTy(ty)
           case PointerFromExposedAddress => FromTy(ty)
           case Transmute => if ty.head.FnPtr? then OperandTracked(tcx, body, d, op) else FromTy(ty)
           case Coercion => OperandTracked(tcx, body, d, op)
           case Conversion => OperandTracked(tcx, body, d, op))
    case BinaryOp(op, lhs, rhs) =>
      BinaryTracked(op, OperandTracked(tcx, body, d, lhs), OperandTracked(tcx, body, d, rhs))
    case CheckedBinaryOp(op, lhs, rhs) =>
      (match BinaryTracked(op, OperandTracked(tcx, body, d, lhs), OperandTracked(tcx, body, d, rhs))
       case None => None
       case Some(t) => Some(Map(t, ty => Ty(Tuple, [ty, BOOL]))))
    case UnaryOp(op) => Some(OperandTracked(tcx, body, d, op))
    case Discriminant(p) => Some(Map(PlaceTracked(tcx, body, d, p), tcx.discriminantTy))
    case NullaryOp => Some(FromTy(USIZE))
    case Aggregate(kind, ops) => AggregateTracked(tcx, body, substs, d, kind, ops)
    case ShallowInitBox(ty) => Some(FromTy(tcx.boxOf(ty)))
    case CopyForDeref(p) => Some(PlaceTracked(tcx, body, d, p))
  }

  /** Operands whose types have to agree. */
  ghost predicate AddsUnlike(tcx: Tcx, body: Body, d: Domain, rvalue: Rvalue) {
    exists lhs, rhs :: (rvalue == BinaryOp(Arith, lhs, rhs) || rvalue == CheckedBinaryOp(Arith, lhs, rhs))
                       && OperandTracked(tcx, body, d, lhs) != OperandTracked(tcx, body, d, rhs)
  }

  /** An rvalue cannot be tracked exactly if it is a generator, or arithmetic on operands that are tracked differently. */
  lemma RvaluePanicsExactly(tcx: Tcx, body: Body, substs: seq<Ty>, d: Domain, rvalue: Rvalue)
    ensures RvalueTracked(tcx, body, substs, d, rvalue).None? <==>
            (exists ops :: rvalue == Aggregate(GeneratorOf, ops)) || AddsUnlike(tcx, body, d, rvalue)
  {
    match rvalue
    case BinaryOp(op, lhs, rhs) =>
      if OperandTracked(tcx, body, d, lhs) != OperandTracked(tcx, body, d, rhs) && op.Arith? {
        assert rvalue == BinaryOp(Arith, lhs, rhs);
      }
    case CheckedBinaryOp(op, lhs, rhs) =>
      if OperandTracked(tcx, body, d, lhs) != OperandTracked(tcx, body, d, rhs) && op.Arith? {
        assert rvalue == CheckedBinaryOp(Arith, lhs, rhs);
      }
    case Aggregate(kind, ops) => assert kind.GeneratorOf? ==> rvalue == Aggregate(GeneratorOf, ops);
    case _ =>
  }

  function StatementEffect(tcx: Tcx, body: Body, substs: seq<Ty>, d: Domain, stmt: Statement): Option<Domain> {
    match stmt
    case Nop => Some(d)
    case Assign(p, rvalue) =>
      match RvalueTracked(tcx, body, substs, d, rvalue)
      case None => None
      case Some(t) => Update(tcx, body, d, p, t)
  }

  function AfterStatements(tcx: Tcx, body: Body, substs: seq<Ty>, d: Domain, stmts: seq<Statement>): Option<Domain>
    decreases |stmts|
  {
    if stmts == [] then Some(d)
    else
      match StatementEffect(tcx, body, substs, d, stmts[0])
      case None => None
      case Some(next) => AfterStatements(tcx, body, substs, next, stmts[1..])
  }

  lemma {:induction false} AfterOneMore(tcx: Tcx, body: Body, substs: seq<Ty>, d: Domain, stmts: seq<Statement>, k: nat)
    requires k < |stmts|
    ensures AfterStatements(tcx, body, substs, d, stmts[..k + 1]) ==
            match AfterStatements(tcx, body, substs, d, stmts[..k])
            case None => None
            case Some(next) => StatementEffect(tcx, body, substs, next, stmts[k])
    decreases k
  {
    assert stmts[..k + 1][0] == stmts[0] && stmts[..k + 1][1..] == stmts[1..][..k];
    var next := StatementEffect(tcx, body, substs, d, stmts[0]);
    if k == 0 {
      assert next.Some? ==> AfterStatements(tcx, body, substs, next.value, []) == next;
    } else {
      assert stmts[..k][0] == stmts[0] && stmts[..k][1..] == stmts[1..][..k - 1];
      assert stmts[1..][k - 1] == stmts[k];
      if next.Some? {
        AfterOneMore(tcx, body, substs, next.value, stmts[1..], k - 1);
      }
    }
  }

  /** What processing a call did to the state: a call was recorded, possibly with a type flowing
      to the destination, or a callee type was recorded as unhandled. */
  datatype CallEffect = Called(call: FunctionCall, returned: Option<TrackedTy>) | NotHandled(ty: Ty)

  function ApplyEffect(tcx: Tcx, body: Body, d: Domain, destination: Option<Place>, e: CallEffect): Option<Domain> {
    match e
    case NotHandled(ty) => Some(d.(unhandled := d.unhandled + {ty}))
    case Called(call, returned) =>
      var next := d.(calls := d.calls + {call});
      if returned.Some? && destination.Some? then Update(tcx, body, next, destination.value, returned.value)
      else Some(next)
  }

  function ApplyEffects(tcx: Tcx, body: Body, d: Domain, destination: Option<Place>, es: seq<CallEffect>): Option<Domain>
    decreases |es|
  {
    if es == [] then Some(d)
    else
      match ApplyEffects(tcx, body, d, destination, es[..|es| - 1])
      case None => None
      case Some(next) => ApplyEffect(tcx, body, next, destination, es[|es| - 1])
  }

  /** A call returns into its destination, a drop nowhere. */
  function Destination(t: Terminator): Option<Place> {
    match t
    case Call(_, _, destination) => Some(destination)
    case _ => None
  }

  /** The effect of block `b` when its call, if it has one, does `es`. */
  function BlockEffect(tcx: Tcx, body: Body, substs: seq<Ty>, d: Domain, b: nat, es: seq<CallEffect>): Option<Domain>
    requires b < |body.blocks|
  {
    match AfterStatements(tcx, body, substs, d, body.blocks[b].statements)
    case None => None
    case Some(mid) => ApplyEffects(tcx, body, mid, Destination(body.blocks[b].terminator), es)
  }

  // ---------------------------------------------------------------------------------------
  // Monotonicity

  lemma OperandMonotone(tcx: Tcx, body: Body, d: Domain, d': Domain, op: Operand)
    requires Leq(d, d')
    ensures Below(OperandTracked(tcx, body, d, op), OperandTracked(tcx, body, d', op))
  {
  }

  lemma ProductMonotone(slots: seq<set<Ty>>, slots': seq<set<Ty>>)
    requires |slots| == |slots'| && forall i | 0 <= i < |slots| :: slots[i] <= slots'[i]
    ensures Product(slots) <= Product(slots')
  {
    forall c | c in Product(slots) ensures c in Product(slots') {
      ProductIsAllChoices(slots, c);
      ProductIsAllChoices(slots', c);
    }
  }

  /** Packing a tuple is monotone, including the switch to the cartesian product. */
  lemma PackMonotone(ops: seq<TrackedTy>, ops': seq<TrackedTy>)
    requires |ops| == |ops'| && forall i | 0 <= i < |ops| :: Below(ops[i], ops'[i])
    ensures Below(Pack(ops), Pack(ops'))
  {
    if AllPresent(ops) {
      assert ops == ops';
    } else {
      var i :| 0 <= i < |ops| && ops[i].Erased?;
      assert ops'[i].Erased?;
      ProductMonotone(SlotsOf(ops), SlotsOf(ops'));
    }
  }

  lemma MapMonotone(t: TrackedTy, t': TrackedTy, f: Ty -> Ty)
    requires Below(t, t')
    ensures Below(Map(t, f), Map(t', f))
  {
  }

  /** Every rvalue is tracked monotonically on states of one shape. */
  lemma RvalueMonotone(tcx: Tcx, body: Body, substs: seq<Ty>, d: Domain, d': Domain, rvalue: Rvalue)
    requires Leq(d, d')
    requires RvalueTracked(tcx, body, substs, d, rvalue).Some? && RvalueTracked(tcx, body, substs, d', rvalue).Some?
    ensures Below(RvalueTracked(tcx, body, substs, d, rvalue).value, RvalueTracked(tcx, body, substs, d', rvalue).value)
  {
    match rvalue
    case Repeat(op, count) =>
      MapMonotone(OperandTracked(tcx, body, d, op), OperandTracked(tcx, body, d', op), ty => Ty(Array(count), [ty]));
    case RefOf(mutbl, p) =>
      MapMonotone(PlaceTracked(tcx, body, d, p), PlaceTracked(tcx, body, d', p), ty => RefTo(mutbl, ty));
    case Aggregate(kind, ops) =>
      if kind.TupleOf? {
        forall i | 0 <= i < |ops|
          ensures Below(OperandsTracked(tcx, body, d, ops)[i], OperandsTracked(tcx, body, d', ops)[i])
        {
          OperandMonotone(tcx, body, d, d', ops[i]);
        }
        PackMonotone(OperandsTracked(tcx, body, d, ops), OperandsTracked(tcx, body, d', ops));
      }
    case _ =>
  }

  lemma StatementMonotone(tcx: Tcx, body: Body, substs: seq<Ty>, d: Domain, d': Domain, stmt: Statement)
    requires Leq(d, d')
    requires StatementEffect(tcx, body, substs, d, stmt).Some? && StatementEffect(tcx, body, substs, d', stmt).Some?
    ensures Leq(StatementEffect(tcx, body, substs, d, stmt).value, StatementEffect(tcx, body, substs, d', stmt).value)
  {
    match stmt
    case Nop =>
    case Assign(p, rvalue) =>
      RvalueMonotone(tcx, body, substs, d, d', rvalue);
      UpdateMonotone(tcx, body, d, d', p, RvalueTracked(tcx, body, substs, d, rvalue).value,
                     RvalueTracked(tcx, body, substs, d', rvalue).value);
  }

  lemma {:induction false} StatementsMonotone(tcx: Tcx, body: Body, substs: seq<Ty>, d: Domain, d': Domain, stmts: seq<Statement>)
    requires Leq(d, d')
    requires AfterStatements(tcx, body, substs, d, stmts).Some? && AfterStatements(tcx, body, substs, d', stmts).Some?
    ensures Leq(AfterStatements(tcx, body, substs, d, stmts).value, AfterStatements(tcx, body, substs, d', stmts).value)
    decreases |stmts|
  {
    if stmts != [] {
      StatementMonotone(tcx, body, substs, d, d', stmts[0]);
      StatementsMonotone(tcx, body, substs, StatementEffect(tcx, body, substs, d, stmts[0]).value,
                         StatementEffect(tcx, body, substs, d', stmts[0]).value, stmts[1..]);
    }
  }

  lemma EffectMonotone(tcx: Tcx, body: Body, d: Domain, d': Domain, destination: Option<Place>, e: CallEffect)
    requires Leq(d, d') && ApplyEffect(tcx, body, d', destination, e).Some?
    ensures ApplyEffect(tcx, body, d, destination, e).Some?
    ensures Leq(ApplyEffect(tcx, body, d, destination, e).value, ApplyEffect(tcx, body, d', destination, e).value)
  {
    if e.Called? && e.returned.Some? && destination.Some? {
      UpdateMonotone(tcx, body, d.(calls := d.calls + {e.call}), d'.(calls := d'.calls + {e.call}),
                     destination.value, e.returned.value, e.returned.value);
    }
  }

  lemma {:induction false} EffectsMonotone(tcx: Tcx, body: Body, d: Domain, d': Domain, destination: Option<Place>, es: seq<CallEffect>)
    requires Leq(d, d')
    requires ApplyEffects(tcx, body, d', destination, es).Some?
    ensures ApplyEffects(tcx, body, d, destination, es).Some?
    ensures Leq(ApplyEffects(tcx, body, d, destination, es).value, ApplyEffects(tcx, body, d', destination, es).value)
    decreases |es|
  {
    if es != [] {
      var init, e := es[..|es| - 1], es[|es| - 1];
      EffectsMonotone(tcx, body, d, d', destination, init);
      EffectMonotone(tcx, body, ApplyEffects(tcx, body, d, destination, init).value,
                     ApplyEffects(tcx, body, d', destination, init).value, destination, e);
    }
  }

  // ---------------------------------------------------------------------------------------
  // The effects of a call as a set

  /** Everything tracked for `p` has been propagated from it. */
  ghost predicate Propagates(tcx: Tcx, body: Body, places: map<Place, TrackedTy>, p: Place) {
    p in places && Propagate(tcx, body, places, p, places[p]) == Propagated(places)
  }

  lemma UpdatePropagates(tcx: Tcx, body: Body, d: Domain, p: Place, t: TrackedTy)
    requires Update(tcx, body, d, p, t).Some?
    ensures var d' := Update(tcx, body, d, p, t).value;
            Propagates(tcx, body, d'.places, p) && d'.places[p] == Join(d.places[p], t)
  {
    var d', joined := Update(tcx, body, d, p, t).value, Join(d.places[p], t);
    assert DerefOf(p) != p;
    assert Projectable(tcx, body, p, joined);
    if p in tcx.interiorPaths(body, p) {
      assert Tail(p, p) == [];
      forall ty ensures ProjectTy(tcx, ty, VariantOf(p), Tail(p, p)) == Some(ty) {
      }
      assert TypesOf(ProjectTracked(tcx, joined, p, p).value) <= TypesOf(joined);
      JoinLaws(joined, ProjectTracked(tcx, joined, p, p).value);
    }
    assert d'.places[p] == joined;
    var again := Contribute(d'.places, Projections(tcx, body, p, joined));
    forall q | q in d'.places ensures again[q] == d'.places[q] {
      if q in Targets(tcx, body, p, joined) {
        JoinLaws(d.places[p := joined][q], ProjectTracked(tcx, joined, p, q).value);
      }
    }
    assert again == d'.places;
  }

  /** The state already has what the effect brings. */
  ghost predicate Holds(tcx: Tcx, body: Body, d: Domain, destination: Option<Place>, e: CallEffect) {
    match e
    case NotHandled(ty) => ty in d.unhandled
    case Called(call, returned) =>
      && call in d.calls
      && (returned.Some? && destination.Some? ==>
            && Propagates(tcx, body, d.places, destination.value)
            && Join(d.places[destination.value], returned.value) == d.places[destination.value])
  }

  lemma HeldChangesNothing(tcx: Tcx, body: Body, d: Domain, destination: Option<Place>, e: CallEffect)
    requires Holds(tcx, body, d, destination, e)
    ensures ApplyEffect(tcx, body, d, destination, e) == Some(d)
  {
    match e
    case NotHandled(ty) => assert d.unhandled + {ty} == d.unhandled;
    case Called(call, returned) =>
      assert d.calls + {call} == d.calls;
      if returned.Some? && destination.Some? {
        assert d.places[destination.value := d.places[destination.value]] == d.places;
      }
  }

  /** A further effect keeps what is held, and is held itself. */
  lemma EffectHolds(tcx: Tcx, body: Body, d: Domain, destination: Option<Place>, e: CallEffect)
    requires ApplyEffect(tcx, body, d, destination, e).Some?
    ensures Holds(tcx, body, ApplyEffect(tcx, body, d, destination, e).value, destination, e)
    ensures forall h | Holds(tcx, body, d, destination, h) ::
              Holds(tcx, body, ApplyEffect(tcx, body, d, destination, e).value, destination, h)
  {
    if e.Called? && e.returned.Some? && destination.Some? {
      var next, p := d.(calls := d.calls + {e.call}), destination.value;
      UpdatePropagates(tcx, body, next, p, e.returned.value);
      JoinLaws(d.places[p], e.returned.value);
      forall h | Holds(tcx, body, d, destination, h) && h.Called? && h.returned.Some?
        ensures Join(Join(d.places[p], e.returned.value), h.returned.value) == Join(d.places[p], e.returned.value)
      {
        JoinLaws(d.places[p], h.returned.value);
        JoinLaws(Join(d.places[p], e.returned.value), h.returned.value);
      }
    }
  }

  lemma {:induction false} EffectsHold(tcx: Tcx, body: Body, d: Domain, destination: Option<Place>, es: seq<CallEffect>, e: CallEffect)
    requires ApplyEffects(tcx, body, d, destination, es).Some? && e in es
    ensures Holds(tcx, body, ApplyEffects(tcx, body, d, destination, es).value, destination, e)
    decreases |es|
  {
    var init, last := es[..|es| - 1], es[|es| - 1];
    EffectHolds(tcx, body, ApplyEffects(tcx, body, d, destination, init).value, destination, last);
    if e != last {
      assert e in init;
      EffectsHold(tcx, body, d, destination, init, e);
    }
  }

  lemma {:induction false} HeldEffectsChangeNothing(tcx: Tcx, body: Body, d: Domain, destination: Option<Place>, es: seq<CallEffect>)
    requires forall e | e in es :: Holds(tcx, body, d, destination, e)
    ensures ApplyEffects(tcx, body, d, destination, es) == Some(d)
    decreases |es|
  {
    if es != [] {
      assert es[|es| - 1] in es;
      HeldEffectsChangeNothing(tcx, body, d, destination, es[..|es| - 1]);
      HeldChangesNothing(tcx, body, d, destination, es[|es| - 1]);
    }
  }

  /** `e` brings nothing that `e'` does not bring. */
  predicate Weaker(e: CallEffect, e': CallEffect) {
    match e
    case NotHandled(_) => e == e'
    case Called(call, returned) =>
      && e'.Called? && e'.call == call
      && (returned.Some? ==> e'.returned.Some? && TypesOf(returned.value) <= TypesOf(e'.returned.value))
  }

  lemma WeakerIsHeld(tcx: Tcx, body: Body, d: Domain, destination: Option<Place>, e: CallEffect, e': CallEffect)
    requires Holds(tcx, body, d, destination, e') && Weaker(e, e')
    ensures Holds(tcx, body, d, destination, e)
  {
    if e.Called? && e.returned.Some? && destination.Some? {
      JoinLaws(d.places[destination.value], e.returned.value);
      JoinLaws(d.places[destination.value], e'.returned.value);
    }
  }

  /** Every effect in `es` is in `es'`, possibly with more returned types. */
  ghost predicate EffectsWithin(es: seq<CallEffect>, es': seq<CallEffect>) {
    forall e | e in es :: exists e' :: e' in es' && Weaker(e, e')
  }

  /** Fewer effects on a smaller state give a smaller state: neither order nor repetition matters. */
  lemma FewerEffectsGiveLess(tcx: Tcx, body: Body, d: Domain, d': Domain, destination: Option<Place>,
                             es: seq<CallEffect>, es': seq<CallEffect>)
    requires Leq(d, d') && EffectsWithin(es, es') && ApplyEffects(tcx, body, d', destination, es').Some?
    ensures ApplyEffects(tcx, body, d, destination, es).Some?
    ensures Leq(ApplyEffects(tcx, body, d, destination, es).value, ApplyEffects(tcx, body, d', destination, es').value)
  {
    var r := ApplyEffects(tcx, body, d', destination, es').value;
    EffectsInflate(tcx, body, d', destination, es');
    LeqTransitive(d, d', r);
    forall e | e in es ensures Holds(tcx, body, r, destination, e) {
      var e' :| e' in es' && Weaker(e, e');
      EffectsHold(tcx, body, d', destination, es', e');
      WeakerIsHeld(tcx, body, r, destination, e, e');
    }
    HeldEffectsChangeNothing(tcx, body, r, destination, es);
    EffectsMonotone(tcx, body, d, r, destination, es);
  }

  /** The order in which the callees of one call are processed does not matter. */
  lemma EffectsIgnoreOrder(tcx: Tcx, body: Body, d: Domain, destination: Option<Place>, es: seq<CallEffect>, es': seq<CallEffect>)
    requires forall e :: e in es <==> e in es'
    ensures ApplyEffects(tcx, body, d, destination, es) == ApplyEffects(tcx, body, d, destination, es')
  {
    assert EffectsWithin(es, es') by {
      forall e | e in es ensures e in es' && Weaker(e, e) {
      }
    }
    assert EffectsWithin(es', es) by {
      forall e | e in es' ensures e in es && Weaker(e, e) {
      }
    }
    if ApplyEffects(tcx, body, d, destination, es).Some? {
      FewerEffectsGiveLess(tcx, body, d, d, destination, es', es);
    }
    if ApplyEffects(tcx, body, d, destination, es').Some? {
      FewerEffectsGiveLess(tcx, body, d, d, destination, es, es');
      LeqAntisymmetric(ApplyEffects(tcx, body, d, destination, es).value, ApplyEffects(tcx, body, d, destination, es').value);
    }
  }

  /** With its call's effect held fixed, a block transforms states monotonically. */
  lemma BlockMonotone(tcx: Tcx, body: Body, substs: seq<Ty>, d: Domain, d': Domain, b: nat, es: seq<CallEffect>)
    requires b < |body.blocks| && Leq(d, d')
    requires BlockEffect(tcx, body, substs, d, b, es).Some? && BlockEffect(tcx, body, substs, d', b, es).Some?
    ensures Leq(BlockEffect(tcx, body, substs, d, b, es).value, BlockEffect(tcx, body, substs, d', b, es).value)
  {
    var stmts := body.blocks[b].statements;
    StatementsMonotone(tcx, body, substs, d, d', stmts);
    EffectsMonotone(tcx, body, AfterStatements(tcx, body, substs, d, stmts).value,
                    AfterStatements(tcx, body, substs, d', stmts).value,
                    Destination(body.blocks[b].terminator), es);
  }

  lemma StatementInflates(tcx: Tcx, body: Body, substs: seq<Ty>, d: Domain, stmt: Statement)
    requires StatementEffect(tcx, body, substs, d, stmt).Some?
    ensures Leq(d, StatementEffect(tcx, body, substs, d, stmt).value)
  {
    match stmt
    case Nop =>
    case Assign(p, rvalue) => UpdateInflates(tcx, body, d, p, RvalueTracked(tcx, body, substs, d, rvalue).value);
  }

  lemma {:induction false} StatementsInflate(tcx: Tcx, body: Body, substs: seq<Ty>, d: Domain, stmts: seq<Statement>)
    requires AfterStatements(tcx, body, substs, d, stmts).Some?
    ensures Leq(d, AfterStatements(tcx, body, substs, d, stmts).value)
    decreases |stmts|
  {
    if stmts != [] {
      StatementInflates(tcx, body, substs, d, stmts[0]);
      StatementsInflate(tcx, body, substs, StatementEffect(tcx, body, substs, d, stmts[0]).value, stmts[1..]);
    }
  }

  /** The calls and unhandled types an effect list records. */
  function CallsOf(es: seq<CallEffect>): set<FunctionCall> {
    set e | e in es && e.Called? :: e.call
  }

  function UnhandledOf(es: seq<CallEffect>): set<Ty> {
    set e | e in es && e.NotHandled? :: e.ty
  }

  lemma {:induction false} EffectsInflate(tcx: Tcx, body: Body, d: Domain, destination: Option<Place>, es: seq<CallEffect>)
    requires ApplyEffects(tcx, body, d, destination, es).Some?
    ensures Leq(d, ApplyEffects(tcx, body, d, destination, es).value)
    ensures ApplyEffects(tcx, body, d, destination, es).value.calls == d.calls + CallsOf(es)
    ensures ApplyEffects(tcx, body, d, destination, es).value.unhandled == d.unhandled + UnhandledOf(es)
    decreases |es|
  {
    if es != [] {
      var init, e := es[..|es| - 1], es[|es| - 1];
      EffectsInflate(tcx, body, d, destination, init);
      assert es == init + [e];
      assert CallsOf(es) == CallsOf(init) + (if e.Called? then {e.call} else {});
      assert UnhandledOf(es) == UnhandledOf(init) + (if e.NotHandled? then {e.ty} else {});
      var m := ApplyEffects(tcx, body, d, destination, init).value;
      if e.Called? && e.returned.Some? && destination.Some? {
        UpdateInflates(tcx, body, m.(calls := m.calls + {e.call}), destination.value, e.returned.value);
      }
    }
  }

  lemma BlockInflates(tcx: Tcx, body: Body, substs: seq<Ty>, d: Domain, b: nat, es: seq<CallEffect>)
    requires b < |body.blocks| && BlockEffect(tcx, body, substs, d, b, es).Some?
    ensures Leq(d, BlockEffect(tcx, body, substs, d, b, es).value)
    ensures CallsOf(es) <= BlockEffect(tcx, body, substs, d, b, es).value.calls
    ensures UnhandledOf(es) <= BlockEffect(tcx, body, substs, d, b, es).value.unhandled
  {
    var stmts := body.blocks[b].statements;
    StatementsInflate(tcx, body, substs, d, stmts);
    EffectsInflate(tcx, body, AfterStatements(tcx, body, substs, d, stmts).value,
                   Destination(body.blocks[b].terminator), es);
  }
}
