/** The types values really have, followed through executions of a body: which places are known to
    hold a type that is tracked for them, and that the summary admits what they hold. */
module PathTypes {
  import opened Options
  import opened Types
  import opened TrackedTypes
  import opened Mir
  import opened Domains
  import opened CollectorDomains
  import opened ProjectionClosure
  import opened Transfers
  import opened Dataflow
  import opened Resolution
  import opened TypeSoundness

  // ---------------------------------------------------------------------------------------
  // Executions

  /** The type of what lies at `q` in a value of type `ty` at `p`. */
  function Inside(tcx: Tcx, p: Place, ty: Ty, q: Place): Option<Ty> {
    ProjectTy(tcx, ty, VariantOf(p), Tail(p, q))
  }

  /** The types at one moment fit together: the type of a place determines those of its fields and of
      what it points to, unless they hide something. The declared type of a place, as the state has it, is
      right if it hides nothing. */
  ghost predicate IsMoment(tcx: Tcx, d: Domain, types: RealTypes) {
    && (forall p, q | Extends(p, q) && Inside(tcx, p, types(p), q).Some? :: Fits(types(q), Inside(tcx, p, types(p), q).value))
    && forall q | HasOneType(d, q) :: types(q) == d.places[q].ty
  }

  predicate Fits(ty: Ty, said: Ty) {
    ContainsErased(said) || ty == said
  }

  /** The state tracks one type for the place, the declared one. */
  predicate HasOneType(d: Domain, p: Place) {
    p in d.places && d.places[p].Present?
  }

  /** The address of the local, or of something in it, is taken somewhere. */
  ghost predicate AddressTaken(body: Body, local: nat) {
    exists b, i :: 0 <= b < |body.blocks| && 0 <= i < |body.blocks[b].statements| && TakesAddressOf(body.blocks[b].statements[i], local)
  }

  predicate TakesAddressOf(stmt: Statement, local: nat) {
    match stmt
    case Assign(_, RefOf(_, p)) => p.local == local
    case Assign(_, AddressOf(_, p)) => p.local == local
    case _ => false
  }

  /** There may be another way to the memory of the place than by its name. */
  ghost predicate Exposed(body: Body, p: Place) {
    AddressTaken(body, p.local) || Deref in p.proj
  }

  /** A value with this constructor has no memory elsewhere but its own. Type arguments are asked separately. */
  predicate OwnsContents(tcx: Tcx, h: Head) {
    match h
    case Adt(did) => tcx.ownsContents(did)
    case Ref(_) => false
    case RawPtr(_) => false
    case Closure(_) => false
    case Dynamic(_) => false
    case Foreign(_) => false
    case Param(_) => false
    case Alias(_) => false
    case _ => true
  }

  /** A type that may say what some memory elsewhere holds. */
  predicate HoldsPointer(tcx: Tcx, ty: Ty) {
    Any(ty, h => !OwnsContents(tcx, h))
  }

  predicate Overlaps(p: Place, q: Place) {
    Extends(p, q) || Extends(q, p)
  }

  /** Writing memory that can be reached in other ways may change the type of every place that can,
      and of every value that points somewhere. */
  ghost predicate SeesExposed(tcx: Tcx, body: Body, types: RealTypes, q: Place) {
    Exposed(body, q) || HoldsPointer(tcx, types(q))
  }

  /** Writing to `p` may change the type at `q`. */
  ghost predicate MayChange(tcx: Tcx, body: Body, types: RealTypes, p: Place, q: Place) {
    Overlaps(p, q) || (Exposed(body, p) && SeesExposed(tcx, body, types, q))
  }

  /** What executing a statement does to the types: the assigned place gets that of the rvalue, if it does
      not have one type only. */
  ghost predicate Executes(tcx: Tcx, body: Body, substs: seq<Ty>, d: Domain, types: RealTypes, stmt: Statement, types': RealTypes) {
    match stmt
    case Nop => forall q :: types'(q) == types(q)
    case Assign(p, rvalue) =>
      && RealRvalue(tcx, substs, types, rvalue).Some?
      && (HasOneType(d, p) || types'(p) == RealRvalue(tcx, substs, types, rvalue).value)
      && forall q | !MayChange(tcx, body, types, p, q) :: types'(q) == types(q)
  }

  /** The terminator may change the type at `q`: a call returns a value, and what is called may write
      whatever memory it can reach. */
  ghost predicate TerminatorMayChange(tcx: Tcx, body: Body, types: RealTypes, t: Terminator, q: Place) {
    && !t.OtherTerminator?
    && (SeesExposed(tcx, body, types, q) || (t.Call? && MayChange(tcx, body, types, t.destination, q)))
  }

  /** The statements are executed through these moments. */
  ghost predicate RunsStatements(tcx: Tcx, body: Body, substs: seq<Ty>, d: Domain, stmts: seq<Statement>, moments: seq<RealTypes>) {
    && |moments| == |stmts| + 1
    && forall k {:trigger RunsStatement(tcx, body, substs, d, stmts, moments, k)} | 0 <= k < |stmts| ::
         RunsStatement(tcx, body, substs, d, stmts, moments, k)
  }

  ghost predicate RunsStatement(tcx: Tcx, body: Body, substs: seq<Ty>, d: Domain, stmts: seq<Statement>, moments: seq<RealTypes>, k: nat)
    requires k < |stmts| && |moments| == |stmts| + 1
  {
    IsMoment(tcx, d, moments[k + 1]) && Executes(tcx, body, substs, d, moments[k], stmts[k], moments[k + 1])
  }

  /** One execution of a block: the moments before, between and after its statements, and the one
      after its terminator. */
  datatype BlockRun = BlockRun(moments: seq<RealTypes>, after: RealTypes)

  /** Every moment after the first is one in which the declared types that hide nothing are right. */
  ghost predicate RunsBlock(e: Setting, b: nat, run: BlockRun) {
    b < |e.body.blocks| &&
    var stmts, t := e.body.blocks[b].statements, e.body.blocks[b].terminator;
    && RunsStatements(e.tcx, e.body, e.substs, e.bottom, stmts, run.moments)
    && IsMoment(e.tcx, e.bottom, run.after)
    && forall q | !TerminatorMayChange(e.tcx, e.body, run.moments[|stmts|], t, q) :: run.after(q) == run.moments[|stmts|](q)
  }

  /** The types when block number `n` of the path is entered. */
  ghost function EnteredAt(start: RealTypes, runs: seq<BlockRun>, n: nat): RealTypes
    requires n <= |runs|
  {
    if n == 0 then start else runs[n - 1].after
  }

  /** The path is executed from `start`, block by block. Nothing is asked of what the analysis knows. */
  ghost predicate RunsPath(e: Setting, start: RealTypes, path: seq<nat>, runs: seq<BlockRun>) {
    && |runs| == |path|
    && forall n {:trigger runs[n]} | 0 <= n < |path| ::
         && RunsBlock(e, path[n], runs[n])
         && forall q :: runs[n].moments[0](q) == EnteredAt(start, runs, n)(q)
  }

  // ---------------------------------------------------------------------------------------
  // What the analysis knows of them

  /** The tracked types of the places in `known` admit the types there. */
  ghost predicate KnownTypes(d: Domain, types: RealTypes, known: set<Place>) {
    forall q | q in known :: q in d.places && Admits(d.places[q], types(q))
  }

  ghost predicate AllTracked(d: Domain) {
    forall q | q in d.places :: Tracked(d.places[q])
  }

  /** Interior places lie inside the place. */
  ghost predicate InteriorsExtend(tcx: Tcx, body: Body) {
    forall p, q | q in tcx.interiorPaths(body, p) :: Extends(p, q)
  }

  /** Where a type that arrived at `p` is known then: at the place itself, and if it tracks a set, everywhere
      inside and one step through a reference where the type is as that at `p` says. */
  ghost function Learned(tcx: Tcx, body: Body, d: Domain, p: Place, types': RealTypes): set<Place> {
    {p} +
    (if HasOneType(d, p) then {}
     else set q | q in tcx.interiorPaths(body, p) + (if IsRef(types'(p)) then {DerefOf(p)} else {})
                  && Inside(tcx, p, types'(p), q) == Some(types'(q)))
  }

  /** A type is learned everywhere inside where what it says hides nothing. */
  lemma LearnedWhereNothingHides(tcx: Tcx, body: Body, d: Domain, p: Place, types': RealTypes, q: Place)
    requires IsMoment(tcx, d, types') && InteriorsExtend(tcx, body) && !HasOneType(d, p)
    requires q in tcx.interiorPaths(body, p) || (IsRef(types'(p)) && q == DerefOf(p))
    requires Inside(tcx, p, types'(p), q).Some? && !ContainsErased(Inside(tcx, p, types'(p), q).value)
    ensures q in Learned(tcx, body, d, p, types')
  {
    assert Extends(p, q);
  }

  /** The places known after `p` is written: those the write does not concern, and where the type arrives,
      if it is known at `p`. What `p` points to beyond the first step, and what `p` is part of, is forgotten. */
  ghost function KnownAfterWrite(tcx: Tcx, body: Body, d: Domain, types: RealTypes, known: set<Place>, p: Place, arrives: bool,
                                 types': RealTypes): set<Place>
  {
    (set q | q in known && !MayChange(tcx, body, types, p, q)) + if arrives then Learned(tcx, body, d, p, types') else {}
  }

  /** All that is tracked at `p` was propagated, and the type there is tracked. */
  ghost predicate Arrived(tcx: Tcx, body: Body, d: Domain, p: Place, ty: Ty) {
    Propagates(tcx, body, d.places, p) && Admits(d.places[p], ty)
  }

  /** Whatever way the type got to `p`: if it was propagated from there, it is known as far as said. */
  lemma WriteIsKnown(tcx: Tcx, body: Body, d: Domain, d': Domain, known: set<Place>, types: RealTypes, types': RealTypes, p: Place,
                     arrives: bool)
    requires KnownTypes(d, types, known) && Leq(d, d') && InteriorsExtend(tcx, body) && IsMoment(tcx, d, types')
    requires arrives ==> HasOneType(d, p) || Arrived(tcx, body, d', p, types'(p))
    requires forall q | q in known && !MayChange(tcx, body, types, p, q) :: types'(q) == types(q)
    ensures KnownTypes(d', types', KnownAfterWrite(tcx, body, d, types, known, p, arrives, types'))
  {
    forall q | q in KnownAfterWrite(tcx, body, d, types, known, p, arrives, types')
      ensures q in d'.places && Admits(d'.places[q], types'(q))
    {
      if arrives && q in Learned(tcx, body, d, p, types') {
        LearnedIsKnown(tcx, body, d, d', types', p, q);
      } else {
        BelowAdmits(d.places[q], d'.places[q], types'(q));
      }
    }
  }

  lemma LearnedIsKnown(tcx: Tcx, body: Body, d: Domain, d': Domain, types': RealTypes, p: Place, q: Place)
    requires Leq(d, d') && InteriorsExtend(tcx, body) && IsMoment(tcx, d, types')
    requires HasOneType(d, p) || Arrived(tcx, body, d', p, types'(p))
    requires q in Learned(tcx, body, d, p, types')
    ensures q in d'.places && Admits(d'.places[q], types'(q))
  {
    if q != p {
      ArrivedInside(tcx, body, d', p, q, types'(p));
      ShapeStays(d, d');
    }
  }

  /** A type that arrived at `p` arrived inside, and one step through a reference, where sets are tracked. */
  lemma ArrivedInside(tcx: Tcx, body: Body, d: Domain, p: Place, q: Place, ty: Ty)
    requires Arrived(tcx, body, d, p, ty) && d.places[p].Erased? && Inside(tcx, p, ty, q).Some?
    requires q in tcx.interiorPaths(body, p) || (IsRef(ty) && q == DerefOf(p))
    ensures q in d.places && (HasOneType(d, q) || Admits(d.places[q], Inside(tcx, p, ty, q).value))
  {
    assert q in Targets(tcx, body, p, d.places[p]);
    assert Projectable(tcx, body, p, d.places[p]);
    var arrived := ProjectTracked(tcx, d.places[p], p, q).value;
    assert Inside(tcx, p, ty, q).value in TypesOf(arrived);
    assert d.places[q] == Join(d.places[q], arrived);
  }

  lemma JoinedIsAdmitted(a: TrackedTy, b: TrackedTy, ty: Ty)
    requires a.Erased? && a == Join(a, b) && ty in TypesOf(b)
    ensures Admits(a, ty)
  {
  }

  // ---------------------------------------------------------------------------------------
  // Statements

  /** A known place, one that hides nothing, or a constant. */
  predicate ReadsKnown(d: Domain, known: set<Place>, op: Operand) {
    match op
    case Constant(_) => true
    case Copy(p) => p in known || HasOneType(d, p)
    case Move(p) => p in known || HasOneType(d, p)
  }

  /** The type assigned to `p` is tracked there: it is the only one, or the rvalue reads known types only and
      nothing on the way loses the type. */
  ghost predicate Arrives(tcx: Tcx, body: Body, d: Domain, known: set<Place>, p: Place, rvalue: Rvalue, ty: Ty) {
    || HasOneType(d, p)
    || ((forall i | 0 <= i < |TypedOperands(rvalue)| :: ReadsKnown(d, known, TypedOperands(rvalue)[i]))
        && KeepsType(tcx, body, d, rvalue, ty))
  }

  ghost function KnownAfterStatement(tcx: Tcx, body: Body, d: Domain, types: RealTypes, known: set<Place>, stmt: Statement,
                                     types': RealTypes): set<Place>
  {
    match stmt
    case Nop => known
    case Assign(p, rvalue) =>
      KnownAfterWrite(tcx, body, d, types, known, p, Arrives(tcx, body, d, known, p, rvalue, types'(p)), types')
  }

  lemma KnownOperandIsAdmitted(tcx: Tcx, body: Body, d: Domain, types: RealTypes, known: set<Place>, op: Operand)
    requires KnownTypes(d, types, known) && AllTracked(d) && IsMoment(tcx, d, types) && ReadsKnown(d, known, op)
    ensures OperandAdmitted(tcx, body, d, types, op)
  {
  }

  /** An assigned type that is said to arrive is tracked at the assigned place, and propagated. */
  lemma AssignedTypeArrives(tcx: Tcx, body: Body, substs: seq<Ty>, d: Domain, known: set<Place>, types: RealTypes, p: Place, rvalue: Rvalue)
    requires KnownTypes(d, types, known) && AllTracked(d) && IsMoment(tcx, d, types)
    requires StatementEffect(tcx, body, substs, d, Assign(p, rvalue)).Some? && RealRvalue(tcx, substs, types, rvalue).Some?
    requires Arrives(tcx, body, d, known, p, rvalue, RealRvalue(tcx, substs, types, rvalue).value) && !HasOneType(d, p)
    ensures Arrived(tcx, body, StatementEffect(tcx, body, substs, d, Assign(p, rvalue)).value, p, RealRvalue(tcx, substs, types, rvalue).value)
  {
    forall i | 0 <= i < |TypedOperands(rvalue)|
      ensures OperandAdmitted(tcx, body, d, types, TypedOperands(rvalue)[i])
    {
      KnownOperandIsAdmitted(tcx, body, d, types, known, TypedOperands(rvalue)[i]);
    }
    AssignmentAdmitsExactly(tcx, body, substs, d, types, p, rvalue);
    UpdatePropagates(tcx, body, d, p, RvalueTracked(tcx, body, substs, d, rvalue).value);
  }

  lemma StatementKeepsKnown(tcx: Tcx, body: Body, substs: seq<Ty>, d: Domain, known: set<Place>, types: RealTypes,
                            stmt: Statement, types': RealTypes)
    requires KnownTypes(d, types, known) && AllTracked(d) && InteriorsExtend(tcx, body)
    requires IsMoment(tcx, d, types) && IsMoment(tcx, d, types') && Executes(tcx, body, substs, d, types, stmt, types')
    requires StatementEffect(tcx, body, substs, d, stmt).Some?
    ensures var d' := StatementEffect(tcx, body, substs, d, stmt).value;
            Leq(d, d') && KnownTypes(d', types', KnownAfterStatement(tcx, body, d, types, known, stmt, types'))
  {
    StatementInflates(tcx, body, substs, d, stmt);
    if stmt.Assign? {
      var d', p := StatementEffect(tcx, body, substs, d, stmt).value, stmt.place;
      var arrives := Arrives(tcx, body, d, known, p, stmt.rvalue, types'(p));
      if arrives && !HasOneType(d, p) {
        AssignedTypeArrives(tcx, body, substs, d, known, types, p, stmt.rvalue);
      }
      WriteIsKnown(tcx, body, d, d', known, types, types', p, arrives);
    }
  }

  /** Updates change neither which places have one type nor what it is. */
  lemma ShapeStays(d: Domain, d': Domain)
    requires Leq(d, d')
    ensures AllTracked(d) ==> AllTracked(d')
    ensures forall q :: HasOneType(d, q) <==> HasOneType(d', q)
    ensures forall q | HasOneType(d, q) :: d.places[q] == d'.places[q]
  {
  }

  lemma MomentStays(tcx: Tcx, d: Domain, d': Domain, types: RealTypes)
    requires Leq(d, d') && IsMoment(tcx, d, types)
    ensures IsMoment(tcx, d', types)
  {
    ShapeStays(d, d');
  }

  lemma ExecutionStays(tcx: Tcx, body: Body, substs: seq<Ty>, d: Domain, d': Domain, stmts: seq<Statement>, moments: seq<RealTypes>)
    requires Leq(d, d') && RunsStatements(tcx, body, substs, d, stmts, moments)
    ensures RunsStatements(tcx, body, substs, d', stmts, moments)
  {
    forall k | 0 <= k < |stmts|
      ensures RunsStatement(tcx, body, substs, d', stmts, moments, k)
    {
      assert RunsStatement(tcx, body, substs, d, stmts, moments, k);
      ShapeStays(d, d');
      MomentStays(tcx, d, d', moments[k + 1]);
    }
  }

  ghost function KnownAfterStatements(tcx: Tcx, body: Body, substs: seq<Ty>, d: Domain, known: set<Place>, stmts: seq<Statement>,
                                      moments: seq<RealTypes>): set<Place>
    requires |moments| == |stmts| + 1
    decreases |stmts|
  {
    if stmts == [] then known
    else
      var known' := KnownAfterStatement(tcx, body, d, moments[0], known, stmts[0], moments[1]);
      match StatementEffect(tcx, body, substs, d, stmts[0])
      case None => {}
      case Some(d') => KnownAfterStatements(tcx, body, substs, d', known', stmts[1..], moments[1..])
  }

  lemma {:induction false} StatementsKeepKnown(tcx: Tcx, body: Body, substs: seq<Ty>, d: Domain, known: set<Place>,
                                               stmts: seq<Statement>, moments: seq<RealTypes>)
    requires RunsStatements(tcx, body, substs, d, stmts, moments) && AfterStatements(tcx, body, substs, d, stmts).Some?
    requires KnownTypes(d, moments[0], known) && IsMoment(tcx, d, moments[0]) && AllTracked(d) && InteriorsExtend(tcx, body)
    ensures var d' := AfterStatements(tcx, body, substs, d, stmts).value;
            && Leq(d, d') && IsMoment(tcx, d', moments[|stmts|])
            && KnownTypes(d', moments[|stmts|], KnownAfterStatements(tcx, body, substs, d, known, stmts, moments))
    decreases |stmts|
  {
    if stmts != [] {
      var d' := StatementEffect(tcx, body, substs, d, stmts[0]).value;
      assert RunsStatement(tcx, body, substs, d, stmts, moments, 0);
      StatementKeepsKnown(tcx, body, substs, d, known, moments[0], stmts[0], moments[1]);
      ShapeStays(d, d');
      MomentStays(tcx, d, d', moments[1]);
      RestRuns(tcx, body, substs, d, stmts, moments);
      ExecutionStays(tcx, body, substs, d, d', stmts[1..], moments[1..]);
      StatementsKeepKnown(tcx, body, substs, d', KnownAfterStatement(tcx, body, d, moments[0], known, stmts[0], moments[1]),
                          stmts[1..], moments[1..]);
      LeqTransitive(d, d', AfterStatements(tcx, body, substs, d, stmts).value);
    } else {
      LeqReflexive(d);
    }
  }

  lemma RestRuns(tcx: Tcx, body: Body, substs: seq<Ty>, d: Domain, stmts: seq<Statement>, moments: seq<RealTypes>)
    requires RunsStatements(tcx, body, substs, d, stmts, moments) && stmts != []
    ensures RunsStatements(tcx, body, substs, d, stmts[1..], moments[1..])
  {
    forall k | 0 <= k < |stmts[1..]|
      ensures RunsStatement(tcx, body, substs, d, stmts[1..], moments[1..], k)
    {
      assert RunsStatement(tcx, body, substs, d, stmts, moments, k + 1);
    }
  }

  // ---------------------------------------------------------------------------------------
  // Blocks

  /** One of the effects of the call has the type really returned. */
  ghost predicate Returns(es: seq<CallEffect>, ty: Ty) {
    exists x :: x in es && x.Called? && x.returned.Some? && Admits(x.returned.value, ty)
  }

  /** The places known before the terminator of the block. */
  ghost function KnownAtTerminator(e: Setting, d: Domain, known: set<Place>, b: nat, run: BlockRun): set<Place> {
    if b >= |e.body.blocks| || |run.moments| != |e.body.blocks[b].statements| + 1 then {}
    else KnownAfterStatements(e.tcx, e.body, e.substs, d, known, e.body.blocks[b].statements, run.moments)
  }

  /** The places known after block `b`, when its call did `es`: a returned value is known if its type was found
      to be returned. */
  ghost function KnownAfterBlock(e: Setting, d: Domain, known: set<Place>, b: nat, es: seq<CallEffect>, run: BlockRun): set<Place> {
    if b >= |e.body.blocks| || |run.moments| != |e.body.blocks[b].statements| + 1 then {}
    else
      var t, last := e.body.blocks[b].terminator, run.moments[|e.body.blocks[b].statements|];
      var kept := set q | q in KnownAtTerminator(e, d, known, b, run) && !TerminatorMayChange(e.tcx, e.body, last, t, q);
      if !t.Call? then kept
      else
        var arrives := HasOneType(d, t.destination) || Returns(es, run.after(t.destination));
        KnownAfterWrite(e.tcx, e.body, d, last, kept, t.destination, arrives, run.after)
  }

  lemma TerminatorIsReachedKnown(e: Setting, d: Domain, known: set<Place>, b: nat, run: BlockRun)
    requires RunsBlock(e, b, run) && Leq(e.bottom, d) && AllTracked(d) && InteriorsExtend(e.tcx, e.body)
    requires KnownTypes(d, run.moments[0], known) && IsMoment(e.tcx, d, run.moments[0])
    requires AfterStatements(e.tcx, e.body, e.substs, d, e.body.blocks[b].statements).Some?
    ensures var stmts := e.body.blocks[b].statements;
            var mid := AfterStatements(e.tcx, e.body, e.substs, d, stmts).value;
            && Leq(d, mid) && AllTracked(mid) && IsMoment(e.tcx, mid, run.moments[|stmts|])
            && KnownTypes(mid, run.moments[|stmts|], KnownAtTerminator(e, d, known, b, run))
  {
    var stmts := e.body.blocks[b].statements;
    ExecutionStays(e.tcx, e.body, e.substs, e.bottom, d, stmts, run.moments);
    StatementsKeepKnown(e.tcx, e.body, e.substs, d, known, stmts, run.moments);
    ShapeStays(d, AfterStatements(e.tcx, e.body, e.substs, d, stmts).value);
  }

  lemma BlockKeepsKnown(e: Setting, d: Domain, known: set<Place>, b: nat, es: seq<CallEffect>, run: BlockRun)
    requires RunsBlock(e, b, run) && BlockEffect(e.tcx, e.body, e.substs, d, b, es).Some?
    requires KnownTypes(d, run.moments[0], known) && IsMoment(e.tcx, d, run.moments[0]) && AllTracked(d)
    requires Leq(e.bottom, d) && InteriorsExtend(e.tcx, e.body)
    ensures var d' := BlockEffect(e.tcx, e.body, e.substs, d, b, es).value;
            Leq(d, d') && IsMoment(e.tcx, d', run.after) && KnownTypes(d', run.after, KnownAfterBlock(e, d, known, b, es, run))
  {
    var stmts, t := e.body.blocks[b].statements, e.body.blocks[b].terminator;
    TerminatorIsReachedKnown(e, d, known, b, run);
    var mid, last := AfterStatements(e.tcx, e.body, e.substs, d, stmts).value, run.moments[|stmts|];
    var d' := BlockEffect(e.tcx, e.body, e.substs, d, b, es).value;
    EffectsInflate(e.tcx, e.body, mid, Destination(t), es);
    LeqTransitive(d, mid, d');
    LeqTransitive(e.bottom, d, mid);
    MomentStays(e.tcx, e.bottom, mid, run.after);
    MomentStays(e.tcx, mid, d', run.after);
    var kept := set q | q in KnownAtTerminator(e, d, known, b, run) && !TerminatorMayChange(e.tcx, e.body, last, t, q);
    if t.Call? {
      ReturnIsKnown(e, mid, d', kept, last, run.after, t.destination, es);
      LearnsAlike(e.tcx, e.body, d, mid, t.destination, run.after);
    } else {
      forall q | q in kept ensures q in d'.places && Admits(d'.places[q], run.after(q)) {
        BelowAdmits(mid.places[q], d'.places[q], run.after(q));
      }
    }
  }

  lemma LearnsAlike(tcx: Tcx, body: Body, d: Domain, d': Domain, p: Place, types': RealTypes)
    requires Leq(d, d')
    ensures HasOneType(d, p) <==> HasOneType(d', p)
    ensures Learned(tcx, body, d, p, types') == Learned(tcx, body, d', p, types')
  {
    ShapeStays(d, d');
  }

  /** A place that has one type needs nothing to be returned to it: the call may be skipped or unresolved. */
  lemma ReturnIsKnown(e: Setting, mid: Domain, d': Domain, kept: set<Place>, last: RealTypes, after: RealTypes, p: Place, es: seq<CallEffect>)
    requires ApplyEffects(e.tcx, e.body, mid, Some(p), es) == Some(d') && Leq(mid, d') && InteriorsExtend(e.tcx, e.body)
    requires KnownTypes(mid, last, kept) && IsMoment(e.tcx, mid, after)
    requires forall q | q in kept && !MayChange(e.tcx, e.body, last, p, q) :: after(q) == last(q)
    ensures KnownTypes(d', after, KnownAfterWrite(e.tcx, e.body, mid, last, kept, p, HasOneType(mid, p) || Returns(es, after(p)), after))
  {
    var arrives := HasOneType(mid, p) || Returns(es, after(p));
    if arrives && !HasOneType(mid, p) {
      var x :| x in es && x.Called? && x.returned.Some? && Admits(x.returned.value, after(p));
      EffectsHold(e.tcx, e.body, mid, Some(p), es, x);
      assert d'.places[p].Erased?;
      JoinedIsAdmitted(d'.places[p], x.returned.value, after(p));
    }
    WriteIsKnown(e.tcx, e.body, mid, d', kept, last, after, p, arrives);
  }

  // ---------------------------------------------------------------------------------------
  // Paths

  /** The places known when the last block of the path is entered. */
  ghost function KnownBefore(e: Setting, effects: nat -> seq<CallEffect>, known: set<Place>, path: seq<nat>, runs: seq<BlockRun>): set<Place>
    requires path != [] && |runs| == |path|
    decreases |path|
  {
    var n := |path| - 1;
    if n == 0 then known
    else
      match PathState(FixedTransfer(e, effects), e.bottom, path[..n])
      case None => {}
      case Some(d) =>
        KnownAfterBlock(e, d, KnownBefore(e, effects, known, path[..n], runs[..n]), path[n - 1], effects(path[n - 1]), runs[n - 1])
  }

  lemma NextBlockStartsKnown(tcx: Tcx, d: Domain, known: set<Place>, types: RealTypes, types': RealTypes)
    requires KnownTypes(d, types, known) && IsMoment(tcx, d, types)
    requires forall q :: types'(q) == types(q)
    ensures KnownTypes(d, types', known) && IsMoment(tcx, d, types')
  {
    forall p, q | Extends(p, q) && Inside(tcx, p, types'(p), q).Some?
      ensures Fits(types'(q), Inside(tcx, p, types'(p), q).value)
    {
      assert Inside(tcx, p, types(p), q) == Inside(tcx, p, types'(p), q);
    }
  }

  lemma PrefixRuns(e: Setting, start: RealTypes, path: seq<nat>, runs: seq<BlockRun>, n: nat)
    requires RunsPath(e, start, path, runs) && n <= |path|
    ensures RunsPath(e, start, path[..n], runs[..n])
  {
    forall k | 0 <= k < n
      ensures RunsBlock(e, path[..n][k], runs[..n][k])
      ensures forall q :: runs[..n][k].moments[0](q) == EnteredAt(start, runs[..n], k)(q)
    {
      assert runs[..n][k] == runs[k] && path[..n][k] == path[k];
      assert k > 0 ==> runs[..n][k - 1] == runs[k - 1];
    }
  }

  lemma {:induction false} PathKeepsKnown(e: Setting, effects: nat -> seq<CallEffect>, start: RealTypes, known: set<Place>,
                                          path: seq<nat>, runs: seq<BlockRun>)
    requires path != [] && RunsPath(e, start, path, runs)
    requires KnownTypes(e.bottom, start, known) && IsMoment(e.tcx, e.bottom, start) && AllTracked(e.bottom)
    requires InteriorsExtend(e.tcx, e.body) && PathState(FixedTransfer(e, effects), e.bottom, path).Some?
    ensures var d, first := PathState(FixedTransfer(e, effects), e.bottom, path).value, runs[|path| - 1].moments[0];
            && Leq(e.bottom, d) && AllTracked(d) && IsMoment(e.tcx, d, first)
            && KnownTypes(d, first, KnownBefore(e, effects, known, path, runs))
    decreases |path|
  {
    var n := |path| - 1;
    var first := runs[n].moments[0];
    if n == 0 {
      LeqReflexive(e.bottom);
      NextBlockStartsKnown(e.tcx, e.bottom, known, start, first);
    } else {
      var init := path[..n];
      PrefixRuns(e, start, path, runs, n);
      PathKeepsKnown(e, effects, start, known, init, runs[..n]);
      assert init[n - 1] == path[n - 1] && runs[..n][n - 1] == runs[n - 1];
      var d, before := PathState(FixedTransfer(e, effects), e.bottom, init).value, KnownBefore(e, effects, known, init, runs[..n]);
      var b := path[n - 1];
      BlockKeepsKnown(e, d, before, b, effects(b), runs[n - 1]);
      var d' := PathState(FixedTransfer(e, effects), e.bottom, path).value;
      NextBlockStartsKnown(e.tcx, d', KnownAfterBlock(e, d, before, b, effects(b), runs[n - 1]), runs[n - 1].after, first);
      LeqTransitive(e.bottom, d, d');
      ShapeStays(d, d');
    }
  }

  /** In every execution of a path, the summary admits the types at all places that are known in the end. */
  lemma SummaryAdmitsActualTypes(e: Setting, trace: seq<Step>, ends: seq<Step>, effects: nat -> seq<CallEffect>,
                                 start: RealTypes, known: set<Place>, path: seq<nat>, runs: seq<BlockRun>)
    requires IsFixpoint(e, trace) && AreBlockEnds(e, trace, ends) && FinallyDid(e, trace, ends, effects)
    requires PathRuns(e, FixedTransfer(e, effects), path) && InteriorsExtend(e.tcx, e.body)
    requires KnownTypes(e.bottom, start, known) && IsMoment(e.tcx, e.bottom, start) && AllTracked(e.bottom)
    requires RunsPath(e, start, path, runs)
    ensures KnownTypes(JoinAll(ends), runs[|path| - 1].after, KnownInTheEnd(e, effects, known, path, runs))
  {
    var n := |path| - 1;
    PathKeepsKnown(e, effects, start, known, path, runs);
    var d, before := PathState(FixedTransfer(e, effects), e.bottom, path).value, KnownBefore(e, effects, known, path, runs);
    BlockKeepsKnown(e, d, before, path[n], effects(path[n]), runs[n]);
    PathSoundnessOfBody(e, trace, ends, effects, path);
    var after := AlongPath(e, FixedTransfer(e, effects), path);
    forall q | q in KnownInTheEnd(e, effects, known, path, runs)
      ensures q in JoinAll(ends).places && Admits(JoinAll(ends).places[q], runs[n].after(q))
    {
      BelowAdmits(after.places[q], JoinAll(ends).places[q], runs[n].after(q));
    }
  }

  ghost function KnownInTheEnd(e: Setting, effects: nat -> seq<CallEffect>, known: set<Place>, path: seq<nat>, runs: seq<BlockRun>): set<Place>
    requires path != [] && |runs| == |path|
  {
    match PathState(FixedTransfer(e, effects), e.bottom, path)
    case None => {}
    case Some(d) =>
      var b := path[|path| - 1];
      KnownAfterBlock(e, d, KnownBefore(e, effects, known, path, runs), b, effects(b), runs[|path| - 1])
  }

  // ---------------------------------------------------------------------------------------
  // Reading through a reference

  /** Behind the first step nothing arrives. After `p = &z` a place further in has the type `z` has there, and
      what is tracked for it admits that type exactly if it was tracked there before. */
  lemma BehindReferenceExactly(tcx: Tcx, body: Body, substs: seq<Ty>, d: Domain, p: Place, mutbl: bool, z: Place, q: Place,
                               types: RealTypes, types': RealTypes)
    requires InteriorsOk(tcx, body) && Shaped(tcx, body, d)
    requires StatementEffect(tcx, body, substs, d, Assign(p, RefOf(mutbl, z))).Some? && d.places[p].Erased?
    requires Executes(tcx, body, substs, d, types, Assign(p, RefOf(mutbl, z)), types') && IsMoment(tcx, d, types')
    requires DerefOf(p) in body.places && q in tcx.interiorPaths(body, DerefOf(p)) && q != DerefOf(p)
    requires var x := ProjectTy(tcx, types(z), None, Tail(DerefOf(p), q)); x.Some? && !ContainsErased(x.value)
    ensures var d', x := StatementEffect(tcx, body, substs, d, Assign(p, RefOf(mutbl, z))).value,
                         ProjectTy(tcx, types(z), None, Tail(DerefOf(p), q)).value;
            && types'(q) == x && q in d.places && q in d'.places && d'.places[q] == d.places[q]
            && (Admits(d'.places[q], types'(q)) <==> Admits(d.places[q], x))
  {
    BeyondTheTarget(tcx, body, d, p, RvalueTracked(tcx, body, substs, d, RefOf(mutbl, z)).value, q);
    PointeeProjects(tcx, p, mutbl, types(z), q);
  }

  lemma PointeeProjects(tcx: Tcx, p: Place, mutbl: bool, ty: Ty, q: Place)
    requires Extends(DerefOf(p), q)
    ensures Extends(p, q) && Inside(tcx, p, RefTo(mutbl, ty), q) == ProjectTy(tcx, ty, None, Tail(DerefOf(p), q))
  {
    var rest := Tail(DerefOf(p), q);
    assert Tail(p, q) == [Deref] + rest;
    assert Tail(p, q)[1..] == rest;
  }

  // ---------------------------------------------------------------------------------------
  // Where paths start

  /** Where argument `k` arrives. */
  function ArgumentPlace(k: nat): Place {
    Place(k + 1, [])
  }

  /** The first argument that arrives as one: a closure is left to its captured variables. */
  function FirstArgument(tcx: Tcx, f: PartialFunction): nat {
    if tcx.isClosure(f.instance.did) then 1 else 0
  }

  function CapturePlace(tcx: Tcx, f: PartialFunction, k: nat): Place {
    UpvarPlace(tcx, tcx.bodyOf(f.instance), k)
  }

  /** The inputs whose types are admitted by what the function is entered with: arguments and captures. */
  ghost function AdmittedInputs(tcx: Tcx, f: PartialFunction, types: RealTypes): set<Place> {
    (set k: nat | FirstArgument(tcx, f) <= k < |f.trackedArgs| && Admits(f.trackedArgs[k], types(ArgumentPlace(k))) :: ArgumentPlace(k))
    + (if f.ClosureFunction?
       then set k: nat | k < |f.info.upvars| && Admits(f.info.upvars[k], types(CapturePlace(tcx, f, k))) :: CapturePlace(tcx, f, k)
       else {})
  }

  /** A function starts in a state that admits all the types it is entered with that are admitted. */
  lemma InputsStartKnown(tcx: Tcx, f: PartialFunction, types: RealTypes)
    requires Bottom(tcx, f).Some? && IsMoment(tcx, Bottom(tcx, f).value, types)
    ensures KnownTypes(Bottom(tcx, f).value, types, AdmittedInputs(tcx, f, types))
  {
    StartStateKnowsInputs(tcx, f);
    var d := Bottom(tcx, f).value;
    forall q | q in AdmittedInputs(tcx, f, types) ensures q in d.places && Admits(d.places[q], types(q)) {
      if k: nat :| FirstArgument(tcx, f) <= k < |f.trackedArgs| && Admits(f.trackedArgs[k], types(ArgumentPlace(k))) && q == ArgumentPlace(k) {
        assert KnownAt(d, q, f.trackedArgs[k]);
      } else {
        var k: nat :| k < |f.info.upvars| && Admits(f.info.upvars[k], types(CapturePlace(tcx, f, k))) && q == CapturePlace(tcx, f, k);
        assert KnownAt(d, q, f.info.upvars[k]);
      }
    }
  }
}
