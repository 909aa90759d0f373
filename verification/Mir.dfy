/** The part of the compiler's intermediate representation the analysis looks at, and the
    compiler queries it makes. The queries are fields of `Tcx`: every theorem holds for any
    compiler that answers them as functions. */
module Mir {
  import opened Options
  import opened Types

  datatype Elem = Deref | Field(idx: nat) | Index | Downcast(variant: nat) | Other(id: nat)

  /** A normalized place: fields are compared by index only. */
  datatype Place = Place(local: nat, proj: seq<Elem>)

  datatype Operand = Copy(place: Place) | Move(place: Place) | Constant(ty: Ty)

  /** The analysis treats the last two alike. A coercion only changes how a value is viewed (as a trait object
      or a function pointer, say), a conversion makes a value of the type it names: from number to
      number, from array to slice, from pointer to pointer. */
  datatype CastKind = PointerExposeAddress | PointerFromExposedAddress | Transmute | Coercion | Conversion

  /** `Arith` demands equal operand types, `Shift` takes the left one, `Compare` yields bool. */
  datatype BinOp = Arith | Shift | Compare

  datatype AggregateKind =
    | ArrayOf(ty: Ty)
    | TupleOf
    | AdtOf(ty: Ty)
    | ClosureOf(ty: Ty)
    | GeneratorOf

  datatype Rvalue =
    | Use(operand: Operand)
    | Repeat(operand: Operand, count: nat)
    | ThreadLocalRef(ty: Ty)
    | RefOf(mutbl: bool, place: Place)
    | AddressOf(mutbl: bool, place: Place)
    | Len
    | Cast(kind: CastKind, operand: Operand, ty: Ty)
    | BinaryOp(op: BinOp, lhs: Operand, rhs: Operand)
    | CheckedBinaryOp(op: BinOp, lhs: Operand, rhs: Operand)
    | UnaryOp(operand: Operand)
    | Discriminant(place: Place)
    | NullaryOp
    | Aggregate(aggregate: AggregateKind, operands: seq<Operand>)
    | ShallowInitBox(boxed: Ty)
    | CopyForDeref(place: Place)

  datatype Statement = Assign(place: Place, rvalue: Rvalue) | Nop

  datatype Terminator =
    | Call(func: Ty, args: seq<Operand>, destination: Place)
    | Drop(place: Place)
    | OtherTerminator

  datatype Block = Block(statements: seq<Statement>, terminator: Terminator, successors: set<nat>)

  /** `places` are the places of `all_places`, `reachable` the blocks of the reverse postorder,
      `types` the types visited in the body; the two flags are the per-body heuristics. */
  datatype Body = Body(
    blocks: seq<Block>,
    argCount: nat,
    places: set<Place>,
    reachable: set<nat>,
    types: seq<Ty>,
    span: nat,
    hasRawPtrDeref: bool,
    hasTransmute: bool)

  predicate WellFormedBody(body: Body) {
    && body.blocks != []
    && (forall b | b in body.reachable :: b < |body.blocks|)
    && 0 in body.reachable
    && (forall b | b in body.reachable :: body.blocks[b].successors <= body.reachable)
  }

  datatype InstanceKind = Item | Intrinsic | Virtual | Shim

  datatype Instance = Instance(kind: InstanceKind, did: DefId, args: seq<Ty>)

  datatype FunctionCall =
    | WithBody(instance: Instance, args: seq<Operand>)
    | WithoutBody(did: DefId, args: seq<Operand>)
  {
    function DefIdOf(): (did: DefId)
      ensures forall instance, args :: this == WithBody(instance, args) ==> did == instance.did
      ensures forall other, args :: this == WithoutBody(other, args) ==> did == other
    {
      match this
      case WithBody(instance, _) => instance.did
      case WithoutBody(did, _) => did
    }
  }

  datatype Tcx = Tcx(
    bodyOf: Instance -> Body,                           // substituted_mir
    placeTy: (Body, Place) -> Ty,                       // Place::ty
    interiorPaths: (Body, Place) -> set<Place>,         // PlaceExt::interior_paths
    fieldTy: (DefId, nat, nat, seq<Ty>) -> Option<Ty>,  // field of a variant, None if out of range
    upvarTys: Ty -> seq<Ty>,                            // upvar types of a closure type
    isBox: DefId -> bool,
    projectOther: (Ty, nat) -> Ty,
    discriminantTy: Ty -> Ty,
    boxOf: Ty -> Ty,
    resolve: (DefId, seq<Ty>) -> Option<Instance>,      // Instance::resolve
    mirAvailable: DefId -> bool,
    isClosure: DefId -> bool,
    genericInputs: DefId -> seq<Ty>,                    // inputs of the identity signature
    inputsOf: Instance -> seq<Ty>,                      // inputs of the instantiated signature
    outputOf: Instance -> Ty,
    typeOf: Instance -> Ty,
    destructorOf: DefId -> Option<DefId>,
    ownsContents: DefId -> bool)                        // values of the type point nowhere else

  /** A reference as it occurs in bodies, where lifetimes are erased. */
  function RefTo(mutbl: bool, ty: Ty): Ty {
    Ty(Ref(mutbl), [ERASED, ty])
  }

  // ---------------------------------------------------------------------------------------
  // Projection of types

  datatype PlaceTy = PlaceTy(ty: Ty, variant: Option<nat>)

  function Nth(tys: seq<Ty>, idx: nat): Option<Ty> {
    if idx < |tys| then Some(tys[idx]) else None
  }

  /** `index_ty_field`: the field type of an aggregate, recomputed from the concrete type. */
  function IndexTyField(tcx: Tcx, pty: PlaceTy, idx: nat): Option<Ty> {
    match pty.ty.head
    case Adt(did) => tcx.fieldTy(did, if pty.variant.Some? then pty.variant.value else 0, idx, pty.ty.args)
    case Closure(_) => Nth(tcx.upvarTys(pty.ty), idx)
    case Tuple => Nth(pty.ty.args, idx)
    case _ => None
  }

  function BuiltinDeref(tcx: Tcx, ty: Ty): Option<Ty> {
    match ty.head
    case Ref(_) => Nth(ty.args, 1)
    case RawPtr(_) => Nth(ty.args, 0)
    case Adt(did) => if tcx.isBox(did) then Nth(ty.args, 0) else None
    case _ => None
  }

  function Plain(ty: Option<Ty>): Option<PlaceTy> {
    match ty
    case Some(t) => Some(PlaceTy(t, None))
    case None => None
  }

  /** `refresh_and_project`. `None` is an error: the type has no such projection. */
  function Project(tcx: Tcx, pty: PlaceTy, elem: Elem): Option<PlaceTy> {
    match elem
    case Field(idx) =>
      if pty.ty.head.Alias? then
        (match Nth(pty.ty.args, 0)
         case Some(self) => Plain(IndexTyField(tcx, PlaceTy(self, pty.variant), idx))
         case None => None)
      else Plain(IndexTyField(tcx, pty, idx))
    case Deref => Plain(BuiltinDeref(tcx, pty.ty))
    case Index => if pty.ty.head.Array? || pty.ty.head.Slice? then Plain(Nth(pty.ty.args, 0)) else None
    case Downcast(v) => Some(PlaceTy(pty.ty, Some(v)))
    case Other(id) => Some(PlaceTy(tcx.projectOther(pty.ty, id), None))
  }

  function ProjectAll(tcx: Tcx, pty: PlaceTy, tail: seq<Elem>): Option<PlaceTy>
    decreases |tail|
  {
    if tail == [] then Some(pty)
    else
      match Project(tcx, pty, tail[0])
      case None => None
      case Some(next) => ProjectAll(tcx, next, tail[1..])
  }

  function ProjectTy(tcx: Tcx, ty: Ty, variant: Option<nat>, tail: seq<Elem>): Option<Ty> {
    match ProjectAll(tcx, PlaceTy(ty, variant), tail)
    case None => None
    case Some(pty) => Some(pty.ty)
  }

  /** The variant a place selects: only a place ending in a downcast selects one. */
  function VariantOf(p: Place): Option<nat> {
    if p.proj != [] && p.proj[|p.proj| - 1].Downcast? then Some(p.proj[|p.proj| - 1].variant) else None
  }

  /** The projections of `q` beyond those of `p`. */
  function Tail(p: Place, q: Place): seq<Elem> {
    if |p.proj| <= |q.proj| then q.proj[|p.proj|..] else []
  }

  predicate Extends(p: Place, q: Place) {
    p.local == q.local && p.proj <= q.proj
  }

  lemma {:induction false} ProjectAllComposes(tcx: Tcx, pty: PlaceTy, a: seq<Elem>, b: seq<Elem>)
    ensures ProjectAll(tcx, pty, a + b) ==
            match ProjectAll(tcx, pty, a) { case None => None case Some(mid) => ProjectAll(tcx, mid, b) }
    decreases |a|
  {
    if a == [] {
      assert a + b == b;
    } else {
      assert (a + b)[1..] == a[1..] + b;
      match Project(tcx, pty, a[0])
      case None =>
      case Some(next) => ProjectAllComposes(tcx, next, a[1..], b);
    }
  }

  /** Following a non-empty tail leaves exactly the variant its last element selects. */
  lemma {:induction false} ProjectAllVariant(tcx: Tcx, pty: PlaceTy, tail: seq<Elem>)
    requires tail != [] && ProjectAll(tcx, pty, tail).Some?
    ensures ProjectAll(tcx, pty, tail).value.variant ==
            if tail[|tail| - 1].Downcast? then Some(tail[|tail| - 1].variant) else None
    decreases |tail|
  {
    var next := Project(tcx, pty, tail[0]).value;
    if |tail| == 1 {
      assert ProjectAll(tcx, next, tail[1..]) == Some(next);
    } else {
      ProjectAllVariant(tcx, next, tail[1..]);
    }
  }

  /** Projecting from `p` through `q` to `r` is projecting from `p` to `r` at once. */
  lemma ProjectThrough(tcx: Tcx, ty: Ty, p: Place, q: Place, r: Place)
    requires Extends(p, q) && Extends(q, r)
    requires ProjectTy(tcx, ty, VariantOf(p), Tail(p, q)).Some?
    ensures ProjectTy(tcx, ty, VariantOf(p), Tail(p, r)) ==
            ProjectTy(tcx, ProjectTy(tcx, ty, VariantOf(p), Tail(p, q)).value, VariantOf(q), Tail(q, r))
  {
    var start := PlaceTy(ty, VariantOf(p));
    assert Tail(p, r) == Tail(p, q) + Tail(q, r);
    ProjectAllComposes(tcx, start, Tail(p, q), Tail(q, r));
    if Tail(p, q) == [] {
      assert p.proj == q.proj;
    } else {
      ProjectAllVariant(tcx, start, Tail(p, q));
    }
  }
}
