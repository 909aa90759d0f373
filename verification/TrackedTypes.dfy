/** The optional result used for lookups and for operations that panic in the source. */
module Options {
  datatype Option<+T> = None | Some(value: T)
}

/** What the analysis knows about the type of a place: exactly the declared type, or, when the
    declared type hides something, the set of concrete types seen to flow there. */
module TrackedTypes {
  import opened Options
  import opened Types

  datatype TrackedTy = Present(ty: Ty) | Erased(deps: set<Ty>)

  function FromTy(ty: Ty): TrackedTy {
    if ContainsErased(ty) then Erased({}) else Present(ty)
  }

  /** `Present` is reserved for types that hide nothing. */
  predicate Tracked(t: TrackedTy) {
    t.Present? ==> !ContainsErased(t.ty)
  }

  function TypesOf(t: TrackedTy): set<Ty> {
    match t
    case Present(ty) => {ty}
    case Erased(deps) => deps
  }

  function Join(a: TrackedTy, b: TrackedTy): TrackedTy {
    if a.Present? then a else Erased(a.deps + TypesOf(b))
  }

  /** Same shape, and nothing known to `a` is unknown to `b`. */
  predicate Below(a: TrackedTy, b: TrackedTy) {
    if a.Present? then a == b else b.Erased? && a.deps <= b.deps
  }

  function Map(t: TrackedTy, f: Ty -> Ty): TrackedTy {
    match t
    case Present(ty) => FromTy(f(ty))
    case Erased(deps) => Erased(set d | d in deps :: f(d))
  }

  function TryMap(t: TrackedTy, f: Ty -> Option<Ty>): Option<TrackedTy> {
    match t
    case Present(ty) => if f(ty).Some? then Some(FromTy(f(ty).value)) else None
    case Erased(deps) =>
      if forall d | d in deps :: f(d).Some? then
        Some(Erased(set d | d in deps && f(d).Some? :: f(d).value))
      else None
  }

  /** The in-place join: the types of `other` are inserted one by one, and the flag records
      whether any insertion was new. */
  method JoinInto(self: TrackedTy, other: TrackedTy) returns (joined: TrackedTy, updated: bool)
    ensures joined == Join(self, other)
    ensures updated <==> !Below(joined, self)
    ensures updated <==> self.Erased? && !(TypesOf(other) <= self.deps)
  {
    if self.Present? {
      return self, false;
    }
    var deps := self.deps;
    updated := false;
    var rest := TypesOf(other);
    while rest != {}
      invariant rest <= TypesOf(other)
      invariant deps == self.deps + (TypesOf(other) - rest)
      invariant updated <==> deps != self.deps
    {
      var d :| d in rest;
      updated := d !in deps || updated;
      deps := deps + {d};
      rest := rest - {d};
    }
    joined := Erased(deps);
  }

  // ---------------------------------------------------------------------------------------
  // Laws of join

  /** `Join` keeps the shape, adds nothing twice, and is an upper bound of what it can absorb. */
  lemma JoinLaws(a: TrackedTy, b: TrackedTy)
    ensures Below(a, Join(a, b))
    ensures Join(a, a) == a
    ensures Join(Join(a, b), b) == Join(a, b)
    ensures Join(a, b) == a <==> a.Present? || TypesOf(b) <= a.deps
    ensures a.Erased? ==> forall c :: Below(a, c) && TypesOf(b) <= TypesOf(c) ==> Below(Join(a, b), c)
  {
    if a.Erased? {
      assert a.deps + a.deps == a.deps;
      assert a.deps + TypesOf(b) + TypesOf(b) == a.deps + TypesOf(b);
      if TypesOf(b) <= a.deps {
        assert a.deps + TypesOf(b) == a.deps;
      }
    }
  }

  /** Contributions commute whatever their shapes. */
  lemma ContributionsCommute(e: TrackedTy, x: TrackedTy, y: TrackedTy)
    ensures Join(Join(e, x), y) == Join(Join(e, y), x)
  {
    if e.Erased? {
      assert e.deps + TypesOf(x) + TypesOf(y) == e.deps + TypesOf(y) + TypesOf(x);
    }
  }

  /** Join is commutative on equal operands and on two sets, and nowhere else. */
  lemma JoinCommutesExactly(a: TrackedTy, b: TrackedTy)
    ensures Join(a, b) == Join(b, a) <==> a == b || (a.Erased? && b.Erased?)
  {
    if a.Erased? && b.Erased? {
      assert a.deps + b.deps == b.deps + a.deps;
    }
  }

  /** A `Present` in the middle swallows what comes after it, so join associates exactly when
      the left operand ignores everything, the middle one is a set, or the last one is not new. */
  lemma JoinAssociatesExactly(a: TrackedTy, b: TrackedTy, c: TrackedTy)
    ensures Join(Join(a, b), c) == Join(a, Join(b, c)) <==>
            a.Present? || b.Erased? || TypesOf(c) <= a.deps + TypesOf(b)
  {
    if a.Erased? {
      if b.Erased? {
        assert a.deps + b.deps + TypesOf(c) == a.deps + (b.deps + TypesOf(c));
      } else if TypesOf(c) <= a.deps + TypesOf(b) {
        assert a.deps + TypesOf(b) + TypesOf(c) == a.deps + TypesOf(b);
      } else {
        var t :| t in TypesOf(c) && t !in a.deps + TypesOf(b);
        assert t in Join(Join(a, b), c).deps;
      }
    }
  }

  lemma JoinMonotone(a: TrackedTy, a': TrackedTy, b: TrackedTy, b': TrackedTy)
    requires Below(a, a') && Below(b, b')
    ensures Below(Join(a, b), Join(a', b'))
  {
  }

  // ---------------------------------------------------------------------------------------
  // Tuple aggregation and spreading

  /** All ways of choosing one type per slot. */
  function Product(slots: seq<set<Ty>>): set<seq<Ty>> {
    if slots == [] then {[]}
    else set x, rest | x in slots[0] && rest in Product(slots[1..]) :: [x] + rest
  }

  /** `c` chooses a member of every slot. */
  predicate Chooses(c: seq<Ty>, slots: seq<set<Ty>>) {
    |c| == |slots| && forall i | 0 <= i < |slots| :: c[i] in slots[i]
  }

  lemma {:induction false} ProductIsAllChoices(slots: seq<set<Ty>>, c: seq<Ty>)
    ensures c in Product(slots) <==> Chooses(c, slots)
  {
    if slots == [] {
      assert c in Product(slots) <==> c == [];
    } else {
      if c != [] {
        ProductIsAllChoices(slots[1..], c[1..]);
        assert c == [c[0]] + c[1..];
      }
      if c in Product(slots) {
        var x, rest :| x in slots[0] && rest in Product(slots[1..]) && c == [x] + rest;
        assert c[1..] == rest;
      }
      if Chooses(c, slots) {
        assert Chooses(c[1..], slots[1..]) by {
          forall i | 0 <= i < |slots[1..]| ensures c[1..][i] in slots[1..][i] {
            assert c[i + 1] in slots[i + 1];
          }
        }
        assert c[0] in slots[0];
      }
    }
  }

  predicate AllPresent(ops: seq<TrackedTy>) {
    forall i | 0 <= i < |ops| :: ops[i].Present?
  }

  function SlotsOf(ops: seq<TrackedTy>): (slots: seq<set<Ty>>)
    ensures |slots| == |ops|
  {
    seq(|ops|, i requires 0 <= i < |ops| => TypesOf(ops[i]))
  }

  /** The tracked type of a tuple built from operands with the given tracked types. */
  function Pack(ops: seq<TrackedTy>): TrackedTy {
    if AllPresent(ops) then
      FromTy(Ty(Tuple, seq(|ops|, i requires 0 <= i < |ops| => assert ops[i].Present?; ops[i].ty)))
    else
      Erased(set c | c in Product(SlotsOf(ops)) :: Ty(Tuple, c))
  }

  /** All members are tuples with `n` fields. */
  predicate UniformTuples(deps: set<Ty>, n: nat) {
    forall d | d in deps :: IsTuple(d) && |d.args| == n
  }

  /** All members are tuples with equally many fields. */
  predicate AgreeingTuples(deps: set<Ty>) {
    forall d, e | d in deps && e in deps :: IsTuple(d) && |d.args| == |e.args|
  }

  function Column(deps: set<Ty>, j: nat): set<Ty> {
    set d | d in deps && j < |d.args| :: d.args[j]
  }

  /** The number of fields the members agree on. */
  function ArityOf(deps: set<Ty>): (n: nat)
    requires deps != {} && AgreeingTuples(deps)
    ensures UniformTuples(deps, n)
  {
    var arities := set d | d in deps :: |d.args|;
    assert arities != {} by {
      var d :| d in deps;
      assert |d.args| in arities;
    }
    var n :| n in arities;
    n
  }

  /** Splits a tracked tuple into its tracked fields. `None` is a panic: a member is not a tuple,
      or the members disagree on the number of fields. */
  function SpreadTuple(t: TrackedTy): Option<seq<TrackedTy>> {
    match t
    case Present(ty) =>
      if IsTuple(ty) then Some(seq(|ty.args|, i requires 0 <= i < |ty.args| => FromTy(ty.args[i])))
      else None
    case Erased(deps) =>
      if deps == {} then Some([t])
      else if AgreeingTuples(deps) then
        Some(seq(ArityOf(deps), j requires 0 <= j < ArityOf(deps) => Erased(Column(deps, j))))
      else None
  }

  /** Turns rows into columns by advancing one cursor per row. `None` is the panic of a row that
      is exhausted too early; the columns are as many as the first row is long. */
  method Transpose(rows: seq<seq<Ty>>) returns (columns: Option<seq<seq<Ty>>>)
    requires rows != []
    ensures columns.Some? <==> forall i | 0 <= i < |rows| :: |rows[0]| <= |rows[i]|
    ensures columns.Some? ==> |columns.value| == |rows[0]|
    ensures columns.Some? ==> forall j | 0 <= j < |rows[0]| ::
              |columns.value[j]| == |rows| &&
              forall i | 0 <= i < |rows| :: j < |rows[i]| && columns.value[j][i] == rows[i][j]
  {
    var len := |rows[0]|;
    var done: seq<seq<Ty>> := [];
    var cursors := rows;
    while |done| < len
      invariant |done| <= len && |cursors| == |rows|
      invariant forall i | 0 <= i < |rows| :: |done| <= |rows[i]| && cursors[i] == rows[i][|done|..]
      invariant forall j | 0 <= j < |done| ::
                  |done[j]| == |rows| &&
                  forall i | 0 <= i < |rows| :: j < |rows[i]| && done[j][i] == rows[i][j]
    {
      var column: seq<Ty> := [];
      var next: seq<seq<Ty>> := [];
      while |column| < |rows|
        invariant |column| <= |rows| && |next| == |column|
        invariant forall i | 0 <= i < |column| :: |done| < |rows[i]| && column[i] == rows[i][|done|]
        invariant forall i | 0 <= i < |column| :: next[i] == rows[i][|done| + 1..]
      {
        var k := |column|;
        if cursors[k] == [] {
          assert |rows[k]| < |rows[0]|;
          return None;
        }
        assert cursors[k][1..] == rows[k][|done| + 1..];
        column, next := column + [cursors[k][0]], next + [cursors[k][1..]];
      }
      done, cursors := done + [column], next;
    }
    return Some(done);
  }

  /** Spreading through `Transpose`. The member listed first decides how many fields there are: a
      shorter member is a panic, and what a longer one has beyond is cut off. When all are equally
      long the listing does not matter. */
  method Spread(deps: set<Ty>, listed: seq<Ty>) returns (fields: Option<seq<TrackedTy>>)
    requires deps != {} && forall d :: d in deps <==> d in listed
    requires forall d | d in deps :: IsTuple(d)
    ensures listed != [] && (fields.Some? <==> forall d | d in deps :: |listed[0].args| <= |d.args|)
    ensures fields.Some? ==> |fields.value| == |listed[0].args|
                             && forall j | 0 <= j < |fields.value| :: fields.value[j] == Erased(Column(deps, j))
    ensures (exists n: nat :: UniformTuples(deps, n)) ==> fields == SpreadTuple(Erased(deps))
  {
    assert listed != [] by {
      var d :| d in deps;
      assert d in listed;
    }
    var rows := seq(|listed|, i requires 0 <= i < |listed| => listed[i].args);
    var columns := Transpose(rows);
    assert forall i | 0 <= i < |rows| :: listed[i] in listed && rows[i] == listed[i].args;
    if columns.None? {
      fields := None;
      var i :| 0 <= i < |rows| && |rows[i]| < |rows[0]|;
      assert listed[i] in deps && listed[0] in deps;
    } else {
      var value := columns.value;
      fields := Some(seq(|value|, j requires 0 <= j < |value| => Erased(set x | x in value[j])));
      forall j | 0 <= j < |value|
        ensures (set x | x in value[j]) == Column(deps, j)
      {
        ColumnIsListed(deps, listed, value[j], j);
      }
      forall d | d in deps ensures |listed[0].args| <= |d.args| {
        var i :| 0 <= i < |listed| && listed[i] == d;
        assert |rows[0]| <= |rows[i]|;
      }
    }
    if n: nat :| UniformTuples(deps, n) {
      assert listed[0] in deps;
      assert AgreeingTuples(deps) && ArityOf(deps) == n;
      assert fields.Some? && fields.value == SpreadTuple(Erased(deps)).value;
    }
  }

  lemma ColumnIsListed(deps: set<Ty>, listed: seq<Ty>, column: seq<Ty>, j: nat)
    requires forall d :: d in deps <==> d in listed
    requires |column| == |listed| && forall i | 0 <= i < |listed| :: j < |listed[i].args| && column[i] == listed[i].args[j]
    ensures (set x | x in column) == Column(deps, j)
  {
    forall x | x in column ensures x in Column(deps, j) {
      var i :| 0 <= i < |column| && column[i] == x;
      assert listed[i] in listed;
    }
    forall x | x in Column(deps, j) ensures x in column {
      var d :| d in deps && j < |d.args| && x == d.args[j];
      var i :| 0 <= i < |listed| && listed[i] == d;
      assert column[i] == x;
    }
  }

  /** A tuple of types that hide nothing hides nothing. */
  lemma TupleHidesNothing(tys: seq<Ty>)
    requires forall i | 0 <= i < |tys| :: !ContainsErased(tys[i])
    ensures !ContainsErased(Ty(Tuple, tys))
  {
    forall k | 0 <= k < |tys| && Any(tys[k], IsErasingHead)
      ensures ContainsClosure(Ty(Tuple, tys))
    {
      assert ContainsClosure(Ty(Tuple, tys).args[k]);
    }
  }

  lemma PackColumns(ops: seq<TrackedTy>, j: nat)
    requires j < |ops| && !AllPresent(ops)
    requires forall i | 0 <= i < |ops| :: TypesOf(ops[i]) != {}
    ensures Pack(ops).deps != {}
    ensures Column(Pack(ops).deps, j) == TypesOf(ops[j])
  {
    var slots := SlotsOf(ops);
    var deps := Pack(ops).deps;
    forall x | x in TypesOf(ops[j])
      ensures exists d :: d in deps && j < |d.args| && d.args[j] == x
    {
      var c := seq(|ops|, i requires 0 <= i < |ops| =>
        if i == j then x else assert TypesOf(ops[i]) != {}; var y :| y in TypesOf(ops[i]); y);
      ProductIsAllChoices(slots, c);
      assert Ty(Tuple, c) in deps;
    }
    forall d | d in deps && j < |d.args|
      ensures d.args[j] in TypesOf(ops[j])
    {
      var c :| c in Product(slots) && d == Ty(Tuple, c);
      ProductIsAllChoices(slots, c);
      assert c[j] in slots[j];
    }
    var y :| y in TypesOf(ops[j]);
  }

  lemma PackUniform(ops: seq<TrackedTy>)
    requires !AllPresent(ops)
    ensures UniformTuples(Pack(ops).deps, |ops|)
  {
    forall d | d in Pack(ops).deps
      ensures IsTuple(d) && |d.args| == |ops|
    {
      var c :| c in Product(SlotsOf(ops)) && d == Ty(Tuple, c);
      ProductIsAllChoices(SlotsOf(ops), c);
    }
  }

  /** What spreading a packed operand list is expected to give back. */
  predicate Restores(fields: Option<seq<TrackedTy>>, ops: seq<TrackedTy>) {
    fields.Some? && |fields.value| == |ops| &&
    forall j | 0 <= j < |ops| :: TypesOf(fields.value[j]) == TypesOf(ops[j])
  }

  lemma SpreadPresent(ops: seq<TrackedTy>)
    requires forall i | 0 <= i < |ops| :: Tracked(ops[i])
    requires AllPresent(ops)
    ensures SpreadTuple(Pack(ops)) == Some(ops)
  {
    var tys := seq(|ops|, i requires 0 <= i < |ops| => assert ops[i].Present?; ops[i].ty);
    TupleHidesNothing(tys);
    assert Pack(ops) == Present(Ty(Tuple, tys));
    assert SpreadTuple(Pack(ops)).value == ops;
  }

  lemma SpreadErased(ops: seq<TrackedTy>)
    requires !AllPresent(ops)
    requires forall i | 0 <= i < |ops| :: TypesOf(ops[i]) != {}
    ensures SpreadTuple(Pack(ops)) ==
            Some(seq(|ops|, j requires 0 <= j < |ops| => Erased(TypesOf(ops[j]))))
  {
    var deps := Pack(ops).deps;
    PackUniform(ops);
    PackColumns(ops, 0);
    assert AgreeingTuples(deps);
    var d :| d in deps;
    assert ArityOf(deps) == |d.args|;
    forall j | 0 <= j < |ops|
      ensures Column(deps, j) == TypesOf(ops[j])
    {
      PackColumns(ops, j);
    }
    assert SpreadTuple(Pack(ops)).value == seq(|ops|, j requires 0 <= j < |ops| => Erased(TypesOf(ops[j])));
  }

  lemma PackNothing(ops: seq<TrackedTy>, k: nat)
    requires k < |ops| && TypesOf(ops[k]) == {}
    ensures Pack(ops) == Erased({})
  {
    assert SlotsOf(ops)[k] == {};
    forall c ensures c !in Product(SlotsOf(ops)) {
      ProductIsAllChoices(SlotsOf(ops), c);
    }
    assert Pack(ops).deps == {};
  }

  /** Packing a list of operands and spreading the result restores the arity and the types of
      every slot, unless an operand of a longer list has an empty set: then the product is empty
      and the arity is lost. When everything was `Present` the operands come back unchanged. */
  lemma PackThenSpread(ops: seq<TrackedTy>)
    requires forall i | 0 <= i < |ops| :: Tracked(ops[i])
    ensures Restores(SpreadTuple(Pack(ops)), ops) <==>
            |ops| == 1 || forall i | 0 <= i < |ops| :: TypesOf(ops[i]) != {}
    ensures AllPresent(ops) ==> SpreadTuple(Pack(ops)) == Some(ops)
  {
    if AllPresent(ops) {
      SpreadPresent(ops);
    } else if k :| 0 <= k < |ops| && TypesOf(ops[k]) == {} {
      PackNothing(ops, k);
    } else {
      SpreadErased(ops);
    }
  }
}
