/** The dataflow domain of the type collector: what is known about every place of a body, plus
    the calls and the unhandled callee types met so far. All updates are weak. */
module Domains {
  import opened Options
  import opened Types
  import opened TrackedTypes
  import opened Mir

  datatype Domain = Domain(places: map<Place, TrackedTy>, calls: set<FunctionCall>, unhandled: set<Ty>)

  // ---------------------------------------------------------------------------------------
  // Order

  /** Same places with the same shapes, and nothing known to `a` is unknown to `b`. */
  predicate PlacesBelow(a: map<Place, TrackedTy>, b: map<Place, TrackedTy>) {
    a.Keys == b.Keys && forall p | p in a :: Below(a[p], b[p])
  }

  predicate Leq(a: Domain, b: Domain) {
    PlacesBelow(a.places, b.places) && a.calls <= b.calls && a.unhandled <= b.unhandled
  }

  predicate SameShape(a: Domain, b: Domain) {
    && a.places.Keys == b.places.Keys
    && forall p | p in a.places ::
         if a.places[p].Present? then a.places[p] == b.places[p] else b.places[p].Erased?
  }

  function JoinPlaces(a: map<Place, TrackedTy>, b: map<Place, TrackedTy>): map<Place, TrackedTy> {
    map p | p in a :: if p in b then Join(a[p], b[p]) else a[p]
  }

  function JoinDomains(a: Domain, b: Domain): Domain {
    Domain(JoinPlaces(a.places, b.places), a.calls + b.calls, a.unhandled + b.unhandled)
  }

  /** One thing a domain value knows. */
  datatype Fact = TypeFact(place: Place, ty: Ty) | CallFact(call: FunctionCall) | UnhandledFact(ty: Ty)

  ghost function Facts(d: Domain): set<Fact> {
    (set p, t | p in d.places && d.places[p].Erased? && t in d.places[p].deps :: TypeFact(p, t))
    + (set c | c in d.calls :: CallFact(c))
    + (set t | t in d.unhandled :: UnhandledFact(t))
  }

  /** The order is inclusion of facts between domains of one shape. */
  lemma LeqIsFactInclusion(a: Domain, b: Domain)
    requires SameShape(a, b)
    ensures Leq(a, b) <==> Facts(a) <= Facts(b)
  {
    if Facts(a) <= Facts(b) {
      forall c | c in a.calls ensures c in b.calls {
        assert CallFact(c) in Facts(b);
      }
      forall t | t in a.unhandled ensures t in b.unhandled {
        assert UnhandledFact(t) in Facts(b);
      }
      forall p | p in a.places ensures Below(a.places[p], b.places[p]) {
        if a.places[p].Erased? {
          forall t | t in a.places[p].deps ensures t in b.places[p].deps {
            assert TypeFact(p, t) in Facts(b);
          }
        }
      }
    }
  }

  lemma LeqReflexive(a: Domain)
    ensures Leq(a, a)
  {
  }

  lemma LeqTransitive(a: Domain, b: Domain, c: Domain)
    requires Leq(a, b) && Leq(b, c)
    ensures Leq(a, c)
  {
  }

  lemma LeqAntisymmetric(a: Domain, b: Domain)
    requires Leq(a, b) && Leq(b, a)
    ensures a == b
  {
    assert forall p | p in a.places :: a.places[p] == b.places[p];
    assert a.places == b.places;
  }

  /** On domains of one shape the join is the least upper bound, and it changes its left
      operand exactly when the right one knows something new. */
  lemma JoinIsLeastUpperBound(a: Domain, b: Domain)
    requires SameShape(a, b)
    ensures Leq(a, JoinDomains(a, b)) && Leq(b, JoinDomains(a, b))
    ensures forall c :: Leq(a, c) && Leq(b, c) ==> Leq(JoinDomains(a, b), c)
    ensures SameShape(a, JoinDomains(a, b))
    ensures JoinDomains(a, b) == a <==> Leq(b, a)
  {
    var j := JoinDomains(a, b);
    assert Leq(a, j) && Leq(b, j);
    if Leq(b, a) {
      forall p | p in a.places ensures j.places[p] == a.places[p] {
        JoinLaws(a.places[p], b.places[p]);
      }
      assert j == a;
    }
  }

  /** Contributions to a domain commute and are idempotent, whatever their shapes are. */
  lemma DomainContributionsCommute(e: Domain, x: Domain, y: Domain)
    ensures JoinDomains(JoinDomains(e, x), y) == JoinDomains(JoinDomains(e, y), x)
    ensures JoinDomains(JoinDomains(e, x), x) == JoinDomains(e, x)
  {
    forall p | p in e.places
      ensures JoinPlaces(JoinPlaces(e.places, x.places), y.places)[p] ==
              JoinPlaces(JoinPlaces(e.places, y.places), x.places)[p]
    {
      if p in x.places && p in y.places {
        ContributionsCommute(e.places[p], x.places[p], y.places[p]);
      }
    }
    assert JoinPlaces(JoinPlaces(e.places, x.places), y.places) == JoinPlaces(JoinPlaces(e.places, y.places), x.places);
    forall p | p in e.places && p in x.places
      ensures Join(Join(e.places[p], x.places[p]), x.places[p]) == Join(e.places[p], x.places[p])
    {
      JoinLaws(e.places[p], x.places[p]);
    }
    assert JoinPlaces(JoinPlaces(e.places, x.places), x.places) == JoinPlaces(e.places, x.places);
  }

  /** Joining domains of one shape is associative. */
  lemma DomainJoinAssociates(a: Domain, b: Domain, c: Domain)
    requires SameShape(a, b) && SameShape(b, c)
    ensures JoinDomains(JoinDomains(a, b), c) == JoinDomains(a, JoinDomains(b, c))
  {
    forall p | p in a.places
      ensures Join(Join(a.places[p], b.places[p]), c.places[p]) == Join(a.places[p], Join(b.places[p], c.places[p]))
    {
      JoinAssociatesExactly(a.places[p], b.places[p], c.places[p]);
    }
    var l, r := JoinDomains(JoinDomains(a, b), c), JoinDomains(a, JoinDomains(b, c));
    assert l.places == r.places;
  }

  /** A join that reports a change strictly enlarges the set of facts. */
  lemma ChangeGrowsFacts(a: Domain, b: Domain)
    requires SameShape(a, b)
    ensures Facts(a) <= Facts(JoinDomains(a, b))
    ensures !Leq(b, a) ==> Facts(a) != Facts(JoinDomains(a, b))
  {
    var j := JoinDomains(a, b);
    JoinIsLeastUpperBound(a, b);
    LeqIsFactInclusion(a, j);
    if !Leq(b, a) {
      LeqIsFactInclusion(j, a);
      if Leq(j, a) {
        LeqTransitive(b, j, a);
      }
    }
  }

  /** How many joins of a run of contributions report a change. */
  ghost function Changes(d: Domain, contributions: seq<Domain>): nat
    decreases |contributions|
  {
    if contributions == [] then 0
    else (if Leq(contributions[0], d) then 0 else 1) + Changes(JoinDomains(d, contributions[0]), contributions[1..])
  }

  lemma ProperSubsetIsSmaller<T>(a: set<T>, b: set<T>)
    requires a < b
    ensures |a| < |b|
  {
    var x :| x in b && x !in a;
    SubsetIsNotLarger(a, b - {x});
    assert b == (b - {x}) + {x};
  }

  lemma {:induction false} SubsetIsNotLarger<T>(a: set<T>, b: set<T>)
    requires a <= b
    ensures |a| <= |b|
    decreases a
  {
    if a != {} {
      var x :| x in a;
      SubsetIsNotLarger(a - {x}, b - {x});
    }
  }

  lemma JoinStep(d: Domain, c: Domain, ceiling: Domain)
    requires Leq(d, ceiling) && Leq(c, ceiling)
    ensures Leq(JoinDomains(d, c), ceiling)
    ensures |Facts(d)| + (if Leq(c, d) then 0 else 1) <= |Facts(JoinDomains(d, c))|
  {
    assert SameShape(d, c);
    JoinIsLeastUpperBound(d, c);
    ChangeGrowsFacts(d, c);
    SubsetIsNotLarger(Facts(d), Facts(JoinDomains(d, c)));
    if !Leq(c, d) {
      ProperSubsetIsSmaller(Facts(d), Facts(JoinDomains(d, c)));
    }
  }

  /** Below a finite ceiling only as many joins can report a change as there are facts missing. */
  lemma {:induction false} ChangesAreBounded(d: Domain, contributions: seq<Domain>, ceiling: Domain)
    requires Leq(d, ceiling)
    requires forall i | 0 <= i < |contributions| :: Leq(contributions[i], ceiling)
    ensures Changes(d, contributions) <= |Facts(ceiling)| - |Facts(d)|
    decreases |contributions|
  {
    if contributions == [] {
      LeqIsFactInclusion(d, ceiling);
      SubsetIsNotLarger(Facts(d), Facts(ceiling));
    } else {
      JoinStep(d, contributions[0], ceiling);
      ChangesAreBounded(JoinDomains(d, contributions[0]), contributions[1..], ceiling);
    }
  }

  // ---------------------------------------------------------------------------------------
  // Updating a place and the places inside it

  function ProjectTracked(tcx: Tcx, t: TrackedTy, p: Place, q: Place): Option<TrackedTy> {
    TryMap(t, ty => ProjectTy(tcx, ty, VariantOf(p), Tail(p, q)))
  }

  function DerefOf(p: Place): Place {
    Place(p.local, p.proj + [Deref])
  }

  /** The places a type of `p` is propagated to: the interior of `p`, and what `p` points to if
      it may be a reference. */
  function Targets(tcx: Tcx, body: Body, p: Place, t: TrackedTy): set<Place> {
    tcx.interiorPaths(body, p) + (if exists ty | ty in TypesOf(t) :: IsRef(ty) then {DerefOf(p)} else {})
  }

  function Contribute(places: map<Place, TrackedTy>, paths: map<Place, TrackedTy>): map<Place, TrackedTy> {
    map q | q in places :: if q in paths then Join(places[q], paths[q]) else places[q]
  }

  /** `Rejected`: some type cannot be projected, nothing was changed.
      `Missing`: a target is not tracked, the source panics. */
  datatype Propagation = Propagated(places: map<Place, TrackedTy>) | Rejected | Missing

  predicate Projectable(tcx: Tcx, body: Body, p: Place, t: TrackedTy) {
    forall q | q in Targets(tcx, body, p, t) :: ProjectTracked(tcx, t, p, q).Some?
  }

  function Projections(tcx: Tcx, body: Body, p: Place, t: TrackedTy): (paths: map<Place, TrackedTy>)
    requires Projectable(tcx, body, p, t)
    ensures paths.Keys == Targets(tcx, body, p, t)
  {
    map q | q in Targets(tcx, body, p, t) :: ProjectTracked(tcx, t, p, q).value
  }

  function Propagate(tcx: Tcx, body: Body, places: map<Place, TrackedTy>, p: Place, t: TrackedTy): Propagation {
    if !Projectable(tcx, body, p, t) then Rejected
    else if !(Targets(tcx, body, p, t) <= places.Keys) then Missing
    else Propagated(Contribute(places, Projections(tcx, body, p, t)))
  }

  function Settle(d: Domain, r: Propagation): Option<Domain> {
    match r
    case Propagated(places) => Some(d.(places := places))
    case _ => None
  }

  /** `update_with`: the place absorbs the type, and everything it then holds is propagated. `None` is a panic. */
  function Update(tcx: Tcx, body: Body, d: Domain, p: Place, t: TrackedTy): Option<Domain> {
    if p !in d.places then None
    else
      var joined := Join(d.places[p], t);
      Settle(d, Propagate(tcx, body, d.places[p := joined], p, joined))
  }

  /** `augment_*`: as `update_with`, but the place may be new and only the type itself is propagated. */
  function Augment(tcx: Tcx, body: Body, d: Domain, p: Place, t: TrackedTy): Option<Domain> {
    var joined := if p in d.places then Join(d.places[p], t) else t;
    Settle(d, Propagate(tcx, body, d.places[p := joined], p, t))
  }

  /** Updates are inflationary, touch places only, and keep every shape. */
  lemma UpdateInflates(tcx: Tcx, body: Body, d: Domain, p: Place, t: TrackedTy)
    requires Update(tcx, body, d, p, t).Some?
    ensures Leq(d, Update(tcx, body, d, p, t).value)
    ensures SameShape(d, Update(tcx, body, d, p, t).value)
    ensures TypesOf(t) <= TypesOf(Update(tcx, body, d, p, t).value.places[p]) || d.places[p].Present?
  {
  }

  lemma ProjectTrackedMonotone(tcx: Tcx, t: TrackedTy, t': TrackedTy, p: Place, q: Place)
    requires Below(t, t')
    requires ProjectTracked(tcx, t', p, q).Some?
    ensures ProjectTracked(tcx, t, p, q).Some?
    ensures Below(ProjectTracked(tcx, t, p, q).value, ProjectTracked(tcx, t', p, q).value)
  {
  }

  /** An update in a state that knows more, with a type that knows more, gives a state that knows
      more; and it panics only more often. */
  lemma UpdateMonotone(tcx: Tcx, body: Body, d: Domain, d': Domain, p: Place, t: TrackedTy, t': TrackedTy)
    requires Leq(d, d') && Below(t, t')
    requires Update(tcx, body, d', p, t').Some?
    ensures Update(tcx, body, d, p, t).Some?
    ensures Leq(Update(tcx, body, d, p, t).value, Update(tcx, body, d', p, t').value)
  {
    var j, j' := Join(d.places[p], t), Join(d'.places[p], t');
    JoinMonotone(d.places[p], d'.places[p], t, t');
    assert Targets(tcx, body, p, j) <= Targets(tcx, body, p, j');
    forall q | q in Targets(tcx, body, p, j)
      ensures ProjectTracked(tcx, j, p, q).Some?
      ensures Below(ProjectTracked(tcx, j, p, q).value, ProjectTracked(tcx, j', p, q).value)
    {
      assert ProjectTracked(tcx, j', p, q).Some?;
      ProjectTrackedMonotone(tcx, j, j', p, q);
    }
    var r, r' := Update(tcx, body, d, p, t).value, Update(tcx, body, d', p, t').value;
    forall q | q in r.places
      ensures Below(r.places[q], r'.places[q])
    {
      var b, b' := d.places[p := j][q], d'.places[p := j'][q];
      assert Below(b, b');
      if q in Targets(tcx, body, p, j) {
        JoinMonotone(b, b', ProjectTracked(tcx, j, p, q).value, ProjectTracked(tcx, j', p, q).value);
      } else if q in Targets(tcx, body, p, j') {
        JoinLaws(b', ProjectTracked(tcx, j', p, q).value);
      }
    }
  }

  // ---------------------------------------------------------------------------------------
  // The state of a body before any statement ran

  function DeclaredPlaces(tcx: Tcx, body: Body): map<Place, TrackedTy> {
    map p | p in body.places :: FromTy(tcx.placeTy(body, p))
  }

  function LookupOr(d: Domain, p: Place, declared: Ty): TrackedTy {
    if p in d.places then d.places[p] else FromTy(declared)
  }
}
