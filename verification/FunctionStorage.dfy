/** The append-only storage of function summaries, looked up by first match. */
module FunctionStorage {
  import opened Options
  import opened Types
  import opened TrackedTypes
  import opened Mir
  import opened Domains

  datatype FunctionInfo =
    | InfoWithBody(instance: Instance, places: map<Place, TrackedTy>, calls: set<FunctionCall>,
                   body: Body, span: nat, unhandled: set<Ty>)
    | InfoWithoutBody(did: DefId, trackedArgs: seq<TrackedTy>)
  {
    function DefIdOf(): (did: DefId)
      ensures did == if InfoWithBody? then instance.did else this.did
    {
      match this
      case InfoWithBody(instance, _, _, _, _, _) => instance.did
      case InfoWithoutBody(did, _) => did
    }

    /** The recorded calls; a function without a body has none. */
    function Calls(): set<FunctionCall> {
      match this
      case InfoWithBody(_, _, calls, _, _, _) => calls
      case InfoWithoutBody(_, _) => {}
    }
  }

  /** Equality of summaries; the body itself is not compared. */
  predicate SameInfo(l: FunctionInfo, r: FunctionInfo) {
    match (l, r)
    case (InfoWithBody(i, p, c, _, s, u), InfoWithBody(i', p', c', _, s', u')) =>
      i == i' && p == p' && c == c' && s == s' && u == u'
    case (InfoWithoutBody(d, a), InfoWithoutBody(d', a')) => d == d' && a == a'
    case _ => false
  }

  predicate Contains(fns: seq<FunctionInfo>, info: FunctionInfo) {
    exists k | 0 <= k < |fns| :: SameInfo(fns[k], info)
  }

  function Inserted(fns: seq<FunctionInfo>, info: FunctionInfo): seq<FunctionInfo> {
    if Contains(fns, info) then fns else fns + [info]
  }

  /** A summary is stored unless one is there already that differs from it in the body at most. */
  lemma InsertedExactly(fns: seq<FunctionInfo>, info: FunctionInfo)
    ensures Inserted(fns, info) == fns <==>
            exists k :: 0 <= k < |fns| && (fns[k] == info || (fns[k].InfoWithBody? && info.InfoWithBody? && fns[k] == info.(body := fns[k].body)))
    ensures Inserted(fns, info) == fns || Inserted(fns, info) == fns + [info]
  {
    if Contains(fns, info) {
      var k :| 0 <= k < |fns| && SameInfo(fns[k], info);
      assert fns[k] == info || fns[k] == info.(body := fns[k].body);
    } else if k :| 0 <= k < |fns| && (fns[k] == info || (fns[k].InfoWithBody? && info.InfoWithBody? && fns[k] == info.(body := fns[k].body))) {
      assert SameInfo(fns[k], info);
    }
  }

  /** A call with a body is looked up by instance, one without by definition. */
  predicate Answers(info: FunctionInfo, call: FunctionCall) {
    match call
    case WithBody(instance, _) => info.InfoWithBody? && info.instance == instance
    case WithoutBody(did, _) => info.InfoWithoutBody? && info.did == did
  }

  /** The index of the first summary answering the call. */
  function Find(fns: seq<FunctionInfo>, call: FunctionCall): (r: Option<nat>)
    ensures r.Some? ==> r.value < |fns| && Answers(fns[r.value], call)
    ensures r.Some? ==> forall j | 0 <= j < r.value :: !Answers(fns[j], call)
    ensures r.None? ==> forall j | 0 <= j < |fns| :: !Answers(fns[j], call)
  {
    if fns == [] then None
    else
      var earlier := Find(fns[..|fns| - 1], call);
      if earlier.Some? then earlier
      else if Answers(fns[|fns| - 1], call) then Some(|fns| - 1)
      else None
  }

  /** The summary is about the callee: of its instance, or of its definition if the call has no body. */
  predicate IsAbout(info: FunctionInfo, call: FunctionCall) {
    && (info.InfoWithBody? <==> call.WithBody?)
    && (call.WithBody? ==> info.instance == call.instance)
    && (call.WithoutBody? ==> info.did == call.did)
  }

  /** The first summary in the storage that is about the callee. */
  predicate IsFirstAbout(fns: seq<FunctionInfo>, call: FunctionCall, k: nat) {
    k < |fns| && IsAbout(fns[k], call) && forall j | 0 <= j < k :: !IsAbout(fns[j], call)
  }

  /** A lookup finds the first summary about the callee, and fails only if there is none. */
  lemma FoundIsFirstAbout(fns: seq<FunctionInfo>, call: FunctionCall)
    ensures Find(fns, call).Some? ==> IsFirstAbout(fns, call, Find(fns, call).value)
    ensures Find(fns, call).None? ==> forall j | 0 <= j < |fns| :: !IsAbout(fns[j], call)
  {
    forall info ensures Answers(info, call) <==> IsAbout(info, call) {
    }
  }

  function FindInstance(fns: seq<FunctionInfo>, instance: Instance): Option<nat> {
    Find(fns, WithBody(instance, []))
  }

  /** What `get_with_body` gives. */
  function Lookup(fns: seq<FunctionInfo>, instance: Instance): Option<FunctionInfo> {
    var k := FindInstance(fns, instance);
    if k.Some? then Some(fns[k.value]) else None
  }

  // ---------------------------------------------------------------------------------------
  // The recorded call graph is acyclic

  ghost predicate Resolvable(fns: seq<FunctionInfo>, calls: set<FunctionCall>) {
    forall c | c in calls :: Find(fns, c).Some?
  }

  /** The storage order is a topological order of the recorded calls. */
  ghost predicate Ordered(fns: seq<FunctionInfo>) {
    forall k, c | 0 <= k < |fns| && c in fns[k].Calls() :: Find(fns, c).Some? && Find(fns, c).value < k
  }

  ghost predicate NoDuplicates(fns: seq<FunctionInfo>) {
    forall j, k | 0 <= j < k < |fns| :: !SameInfo(fns[j], fns[k])
  }

  ghost predicate Prefix(a: seq<FunctionInfo>, b: seq<FunctionInfo>) {
    a <= b
  }

  /** A lookup that succeeds keeps its answer for good. */
  lemma FindIsStable(fns: seq<FunctionInfo>, fns': seq<FunctionInfo>, call: FunctionCall)
    requires Prefix(fns, fns') && Find(fns, call).Some?
    ensures Find(fns', call) == Find(fns, call)
  {
    var k := Find(fns, call).value;
    assert fns'[k] == fns[k];
    assert forall j | 0 <= j < k :: fns'[j] == fns[j];
    var k' := Find(fns', call).value;
    assert !(k < k') && !(k' < k);
  }

  lemma ResolvableIsStable(fns: seq<FunctionInfo>, fns': seq<FunctionInfo>, calls: set<FunctionCall>)
    requires Prefix(fns, fns') && Resolvable(fns, calls)
    ensures Resolvable(fns', calls)
  {
    forall c | c in calls ensures Find(fns', c).Some? {
      FindIsStable(fns, fns', c);
    }
  }

  /** Inserting a summary whose calls can all be looked up keeps the order. */
  lemma InsertKeepsOrder(fns: seq<FunctionInfo>, info: FunctionInfo)
    requires Ordered(fns) && NoDuplicates(fns)
    requires Resolvable(fns, info.Calls())
    ensures Ordered(Inserted(fns, info)) && NoDuplicates(Inserted(fns, info))
    ensures Prefix(fns, Inserted(fns, info)) && Contains(Inserted(fns, info), info)
  {
    var fns' := Inserted(fns, info);
    forall k, c | 0 <= k < |fns'| && c in fns'[k].Calls()
      ensures Find(fns', c).Some? && Find(fns', c).value < k
    {
      if k < |fns| {
        assert fns'[k] == fns[k];
      }
      FindIsStable(fns, fns', c);
    }
    if !Contains(fns, info) {
      assert fns'[|fns|] == info;
    }
  }

  lemma InsertedAnswers(fns: seq<FunctionInfo>, info: FunctionInfo, call: FunctionCall)
    requires Answers(info, call)
    ensures Find(Inserted(fns, info), call).Some?
  {
    var fns' := Inserted(fns, info);
    if Contains(fns, info) {
      var k :| 0 <= k < |fns| && SameInfo(fns[k], info);
      assert Answers(fns'[k], call);
    } else {
      assert Answers(fns'[|fns|], call);
    }
  }

  class FunctionInfoStorage {
    const origin: Instance
    var fns: seq<FunctionInfo>

    constructor (origin: Instance)
      ensures this.origin == origin && fns == []
    {
      this.origin, fns := origin, [];
    }

    method Insert(info: FunctionInfo)
      modifies this`fns
      ensures fns == Inserted(old(fns), info)
    {
      if !Contains(fns, info) {
        fns := fns + [info];
      }
    }

    /** The first match of a scan over the summaries. */
    method FirstMatch(call: FunctionCall) returns (found: Option<FunctionInfo>)
      ensures found.Some? <==> Find(fns, call).Some?
      ensures found.Some? ==> found.value == fns[Find(fns, call).value]
    {
      for i := 0 to |fns|
        invariant forall j | 0 <= j < i :: !Answers(fns[j], call)
      {
        if Answers(fns[i], call) {
          var k := Find(fns, call);
          assert !(k.value < i) && !(i < k.value);
          return Some(fns[i]);
        }
      }
      return None;
    }

    method GetWithBody(instance: Instance) returns (found: Option<FunctionInfo>)
      ensures found == Lookup(fns, instance)
      ensures found.Some? ==> found.value.InfoWithBody? && found.value.instance == instance
    {
      found := FirstMatch(WithBody(instance, []));
    }

    /** Looking up a call recorded in an ordered storage never fails. */
    method GetByCall(call: FunctionCall, ghost caller: nat) returns (info: FunctionInfo)
      requires Ordered(fns) && caller < |fns| && call in fns[caller].Calls()
      ensures exists k :: 0 <= k < caller && info == fns[k] && IsFirstAbout(fns, call, k)
      ensures info == fns[Find(fns, call).value]
    {
      FoundIsFirstAbout(fns, call);
      var found := FirstMatch(call);
      info := found.value;
    }
  }
}
