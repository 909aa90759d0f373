/** Decoding types with shorthands: a type written before is referred to by its position, and what
    was read at a position is remembered. */
module TypeShorthands {
  import opened Options
  import opened Types

  /** A constructor followed by its arguments, or a reference to a type written elsewhere. */
  datatype Token = Node(head: Head, arity: nat) | Shorthand(at: nat)

  /** The type written at a position and where it ends, following references without remembering
      anything. `fuel` bounds the number of tokens looked at. */
  ghost function Written(data: seq<Token>, pos: nat, fuel: nat): Option<(Ty, nat)>
    decreases fuel, 0
  {
    if fuel == 0 || pos >= |data| then None
    else
      match data[pos]
      case Shorthand(at) =>
        (match Written(data, at, fuel - 1)
         case None => None
         case Some((ty, _)) => Some((ty, pos + 1)))
      case Node(head, arity) =>
        match WrittenList(data, pos + 1, arity, fuel - 1)
        case None => None
        case Some((args, end)) => Some((Ty(head, args), end))
  }

  ghost function WrittenList(data: seq<Token>, pos: nat, n: nat, fuel: nat): Option<(seq<Ty>, nat)>
    decreases fuel, n + 1
  {
    if n == 0 then Some(([], pos))
    else
      match Written(data, pos, fuel)
      case None => None
      case Some((ty, next)) =>
        match WrittenList(data, next, n - 1, fuel)
        case None => None
        case Some((rest, end)) => Some(([ty] + rest, end))
  }

  lemma {:induction false} MoreFuel(data: seq<Token>, pos: nat, fuel: nat, more: nat)
    requires fuel <= more && Written(data, pos, fuel).Some?
    ensures Written(data, pos, more) == Written(data, pos, fuel)
    decreases fuel, 0
  {
    match data[pos]
    case Shorthand(at) => MoreFuel(data, at, fuel - 1, more - 1);
    case Node(_, arity) => MoreFuelList(data, pos + 1, arity, fuel - 1, more - 1);
  }

  lemma {:induction false} MoreFuelList(data: seq<Token>, pos: nat, n: nat, fuel: nat, more: nat)
    requires fuel <= more && WrittenList(data, pos, n, fuel).Some?
    ensures WrittenList(data, pos, n, more) == WrittenList(data, pos, n, fuel)
    decreases fuel, n + 1
  {
    if n > 0 {
      MoreFuel(data, pos, fuel, more);
      MoreFuelList(data, Written(data, pos, fuel).value.1, n - 1, fuel, more);
    }
  }

  /** The type at a position does not depend on how far one is willing to look. */
  lemma WrittenIsUnique(data: seq<Token>, pos: nat, fuel: nat, fuel': nat)
    requires Written(data, pos, fuel).Some? && Written(data, pos, fuel').Some?
    ensures Written(data, pos, fuel) == Written(data, pos, fuel')
  {
    if fuel <= fuel' {
      MoreFuel(data, pos, fuel, fuel');
    } else {
      MoreFuel(data, pos, fuel', fuel);
    }
  }

  class TypeDecoder {
    const data: seq<Token>
    var cursor: nat
    var shorthandMap: map<nat, Ty>

    constructor (data: seq<Token>)
      ensures this.data == data && cursor == 0 && Valid()
    {
      this.data, cursor, shorthandMap := data, 0, map[];
    }

    /** Whatever is remembered for a position is written there. */
    ghost predicate Valid()
      reads this
    {
      forall at | at in shorthandMap :: IsWritten(at, shorthandMap[at])
    }

    ghost predicate IsWritten(at: nat, ty: Ty) {
      exists fuel :: Written(data, at, fuel).Some? && Written(data, at, fuel).value.0 == ty
    }

    /** Reads the type at the cursor. With remembering it is the one found without, and the cursor
        ends behind it. */
    method ReadTy(ghost fuel: nat) returns (ty: Ty)
      requires Valid() && Written(data, cursor, fuel).Some?
      modifies this
      ensures Valid()
      ensures (ty, cursor) == Written(data, old(cursor), fuel).value
      decreases fuel, 2
    {
      var token := data[cursor];
      cursor := cursor + 1;
      match token
      case Shorthand(at) =>
        ty := CachedTyForShorthand(at, fuel - 1);
      case Node(head, arity) =>
        var args := ReadArgs(arity, fuel - 1);
        ty := Ty(head, args);
    }

    method ReadArgs(arity: nat, ghost fuel: nat) returns (args: seq<Ty>)
      requires Valid() && WrittenList(data, cursor, arity, fuel).Some?
      modifies this
      ensures Valid()
      ensures (args, cursor) == WrittenList(data, old(cursor), arity, fuel).value
      decreases fuel, 3
    {
      args := [];
      ghost var (all, end) := WrittenList(data, cursor, arity, fuel).value;
      ghost var rest := all;
      var left := arity;
      while left > 0
        invariant Valid() && WrittenList(data, cursor, left, fuel) == Some((rest, end))
        invariant args + rest == all
      {
        var arg := ReadTy(fuel);
        args, rest, left := args + [arg], rest[1..], left - 1;
      }
      assert args + rest == args;
    }

    /** `cached_ty_for_shorthand`: looks a position up, or reads there and remembers. The cursor is
        where it was. */
    method CachedTyForShorthand(at: nat, ghost fuel: nat) returns (ty: Ty)
      requires Valid() && Written(data, at, fuel).Some?
      modifies this
      ensures Valid() && cursor == old(cursor)
      ensures ty == Written(data, at, fuel).value.0
      decreases fuel, 4
    {
      if at in shorthandMap {
        ghost var f :| Written(data, at, f).Some? && Written(data, at, f).value.0 == shorthandMap[at];
        WrittenIsUnique(data, at, f, fuel);
        return shorthandMap[at];
      }
      ty := WithPosition(at, fuel);
      assert IsWritten(at, ty);
      shorthandMap := shorthandMap[at := ty];
    }

    /** `with_position`: reads elsewhere and comes back. */
    method WithPosition(at: nat, ghost fuel: nat) returns (ty: Ty)
      requires Valid() && Written(data, at, fuel).Some?
      modifies this
      ensures Valid() && cursor == old(cursor)
      ensures ty == Written(data, at, fuel).value.0
      decreases fuel, 3
    {
      var before := cursor;
      cursor := at;
      ty := ReadTy(fuel);
      cursor := before;
    }
  }

  // ---------------------------------------------------------------------------------------
  // Encoding

  /** What is written stays written when more is. */
  lemma {:induction false} WrittenStays(data: seq<Token>, more: seq<Token>, pos: nat, fuel: nat)
    requires Written(data, pos, fuel).Some?
    ensures Written(data + more, pos, fuel) == Written(data, pos, fuel)
    decreases fuel, 0
  {
    match data[pos]
    case Shorthand(at) => WrittenStays(data, more, at, fuel - 1);
    case Node(_, arity) => WrittenListStays(data, more, pos + 1, arity, fuel - 1);
  }

  lemma {:induction false} WrittenListStays(data: seq<Token>, more: seq<Token>, pos: nat, n: nat, fuel: nat)
    requires WrittenList(data, pos, n, fuel).Some?
    ensures WrittenList(data + more, pos, n, fuel) == WrittenList(data, pos, n, fuel)
    decreases fuel, n + 1
  {
    if n > 0 {
      WrittenStays(data, more, pos, fuel);
      WrittenListStays(data, more, Written(data, pos, fuel).value.1, n - 1, fuel);
    }
  }

  lemma {:induction false} OneMoreWritten(data: seq<Token>, pos: nat, n: nat, fuel: nat, tys: seq<Ty>, next: nat, ty: Ty, end: nat)
    requires WrittenList(data, pos, n, fuel) == Some((tys, next)) && Written(data, next, fuel) == Some((ty, end))
    ensures WrittenList(data, pos, n + 1, fuel) == Some((tys + [ty], end))
    decreases n
  {
    if n == 0 {
      assert WrittenList(data, end, 0, fuel) == Some(([], end));
      assert tys + [ty] == [ty] + [];
    } else {
      var first := Written(data, pos, fuel).value;
      var rest := WrittenList(data, first.1, n - 1, fuel).value;
      OneMoreWritten(data, first.1, n - 1, fuel, rest.0, next, ty, end);
      assert [first.0] + (rest.0 + [ty]) == tys + [ty];
    }
  }

  function Max(a: nat, b: nat): nat {
    if a < b then b else a
  }

  /** `worthwhile` says of a position and a length whether referring to what is written there is shorter than writing it again. */
  class TypeEncoder {
    var out: seq<Token>
    var typeShorthands: map<Ty, nat>
    const worthwhile: (nat, nat) -> bool

    constructor (worthwhile: (nat, nat) -> bool)
      ensures out == [] && this.worthwhile == worthwhile && Valid()
    {
      out, typeShorthands, this.worthwhile := [], map[], worthwhile;
    }

    /** A type that can be referred to is written at its position. */
    ghost predicate Valid()
      reads this
    {
      forall ty | ty in typeShorthands :: WrittenAt(out, typeShorthands[ty], ty)
    }

    ghost predicate WrittenAt(data: seq<Token>, at: nat, ty: Ty) {
      exists fuel :: Written(data, at, fuel).Some? && Written(data, at, fuel).value.0 == ty
    }

    method Emit(token: Token)
      requires Valid()
      modifies this`out
      ensures Valid() && out == old(out) + [token]
    {
      out := out + [token];
      forall ty | ty in typeShorthands ensures WrittenAt(out, typeShorthands[ty], ty) {
        var fuel :| Written(old(out), typeShorthands[ty], fuel).Some? && Written(old(out), typeShorthands[ty], fuel).value.0 == ty;
        WrittenStays(old(out), [token], typeShorthands[ty], fuel);
      }
    }

    /** Writes a type, or refers to where it was written. Reading it without remembering anything gives it back. */
    method EncodeTy(ty: Ty) returns (ghost fuel: nat)
      requires Valid()
      modifies this`out, this`typeShorthands
      ensures Valid() && old(out) <= out
      ensures Written(out, |old(out)|, fuel) == Some((ty, |out|))
      decreases ty, 1
    {
      ghost var start := |out|;
      if ty in typeShorthands {
        var at := typeShorthands[ty];
        ghost var before := out;
        ghost var f: nat :| Written(before, at, f).Some? && Written(before, at, f).value.0 == ty;
        Emit(Shorthand(at));
        WrittenStays(before, [Shorthand(at)], at, f);
        return f + 1;
      }
      var position := |out|;
      Emit(Node(ty.head, |ty.args|));
      fuel := EncodeArgs(ty);
      fuel := fuel + 1;
      assert Written(out, position, fuel) == Some((ty, |out|));
      if worthwhile(position, |out| - position) {
        assert WrittenAt(out, position, ty);
        typeShorthands := typeShorthands[ty := position];
      }
    }

    method EncodeArgs(ty: Ty) returns (ghost fuel: nat)
      requires Valid() && out != [] && out[|out| - 1] == Node(ty.head, |ty.args|)
      modifies this`out, this`typeShorthands
      ensures Valid() && old(out) <= out
      ensures WrittenList(out, |old(out)|, |ty.args|, fuel) == Some((ty.args, |out|))
      decreases ty, 0
    {
      fuel := 0;
      for i := 0 to |ty.args|
        invariant Valid() && old(out) <= out
        invariant WrittenList(out, |old(out)|, i, fuel) == Some((ty.args[..i], |out|))
      {
        ghost var before := out;
        ghost var more := EncodeTy(ty.args[i]);
        ghost var enough := Max(fuel, more);
        MoreFuel(out, |before|, more, enough);
        MoreFuelList(before, |old(out)|, i, fuel, enough);
        assert out == before + out[|before|..];
        WrittenListStays(before, out[|before|..], |old(out)|, i, enough);
        OneMoreWritten(out, |old(out)|, i, enough, ty.args[..i], |before|, ty.args[i], |out|);
        assert ty.args[..i] + [ty.args[i]] == ty.args[..i + 1];
        fuel := enough;
      }
      assert ty.args[..|ty.args|] == ty.args;
    }
  }

  /** Types that are written one after the other, each with what was written before it to refer to, are read back. */
  method WriteAndRead(tys: seq<Ty>, worthwhile: (nat, nat) -> bool) returns (back: seq<Ty>)
    ensures back == tys
  {
    var encoder := new TypeEncoder(worthwhile);
    ghost var fuel := 0;
    for i := 0 to |tys|
      invariant encoder.Valid() && fresh(encoder)
      invariant WrittenList(encoder.out, 0, i, fuel) == Some((tys[..i], |encoder.out|))
    {
      ghost var before := encoder.out;
      ghost var more := encoder.EncodeTy(tys[i]);
      ghost var enough := Max(fuel, more);
      MoreFuel(encoder.out, |before|, more, enough);
      MoreFuelList(before, 0, i, fuel, enough);
      assert encoder.out == before + encoder.out[|before|..];
      WrittenListStays(before, encoder.out[|before|..], 0, i, enough);
      OneMoreWritten(encoder.out, 0, i, enough, tys[..i], |before|, tys[i], |encoder.out|);
      assert tys[..i] + [tys[i]] == tys[..i + 1];
      fuel := enough;
    }
    assert tys[..|tys|] == tys;
    var decoder := new TypeDecoder(encoder.out);
    back := decoder.ReadArgs(|tys|, fuel);
  }
}
