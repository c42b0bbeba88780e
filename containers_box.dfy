/** containers/box.cpp: the final Box. A `Box` holds a pointer to its implementation,
    null until the box is initialised; the implementation carries the id and the state.
    Two process-wide counters are kept: `idCounter`, the id the next implementation
    gets, and `instanceCounter`, the number of implementations alive. */
module Containers {
  import opened Errors
  import opened Tokens
  import Dims
  import opened BoxStates
  import BoxCodec

  /** `BoxImpl`: the id and the state. */
  datatype Impl = Impl(id: int, st: State)

  /** An implementation as `equals` sees it: the item of an empty box does not show. */
  function CanonImpl(i: Impl): Impl {
    Impl(i.id, Canon(i.st))
  }

  /** `BoxImpl::idCounter` and `BoxImpl::instanceCounter`. The ghost set `live` holds the
      boxes whose implementation is allocated; `instanceCounter` counts exactly those. */
  class Counters {
    var idCounter: int
    var instanceCounter: int
    ghost var live: set<Box>

    ghost predicate Valid()
      reads this
    {
      instanceCounter == |live|
    }

    /** Static initialisation: both counters start at 0. */
    constructor ()
      ensures Valid() && idCounter == 0 && instanceCounter == 0 && live == {}
    {
      idCounter := 0;
      instanceCounter := 0;
      live := {};
    }

    /** `Box::getCurrentInstances`: the number of boxes alive. */
    function GetCurrentInstances(): (n: int)
      reads this
      requires Valid()
      ensures n == |live|
    {
      instanceCounter
    }
  }

  class Box {
    const counters: Counters
    var impl: Option<Impl>

    ghost predicate Valid()
      reads this, counters
    {
      counters.Valid()
      && (impl.Some? <==> this in counters.live)
      && (impl.Some? ==> Inv(impl.value.st))
    }

    /** `Box()`: lazy initialisation, the implementation pointer is null. */
    constructor (c: Counters)
      requires c.Valid()
      ensures Valid() && counters == c && impl.None?
    {
      counters := c;
      impl := None;
    }

    /** `init`: fails on a box already initialised; otherwise runs the `BoxImpl`
        constructor, which validates the size before touching either counter, takes
        the id from `idCounter` and increments both counters. */
    method Init(size: Dims.Dimensions) returns (s: Status)
      requires Valid()
      modifies this, counters
      ensures Valid()
      ensures old(impl).Some? ==> s == Failure(WrongInitialization) && impl == old(impl) && unchanged(counters)
      ensures old(impl).None? && !Dims.IsValid(size) ==> s == Failure(InvalidDimensions) && impl.None? && unchanged(counters)
      ensures old(impl).None? && Dims.IsValid(size) ==>
                s == Success && impl == Some(Impl(old(counters.idCounter), Fresh(size).value))
                && counters.idCounter == old(counters.idCounter) + 1
                && counters.instanceCounter == old(counters.instanceCounter) + 1
                && counters.live == old(counters.live) + {this}
    {
      if impl.Some? {
        return Failure(WrongInitialization);
      }
      var built := Fresh(size);
      if built.Fail? {
        return Failure(built.error);
      }
      impl := Some(Impl(counters.idCounter, built.value));
      counters.idCounter := counters.idCounter + 1;
      counters.instanceCounter := counters.instanceCounter + 1;
      counters.live := counters.live + {this};
      s := Success;
    }

    /** `Box(size)`: a box that exists only if its implementation could be built. */
    static method New(size: Dims.Dimensions, c: Counters) returns (r: Result<Box>)
      requires c.Valid()
      modifies c
      ensures r.Ok? <==> Dims.IsValid(size)
      ensures r.Fail? ==> r.error == InvalidDimensions && unchanged(c)
      ensures r.Ok? ==> fresh(r.value) && r.value.counters == c && r.value.Valid()
                        && r.value.impl == Some(Impl(old(c.idCounter), Fresh(size).value))
                        && c.idCounter == old(c.idCounter) + 1
                        && c.instanceCounter == old(c.instanceCounter) + 1
                        && c.live == old(c.live) + {r.value}
    {
      var b := new Box(c);
      var s := b.Init(size);
      if s.Failure? {
        return Fail(s.error);
      }
      return Ok(b);
    }

    /** The copy constructor: an uninitialised box copies as uninitialised; otherwise the
        implementation is copied, id included, and `instanceCounter` goes up. */
    static method Copy(b: Box) returns (copy: Box)
      requires b.Valid()
      modifies b.counters
      ensures fresh(copy) && copy.counters == b.counters && copy.impl == b.impl
      ensures copy.Valid() && b.Valid()
      ensures b.impl.None? ==> unchanged(b.counters)
      ensures b.impl.Some? ==>
                b.counters.idCounter == old(b.counters.idCounter)
                && b.counters.instanceCounter == old(b.counters.instanceCounter) + 1
                && b.counters.live == old(b.counters.live) + {copy}
    {
      copy := new Box(b.counters);
      if b.impl.Some? {
        copy.impl := b.impl;
        b.counters.instanceCounter := b.counters.instanceCounter + 1;
        b.counters.live := b.counters.live + {copy};
      }
    }

    /** The destructor: deleting the implementation decrements `instanceCounter`. The
        box is not used afterwards; it is left uninitialised. */
    method Destroy()
      requires Valid()
      modifies this, counters
      ensures Valid() && impl.None?
      ensures counters.idCounter == old(counters.idCounter)
      ensures counters.live == old(counters.live) - {this}
      ensures counters.instanceCounter == old(counters.instanceCounter) - (if old(impl).Some? then 1 else 0)
    {
      if impl.Some? {
        counters.instanceCounter := counters.instanceCounter - 1;
        counters.live := counters.live - {this};
      }
      impl := None;
    }

    /** `operator=`: self-assignment does nothing; the source box must be initialised;
        its implementation is copied (one more instance) and the old one deleted (one
        fewer, if there was one). */
    method Assign(b: Box) returns (s: Status)
      requires Valid() && b.Valid() && b.counters == counters
      modifies this, counters
      ensures Valid() && b.Valid()
      ensures this == b ==> s == Success && impl == old(impl) && unchanged(counters)
      ensures this != b && old(b.impl).None? ==> s == Failure(UninitializedUsage) && impl == old(impl) && unchanged(counters)
      ensures this != b && old(b.impl).Some? ==>
                s == Success && impl == old(b.impl)
                && counters.idCounter == old(counters.idCounter)
                && counters.instanceCounter == old(counters.instanceCounter) + (if old(impl).None? then 1 else 0)
                && counters.live == old(counters.live) + {this}
    {
      if this == b {
        return Success;
      }
      if b.impl.None? {
        return Failure(UninitializedUsage);
      }
      var copied := b.impl;
      counters.instanceCounter := counters.instanceCounter + 1;
      if impl.Some? {
        counters.instanceCounter := counters.instanceCounter - 1;
      }
      impl := copied;
      counters.live := counters.live + {this};
      s := Success;
    }

    /** `getId`. */
    function GetId(): (r: Result<int>)
      reads this
      ensures r.Ok? <==> impl.Some?
      ensures r.Ok? ==> r.value == impl.value.id
      ensures r.Fail? ==> r.error == UninitializedUsage
    {
      if impl.None? then Fail(UninitializedUsage) else Ok(impl.value.id)
    }

    /** `open`. */
    method Open() returns (s: Status)
      requires Valid()
      modifies this
      ensures Valid()
      ensures old(impl).None? ==> s == Failure(UninitializedUsage) && impl == old(impl)
      ensures old(impl).Some? && BoxStates.Open(old(impl).value.st).Fail? ==>
                s == Failure(BoxStates.Open(old(impl).value.st).error) && impl == old(impl)
      ensures old(impl).Some? && BoxStates.Open(old(impl).value.st).Ok? ==>
                s == Success && impl == Some(old(impl).value.(st := BoxStates.Open(old(impl).value.st).value))
    {
      if impl.None? {
        return Failure(UninitializedUsage);
      }
      var next := BoxStates.Open(impl.value.st);
      if next.Fail? {
        return Failure(next.error);
      }
      impl := Some(impl.value.(st := next.value));
      s := Success;
    }

    /** `close`. */
    method Close() returns (s: Status)
      requires Valid()
      modifies this
      ensures Valid()
      ensures old(impl).None? ==> s == Failure(UninitializedUsage) && impl == old(impl)
      ensures old(impl).Some? && BoxStates.Close(old(impl).value.st).Fail? ==>
                s == Failure(BoxStates.Close(old(impl).value.st).error) && impl == old(impl)
      ensures old(impl).Some? && BoxStates.Close(old(impl).value.st).Ok? ==>
                s == Success && impl == Some(old(impl).value.(st := BoxStates.Close(old(impl).value.st).value))
    {
      if impl.None? {
        return Failure(UninitializedUsage);
      }
      var next := BoxStates.Close(impl.value.st);
      if next.Fail? {
        return Failure(next.error);
      }
      impl := Some(impl.value.(st := next.value));
      s := Success;
    }

    /** `putItem`. */
    method PutItem(item: Dims.Dimensions) returns (s: Status)
      requires Valid()
      modifies this
      ensures Valid()
      ensures old(impl).None? ==> s == Failure(UninitializedUsage) && impl == old(impl)
      ensures old(impl).Some? && BoxStates.PutItem(old(impl).value.st, item).Fail? ==>
                s == Failure(BoxStates.PutItem(old(impl).value.st, item).error) && impl == old(impl)
      ensures old(impl).Some? && BoxStates.PutItem(old(impl).value.st, item).Ok? ==>
                s == Success && impl == Some(old(impl).value.(st := BoxStates.PutItem(old(impl).value.st, item).value))
    {
      if impl.None? {
        return Failure(UninitializedUsage);
      }
      var next := BoxStates.PutItem(impl.value.st, item);
      if next.Fail? {
        return Failure(next.error);
      }
      impl := Some(impl.value.(st := next.value));
      s := Success;
    }

    /** `takeItem`. */
    method TakeItem() returns (r: Result<Dims.Dimensions>)
      requires Valid()
      modifies this
      ensures Valid()
      ensures old(impl).None? ==> r == Fail(UninitializedUsage) && impl == old(impl)
      ensures old(impl).Some? && BoxStates.TakeItem(old(impl).value.st).Fail? ==>
                r == Fail(BoxStates.TakeItem(old(impl).value.st).error) && impl == old(impl)
      ensures old(impl).Some? && BoxStates.TakeItem(old(impl).value.st).Ok? ==>
                r == Ok(old(impl).value.st.item)
                && impl == Some(old(impl).value.(st := BoxStates.TakeItem(old(impl).value.st).value.0))
    {
      if impl.None? {
        return Fail(UninitializedUsage);
      }
      var next := BoxStates.TakeItem(impl.value.st);
      if next.Fail? {
        return Fail(next.error);
      }
      impl := Some(impl.value.(st := next.value.0));
      r := Ok(next.value.1);
    }

    /** `isFull`. */
    function IsFull(): (r: Result<bool>)
      reads this
      ensures r.Ok? <==> impl.Some?
      ensures r.Ok? ==> (r.value <==> impl.value.st.hasItem)
      ensures r.Fail? ==> r.error == UninitializedUsage
    {
      if impl.None? then Fail(UninitializedUsage) else Ok(impl.value.st.hasItem)
    }

    /** `isClosed`. */
    function IsClosed(): (r: Result<bool>)
      reads this
      ensures r.Ok? <==> impl.Some?
      ensures r.Ok? ==> (r.value <==> !impl.value.st.isOpen)
      ensures r.Fail? ==> r.error == UninitializedUsage
    {
      if impl.None? then Fail(UninitializedUsage) else Ok(!impl.value.st.isOpen)
    }

    /** `toString` (and `operator<<`, which writes it). */
    function ToString(): (r: Result<string>)
      reads this
      ensures r.Ok? <==> impl.Some?
      ensures r.Ok? ==> r.value == Render(Encode(impl.value))
      ensures r.Fail? ==> r.error == UninitializedUsage
    {
      if impl.None? then Fail(UninitializedUsage) else Ok(BoxCodec.ToString(impl.value.id, impl.value.st))
    }

    /** `operator>>`. The target is not checked: an uninitialised box can be read into.
        The fields are read into locals, a temporary `Box(size)` is built (it takes an
        id from `idCounter`), given the id read, opened, furnished, and assigned to the
        target last; a failure at any point leaves the target as it was. */
    method Read(ts: seq<Token>) returns (s: Status, rest: seq<Token>)
      requires Valid()
      modifies this, counters
      ensures Valid()
      ensures Decode(ts, old(counters.idCounter)).Ok? ==>
                s == Success && impl.Some? && (impl.value, rest) == Decode(ts, old(counters.idCounter)).value
      ensures Decode(ts, old(counters.idCounter)).Fail? ==>
                s == Failure(Decode(ts, old(counters.idCounter)).error) && impl == old(impl)
      ensures counters.idCounter == old(counters.idCounter) + (if TakesId(ts) then 1 else 0)
      ensures Decode(ts, old(counters.idCounter)).Ok? ==>
                counters.instanceCounter == old(counters.instanceCounter) + (if old(impl).None? then 1 else 0)
      ensures Decode(ts, old(counters.idCounter)).Fail? ==>
                counters.instanceCounter == old(counters.instanceCounter)
      ensures Decode(ts, old(counters.idCounter)).Ok? ==> counters.live == old(counters.live) + {this}
      ensures Decode(ts, old(counters.idCounter)).Fail? ==> counters.live == old(counters.live)
    {
      var fields := BoxCodec.ReadFields(BoxCodec.Initial(Dims.Zero), ts);
      if fields.Fail? {
        return Failure(fields.error), ts;
      }
      rest := fields.value.1;
      s := Install(fields.value.0);
    }

    /** The part of `operator>>` after the field loop: the temporary is prepared, then
        assigned to the target and deleted. */
    method Install(f: BoxCodec.Fields) returns (s: Status)
      requires Valid()
      modifies this, counters
      ensures Valid()
      ensures counters.idCounter == old(counters.idCounter) + (if Dims.IsValid(f.size) then 1 else 0)
      ensures Rebuild(f, old(counters.idCounter)).Ok? ==>
                s == Success && impl == Some(Rebuild(f, old(counters.idCounter)).value)
                && counters.instanceCounter == old(counters.instanceCounter) + (if old(impl).None? then 1 else 0)
                && counters.live == old(counters.live) + {this}
      ensures Rebuild(f, old(counters.idCounter)).Fail? ==>
                s == Failure(Rebuild(f, old(counters.idCounter)).error) && impl == old(impl)
                && counters.instanceCounter == old(counters.instanceCounter)
                && counters.live == old(counters.live)
    {
      var made := Prepare(f, counters);
      if made.Fail? {
        return Failure(made.error);
      }
      var tmp := made.value;
      var assignStatus := Assign(tmp);
      assert assignStatus == Success;
      tmp.Destroy();
      s := Success;
    }

    /** The temporary of `operator>>`: `Box tmp(size)` takes an id, is given the id
        read, opened and furnished; when furnishing fails it is deleted again. */
    static method Prepare(f: BoxCodec.Fields, c: Counters) returns (r: Result<Box>)
      requires c.Valid()
      modifies c
      ensures c.Valid()
      ensures c.idCounter == old(c.idCounter) + (if Dims.IsValid(f.size) then 1 else 0)
      ensures Rebuild(f, old(c.idCounter)).Ok? ==>
                r.Ok? && fresh(r.value) && r.value.counters == c && r.value.Valid()
                && r.value.impl == Some(Rebuild(f, old(c.idCounter)).value)
                && c.instanceCounter == old(c.instanceCounter) + 1
                && c.live == old(c.live) + {r.value}
      ensures Rebuild(f, old(c.idCounter)).Fail? ==>
                r == Fail(Rebuild(f, old(c.idCounter)).error)
                && c.instanceCounter == old(c.instanceCounter) && c.live == old(c.live)
    {
      var made := New(f.size, c);
      if made.Fail? {
        return Fail(made.error);
      }
      var tmp := made.value;
      tmp.impl := Some(tmp.impl.value.(id := f.id.GetOr(tmp.impl.value.id)));
      var openStatus := tmp.Open();
      assert openStatus == Success;
      var furnished := tmp.Furnish(f);
      if furnished.Failure? {
        tmp.Destroy();
        return Fail(furnished.error);
      }
      r := Ok(tmp);
    }

    /** The end of `operator>>` on its opened temporary: the item goes in if one was
        read, then the box is closed unless `is_open` was true. */
    method Furnish(f: BoxCodec.Fields) returns (s: Status)
      requires Valid() && impl.Some?
      modifies this
      ensures Valid() && impl.Some? && impl.value.id == old(impl.value.id)
      ensures BoxCodec.Furnish(old(impl.value.st), f).Ok? ==>
                s == Success && impl.value.st == BoxCodec.Furnish(old(impl.value.st), f).value
      ensures BoxCodec.Furnish(old(impl.value.st), f).Fail? ==>
                s == Failure(BoxCodec.Furnish(old(impl.value.st), f).error)
    {
      if f.putItem {
        var put := PutItem(f.item);
        if put.Failure? {
          return put;
        }
      }
      if !f.leaveOpen {
        var closed := Close();
        if closed.Failure? {
          return closed;
        }
      }
      s := Success;
    }

    /** `operator++(int)`: a copy with the old id is returned, then the id goes up by one. */
    method PostIncrement() returns (r: Result<Box>)
      requires Valid()
      modifies this, counters
      ensures Valid()
      ensures r.Ok? <==> old(impl).Some?
      ensures r.Fail? ==> r.error == UninitializedUsage && impl == old(impl) && unchanged(counters)
      ensures r.Ok? ==>
                fresh(r.value) && r.value.Valid() && r.value.counters == counters
                && r.value.impl == old(impl)
                && impl == Some(old(impl).value.(id := old(impl).value.id + 1))
                && counters.idCounter == old(counters.idCounter)
                && counters.instanceCounter == old(counters.instanceCounter) + 1
                && counters.live == old(counters.live) + {r.value}
    {
      if impl.None? {
        return Fail(UninitializedUsage);
      }
      var copy := Copy(this);
      impl := Some(impl.value.(id := impl.value.id + 1));
      r := Ok(copy);
    }

    /** `operator++()`: the id goes up by one and the box itself is returned. */
    method PreIncrement() returns (r: Result<Box>)
      requires Valid()
      modifies this
      ensures Valid()
      ensures r.Ok? <==> old(impl).Some?
      ensures r.Fail? ==> r.error == UninitializedUsage && impl == old(impl)
      ensures r.Ok? ==> r.value == this && impl == Some(old(impl).value.(id := old(impl).value.id + 1))
    {
      if impl.None? {
        return Fail(UninitializedUsage);
      }
      impl := Some(impl.value.(id := impl.value.id + 1));
      r := Ok(this);
    }

    /** `equals`: size, closed, full and id, and the item when both are full. */
    function Equals(b: Box): (r: Result<bool>)
      reads this, b
      ensures r.Ok? <==> impl.Some? && b.impl.Some?
      ensures r.Fail? ==> r.error == UninitializedUsage
      ensures r.Ok? ==> (r.value <==> CanonImpl(impl.value) == CanonImpl(b.impl.value))
    {
      if impl.None? || b.impl.None? then Fail(UninitializedUsage)
      else Ok(BoxStates.Equals(impl.value.st, b.impl.value.st) && impl.value.id == b.impl.value.id)
    }

    /** `operator==`: the volumes of the sizes are equal. */
    function VolumeEquals(b: Box): (r: Result<bool>)
      reads this, b
      ensures r.Ok? <==> impl.Some? && b.impl.Some?
      ensures r.Fail? ==> r.error == UninitializedUsage
      ensures r.Ok? ==> (r.value <==> Volume(impl.value.st) == Volume(b.impl.value.st))
    {
      if impl.None? || b.impl.None? then Fail(UninitializedUsage)
      else Ok(Dims.ComputeVolume(impl.value.st.size) == Dims.ComputeVolume(b.impl.value.st.size))
    }

    /** `operator!=`: the negation of `==`. */
    function NotEquals(b: Box): (r: Result<bool>)
      reads this, b
      ensures r.Ok? <==> impl.Some? && b.impl.Some?
      ensures r.Fail? ==> r.error == UninitializedUsage
      ensures r.Ok? ==> (r.value <==> Volume(impl.value.st) != Volume(b.impl.value.st))
    {
      var eq :- VolumeEquals(b);
      Ok(!eq)
    }

    /** `operator<`. */
    function Less(b: Box): (r: Result<bool>)
      reads this, b
      ensures r.Ok? <==> impl.Some? && b.impl.Some?
      ensures r.Fail? ==> r.error == UninitializedUsage
      ensures r.Ok? ==> (r.value <==> Volume(impl.value.st) < Volume(b.impl.value.st))
    {
      if impl.None? || b.impl.None? then Fail(UninitializedUsage)
      else Ok(Dims.ComputeVolume(impl.value.st.size) < Dims.ComputeVolume(b.impl.value.st.size))
    }

    /** `operator<=`: `<` or `==`. */
    function LessEq(b: Box): (r: Result<bool>)
      reads this, b
      ensures r.Ok? <==> impl.Some? && b.impl.Some?
      ensures r.Fail? ==> r.error == UninitializedUsage
      ensures r.Ok? ==> (r.value <==> Volume(impl.value.st) <= Volume(b.impl.value.st))
    {
      if impl.None? || b.impl.None? then Fail(UninitializedUsage)
      else Ok(Less(b).value || VolumeEquals(b).value)
    }

    /** `operator>`: not `<=`. */
    function Greater(b: Box): (r: Result<bool>)
      reads this, b
      ensures r.Ok? <==> impl.Some? && b.impl.Some?
      ensures r.Fail? ==> r.error == UninitializedUsage
      ensures r.Ok? ==> (r.value <==> Volume(impl.value.st) > Volume(b.impl.value.st))
    {
      var le :- LessEq(b);
      Ok(!le)
    }

    /** `operator>=`: not `<`. */
    function GreaterEq(b: Box): (r: Result<bool>)
      reads this, b
      ensures r.Ok? <==> impl.Some? && b.impl.Some?
      ensures r.Fail? ==> r.error == UninitializedUsage
      ensures r.Ok? ==> (r.value <==> Volume(impl.value.st) >= Volume(b.impl.value.st))
    {
      var lt :- Less(b);
      Ok(!lt)
    }
  }

  /** Boxes share the counters, so `operator>>` on one box must not break another:
      every other box keeps its implementation and stays valid. */
  method ReadLeavesOthersValid(a: Box, b: Box, ts: seq<Token>) returns (s: Status)
    requires a != b && a.counters == b.counters && a.Valid() && b.Valid()
    modifies a, a.counters
    ensures a.Valid() && b.Valid() && b.impl == old(b.impl)
  {
    var rest;
    s, rest := a.Read(ts);
  }

  /** The tokens `toString` writes for an implementation. */
  function Encode(i: Impl): seq<Token> {
    BoxCodec.Encode(i.id, i.st)
  }

  /** Whether `operator>>` gets as far as building its temporary, which takes an id:
      the fields read without error and a valid size was among them. */
  predicate TakesId(ts: seq<Token>) {
    var fields := BoxCodec.Decode(BoxCodec.Initial(Dims.Zero), ts);
    fields.Ok? && Dims.IsValid(fields.value.0.size)
  }

  /** What `operator>>` produces from `ts` when the temporary it builds gets the id
      `freshId`: the implementation the target ends up with, and the rest of the stream.
      When the text has no `id` field the source leaves the id uninitialised; here the
      temporary keeps the id it was built with. */
  function Decode(ts: seq<Token>, freshId: int): (r: Result<(Impl, seq<Token>)>)
    ensures r.Ok? ==> Inv(r.value.0.st) && |r.value.1| < |ts|
    ensures r.Ok? ==> TakesId(ts)
  {
    match BoxCodec.Decode(BoxCodec.Initial(Dims.Zero), ts)
    case Fail(e) => Fail(e)
    case Ok((f, rest)) =>
      match Rebuild(f, freshId)
      case Fail(e) => Fail(e)
      case Ok(i) => Ok((i, rest))
  }

  /** What `operator>>` makes of the fields it read: a temporary of the size read, with
      the id read, opened and furnished. */
  function Rebuild(f: BoxCodec.Fields, freshId: int): (r: Result<Impl>)
    ensures r.Ok? ==> Inv(r.value.st) && Dims.IsValid(f.size) && r.value.id == f.id.GetOr(freshId)
  {
    match Fresh(f.size)
    case Fail(e) => Fail(e)
    case Ok(st0) =>
      match BoxStates.Open(st0)
      case Fail(e) => Fail(e)
      case Ok(st1) =>
        match BoxCodec.Furnish(st1, f)
        case Fail(e) => Fail(e)
        case Ok(st) => Ok(Impl(f.id.GetOr(freshId), st))
  }

  /** Reading back what `toString` wrote gives a box that `equals` the original, id
      included, whatever id the temporary was built with; the stream is left just
      after the text. */
  lemma RoundTrip(i: Impl, freshId: int, rest: seq<Token>)
    requires Inv(i.st)
    ensures Decode(Encode(i) + rest, freshId) == Ok((CanonImpl(i), rest))
  {
    BoxCodec.DecodeEncode(i.id, i.st, Dims.Zero, rest);
    BoxCodec.FurnishWritten(i.id, i.st);
  }

  /** Without a `size` field the size stays `Dimensions()`, all zeros, and the
      temporary cannot be built: the read fails with invalid dimensions and takes no
      id. */
  lemma MissingSizeFails(isOpen: bool, freshId: int, rest: seq<Token>)
    ensures Decode([Sym(BeginMark), Word("is_open:"), Flag(isOpen), Sym(EndMark)] + rest, freshId)
            == Fail(InvalidDimensions)
    ensures !TakesId([Sym(BeginMark), Word("is_open:"), Flag(isOpen), Sym(EndMark)] + rest)
  {
    BoxCodec.OnlyOpenFlag(BoxCodec.Initial(Dims.Zero), isOpen, rest);
  }

  /** Exactly one of `<`, `==` and `>` holds, and the derived operators agree with the
      ones they are derived from. */
  lemma Trichotomy(a: Box, b: Box)
    requires a.impl.Some? && b.impl.Some?
    ensures (a.Less(b).value && !a.VolumeEquals(b).value && !a.Greater(b).value)
            || (!a.Less(b).value && a.VolumeEquals(b).value && !a.Greater(b).value)
            || (!a.Less(b).value && !a.VolumeEquals(b).value && a.Greater(b).value)
    ensures a.NotEquals(b).value == !a.VolumeEquals(b).value
    ensures a.GreaterEq(b).value == !a.Less(b).value
    ensures a.LessEq(b).value == !a.Greater(b).value
    ensures a.GreaterEq(b).value && a.LessEq(b).value <==> a.VolumeEquals(b).value
    ensures a.Greater(b).value || a.Less(b).value <==> a.NotEquals(b).value
  {
  }

  /** `equals` is an equivalence, and boxes that are `equals` have the same volume. */
  lemma EqualsIsEquivalence(a: Box, b: Box, c: Box)
    requires a.impl.Some? && b.impl.Some? && c.impl.Some?
    ensures a.Equals(a).value
    ensures a.Equals(b).value ==> b.Equals(a).value
    ensures a.Equals(b).value && b.Equals(c).value ==> a.Equals(c).value
    ensures a.Equals(b).value ==> a.VolumeEquals(b).value
  {
  }
}
