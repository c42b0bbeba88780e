/** week05/box.cpp: the Box of week 5. A `Box` holds a pointer to an `InnerBox`, null
    until the box is initialised; the inner box carries the id and the state. Ids come
    from the static `InnerBox::instanceCount`, which only ever goes up; copying an inner
    box copies its id and takes none. */
module Week05 {
  import opened Errors
  import opened Tokens
  import Dims
  import opened BoxStates
  import BoxCodec
  import opened IdCounters

  /** `InnerBox`: the id and the state. */
  datatype Inner = Inner(id: int, st: State)

  class Box {
    const counter: IdCounter
    var inner: Option<Inner>

    ghost predicate Valid()
      reads this
    {
      inner.Some? ==> Inv(inner.value.st)
    }

    /** `Box()`: the inner pointer is null. */
    constructor (c: IdCounter)
      ensures Valid() && counter == c && inner.None?
    {
      counter := c;
      inner := None;
    }

    /** `init`, whose size defaults to `MEDIUM`: fails on a box already initialised;
        otherwise the `InnerBox` constructor validates the size before it takes an id. */
    method Init(size: Dims.Dimensions := MEDIUM) returns (s: Status)
      requires Valid()
      modifies this, counter
      ensures Valid()
      ensures old(inner).Some? ==> s == Failure(WrongInitialization) && inner == old(inner) && unchanged(counter)
      ensures old(inner).None? && !Dims.IsValid(size) ==> s == Failure(InvalidDimensions) && inner.None? && unchanged(counter)
      ensures old(inner).None? && Dims.IsValid(size) ==>
                s == Success && inner == Some(Inner(old(counter.next), Fresh(size).value))
                && counter.next == old(counter.next) + 1
    {
      if inner.Some? {
        return Failure(WrongInitialization);
      }
      var built := Fresh(size);
      if built.Fail? {
        return Failure(built.error);
      }
      var id := counter.Take();
      inner := Some(Inner(id, built.value));
      s := Success;
    }

    /** `Box(size)`: a box that exists only if its inner box could be built. */
    static method New(size: Dims.Dimensions, c: IdCounter) returns (r: Result<Box>)
      modifies c
      ensures r.Ok? <==> Dims.IsValid(size)
      ensures r.Fail? ==> r.error == InvalidDimensions && unchanged(c)
      ensures r.Ok? ==> fresh(r.value) && r.value.counter == c && r.value.Valid()
                        && r.value.inner == Some(Inner(old(c.next), Fresh(size).value))
                        && c.next == old(c.next) + 1
    {
      var b := new Box(c);
      var s := b.Init(size);
      if s.Failure? {
        return Fail(s.error);
      }
      return Ok(b);
    }

    /** The copy constructor: a null inner box copies as null, otherwise the inner box is
        copied, id included, and no id is taken. */
    static method Copy(b: Box) returns (copy: Box)
      requires b.Valid()
      ensures fresh(copy) && copy.Valid() && copy.counter == b.counter && copy.inner == b.inner
    {
      copy := new Box(b.counter);
      copy.inner := b.inner;
    }

    /** `operator=`: the source must be initialised; its inner box is copied over this
        one's. There is no self-assignment check, and none is needed: the copy is made
        before the old inner box is deleted. */
    method Assign(b: Box) returns (s: Status)
      requires Valid() && b.Valid()
      modifies this
      ensures Valid()
      ensures old(b.inner).None? ==> s == Failure(UninitializedUsage) && inner == old(inner)
      ensures old(b.inner).Some? ==> s == Success && inner == old(b.inner)
    {
      if b.inner.None? {
        return Failure(UninitializedUsage);
      }
      inner := b.inner;
      s := Success;
    }

    /** `open`. */
    method Open() returns (s: Status)
      requires Valid()
      modifies this
      ensures Valid()
      ensures old(inner).None? ==> s == Failure(UninitializedUsage) && inner == old(inner)
      ensures old(inner).Some? && BoxStates.Open(old(inner).value.st).Fail? ==>
                s == Failure(BoxStates.Open(old(inner).value.st).error) && inner == old(inner)
      ensures old(inner).Some? && BoxStates.Open(old(inner).value.st).Ok? ==>
                s == Success && inner == Some(old(inner).value.(st := BoxStates.Open(old(inner).value.st).value))
    {
      if inner.None? {
        return Failure(UninitializedUsage);
      }
      var next := BoxStates.Open(inner.value.st);
      if next.Fail? {
        return Failure(next.error);
      }
      inner := Some(inner.value.(st := next.value));
      s := Success;
    }

    /** `close`. */
    method Close() returns (s: Status)
      requires Valid()
      modifies this
      ensures Valid()
      ensures old(inner).None? ==> s == Failure(UninitializedUsage) && inner == old(inner)
      ensures old(inner).Some? && BoxStates.Close(old(inner).value.st).Fail? ==>
                s == Failure(BoxStates.Close(old(inner).value.st).error) && inner == old(inner)
      ensures old(inner).Some? && BoxStates.Close(old(inner).value.st).Ok? ==>
                s == Success && inner == Some(old(inner).value.(st := BoxStates.Close(old(inner).value.st).value))
    {
      if inner.None? {
        return Failure(UninitializedUsage);
      }
      var next := BoxStates.Close(inner.value.st);
      if next.Fail? {
        return Failure(next.error);
      }
      inner := Some(inner.value.(st := next.value));
      s := Success;
    }

    /** `putItem`. */
    method PutItem(item: Dims.Dimensions) returns (s: Status)
      requires Valid()
      modifies this
      ensures Valid()
      ensures old(inner).None? ==> s == Failure(UninitializedUsage) && inner == old(inner)
      ensures old(inner).Some? && BoxStates.PutItem(old(inner).value.st, item).Fail? ==>
                s == Failure(BoxStates.PutItem(old(inner).value.st, item).error) && inner == old(inner)
      ensures old(inner).Some? && BoxStates.PutItem(old(inner).value.st, item).Ok? ==>
                s == Success && inner == Some(old(inner).value.(st := BoxStates.PutItem(old(inner).value.st, item).value))
    {
      if inner.None? {
        return Failure(UninitializedUsage);
      }
      var next := BoxStates.PutItem(inner.value.st, item);
      if next.Fail? {
        return Failure(next.error);
      }
      inner := Some(inner.value.(st := next.value));
      s := Success;
    }

    /** `takeItem`. */
    method TakeItem() returns (r: Result<Dims.Dimensions>)
      requires Valid()
      modifies this
      ensures Valid()
      ensures old(inner).None? ==> r == Fail(UninitializedUsage) && inner == old(inner)
      ensures old(inner).Some? && BoxStates.TakeItem(old(inner).value.st).Fail? ==>
                r == Fail(BoxStates.TakeItem(old(inner).value.st).error) && inner == old(inner)
      ensures old(inner).Some? && BoxStates.TakeItem(old(inner).value.st).Ok? ==>
                r == Ok(old(inner).value.st.item)
                && inner == Some(old(inner).value.(st := BoxStates.TakeItem(old(inner).value.st).value.0))
    {
      if inner.None? {
        return Fail(UninitializedUsage);
      }
      var next := BoxStates.TakeItem(inner.value.st);
      if next.Fail? {
        return Fail(next.error);
      }
      inner := Some(inner.value.(st := next.value.0));
      r := Ok(next.value.1);
    }

    /** `isFull`. */
    function IsFull(): (r: Result<bool>)
      reads this
      ensures r.Ok? <==> inner.Some?
      ensures r.Ok? ==> (r.value <==> inner.value.st.hasItem)
      ensures r.Fail? ==> r.error == UninitializedUsage
    {
      if inner.None? then Fail(UninitializedUsage) else Ok(inner.value.st.hasItem)
    }

    /** `isClosed`. */
    function IsClosed(): (r: Result<bool>)
      reads this
      ensures r.Ok? <==> inner.Some?
      ensures r.Ok? ==> (r.value <==> !inner.value.st.isOpen)
      ensures r.Fail? ==> r.error == UninitializedUsage
    {
      if inner.None? then Fail(UninitializedUsage) else Ok(!inner.value.st.isOpen)
    }

    /** `toString` (and `operator<<`, which writes it): the same text as the final
        revision writes. */
    function ToString(): (r: Result<string>)
      reads this
      ensures r.Ok? <==> inner.Some?
      ensures r.Ok? ==> r.value == Render(Encode(inner.value))
      ensures r.Fail? ==> r.error == UninitializedUsage
    {
      if inner.None? then Fail(UninitializedUsage) else Ok(BoxCodec.ToString(inner.value.id, inner.value.st))
    }

    /** `operator>>`. The target must already be initialised. The fields are read into
        locals (the `id` field is read and dropped), a temporary `Box(size)` is built,
        taking a fresh id, then opened, furnished and assigned to the target; a failure
        at any point leaves the target as it was. */
    method Read(ts: seq<Token>) returns (s: Status, rest: seq<Token>)
      requires Valid()
      modifies this, counter
      ensures Valid()
      ensures old(inner).None? ==> s == Failure(UninitializedUsage) && rest == ts && inner == old(inner) && unchanged(counter)
      ensures old(inner).Some? && Decode(ts, old(counter.next)).Ok? ==>
                s == Success && inner.Some? && (inner.value, rest) == Decode(ts, old(counter.next)).value
      ensures old(inner).Some? && Decode(ts, old(counter.next)).Fail? ==>
                s == Failure(Decode(ts, old(counter.next)).error) && inner == old(inner)
      ensures old(inner).Some? ==> counter.next == old(counter.next) + (if TakesId(ts) then 1 else 0)
    {
      if inner.None? {
        return Failure(UninitializedUsage), ts;
      }
      var fields := BoxCodec.ReadFields(BoxCodec.Initial(Dims.Zero), ts);
      if fields.Fail? {
        return Failure(fields.error), ts;
      }
      var f := fields.value.0;
      rest := fields.value.1;
      var made := New(f.size, counter);
      if made.Fail? {
        return Failure(made.error), rest;
      }
      var tmp := made.value;
      var openStatus := tmp.Open();
      assert openStatus == Success;
      if f.putItem {
        var put := tmp.PutItem(f.item);
        if put.Failure? {
          return put, rest;
        }
      }
      if !f.leaveOpen {
        var closed := tmp.Close();
        if closed.Failure? {
          return closed, rest;
        }
      }
      s := Assign(tmp);
    }

    /** `operator++(int)`: a copy with the old id is returned, then the box takes the
        next id from `instanceCount`. */
    method PostIncrement() returns (r: Result<Box>)
      requires Valid()
      modifies this, counter
      ensures Valid()
      ensures r.Ok? <==> old(inner).Some?
      ensures r.Fail? ==> r.error == UninitializedUsage && inner == old(inner) && unchanged(counter)
      ensures r.Ok? ==>
                fresh(r.value) && r.value.Valid() && r.value.counter == counter
                && r.value.inner == old(inner)
                && inner == Some(old(inner).value.(id := old(counter.next)))
                && counter.next == old(counter.next) + 1
    {
      if inner.None? {
        return Fail(UninitializedUsage);
      }
      var copy := Copy(this);
      var id := counter.Take();
      inner := Some(inner.value.(id := id));
      r := Ok(copy);
    }

    /** `operator++()`: the box takes the next id from `instanceCount` and is returned. */
    method PreIncrement() returns (r: Result<Box>)
      requires Valid()
      modifies this, counter
      ensures Valid()
      ensures r.Ok? <==> old(inner).Some?
      ensures r.Fail? ==> r.error == UninitializedUsage && inner == old(inner) && unchanged(counter)
      ensures r.Ok? ==> r.value == this && inner == Some(old(inner).value.(id := old(counter.next)))
                        && counter.next == old(counter.next) + 1
    {
      if inner.None? {
        return Fail(UninitializedUsage);
      }
      var id := counter.Take();
      inner := Some(inner.value.(id := id));
      r := Ok(this);
    }

    /** `equals`: size, closed, full, and the item when both are full; the id is not
        compared. */
    function Equals(b: Box): (r: Result<bool>)
      reads this, b
      ensures r.Ok? <==> inner.Some? && b.inner.Some?
      ensures r.Fail? ==> r.error == UninitializedUsage
      ensures r.Ok? ==> (r.value <==> Canon(inner.value.st) == Canon(b.inner.value.st))
    {
      if inner.None? || b.inner.None? then Fail(UninitializedUsage)
      else Ok(BoxStates.Equals(inner.value.st, b.inner.value.st))
    }

    /** `operator==`: the volumes of the sizes are equal. */
    function VolumeEquals(b: Box): (r: Result<bool>)
      reads this, b
      ensures r.Ok? <==> inner.Some? && b.inner.Some?
      ensures r.Fail? ==> r.error == UninitializedUsage
      ensures r.Ok? ==> (r.value <==> Volume(inner.value.st) == Volume(b.inner.value.st))
    {
      if inner.None? || b.inner.None? then Fail(UninitializedUsage)
      else Ok(Dims.ComputeVolume(inner.value.st.size) == Dims.ComputeVolume(b.inner.value.st.size))
    }

    /** `operator!=`: the negation of `==`. */
    function NotEquals(b: Box): (r: Result<bool>)
      reads this, b
      ensures r.Ok? <==> inner.Some? && b.inner.Some?
      ensures r.Fail? ==> r.error == UninitializedUsage
      ensures r.Ok? ==> (r.value <==> Volume(inner.value.st) != Volume(b.inner.value.st))
    {
      var eq :- VolumeEquals(b);
      Ok(!eq)
    }

    /** `operator<`. */
    function Less(b: Box): (r: Result<bool>)
      reads this, b
      ensures r.Ok? <==> inner.Some? && b.inner.Some?
      ensures r.Fail? ==> r.error == UninitializedUsage
      ensures r.Ok? ==> (r.value <==> Volume(inner.value.st) < Volume(b.inner.value.st))
    {
      if inner.None? || b.inner.None? then Fail(UninitializedUsage)
      else Ok(Dims.ComputeVolume(inner.value.st.size) < Dims.ComputeVolume(b.inner.value.st.size))
    }

    /** `operator<=`: `<` or `==`. */
    function LessEq(b: Box): (r: Result<bool>)
      reads this, b
      ensures r.Ok? <==> inner.Some? && b.inner.Some?
      ensures r.Fail? ==> r.error == UninitializedUsage
      ensures r.Ok? ==> (r.value <==> Volume(inner.value.st) <= Volume(b.inner.value.st))
    {
      if inner.None? || b.inner.None? then Fail(UninitializedUsage)
      else Ok(Less(b).value || VolumeEquals(b).value)
    }

    /** `operator>`: not `<=`. */
    function Greater(b: Box): (r: Result<bool>)
      reads this, b
      ensures r.Ok? <==> inner.Some? && b.inner.Some?
      ensures r.Fail? ==> r.error == UninitializedUsage
      ensures r.Ok? ==> (r.value <==> Volume(inner.value.st) > Volume(b.inner.value.st))
    {
      var le :- LessEq(b);
      Ok(!le)
    }

    /** `operator>=`: not `<`. */
    function GreaterEq(b: Box): (r: Result<bool>)
      reads this, b
      ensures r.Ok? <==> inner.Some? && b.inner.Some?
      ensures r.Fail? ==> r.error == UninitializedUsage
      ensures r.Ok? ==> (r.value <==> Volume(inner.value.st) >= Volume(b.inner.value.st))
    {
      var lt :- Less(b);
      Ok(!lt)
    }
  }

  /** The tokens `toString` writes for an inner box. */
  function Encode(i: Inner): seq<Token> {
    BoxCodec.Encode(i.id, i.st)
  }

  /** Whether `operator>>` gets as far as building its temporary, which takes an id:
      the fields read without error and a valid size was among them. */
  predicate TakesId(ts: seq<Token>) {
    var fields := BoxCodec.Decode(BoxCodec.Initial(Dims.Zero), ts);
    fields.Ok? && Dims.IsValid(fields.value.0.size)
  }

  /** What `operator>>` produces from `ts` into an initialised box when the temporary
      it builds gets the id `freshId`: the inner box the target ends up with, and the
      rest of the stream. */
  function Decode(ts: seq<Token>, freshId: int): (r: Result<(Inner, seq<Token>)>)
    ensures r.Ok? ==> Inv(r.value.0.st) && r.value.0.id == freshId && |r.value.1| < |ts|
    ensures r.Ok? ==> TakesId(ts)
  {
    match BoxCodec.Decode(BoxCodec.Initial(Dims.Zero), ts)
    case Fail(e) => Fail(e)
    case Ok((f, rest)) =>
      match Fresh(f.size)
      case Fail(e) => Fail(e)
      case Ok(st0) =>
        match BoxStates.Open(st0)
        case Fail(e) => Fail(e)
        case Ok(st1) =>
          match BoxCodec.Furnish(st1, f)
          case Fail(e) => Fail(e)
          case Ok(st) => Ok((Inner(freshId, st), rest))
  }

  /** Reading back what `toString` wrote gives a box that `equals` the original but
      carries the fresh id of the temporary, not the id that was written; the stream is
      left just after the text. */
  lemma RoundTrip(i: Inner, freshId: int, rest: seq<Token>)
    requires Inv(i.st)
    ensures Decode(Encode(i) + rest, freshId) == Ok((Inner(freshId, Canon(i.st)), rest))
  {
    BoxCodec.DecodeEncode(i.id, i.st, Dims.Zero, rest);
    BoxCodec.FurnishWritten(i.id, i.st);
  }

  /** Exactly one of `<`, `==` and `>` holds, and the derived operators agree with the
      ones they are derived from. */
  lemma Trichotomy(a: Box, b: Box)
    requires a.inner.Some? && b.inner.Some?
    ensures (a.Less(b).value && !a.VolumeEquals(b).value && !a.Greater(b).value)
            || (!a.Less(b).value && a.VolumeEquals(b).value && !a.Greater(b).value)
            || (!a.Less(b).value && !a.VolumeEquals(b).value && a.Greater(b).value)
    ensures a.NotEquals(b).value == !a.VolumeEquals(b).value
    ensures a.GreaterEq(b).value == !a.Less(b).value
    ensures a.LessEq(b).value == !a.Greater(b).value
    ensures a.GreaterEq(b).value && a.LessEq(b).value <==> a.VolumeEquals(b).value
    ensures a.Greater(b).value || a.Less(b).value <==> a.NotEquals(b).value
  {
  }

  /** `equals` is an equivalence that ignores ids, and boxes that are `equals` have the
      same volume. */
  lemma EqualsIsEquivalence(a: Box, b: Box, c: Box)
    requires a.inner.Some? && b.inner.Some? && c.inner.Some?
    ensures a.Equals(a).value
    ensures a.Equals(b).value ==> b.Equals(a).value
    ensures a.Equals(b).value && b.Equals(c).value ==> a.Equals(c).value
    ensures a.Equals(b).value ==> a.VolumeEquals(b).value
    ensures a.inner.value.st == b.inner.value.st ==> a.Equals(b).value
  {
  }
}
