/** week04/box.cpp: the Box of week 4. A box is a plain value object: its id and state
    live in its own fields, the compiler-generated copy constructor and assignment copy
    all of them, id included, and ids come from the static `Box::instanceCount`. */
module Week04 {
  import opened Errors
  import opened Tokens
  import Dims
  import opened BoxStates
  import BoxCodec
  import opened IdCounters

  /** What the copy operations copy: the id and the state. */
  datatype Contents = Contents(id: int, st: State)

  class Box {
    const counter: IdCounter
    var id: int
    var isOpen: bool
    var hasItem: bool
    var size: Dims.Dimensions
    var item: Dims.Dimensions

    /** The state fields as one value. */
    function St(): State
      reads this
    {
      State(isOpen, hasItem, size, item)
    }

    /** The id and the state. */
    function Value(): Contents
      reads this
    {
      Contents(id, St())
    }

    ghost predicate Valid()
      reads this
    {
      Inv(St())
    }

    /** The body of `Box(size)` once the size has passed validation: the box takes the
        id `instanceCount` and starts closed and empty. */
    constructor Build(c: IdCounter, sz: Dims.Dimensions)
      requires Dims.IsValid(sz)
      modifies c
      ensures Valid() && counter == c
      ensures Value() == Contents(old(c.next), Fresh(sz).value)
      ensures c.next == old(c.next) + 1
    {
      var n := c.Take();
      counter := c;
      id := n;
      isOpen := false;
      hasItem := false;
      size := sz;
      item := Dims.Zero;
    }

    /** `Box(size)`, whose size defaults to `MEDIUM`: the size is validated before the
        counter is touched, and an invalid size means no box. */
    static method New(c: IdCounter, sz: Dims.Dimensions := MEDIUM) returns (r: Result<Box>)
      modifies c
      ensures r.Ok? <==> Dims.IsValid(sz)
      ensures r.Fail? ==> r.error == InvalidDimensions && unchanged(c)
      ensures r.Ok? ==> fresh(r.value) && r.value.Valid() && r.value.counter == c
                        && r.value.Value() == Contents(old(c.next), Fresh(sz).value)
                        && c.next == old(c.next) + 1
    {
      if Dims.Validate(sz).Failure? {
        return Fail(InvalidDimensions);
      }
      var b := new Box.Build(c, sz);
      r := Ok(b);
    }

    /** The generated copy constructor: every field, id included; no id is taken. */
    constructor Copy(b: Box)
      requires b.Valid()
      ensures Valid() && counter == b.counter && Value() == b.Value()
    {
      counter := b.counter;
      id := b.id;
      isOpen := b.isOpen;
      hasItem := b.hasItem;
      size := b.size;
      item := b.item;
    }

    /** Stores a state into the state fields. */
    method Store(s: State)
      modifies this
      ensures St() == s && id == old(id)
    {
      isOpen, hasItem, size, item := s.isOpen, s.hasItem, s.size, s.item;
    }

    /** The generated copy assignment: every field of `b`, id included. */
    method Assign(b: Box)
      requires b.Valid()
      modifies this
      ensures Valid() && Value() == old(b.Value())
    {
      var s := b.St();
      id := b.id;
      Store(s);
    }

    /** `open`. */
    method Open() returns (s: Status)
      requires Valid()
      modifies this
      ensures Valid() && id == old(id)
      ensures BoxStates.Open(old(St())).Fail? ==> s == Failure(BoxStates.Open(old(St())).error) && St() == old(St())
      ensures BoxStates.Open(old(St())).Ok? ==> s == Success && St() == BoxStates.Open(old(St())).value
    {
      var next := BoxStates.Open(St());
      if next.Fail? {
        return Failure(next.error);
      }
      Store(next.value);
      s := Success;
    }

    /** `close`. */
    method Close() returns (s: Status)
      requires Valid()
      modifies this
      ensures Valid() && id == old(id)
      ensures BoxStates.Close(old(St())).Fail? ==> s == Failure(BoxStates.Close(old(St())).error) && St() == old(St())
      ensures BoxStates.Close(old(St())).Ok? ==> s == Success && St() == BoxStates.Close(old(St())).value
    {
      var next := BoxStates.Close(St());
      if next.Fail? {
        return Failure(next.error);
      }
      Store(next.value);
      s := Success;
    }

    /** `putItem`. */
    method PutItem(it: Dims.Dimensions) returns (s: Status)
      requires Valid()
      modifies this
      ensures Valid() && id == old(id)
      ensures BoxStates.PutItem(old(St()), it).Fail? ==>
                s == Failure(BoxStates.PutItem(old(St()), it).error) && St() == old(St())
      ensures BoxStates.PutItem(old(St()), it).Ok? ==> s == Success && St() == BoxStates.PutItem(old(St()), it).value
    {
      var next := BoxStates.PutItem(St(), it);
      if next.Fail? {
        return Failure(next.error);
      }
      Store(next.value);
      s := Success;
    }

    /** `takeItem`. */
    method TakeItem() returns (r: Result<Dims.Dimensions>)
      requires Valid()
      modifies this
      ensures Valid() && id == old(id)
      ensures BoxStates.TakeItem(old(St())).Fail? ==>
                r == Fail(BoxStates.TakeItem(old(St())).error) && St() == old(St())
      ensures BoxStates.TakeItem(old(St())).Ok? ==>
                r == Ok(old(item)) && St() == BoxStates.TakeItem(old(St())).value.0
    {
      var next := BoxStates.TakeItem(St());
      if next.Fail? {
        return Fail(next.error);
      }
      Store(next.value.0);
      r := Ok(next.value.1);
    }

    /** `isFull`. */
    function IsFull(): (r: bool)
      reads this
      ensures r <==> hasItem
    {
      hasItem
    }

    /** `isClosed`. */
    function IsClosed(): (r: bool)
      reads this
      ensures r <==> !isOpen
    {
      !isOpen
    }

    /** `toString` (and `operator<<`, which writes it). */
    function ToString(): (r: string)
      reads this
      ensures r == Render(Encode(Value()))
    {
      BoxCodec.ToString(id, St())
    }

    /** `operator>>`. A temporary `Box tmp` of size `MEDIUM` is built first, taking an
        id, and opened; the loop then reads `size` and `id` straight into it and the
        other fields into locals, the item goes in, the box is closed unless `is_open`
        was true, and the temporary is assigned to the target last: a failure at any
        point leaves the target as it was. */
    method Read(ts: seq<Token>) returns (s: Status, rest: seq<Token>)
      requires Valid()
      modifies this, counter
      ensures Valid()
      ensures counter.next == old(counter.next) + 1
      ensures Decode(ts, old(counter.next)).Ok? ==>
                s == Success && (Value(), rest) == Decode(ts, old(counter.next)).value
      ensures Decode(ts, old(counter.next)).Fail? ==>
                s == Failure(Decode(ts, old(counter.next)).error) && Value() == old(Value())
    {
      var tmp := new Box.Build(counter, MEDIUM);
      var openStatus := tmp.Open();
      assert openStatus == Success;
      var fields := BoxCodec.ReadFields(BoxCodec.Initial(MEDIUM), ts);
      if fields.Fail? {
        return Failure(fields.error), ts;
      }
      var f := fields.value.0;
      rest := fields.value.1;
      tmp.size := f.size;
      tmp.id := f.id.GetOr(tmp.id);
      if f.putItem {
        var put := tmp.PutItem(f.item);
        if put.Failure? {
          return put, rest;
        }
      }
      if !f.leaveOpen {
        var closed := tmp.Close();
        if closed.Failure? {
          return closed, rest;
        }
      }
      Assign(tmp);
      s := Success;
    }

    /** `operator++(int)`: a copy with the old id is returned, then the box takes the
        next id from `instanceCount`. */
    method PostIncrement() returns (copy: Box)
      requires Valid()
      modifies this, counter
      ensures Valid() && St() == old(St())
      ensures fresh(copy) && copy.Valid() && copy.Value() == old(Value())
      ensures id == old(counter.next) && counter.next == old(counter.next) + 1
    {
      copy := new Box.Copy(this);
      id := counter.Take();
    }

    /** `operator++()`: the box takes the next id from `instanceCount` and is returned. */
    method PreIncrement() returns (r: Box)
      requires Valid()
      modifies this, counter
      ensures Valid() && St() == old(St()) && r == this
      ensures id == old(counter.next) && counter.next == old(counter.next) + 1
    {
      id := counter.Take();
      r := this;
    }

    /** `operator==`: complete equality of size, closed, full, and the item when both
        are full; the id is not compared. */
    function Equals(b: Box): (r: bool)
      reads this, b
      ensures r <==> Canon(St()) == Canon(b.St())
    {
      BoxStates.Equals(St(), b.St())
    }

    /** `operator!=`: the negation of `==`. */
    function NotEquals(b: Box): (r: bool)
      reads this, b
      ensures r <==> Canon(St()) != Canon(b.St())
    {
      !Equals(b)
    }

    /** `operator<`. */
    function Less(b: Box): (r: bool)
      reads this, b
      ensures r <==> Volume(St()) < Volume(b.St())
    {
      Dims.ComputeVolume(size) < Dims.ComputeVolume(b.size)
    }

    /** `operator<=`. */
    function LessEq(b: Box): (r: bool)
      reads this, b
      ensures r <==> Volume(St()) <= Volume(b.St())
    {
      Dims.ComputeVolume(size) <= Dims.ComputeVolume(b.size)
    }

    /** `operator>`. */
    function Greater(b: Box): (r: bool)
      reads this, b
      ensures r <==> Volume(St()) > Volume(b.St())
    {
      Dims.ComputeVolume(size) > Dims.ComputeVolume(b.size)
    }

    /** `operator>=`. */
    function GreaterEq(b: Box): (r: bool)
      reads this, b
      ensures r <==> Volume(St()) >= Volume(b.St())
    {
      Dims.ComputeVolume(size) >= Dims.ComputeVolume(b.size)
    }

    /** The equality the header promises for the comparison operators: the volumes of
        the sizes are equal. */
    function VolumeEquals(b: Box): (r: bool)
      reads this, b
      ensures r <==> LessEq(b) && GreaterEq(b)
      ensures r <==> !Less(b) && !Greater(b)
    {
      Dims.ComputeVolume(size) == Dims.ComputeVolume(b.size)
    }
  }

  /** The tokens `toString` writes. */
  function Encode(c: Contents): seq<Token> {
    BoxCodec.Encode(c.id, c.st)
  }

  /** What `operator>>` produces from `ts` when its temporary got the id `freshId`: the
      id and state the target ends up with, and the rest of the stream. Without a `size`
      field the box keeps the size `MEDIUM` of the temporary; without an `id` field it
      keeps the temporary's id. */
  function Decode(ts: seq<Token>, freshId: int): (r: Result<(Contents, seq<Token>)>)
    ensures r.Ok? ==> Inv(r.value.0.st) && |r.value.1| < |ts|
  {
    match BoxCodec.Decode(BoxCodec.Initial(MEDIUM), ts)
    case Fail(e) => Fail(e)
    case Ok((f, rest)) =>
      match Fresh(f.size)
      case Fail(e) => Fail(e)
      case Ok(st0) =>
        match BoxStates.Open(st0)
        case Fail(e) => Fail(e)
        case Ok(st1) =>
          match BoxCodec.Furnish(st1, f)
          case Fail(e) => Fail(e)
          case Ok(st) => Ok((Contents(f.id.GetOr(freshId), st), rest))
  }

  /** Reading back what `toString` wrote gives back the id and the state, up to the
      item an empty box does not show; the stream is left just after the text. */
  lemma RoundTrip(c: Contents, freshId: int, rest: seq<Token>)
    requires Inv(c.st)
    ensures Decode(Encode(c) + rest, freshId) == Ok((Contents(c.id, Canon(c.st)), rest))
  {
    BoxCodec.DecodeEncode(c.id, c.st, MEDIUM, rest);
    BoxCodec.FurnishWritten(c.id, c.st);
  }

  /** A text holding only `is_open` still gives a box: the temporary's size `MEDIUM`
      and its id stay, and the box is empty. */
  lemma MissingFieldsKeepTemporary(isOpen: bool, freshId: int, rest: seq<Token>)
    ensures Decode([Sym(BeginMark), Word("is_open:"), Flag(isOpen), Sym(EndMark)] + rest, freshId)
            == Ok((Contents(freshId, State(isOpen, false, MEDIUM, Dims.Zero)), rest))
  {
    BoxCodec.OnlyOpenFlag(BoxCodec.Initial(MEDIUM), isOpen, rest);
  }

  /** The ordering operators agree with each other: exactly one of `<`, equal volume
      and `>` holds, and `<=`, `>=` are their unions. */
  lemma Trichotomy(a: Box, b: Box)
    ensures (a.Less(b) && !a.VolumeEquals(b) && !a.Greater(b))
            || (!a.Less(b) && a.VolumeEquals(b) && !a.Greater(b))
            || (!a.Less(b) && !a.VolumeEquals(b) && a.Greater(b))
    ensures a.LessEq(b) <==> a.Less(b) || a.VolumeEquals(b)
    ensures a.GreaterEq(b) <==> a.Greater(b) || a.VolumeEquals(b)
    ensures a.GreaterEq(b) <==> b.LessEq(a)
  {
  }

  /** `==` implies equal volume, but not the other way round: two closed, empty boxes
      of sizes 1x2x3 and 3x2x1 are each `<=` and `>=` the other, yet not `==`. */
  lemma EqualsIsNotVolumeEquality(a: Box, b: Box)
    requires a.St() == State(false, false, Dims.Dimensions(1, 2, 3), Dims.Zero)
    requires b.St() == State(false, false, Dims.Dimensions(3, 2, 1), Dims.Zero)
    ensures a.LessEq(b) && a.GreaterEq(b) && a.VolumeEquals(b)
    ensures !a.Equals(b) && a.NotEquals(b)
  {
  }

  /** `==` is an equivalence that ignores ids, and it refines equal volume. */
  lemma EqualsIsEquivalence(a: Box, b: Box, c: Box)
    ensures a.Equals(a)
    ensures a.Equals(b) ==> b.Equals(a)
    ensures a.Equals(b) && b.Equals(c) ==> a.Equals(c)
    ensures a.Equals(b) ==> a.VolumeEquals(b)
  {
  }
}
