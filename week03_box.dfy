/** week03/box.cpp: the first Box. A box keeps a constant id, taken from the static
    `Box::instanceCount` when it is built, and its state in its own fields; it has no
    copy, stream or comparison operations, and `toString` writes a sentence for people
    rather than the text format of the later revisions. */
module Week03 {
  import opened Errors
  import opened Tokens
  import Dims
  import opened BoxStates
  import opened IdCounters

  /** `Dimensions::toString` of this revision: the later `{length: L, width: W,
      height: H}` without its braces. It ends in the height's digits. */
  function DimsText(d: Dims.Dimensions): (t: string)
    ensures Dims.ToString(d) == "{" + t + "}"
    ensures |t| >= 30 && t[|t| - |Decimal(d.height)|..] == Decimal(d.height) && IsDigit(t[|t| - 1])
  {
    var front := "length: " + Decimal(d.length) + ", width: " + Decimal(d.width) + ", height: ";
    Braces(Decimal(d.length), Decimal(d.width), Decimal(d.height));
    Suffix(front, Decimal(d.height));
    front + Decimal(d.height)
  }

  lemma Braces(l: string, w: string, h: string)
    ensures "{length: " + l + ", width: " + w + ", height: " + h + "}"
            == "{" + ("length: " + l + ", width: " + w + ", height: " + h) + "}"
  {
  }

  lemma Suffix(front: string, tail: string)
    ensures |front + tail| >= |tail| && (front + tail)[|front + tail| - |tail|..] == tail
  {
  }

  /** The first word of the sentence: `Opened` or `Closed`. */
  function StateWord(isOpen: bool): (w: string)
    ensures |w| == 6 && (w[0] == 'O' <==> isOpen)
  {
    if isOpen then "Opened" else "Closed"
  }

  const WithoutItem: string := "without any item"

  /** The id and the size. */
  function Middle(id: int, size: Dims.Dimensions): string {
    " Box no. " + Decimal(id) + ", size - " + DimsText(size) + ", "
  }

  /** The end of the sentence: the item, or `without any item`. */
  function ItemText(hasItem: bool, item: Dims.Dimensions): (t: string)
    ensures hasItem ==> t == "with item - " + DimsText(item)
    ensures !hasItem ==> t == WithoutItem
    ensures |t| >= 16
    ensures t[|t| - 16..] == WithoutItem <==> !hasItem
  {
    if hasItem then
      var d := DimsText(item);
      LastChar("with item - ", d);
      "with item - " + d
    else
      WithoutItem
  }

  /** A text ending in a digit does not end in `without any item`. */
  lemma LastChar(front: string, d: string)
    requires |d| > 0 && IsDigit(d[|d| - 1]) && |front + d| >= 16
    ensures (front + d)[|front + d| - 16..] != WithoutItem
  {
    var t := front + d;
    assert t[|t| - 1] == d[|d| - 1];
    assert t[|t| - 16..][15] == t[|t| - 1];
  }

  /** What a sentence tells about the box: it starts with `Opened` or `Closed`, and it
      ends with `without any item` exactly when the box is empty. */
  predicate Shows(t: string, isOpen: bool, hasItem: bool) {
    |t| >= 16 && t[..6] == StateWord(isOpen) && (t[|t| - 16..] == WithoutItem <==> !hasItem)
  }

  /** A sentence `word + middle + tail` starts with `word`, and it ends with `marker`
      exactly when `tail` does. */
  lemma Sentence(word: string, middle: string, tail: string, marker: string, marked: bool)
    requires |word| == 6 && |tail| >= 16 && |marker| == 16
    requires tail[|tail| - 16..] == marker <==> marked
    ensures var t := word + (middle + tail);
            |t| >= 16 && t[..6] == word && (t[|t| - 16..] == marker <==> marked)
  {
    var t := word + (middle + tail);
    assert t[..6] == word;
    assert t[|t| - 16..] == tail[|tail| - 16..];
  }

  class Box {
    const counter: IdCounter
    const id: int
    var isOpen: bool
    var hasItem: bool
    var size: Dims.Dimensions
    var item: Dims.Dimensions

    /** The state fields as one value. */
    function St(): State
      reads this
    {
      State(isOpen, hasItem, size, item)
    }

    ghost predicate Valid()
      reads this
    {
      Inv(St())
    }

    /** The body of `Box(size)` once the size has passed validation: the box takes the
        id `instanceCount` and starts closed and empty. */
    constructor Build(c: IdCounter, sz: Dims.Dimensions)
      requires Dims.IsValid(sz)
      modifies c
      ensures Valid() && counter == c
      ensures id == old(c.next) && St() == Fresh(sz).value
      ensures c.next == old(c.next) + 1
    {
      var n := c.Take();
      counter := c;
      id := n;
      isOpen := false;
      hasItem := false;
      size := sz;
      item := Dims.Zero;
    }

    /** `Box(size)`, whose size defaults to `MEDIUM`: the size is validated before the
        counter is touched, and an invalid size means no box. */
    static method New(c: IdCounter, sz: Dims.Dimensions := MEDIUM) returns (r: Result<Box>)
      modifies c
      ensures r.Ok? <==> Dims.IsValid(sz)
      ensures r.Fail? ==> r.error == InvalidDimensions && unchanged(c)
      ensures r.Ok? ==> fresh(r.value) && r.value.Valid() && r.value.counter == c
                        && r.value.id == old(c.next) && r.value.St() == Fresh(sz).value
                        && c.next == old(c.next) + 1
    {
      if Dims.Validate(sz).Failure? {
        return Fail(InvalidDimensions);
      }
      var b := new Box.Build(c, sz);
      r := Ok(b);
    }

    /** Stores a state into the state fields. */
    method Store(s: State)
      modifies this
      ensures St() == s
    {
      isOpen, hasItem, size, item := s.isOpen, s.hasItem, s.size, s.item;
    }

    /** `open`. */
    method Open() returns (s: Status)
      requires Valid()
      modifies this
      ensures Valid()
      ensures BoxStates.Open(old(St())).Fail? ==> s == Failure(BoxStates.Open(old(St())).error) && St() == old(St())
      ensures BoxStates.Open(old(St())).Ok? ==> s == Success && St() == BoxStates.Open(old(St())).value
    {
      var next := BoxStates.Open(St());
      if next.Fail? {
        return Failure(next.error);
      }
      Store(next.value);
      s := Success;
    }

    /** `close`. */
    method Close() returns (s: Status)
      requires Valid()
      modifies this
      ensures Valid()
      ensures BoxStates.Close(old(St())).Fail? ==> s == Failure(BoxStates.Close(old(St())).error) && St() == old(St())
      ensures BoxStates.Close(old(St())).Ok? ==> s == Success && St() == BoxStates.Close(old(St())).value
    {
      var next := BoxStates.Close(St());
      if next.Fail? {
        return Failure(next.error);
      }
      Store(next.value);
      s := Success;
    }

    /** `putItem`. */
    method PutItem(it: Dims.Dimensions) returns (s: Status)
      requires Valid()
      modifies this
      ensures Valid()
      ensures BoxStates.PutItem(old(St()), it).Fail? ==>
                s == Failure(BoxStates.PutItem(old(St()), it).error) && St() == old(St())
      ensures BoxStates.PutItem(old(St()), it).Ok? ==> s == Success && St() == BoxStates.PutItem(old(St()), it).value
    {
      var next := BoxStates.PutItem(St(), it);
      if next.Fail? {
        return Failure(next.error);
      }
      Store(next.value);
      s := Success;
    }

    /** `takeItem`. */
    method TakeItem() returns (r: Result<Dims.Dimensions>)
      requires Valid()
      modifies this
      ensures Valid()
      ensures BoxStates.TakeItem(old(St())).Fail? ==>
                r == Fail(BoxStates.TakeItem(old(St())).error) && St() == old(St())
      ensures BoxStates.TakeItem(old(St())).Ok? ==>
                r == Ok(old(item)) && St() == BoxStates.TakeItem(old(St())).value.0
    {
      var next := BoxStates.TakeItem(St());
      if next.Fail? {
        return Fail(next.error);
      }
      Store(next.value.0);
      r := Ok(next.value.1);
    }

    /** `isFull`. */
    function IsFull(): (r: bool)
      reads this
      ensures r <==> hasItem
    {
      hasItem
    }

    /** `isClosed`. */
    function IsClosed(): (r: bool)
      reads this
      ensures r <==> !isOpen
    {
      !isOpen
    }

    /** `toString`: the state word, the id, the size, then the item or `without any
        item`. The sentence starts with `Opened` or `Closed`, and it ends with `without
        any item` exactly when the box is empty (otherwise it ends with the item's
        height). */
    function ToString(): (r: string)
      reads this
      ensures r == StateWord(isOpen) + (" Box no. " + Decimal(id) + ", size - " + DimsText(size) + ", "
                                        + ItemText(hasItem, item))
      ensures Shows(r, isOpen, hasItem)
    {
      var word := StateWord(isOpen);
      var middle := Middle(id, size);
      var tail := ItemText(hasItem, item);
      Sentence(word, middle, tail, WithoutItem, !hasItem);
      word + (middle + tail)
    }
  }

  /** Ids are handed out in order of construction and never reused: two boxes built one
      after the other get consecutive ids. */
  method BuildTwo(c: IdCounter) returns (a: Box, b: Box)
    modifies c
    ensures a.id == old(c.next) && b.id == a.id + 1 && c.next == old(c.next) + 2
  {
    a := new Box.Build(c, SMALL);
    b := new Box.Build(c, LARGE);
  }
}
