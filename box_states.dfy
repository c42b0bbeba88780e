/** The state machine every Box revision implements: open or closed, empty or full, a
    size and the item inside. Each transition either fails with the error kind the
    source throws, checked in the source's order, or yields the new state.
    The transitions are identical in containers/box.cpp:78-133, week05/box.cpp:216-271,
    week04/box.cpp:129-178 and week03/box.cpp:54-103; each revision's Box class runs
    them on its own fields. */
module BoxStates {
  import opened Errors
  import opened Dims

  /** `Box::SMALL`, `Box::MEDIUM` and `Box::LARGE` of week03, week04 and week05. */
  const SMALL: Dimensions := Dimensions(10, 10, 10)
  const MEDIUM: Dimensions := Dimensions(20, 20, 10)
  const LARGE: Dimensions := Dimensions(30, 25, 20)

  /** `isOpen`, `hasItem`, `size` and `item`. While the box is empty `item` is whatever
      was last put in (the zero value before the first put) and nothing reads it. */
  datatype State = State(isOpen: bool, hasItem: bool, size: Dimensions, item: Dimensions)

  /** What every reachable state satisfies: the size passed validation, and an item that
      went in passed validation and fitted in length and width; a closed box holds no
      item taller than itself. */
  predicate Inv(s: State) {
    IsValid(s.size)
    && (s.hasItem ==> IsValid(s.item) && s.item.length <= s.size.length && s.item.width <= s.size.width)
    && (s.hasItem && !s.isOpen ==> s.item.height <= s.size.height)
  }

  /** The constructor body: validates the size, then starts closed and empty. */
  function Fresh(size: Dimensions): (r: Result<State>)
    ensures r.Ok? <==> IsValid(size)
    ensures r.Fail? ==> r.error == InvalidDimensions
    ensures r.Ok? ==> !r.value.isOpen && !r.value.hasItem && r.value.size == size && Inv(r.value)
  {
    if Validate(size).Failure? then Fail(InvalidDimensions)
    else Ok(State(false, false, size, Zero))
  }

  /** `open`: fails on an open box, otherwise only sets `isOpen`. */
  function Open(s: State): (r: Result<State>)
    ensures r.Ok? <==> !s.isOpen
    ensures r.Fail? ==> r.error == AlreadyOpened
    ensures r.Ok? ==> r.value.isOpen && r.value.hasItem == s.hasItem && r.value.size == s.size && r.value.item == s.item
    ensures r.Ok? && Inv(s) ==> Inv(r.value)
  {
    if s.isOpen then Fail(AlreadyOpened) else Ok(s.(isOpen := true))
  }

  /** `close`: fails on a closed box, then on an item taller than the box; otherwise
      only clears `isOpen`. */
  function Close(s: State): (r: Result<State>)
    ensures r.Ok? <==> s.isOpen && !(s.hasItem && s.item.height > s.size.height)
    ensures r.Fail? ==> r.error == (if !s.isOpen then AlreadyClosed else ItemTooHighToClose)
    ensures r.Ok? ==> !r.value.isOpen && r.value.hasItem == s.hasItem && r.value.size == s.size && r.value.item == s.item
    ensures r.Ok? && Inv(s) ==> Inv(r.value)
  {
    if !s.isOpen then Fail(AlreadyClosed)
    else if s.hasItem && s.item.height > s.size.height then Fail(ItemTooHighToClose)
    else Ok(s.(isOpen := false))
  }

  /** `putItem`: the item is validated first, then the box must be open, empty, and at
      least as long and as wide as the item. The height is not checked here. */
  function PutItem(s: State, item: Dimensions): (r: Result<State>)
    ensures r.Ok? <==> IsValid(item) && s.isOpen && !s.hasItem
                       && item.length <= s.size.length && item.width <= s.size.width
    ensures r.Fail? ==> r.error == (if !IsValid(item) then InvalidDimensions
                                    else if !s.isOpen then PutingToClosed
                                    else if s.hasItem then PutingToFull
                                    else ItemDoesNotFit)
    ensures r.Ok? ==> r.value.hasItem && r.value.item == item && r.value.isOpen == s.isOpen && r.value.size == s.size
    ensures r.Ok? && Inv(s) ==> Inv(r.value)
  {
    if Validate(item).Failure? then Fail(InvalidDimensions)
    else if !s.isOpen then Fail(PutingToClosed)
    else if s.hasItem then Fail(PutingToFull)
    else if s.size.length < item.length || s.size.width < item.width then Fail(ItemDoesNotFit)
    else Ok(s.(item := item, hasItem := true))
  }

  /** `takeItem`: the box must be open and full; it gives back the stored item and
      leaves the box empty. */
  function TakeItem(s: State): (r: Result<(State, Dimensions)>)
    ensures r.Ok? <==> s.isOpen && s.hasItem
    ensures r.Fail? ==> r.error == (if !s.isOpen then TakingFromClosed else TakingFromEmpty)
    ensures r.Ok? ==> r.value.1 == s.item && !r.value.0.hasItem
                      && r.value.0.isOpen == s.isOpen && r.value.0.size == s.size && r.value.0.item == s.item
    ensures r.Ok? && Inv(s) ==> Inv(r.value.0)
  {
    if !s.isOpen then Fail(TakingFromClosed)
    else if !s.hasItem then Fail(TakingFromEmpty)
    else Ok((s.(hasItem := false), s.item))
  }

  /** The state with the unobservable item of an empty box cleared. */
  function Canon(s: State): State {
    if s.hasItem then s else s.(item := Zero)
  }

  /** `equals` without the id: same size, both closed or both open, both full or both
      empty, and the same item when both are full. */
  function Equals(a: State, b: State): (r: bool)
    ensures r <==> Canon(a) == Canon(b)
  {
    Equal(a.size, b.size) && !a.isOpen == !b.isOpen && a.hasItem == b.hasItem
    && (a.hasItem && b.hasItem ==> Equal(a.item, b.item))
  }

  /** The volume the comparison operators compare. */
  function Volume(s: State): int {
    ComputeVolume(s.size)
  }

  /** Taking back an item just put in returns exactly that item and restores the state,
      up to the item an empty box no longer shows. */
  lemma PutThenTake(s: State, item: Dimensions)
    requires PutItem(s, item).Ok?
    ensures TakeItem(PutItem(s, item).value).Ok?
    ensures TakeItem(PutItem(s, item).value).value.1 == item
    ensures Canon(TakeItem(PutItem(s, item).value).value.0) == Canon(s)
  {
  }

  /** Opening a closed box and closing it again returns it unchanged: a reachable closed
      box never holds an item too high to close. */
  lemma OpenThenClose(s: State)
    requires Inv(s) && !s.isOpen
    ensures Open(s).Ok? && Close(Open(s).value) == Ok(s)
  {
  }

  /** Closing an open box and opening it again returns it unchanged, whenever it closes. */
  lemma CloseThenOpen(s: State)
    requires Close(s).Ok?
    ensures Open(Close(s).value) == Ok(s)
  {
  }

  lemma MulMono(x: int, y: int, mx: int, my: int)
    requires 0 < x <= mx && 0 < y <= my
    ensures 0 < x * y <= mx * my
  {
    assert x * y <= mx * y;
    assert mx * y <= mx * my;
  }

  /** A closed box's item takes no more volume than the box. */
  lemma ClosedItemVolume(s: State)
    requires Inv(s) && s.hasItem && !s.isOpen
    ensures 0 < ComputeVolume(s.item) <= ComputeVolume(s.size)
  {
    MulMono(s.item.length, s.item.width, s.size.length, s.size.width);
    MulMono(s.item.length * s.item.width, s.item.height,
            s.size.length * s.size.width, s.size.height);
  }
}
