/** The test cases of test.cpp, run against the containers Box as client code: each
    method performs the steps of one test case and its postcondition states what the
    test requires. */
module ContainersScenarios {
  import opened Errors
  import opened Tokens
  import Dims
  import opened Containers

  /** #SET (test.cpp:9-16): boxes built one after the other get consecutive ids,
      starting at the counter's value (0 in a fresh program). */
  method Numbering(c: Counters) returns (ids: seq<int>)
    requires c.Valid()
    modifies c
    ensures c.Valid()
    ensures ids == [old(c.idCounter), old(c.idCounter) + 1, old(c.idCounter) + 2, old(c.idCounter) + 3]
  {
    var d := Dims.Dimensions(1, 2, 3);
    var r0 := Box.New(d, c);
    var b0 := r0.value;
    var r1 := Box.New(d, c);
    var b1 := r1.value;
    var r2 := Box.New(d, c);
    var b2 := r2.value;
    var r3 := Box.New(d, c);
    var b3 := r3.value;
    ids := [b0.GetId().value, b1.GetId().value, b2.GetId().value, b3.GetId().value];
  }

  /** #LEAK (test.cpp:97-104): a construction that throws creates no instance, and once
      every box of the scope is destroyed the instance count is back where it was. */
  method NoLeak(c: Counters) returns (failed: Result<Box>)
    requires c.Valid()
    modifies c
    ensures failed == Fail(InvalidDimensions)
    ensures c.Valid() && c.live == old(c.live)
    ensures c.GetCurrentInstances() == old(c.GetCurrentInstances())
  {
    failed := Box.New(Dims.Dimensions(1, 3, 0), c);
    var r1 := Box.New(Dims.Dimensions(20, 10, 5), c);
    var b1 := r1.value;
    var b2 := Box.Copy(b1);
    var b3 := Box.Copy(b1);
    b3.Destroy();
    b2.Destroy();
    b1.Destroy();
  }

  /** #THROW (test.cpp:65-79): an uninitialised box refuses to open; `init` rejects a
      zero dimension and accepts a valid size; reading garbage into a copy fails and
      leaves the copy equal to the original. */
  method Throwing(c: Counters) returns (openStatus: Status, badInit: Status, goodInit: Status, read: Status, same: bool)
    requires c.Valid()
    modifies c
    ensures openStatus == Failure(UninitializedUsage)
    ensures badInit == Failure(InvalidDimensions)
    ensures goodInit == Success
    ensures read.Failure?
    ensures same
  {
    var b := new Box(c);
    openStatus := b.Open();
    badInit := b.Init(Dims.Dimensions(10, 20, 0));
    goodInit := b.Init(Dims.Dimensions(10, 10, 10));
    var copy := Box.Copy(b);
    var rest;
    read, rest := copy.Read([Word("garbage")]);
    same := copy.Equals(b).value;
  }

  /** #CUSTOM (test.cpp:107-132): the whole life of one box, with the outcome of each
      step as the test expects it. */
  method Lifecycle(c: Counters) returns (outcomes: seq<Status>, taken: Result<Dims.Dimensions>)
    requires c.Valid()
    modifies c
    ensures outcomes == [Failure(UninitializedUsage), Failure(InvalidDimensions), Success,
                         Failure(AlreadyClosed), Success, Failure(AlreadyOpened),
                         Failure(ItemDoesNotFit), Success, Failure(ItemTooHighToClose),
                         Success, Success]
    ensures taken == Ok(Dims.Dimensions(10, 10, 12))
  {
    var b := new Box(c);
    var s0 := b.Open();
    var s1 := b.Init(Dims.Dimensions(10, 20, 0));
    var s2 := b.Init(Dims.Dimensions(10, 10, 10));
    var s3 := b.Close();
    var s4 := b.Open();
    var s5 := b.Open();
    var s6 := b.PutItem(Dims.Dimensions(10, 11, 10));
    var s7 := b.PutItem(Dims.Dimensions(10, 10, 12));
    var s8 := b.Close();
    taken := b.TakeItem();
    var s9 := b.PutItem(Dims.Dimensions(5, 9, 10));
    var s10 := b.Close();
    outcomes := [s0, s1, s2, s3, s4, s5, s6, s7, s8, s9, s10];
  }

  /** #PRE_POST (test.cpp:52-63): post-increment hands back a copy with the old id,
      pre-increment hands back the box itself, and both add one to the id. */
  method Increments(c: Counters) returns (copyEqualsOld: bool, sameObject: bool, preEquals: bool, bothEqual: bool)
    requires c.Valid()
    modifies c
    ensures !copyEqualsOld && sameObject && preEquals && bothEqual
  {
    var r1 := Box.New(Dims.Dimensions(10, 20, 30), c);
    var b1 := r1.value;
    var b2 := Box.Copy(b1);
    var post := b1.PostIncrement();
    var copy1 := post.value;
    var pre := b2.PreIncrement();
    var copy2 := pre.value;
    copyEqualsOld := copy1.Equals(b1).value;
    preEquals := copy2.Equals(b2).value;
    sameObject := copy2 == b2;
    bothEqual := b1.Equals(b2).value;
  }

  /** #STREAM (test.cpp:37-50): a box written out and read back into an uninitialised
      box `equals` the original; closing the copy makes them differ. */
  method Streaming(c: Counters) returns (read: Status, equalAfterRead: bool, equalAfterClose: bool)
    requires c.Valid()
    modifies c
    ensures read == Success && equalAfterRead && !equalAfterClose
  {
    var made := Box.New(Dims.Dimensions(10, 20, 30), c);
    var box := made.value;
    var fromStream := new Box(c);
    var s0 := box.Open();
    var s1 := box.PutItem(Dims.Dimensions(5, 5, 5));
    var text := Encode(box.impl.value);
    RoundTrip(box.impl.value, c.idCounter, []);
    assert text + [] == text;
    var rest;
    read, rest := fromStream.Read(text);
    equalAfterRead := fromStream.Equals(box).value;
    var s2 := fromStream.Close();
    equalAfterClose := fromStream.Equals(box).value;
  }

  /** #COPY (test.cpp:81-95): copies are deep: a copy `equals` its original until the
      copy is closed, and closing it leaves the original open. */
  method DeepCopy(c: Counters) returns (equalBefore: bool, equalAfter: bool)
    requires c.Valid()
    modifies c
    ensures equalBefore && !equalAfter
  {
    var made := Box.New(Dims.Dimensions(10, 20, 15), c);
    var b1 := made.value;
    var s0 := b1.Open();
    var s1 := b1.PutItem(Dims.Dimensions(5, 6, 7));
    var copy := Box.Copy(b1);
    equalBefore := copy.Equals(b1).value;
    var s2 := copy.Close();
    equalAfter := copy.Equals(b1).value;
  }
}
