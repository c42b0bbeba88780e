# Box containers in Dafny

This project models the `Box` of a small C++ course repository and proves properties
of the model. A box is a container with a size and at most one rectangular item. Both
are `Dimensions` (length, width, height). A box is open or closed and empty or full.
Every transition (`open`, `close`, `putItem`, `takeItem`) either fails with a distinct
error or moves the box to a new state. Boxes get ids from a process-wide counter.
A box prints itself as `{id: N, is_open: B, [item: {...}, ]size: {...}}` and reads
itself back from that text.

The repository holds the same component in several revisions, and each is its own
module:

- `Containers` (containers/box.cpp) is the final revision. The box holds a pointer to
  its implementation, which is null until `init`. Two counters are kept: `idCounter`
  and `instanceCounter`. `equals` compares ids, `==` compares volumes, and `++` adds one
  to the id.
- `Week05` (week05/box.cpp) uses a pointer to an `InnerBox`. Ids come from
  `instanceCount`. Reading a box drops the id in the text and gives the box a fresh one.
  `equals` ignores ids.
- `Week04` (week04/box.cpp) is a plain value class with no uninitialised state. Reading
  adopts the id in the text, and `==` compares the full state.
- `Week03` (week03/box.cpp) is the first box. Its id is constant and `toString` writes
  a sentence.

The shared pieces are their own modules:

- `Dims` models `Dimensions` from week05/dimensions.cpp. The same code is inline in
  week05/box.cpp:70-151 and week04/box.cpp:66-114.
- `Tokens` models the tokenizer (`readMark`, `readNextSeparator`, `readValueName`),
  which is identical in every revision that has one (week03 has no stream operators).
- `BoxStates` holds the transitions as functions on a `State` value.
- `BoxCodec` is the box text format: the encoder and the field loop of `operator>>`.
- `IdCounters` is the static id counter.
- `Errors` holds the error kinds and the `Result`/`Status` types.

Each revision's class runs the `BoxStates` functions on its own fields. Each method's
postcondition ties the new state to those functions, and the functions carry the
properties: failure conditions in the source's order, frames, and the state invariant.

The input stream is a sequence of tokens:

- `Sym(c)` is one punctuation character;
- `Word(w)` is what `s >> string` reads;
- `Num(n)` is an integer;
- `Flag(b)` is a boolean under `boolalpha`.

`Tokens.Render` gives the exact text a token sequence stands for. That is how the
proofs about the `toString` text are stated.

Exceptions become `Result`/`Status` values carrying the error kind. The counters are
objects passed to the boxes, not globals. The uninitialised state of the pointer
revisions is `None`.

## Model

| member | source | states |
|---|---|---|
| Tokens.ReadMark | containers/box.cpp:260-266 | succeeds exactly when the next token is the expected mark, and consumes it; otherwise fails with an invalid symbol |
| Tokens.ReadNextSeparator | containers/box.cpp:268-275 | `,` yields true and `}` yields false, each consumed; anything else, or the end of input, is an invalid symbol |
| Tokens.ReadValueName | containers/box.cpp:277-286 | succeeds exactly when the first word ends in `:` (the name is the word without it) or is followed by a separate `:` (the name is the word, both consumed); otherwise fails with an invalid symbol |
| Tokens.UnmarkedNameFails | containers/box.cpp:277-286 | a word without its own `:` that is not followed by `:` fails with an invalid symbol |
| Tokens.NameWithMark | containers/box.cpp:277-286 | a word ending in `:` reads back as the name without the colon |
| Tokens.NameThenMark | containers/box.cpp:277-286 | a word followed by a separate `:` reads back as the word |
| Dims.Dimensions.SetLength | week05/dimensions.cpp:18-20 | stores the value unvalidated and leaves the other two fields alone |
| Dims.Dimensions.SetWidth | week05/dimensions.cpp:22-24 | stores the value unvalidated and leaves the other two fields alone |
| Dims.Dimensions.SetHeight | week05/dimensions.cpp:26-28 | stores the value unvalidated and leaves the other two fields alone |
| Dims.Equal | week05/dimensions.cpp:84-86 | true exactly when all three fields are equal |
| Dims.ComputeVolume | week05/dimensions.cpp:88-90 | the volume of dimensions that pass validation is positive |
| Dims.Validate | containers/box.cpp:288-292 | succeeds exactly when all three fields are positive; otherwise fails with invalid dimensions |
| Dims.ToString | week05/dimensions.cpp:42-57 | the text is exactly `{length: L, width: W, height: H}` |
| Dims.Read | week05/dimensions.cpp:64-82 | the loop reads into a temporary that starts at zero; on success the target gets the decoded value; on any failure the target keeps its old value |
| Dims.DecodeFieldList | week05/dimensions.cpp:68-79 | known `name: value` pairs are assigned in turn, in any order and any number of times |
| Dims.AssignLastWins | week05/dimensions.cpp:68-79 | when a field is named several times, the last pair decides it |
| Dims.AssignUntouched | week05/dimensions.cpp:64-82 | a field that no pair names keeps its value |
| Dims.DecodeAnyOrder | week05/dimensions.cpp:64-82 | decoding starts from `Dimensions()`, so fields left out of the text are 0 |
| Dims.UnknownFieldFails | week05/dimensions.cpp:76-78 | an unknown name fails with an unknown value, whatever known pairs precede it |
| Dims.DecodeEncode | week05/dimensions.cpp:42-82 | decoding the output of `toString` gives the original value back and stops right after it |
| BoxStates.Fresh | containers/box.cpp:17-24 | succeeds exactly for a valid size and yields a closed, empty box of that size; otherwise fails with invalid dimensions |
| BoxStates.Open | containers/box.cpp:78-84 | succeeds exactly on a closed box and only sets `isOpen`; otherwise fails with already opened |
| BoxStates.Close | containers/box.cpp:86-95 | fails with already closed, then with item too high; otherwise it only clears `isOpen` and keeps the invariant |
| BoxStates.PutItem | containers/box.cpp:107-121 | checks in order: invalid item, closed, full, then length or width too large; height is not checked; on success it stores the item and sets `hasItem` |
| BoxStates.TakeItem | containers/box.cpp:123-133 | succeeds exactly on an open, full box, returns the stored item and empties the box; otherwise fails with taking from closed, then taking from empty |
| BoxStates.Equals | week05/box.cpp:355-365 | true exactly when the states agree once the unseen item of an empty box is ignored |
| BoxStates.PutThenTake | containers/box.cpp:107-133 | taking out an item just put in returns that item and restores the state |
| BoxStates.OpenThenClose | containers/box.cpp:78-95 | a reachable closed box can be opened and closed again, which gives back the same state |
| BoxStates.CloseThenOpen | containers/box.cpp:78-95 | closing an open box and reopening it gives back the same state |
| BoxStates.ClosedItemVolume | containers/box.cpp:86-121 | the item of a closed box has positive volume no larger than the box's |
| IdCounters.IdCounter.Take | week05/box.cpp:166-174 | `instanceCount++`: yields the current value and advances the counter by one |
| BoxCodec.ToString | containers/box.cpp:135-156 | the text is exactly `{id: N, is_open: B, [item: D, ]size: D}`; the item part appears only when the box is full |
| BoxCodec.DecodeValue | containers/box.cpp:174-186 | an unknown name fails with an unknown value; `is_open` and `id` always read; a field changes only the locals its name sets (`item` also sets `putItem`); a valid size stays valid because `size` is validated as it is read |
| BoxCodec.Decode | containers/box.cpp:168-187 | the field loop consumes input; a valid starting size stays valid |
| BoxCodec.ReadFields | containers/box.cpp:168-187 | the do-while loop over `name: value` pairs computes exactly the field-loop function |
| BoxCodec.Furnish | containers/box.cpp:191-197 | keeps the invariant; the result is open only if the box was open and `is_open` was true; the stored item is the one read; it fails exactly when `putItem` fails (with its error) or when closing fails (after a successful put, only for an item taller than the box) |
| BoxCodec.PairValue | containers/box.cpp:174-186 | the value of an accepted pair is read into exactly the locals its name sets |
| BoxCodec.LeadingPairs | containers/box.cpp:172-187 | pairs followed by `,` are applied one per turn of the loop |
| BoxCodec.ClosingPair | containers/box.cpp:172-187 | an accepted pair followed by `}` ends the loop after applying it |
| BoxCodec.DecodePairs | containers/box.cpp:168-187 | known pairs may come in any order and any number of times: the loop applies them in turn to the starting locals |
| BoxCodec.SlotUntouched | containers/box.cpp:165-187 | a field that no pair names keeps its starting value |
| BoxCodec.LastPairWins | containers/box.cpp:172-187 | when a field is named several times, the last pair decides it |
| BoxCodec.ItemPairSetsPutItem | containers/box.cpp:179-181 | `putItem` ends up set exactly when an `item` pair was read (or it started set) |
| BoxCodec.UnknownNameFails | containers/box.cpp:184-186 | an unknown name fails with an unknown value, whatever known pairs precede it |
| BoxCodec.InvalidSizeFails | containers/box.cpp:176-178 | a `size` that is not valid fails with invalid dimensions as soon as it is read, whatever precedes it |
| BoxCodec.OnlyOpenFlag | containers/box.cpp:168-187 | a text with only the `is_open` field sets the open flag and leaves every other local as it started |
| BoxCodec.DecodeEncode | containers/box.cpp:135-187 | the field loop, run over what `toString` wrote, recovers the open flag, the item, the id and the size |
| BoxCodec.FurnishWritten | containers/box.cpp:189-197 | rebuilding a fresh, opened box from those fields gives back the original state |
| Containers.Counters.constructor | containers/box.cpp:14-15 | both counters start at 0 |
| Containers.Counters.GetCurrentInstances | containers/box.cpp:256-258 | the number of boxes whose implementation is alive |
| Containers.Box.constructor | containers/box.cpp:34-36 | a new box is uninitialised |
| Containers.Box.Init | containers/box.cpp:66-71 | fails on an initialised box; an invalid size leaves both counters unchanged; otherwise the box gets id `idCounter` and both counters go up by one |
| Containers.Box.New | containers/box.cpp:38-40 | construction exists only for a valid size, gets id = old `idCounter`, and adds one instance |
| Containers.Box.Copy | containers/box.cpp:26-28 | a copy keeps the id and adds one instance; copying an uninitialised box adds nothing |
| Containers.Box.Destroy | containers/box.cpp:30-32 | destruction removes one instance when the box was initialised |
| Containers.Box.Assign | containers/box.cpp:54-64 | self-assignment does nothing; an uninitialised source fails; otherwise the target gets the source's implementation, and the instance count reflects the copy made and the one deleted |
| Containers.Box.GetId | containers/box.cpp:73-76 | the id, or uninitialised usage |
| Containers.Box.Open | containers/box.cpp:78-84 | uninitialised usage first; otherwise exactly `BoxStates.Open` on the implementation; the box is unchanged on failure |
| Containers.Box.Close | containers/box.cpp:86-95 | uninitialised usage first; otherwise exactly `BoxStates.Close`; the box is unchanged on failure |
| Containers.Box.PutItem | containers/box.cpp:107-121 | uninitialised usage first; otherwise exactly `BoxStates.PutItem`; the box is unchanged on failure |
| Containers.Box.TakeItem | containers/box.cpp:123-133 | uninitialised usage first; otherwise returns the stored item and empties the box; unchanged on failure |
| Containers.Box.IsFull | containers/box.cpp:97-100 | whether an item is inside, or uninitialised usage |
| Containers.Box.IsClosed | containers/box.cpp:102-105 | whether the box is closed, or uninitialised usage |
| Containers.Box.ToString | containers/box.cpp:135-156 | the rendering of the encoded implementation, or uninitialised usage |
| Containers.Box.Read | containers/box.cpp:164-200 | on success the target holds the decoded box and is live; on failure it keeps its old implementation (strong exception safety) and the set of live boxes is unchanged; `idCounter` goes up exactly when the temporary was built |
| Containers.Box.Install | containers/box.cpp:188-199 | the target gets the rebuilt implementation and is live, or keeps its own on failure with the instances unchanged; the temporary is gone either way |
| Containers.Box.Prepare | containers/box.cpp:189-197 | the temporary takes an id when the size is valid; it is live and holds the rebuilt implementation, or is deleted again when furnishing fails |
| Containers.Box.Furnish | containers/box.cpp:191-197 | exactly `BoxCodec.Furnish` on the opened temporary, id kept |
| Containers.Rebuild | containers/box.cpp:189-197 | a rebuilt implementation satisfies the invariant, had a valid size, and carries the id read, else the fresh one |
| Containers.ReadLeavesOthersValid | containers/box.cpp:164-200 | reading into one box leaves every other box on the same counters valid and unchanged |
| Containers.Box.PostIncrement | containers/box.cpp:202-207 | returns a fresh copy with the old id, and the box's id goes up by exactly one |
| Containers.Box.PreIncrement | containers/box.cpp:209-213 | the id goes up by exactly one and the same object is returned |
| Containers.Box.Equals | containers/box.cpp:215-226 | size, closed, full, id, and the item when both are full |
| Containers.Box.VolumeEquals | containers/box.cpp:228-232 | the two volumes are equal |
| Containers.Box.NotEquals | containers/box.cpp:234-236 | the two volumes differ |
| Containers.Box.Less | containers/box.cpp:238-242 | the volume is smaller |
| Containers.Box.LessEq | containers/box.cpp:244-246 | the volume is not larger |
| Containers.Box.Greater | containers/box.cpp:248-250 | the volume is larger |
| Containers.Box.GreaterEq | containers/box.cpp:252-254 | the volume is not smaller |
| Containers.Decode | containers/box.cpp:164-200 | a decoded box satisfies the invariant and its temporary took an id; the stream advances |
| Containers.RoundTrip | containers/box.cpp:135-200 | reading back what `toString` wrote gives a box that `equals` the original, id included, and leaves the stream just after the text |
| Containers.MissingSizeFails | containers/box.cpp:164-200 | a text without `size` leaves the size all zeros, so building the temporary fails with invalid dimensions and takes no id |
| Containers.Trichotomy | containers/box.cpp:228-254 | exactly one of `<`, `==`, `>` holds, and `!=`, `<=`, `>=` agree with the operators they are built from |
| Containers.EqualsIsEquivalence | containers/box.cpp:215-232 | `equals` is reflexive, symmetric and transitive, and implies `==` |
| ContainersScenarios.Numbering | test.cpp:9-16 | boxes built in a row get consecutive ids |
| ContainersScenarios.NoLeak | test.cpp:97-104 | a failed construction creates no instance, and destroying every box of a scope brings the instance count back |
| ContainersScenarios.Throwing | test.cpp:65-79 | an uninitialised box cannot open; `init` rejects a zero dimension; reading garbage fails and leaves the copy `equals` its original |
| ContainersScenarios.Lifecycle | test.cpp:107-132 | the whole sequence of outcomes the general test expects |
| ContainersScenarios.Increments | test.cpp:52-63 | post-increment copies the old id; pre-increment returns the same box; both end equal |
| ContainersScenarios.Streaming | test.cpp:37-50 | a box written and read back `equals` the original until the copy is closed |
| ContainersScenarios.DeepCopy | test.cpp:81-95 | closing a copy does not affect the original |
| Week05.Box.constructor | week05/box.cpp:179-181 | a new box is uninitialised |
| Week05.Box.Init | week05/box.cpp:209-214 | fails on an initialised box; an invalid size takes no id; otherwise the box gets id `instanceCount` and the counter goes up; the size defaults to `MEDIUM` |
| Week05.Box.New | week05/box.cpp:183-185 | construction exists only for a valid size and takes the next id |
| Week05.Box.Copy | week05/box.cpp:187-193 | the copy has the same inner state, id included, and takes no id |
| Week05.Box.Assign | week05/box.cpp:200-207 | an uninitialised source fails; otherwise the target gets the source's inner box |
| Week05.Box.Open | week05/box.cpp:216-222 | uninitialised usage first, then exactly `BoxStates.Open` |
| Week05.Box.Close | week05/box.cpp:224-233 | uninitialised usage first, then exactly `BoxStates.Close` |
| Week05.Box.PutItem | week05/box.cpp:245-259 | uninitialised usage first, then exactly `BoxStates.PutItem` |
| Week05.Box.TakeItem | week05/box.cpp:261-271 | uninitialised usage first, then returns the stored item and empties the box |
| Week05.Box.IsFull | week05/box.cpp:235-238 | whether an item is inside, or uninitialised usage |
| Week05.Box.IsClosed | week05/box.cpp:240-243 | whether the box is closed, or uninitialised usage |
| Week05.Box.ToString | week05/box.cpp:273-294 | the rendering of the encoded inner box, or uninitialised usage |
| Week05.Box.Read | week05/box.cpp:302-339 | an uninitialised target fails before reading; on success the target holds the decoded state with the temporary's fresh id; on failure the target is unchanged |
| Week05.Box.PostIncrement | week05/box.cpp:341-346 | returns a copy with the old id; the box takes the counter's current value and the counter goes up by one |
| Week05.Box.PreIncrement | week05/box.cpp:348-353 | the box takes the counter's current value, the counter goes up by one, and the box is returned |
| Week05.Box.Equals | week05/box.cpp:355-365 | size, closed, full, and the item when both are full; the id is not compared |
| Week05.Box.VolumeEquals | week05/box.cpp:367-371 | the two volumes are equal |
| Week05.Box.NotEquals | week05/box.cpp:373-375 | the two volumes differ |
| Week05.Box.Less | week05/box.cpp:377-381 | the volume is smaller |
| Week05.Box.LessEq | week05/box.cpp:383-385 | the volume is not larger |
| Week05.Box.Greater | week05/box.cpp:387-389 | the volume is larger |
| Week05.Box.GreaterEq | week05/box.cpp:391-393 | the volume is not smaller |
| Week05.Decode | week05/box.cpp:302-339 | a decoded box satisfies the invariant and carries the fresh id |
| Week05.RoundTrip | week05/box.cpp:273-339 | reading back what `toString` wrote gives a box that `equals` the original but has the fresh id |
| Week05.Trichotomy | week05/box.cpp:367-393 | exactly one of `<`, `==`, `>` holds, and the derived operators agree with their definitions |
| Week05.EqualsIsEquivalence | week05/box.cpp:355-371 | `equals` is an equivalence that ignores ids and implies `==` |
| Week04.Box.Build | week04/box.cpp:116-124 | a box takes id `instanceCount`, starts closed and empty, and the counter goes up |
| Week04.Box.New | week04/box.cpp:116-124 | the size is validated before the counter is touched; the default size is `MEDIUM` |
| Week04.Box.Copy | week04/box.cpp:243-247 | the copy has every field of the original, id included |
| Week04.Box.Assign | week04/box.cpp:239 | every field of the source, id included |
| Week04.Box.Open | week04/box.cpp:129-134 | exactly `BoxStates.Open` on the fields; the id is unchanged |
| Week04.Box.Close | week04/box.cpp:136-144 | exactly `BoxStates.Close` on the fields |
| Week04.Box.PutItem | week04/box.cpp:154-167 | exactly `BoxStates.PutItem` on the fields |
| Week04.Box.TakeItem | week04/box.cpp:169-178 | returns the stored item and empties the box, or fails as `BoxStates.TakeItem` does |
| Week04.Box.IsFull | week04/box.cpp:146-148 | whether an item is inside |
| Week04.Box.IsClosed | week04/box.cpp:150-152 | whether the box is closed |
| Week04.Box.ToString | week04/box.cpp:180-200 | the rendering of the encoded box |
| Week04.Box.Read | week04/box.cpp:207-241 | the temporary always takes an id; on success the target holds the decoded id and state; on failure the target is unchanged |
| Week04.Box.PostIncrement | week04/box.cpp:243-247 | returns a copy with the old id; the box takes the counter's current value and the counter goes up by one |
| Week04.Box.PreIncrement | week04/box.cpp:249-253 | the box takes the counter's current value, the counter goes up by one, and the box is returned |
| Week04.Box.Equals | week04/box.cpp:255-264 | full structural equality: size, closed, full, and the item when both are full |
| Week04.Box.NotEquals | week04/box.cpp:266-268 | the negation of structural equality |
| Week04.Box.Less | week04/box.cpp:270-272 | the volume is smaller |
| Week04.Box.LessEq | week04/box.cpp:274-276 | the volume is not larger |
| Week04.Box.Greater | week04/box.cpp:278-280 | the volume is larger |
| Week04.Box.GreaterEq | week04/box.cpp:282-284 | the volume is not smaller |
| Week04.Box.VolumeEquals | week04/box.h:64-65 | equal volume, which holds exactly when both `<=` and `>=` hold |
| Week04.Decode | week04/box.cpp:207-241 | a decoded box satisfies the invariant; the stream advances |
| Week04.MissingFieldsKeepTemporary | week04/box.cpp:207-241 | a text with only `is_open` gives an empty box of size `MEDIUM` carrying the temporary's fresh id |
| Week04.RoundTrip | week04/box.cpp:180-241 | reading back what `toString` wrote gives back the id and the state |
| Week04.Trichotomy | week04/box.cpp:270-284 | exactly one of `<`, equal volume, `>` holds, and `<=` and `>=` are their unions |
| Week04.EqualsIsNotVolumeEquality | week04/box.cpp:255-284 | boxes of sizes 1x2x3 and 3x2x1 are each `<=` and `>=` the other, yet not `==` |
| Week04.EqualsIsEquivalence | week04/box.cpp:255-264 | `==` is an equivalence that ignores ids and implies equal volume |
| Week03.DimsText | week03/box.cpp:33-37 | the text is `length: L, width: W, height: H`, the later `Dimensions::toString` without its braces, and ends in the height's digits |
| Week03.ItemText | week03/box.cpp:109-113 | `with item - ` and the item's dimensions, or `without any item`; it ends with `without any item` exactly when the box is empty |
| Week03.Box.Build | week03/box.cpp:43-49 | a box takes id `instanceCount`, starts closed and empty, and the counter goes up |
| Week03.Box.New | week03/box.cpp:43-49 | the size is validated before the counter is touched; the default size is `MEDIUM` |
| Week03.Box.Open | week03/box.cpp:54-59 | exactly `BoxStates.Open` on the fields |
| Week03.Box.Close | week03/box.cpp:61-69 | exactly `BoxStates.Close` on the fields |
| Week03.Box.PutItem | week03/box.cpp:79-92 | exactly `BoxStates.PutItem` on the fields |
| Week03.Box.TakeItem | week03/box.cpp:94-103 | returns the stored item and empties the box, or fails as `BoxStates.TakeItem` does |
| Week03.Box.IsFull | week03/box.cpp:71-73 | whether an item is inside |
| Week03.Box.IsClosed | week03/box.cpp:75-77 | whether the box is closed |
| Week03.Box.ToString | week03/box.cpp:105-115 | the sentence is the state word, ` Box no. ` and the id, `, size - ` and the size, `, ` and the item part; it starts with `Opened` exactly when the box is open, and ends with `without any item` exactly when the box is empty |
| Week03.BuildTwo | week03/box.cpp:41-49 | two boxes built in a row get consecutive ids |

## Left out

- Stream lexing: whitespace skipping, `>>` extraction of integers and booleans, and the `fmtflags`/`boolalpha` save and restore. The input is a token sequence. A failed extraction yields 0 or false and leaves an exhausted stream, because the source never checks the stream state.
- A character read at the end of the input: the source compares an uninitialised `char`, which is undefined behaviour. The model fails with an invalid symbol.
- Containers.Decode: when the text has no `id` field, the source copies an uninitialised `int` (containers/box.cpp:166, 190), which is undefined behaviour. The model keeps the fresh id of the temporary.
- Containers.Box.Equals: with an uninitialised argument the source dereferences a null pointer (containers/box.cpp:218), which is undefined behaviour. The model fails with uninitialised usage. Week05.Box.Equals does the same for week05/box.cpp:358.
- Error message texts, including `__FILE__`/`__LINE__` in `checkInstance`: only the error kind is modelled.
- Integer overflow: `int` fields and the volume product are unbounded integers here. The source's 32-bit overflow (undefined behaviour) is not modelled.
- Heap mechanics: `new`/`delete` and the pointers themselves are not modelled. The containers destructor is `Containers.Box.Destroy`, which only keeps the instance count. The destructors of week05, week04 and week03 have no observable effect and are not modelled.
- Containers.Box.Read, Week05.Box.Read and Week04.Box.Read: the stream position after a failure is not specified.
- Containers.Box.PostIncrement and Containers.Box.PreIncrement: the header comment says `++` sets the "smallest unused" id, but the code adds one to the id (containers/box.cpp:205, 211). The model follows the code.
- Week05.Box.PostIncrement, Week05.Box.PreIncrement, Week04.Box.PostIncrement and Week04.Box.PreIncrement: the headers (week05/box.h:57-61, week04/box.h:55-59) say `++` sets the "smallest unused" id; the code takes the counter's current value. The model follows the code and does not promise the id is unused. In week04 it need not be: `>>` copies whatever id the text holds (week04/box.cpp:227), so the counter can later hand out an id a box already has.
- Week04: the revision does not compile as written (week04/box.cpp:140 and 315 touch private `Dimensions` fields, and `Dimensions`' constructors and accessors are declared but not defined). The logic is modelled as if it compiled. `equals`, declared in week04/box.h:62, has no definition and is not modelled.
- Week04.Box.Read: the loop writes `size` and `id` straight into the temporary. The model gathers them in locals and stores them after the loop. The two agree because the temporary is discarded on failure.
- The demo programs week03/main.cpp and week04/main.cpp, and the doctest harness. The test cases of test.cpp appear only as the client methods of `ContainersScenarios`.
- week06/test.cpp is not part of this model; its cases are a subset of test.cpp.

## Findings

| source | as written | input that shows it | evidently intended | confidence | as-written member | corrected member |
|---|---|---|---|---|---|---|
| week04/box.cpp:255-264 against week04/box.h:64-65 | `operator==` compares the whole state (size, open, full, item), while the header says the comparison operators compare only volume; `equals`, which the header describes as full equality, is never defined | two closed, empty boxes of sizes 1x2x3 and 3x2x1: each is `<=` and `>=` the other, yet `==` is false | `==` compares volume, consistent with `<`, `<=`, `>`, `>=`, as the next revision (week05/box.cpp:367-371) does | medium, not executed | Week04.EqualsIsNotVolumeEquality | Week04.Box.VolumeEquals |
