/** The Box text format shared by containers/box.cpp, week05/box.cpp and week04/box.cpp:
    `toString` writes `{id: N, is_open: B, [item: D, ]size: D}` and `operator>>` reads
    `name: value` pairs in any order, then rebuilds the box by opening a fresh one,
    putting the item in and closing it again unless `is_open` was true. */
module BoxCodec {
  import opened Errors
  import opened Tokens
  import opened Dims
  import opened BoxStates

  /** The locals of `operator>>` that the field loop fills: `leaveOpen`, `putItem`,
      `ID` (absent until an `id` field is read), `item` and `size`. */
  datatype Fields = Fields(leaveOpen: bool, putItem: bool, id: Option<int>, item: Dimensions, size: Dimensions)

  /** The locals before the loop; the revisions differ in where `size` starts. */
  function Initial(size: Dimensions): Fields {
    Fields(false, false, None, Zero, size)
  }

  /** The tokens `Box::toString` writes for a box with id `id` in state `s`. */
  function Encode(id: int, s: State): seq<Token> {
    [Sym(BeginMark), Word("id:"), Num(id), Sym(ValueSeparator),
     Word("is_open:"), Flag(s.isOpen), Sym(ValueSeparator)]
    + (if s.hasItem then [Word("item:")] + Dims.Encode(s.item) + [Sym(ValueSeparator)] else [])
    + [Word("size:")] + Dims.Encode(s.size) + [Sym(EndMark)]
  }

  /** `Box::toString`. */
  function ToString(id: int, s: State): (text: string)
    ensures text == "{id: " + Decimal(id) + ", is_open: " + (if s.isOpen then "true" else "false") + ", "
                    + (if s.hasItem then "item: " + Dims.ToString(s.item) + ", " else "")
                    + "size: " + Dims.ToString(s.size) + "}"
  {
    EncodeText(id, s);
    Render(Encode(id, s))
  }

  lemma EncodeText(id: int, s: State)
    ensures Render(Encode(id, s))
            == "{id: " + Decimal(id) + ", is_open: " + (if s.isOpen then "true" else "false") + ", "
               + (if s.hasItem then "item: " + Dims.ToString(s.item) + ", " else "")
               + "size: " + Dims.ToString(s.size) + "}"
  {
    var head := [Sym(BeginMark), Word("id:"), Num(id), Sym(ValueSeparator),
                 Word("is_open:"), Flag(s.isOpen), Sym(ValueSeparator)];
    var item := if s.hasItem then [Word("item:")] + Dims.Encode(s.item) + [Sym(ValueSeparator)] else [];
    var size := [Word("size:")] + Dims.Encode(s.size) + [Sym(EndMark)];
    assert Encode(id, s) == head + item + size;
    RenderAppend(head + item, size);
    RenderAppend(head, item);
    HeadText(id, s.isOpen);
    var itemText := Render(item);
    if s.hasItem {
      WrappedText("item:", s.item, Sym(ValueSeparator));
      ItemLayout(Dims.ToString(s.item));
    } else {
      assert itemText == "";
    }
    WrappedText("size:", s.size, Sym(EndMark));
    BoxLayout(Decimal(id), if s.isOpen then "true" else "false", itemText, Dims.ToString(s.size));
  }

  lemma HeadText(id: int, isOpen: bool)
    ensures Render([Sym(BeginMark), Word("id:"), Num(id), Sym(ValueSeparator),
                    Word("is_open:"), Flag(isOpen), Sym(ValueSeparator)])
            == Piece(Sym(BeginMark)) + Piece(Word("id:")) + Decimal(id)
               + (Piece(Sym(ValueSeparator)) + Piece(Word("is_open:")) + (if isOpen then "true" else "false")
               + Piece(Sym(ValueSeparator)))
  {
    var last := [Sym(ValueSeparator)];
    var second := [Sym(ValueSeparator), Word("is_open:"), Flag(isOpen)] + last;
    assert [Sym(BeginMark), Word("id:"), Num(id), Sym(ValueSeparator),
            Word("is_open:"), Flag(isOpen), Sym(ValueSeparator)] == [Sym(BeginMark), Word("id:"), Num(id)] + second;
    RenderCons(Sym(ValueSeparator), []);
    RenderTriple(Sym(ValueSeparator), Word("is_open:"), Flag(isOpen), last);
    RenderTriple(Sym(BeginMark), Word("id:"), Num(id), second);
  }

  lemma ItemLayout(text: string)
    ensures "item:" + " " + text + Piece(Sym(ValueSeparator)) == "item: " + text + ", "
  {
  }

  lemma BoxLayout(idText: string, flagText: string, itemText: string, sizeText: string)
    ensures Piece(Sym(BeginMark)) + Piece(Word("id:")) + idText
            + (Piece(Sym(ValueSeparator)) + Piece(Word("is_open:")) + flagText + Piece(Sym(ValueSeparator)))
            + itemText + ("size:" + " " + sizeText + Piece(Sym(EndMark)))
            == "{id: " + idText + ", is_open: " + flagText + ", " + itemText + "size: " + sizeText + "}"
  {
    assert Piece(Sym(BeginMark)) + Piece(Word("id:")) == "{id: ";
    assert Piece(Sym(ValueSeparator)) + Piece(Word("is_open:")) == ", is_open: ";
    assert Piece(Sym(ValueSeparator)) == ", ";
    assert Piece(Sym(EndMark)) == "}";
    assert "size:" + " " == "size: ";
    Regroup("{id: ", idText, ", is_open: ", flagText, ", ", itemText, "size: ", sizeText, "}");
  }

  lemma Regroup(a: string, b: string, c: string, d: string, e: string, f: string, g: string, h: string, i: string)
    ensures a + b + (c + d + e) + f + (g + h + i) == a + b + c + d + e + f + g + h + i
  {
  }

  /** A field name, a Dimensions value and the mark that follows it. */
  lemma WrappedText(name: string, d: Dimensions, after: Token)
    ensures Render([Word(name)] + Dims.Encode(d) + [after]) == name + " " + Dims.ToString(d) + Piece(after)
  {
    assert [Word(name)] + Dims.Encode(d) + [after] == [Word(name)] + (Dims.Encode(d) + [after]);
    RenderCons(Word(name), Dims.Encode(d) + [after]);
    RenderAppend(Dims.Encode(d), [after]);
    RenderCons(after, []);
  }

  /** The names the field loop knows. */
  predicate IsBoxField(name: string) {
    name in {"is_open", "size", "item", "id"}
  }

  /** `g` differs from `f` at most in the locals the field `name` sets. */
  predicate SetsOnly(f: Fields, g: Fields, name: string) {
    && (name != "is_open" ==> g.leaveOpen == f.leaveOpen)
    && (name != "size" ==> g.size == f.size)
    && (name != "item" ==> g.item == f.item && g.putItem == f.putItem)
    && (name != "id" ==> g.id == f.id)
  }

  /** The value of one field, read according to its name. */
  function DecodeValue(f: Fields, name: string, ts: seq<Token>): (r: Result<(Fields, seq<Token>)>)
    ensures r.Ok? ==> |r.value.1| < |ts| || r.value.1 == []
    ensures r.Ok? && IsValid(f.size) ==> IsValid(r.value.0.size)
    ensures !IsBoxField(name) ==> r == Fail(UnknownValue)
    ensures name == "is_open" || name == "id" ==> r.Ok?
    ensures r.Ok? ==> SetsOnly(f, r.value.0, name)
    ensures r.Ok? && name == "item" ==> r.value.0.putItem
    ensures r.Ok? && name == "id" ==> r.value.0.id.Some?
  {
    if name == "is_open" then
      var (b, rest) := ReadBool(ts);
      Ok((f.(leaveOpen := b), rest))
    else if name == "size" then
      match Dims.Decode(ts)
      case Fail(e) => Fail(e)
      case Ok((size, rest)) =>
        if Validate(size).Failure? then Fail(InvalidDimensions) else Ok((f.(size := size), rest))
    else if name == "item" then
      match Dims.Decode(ts)
      case Fail(e) => Fail(e)
      case Ok((item, rest)) => Ok((f.(item := item, putItem := true), rest))
    else if name == "id" then
      var (n, rest) := ReadInt(ts);
      Ok((f.(id := Some(n)), rest))
    else Fail(UnknownValue)
  }

  /** The do-while loop of `operator>>`: one `name: value` pair per turn, until `}`. */
  function DecodeFields(f: Fields, ts: seq<Token>): (r: Result<(Fields, seq<Token>)>)
    ensures r.Ok? ==> |r.value.1| < |ts|
    ensures r.Ok? && IsValid(f.size) ==> IsValid(r.value.0.size)
    decreases |ts|
  {
    match ReadValueName(ts)
    case Fail(e) => Fail(e)
    case Ok((name, ts1)) =>
      match DecodeValue(f, name, ts1)
      case Fail(e) => Fail(e)
      case Ok((f', ts2)) =>
        match ReadNextSeparator(ts2)
        case Fail(e) => Fail(e)
        case Ok((more, ts3)) => if more then DecodeFields(f', ts3) else Ok((f', ts3))
  }

  /** The opening mark and the field loop, from the locals `start`. */
  function Decode(start: Fields, ts: seq<Token>): (r: Result<(Fields, seq<Token>)>)
    ensures r.Ok? ==> |r.value.1| < |ts|
    ensures r.Ok? && IsValid(start.size) ==> IsValid(r.value.0.size)
  {
    match ReadMark(ts, BeginMark)
    case Fail(e) => Fail(e)
    case Ok(ts1) => DecodeFields(start, ts1)
  }

  /** The opening mark and the field loop of `operator>>`, run on the stream. */
  method ReadFields(start: Fields, ts: seq<Token>) returns (r: Result<(Fields, seq<Token>)>)
    ensures r == Decode(start, ts)
  {
    var afterMark := ReadMark(ts, BeginMark);
    if afterMark.Fail? {
      return Fail(afterMark.error);
    }
    var f := start;
    var cur := afterMark.value;
    var more := true;
    while more
      invariant more ==> DecodeFields(f, cur) == Decode(start, ts)
      invariant !more ==> Decode(start, ts) == Ok((f, cur))
      decreases more, |cur|
    {
      var named := ReadValueName(cur);
      if named.Fail? {
        return Fail(named.error);
      }
      var (name, afterName) := named.value;
      if name == "is_open" {
        var (b, afterValue) := ReadBool(afterName);
        f, cur := f.(leaveOpen := b), afterValue;
      } else if name == "size" {
        var status, size, afterValue := Dims.Read(afterName, f.size);
        if status.Failure? {
          return Fail(status.error);
        }
        var valid := Validate(size);
        if valid.Failure? {
          return Fail(valid.error);
        }
        f, cur := f.(size := size), afterValue;
      } else if name == "item" {
        var status, item, afterValue := Dims.Read(afterName, f.item);
        if status.Failure? {
          return Fail(status.error);
        }
        f, cur := f.(item := item, putItem := true), afterValue;
      } else if name == "id" {
        var (n, afterValue) := ReadInt(afterName);
        f, cur := f.(id := Some(n)), afterValue;
      } else {
        return Fail(UnknownValue);
      }
      var separator := ReadNextSeparator(cur);
      if separator.Fail? {
        return Fail(separator.error);
      }
      more, cur := separator.value.0, separator.value.1;
    }
    return Ok((f, cur));
  }

  /** After the loop, on the opened temporary: the item goes in if one was read, then
      the box is closed unless `is_open` was true. */
  function Furnish(s: State, f: Fields): (r: Result<State>)
    ensures r.Ok? && Inv(s) ==> Inv(r.value)
    ensures r.Ok? ==> r.value.isOpen == (s.isOpen && f.leaveOpen) && r.value.size == s.size
    ensures r.Ok? ==> r.value.hasItem == (s.hasItem || f.putItem)
    ensures r.Ok? ==> r.value.item == (if f.putItem then f.item else s.item)
    ensures f.putItem && PutItem(s, f.item).Fail? ==> r == Fail(PutItem(s, f.item).error)
    ensures f.putItem && PutItem(s, f.item).Ok? && !f.leaveOpen ==>
              (r.Ok? <==> f.item.height <= s.size.height) && (r.Fail? ==> r.error == ItemTooHighToClose)
    ensures !f.putItem && !f.leaveOpen ==> (r.Ok? <==> Close(s).Ok?) && (r.Fail? ==> r.error == Close(s).error)
    ensures f.leaveOpen ==> (r.Ok? <==> !f.putItem || PutItem(s, f.item).Ok?)
  {
    var s1 :- if f.putItem then PutItem(s, f.item) else Ok(s);
    if f.leaveOpen then Ok(s1) else Close(s1)
  }

  /** The locals the loop ends with when it reads what `toString` wrote. */
  function Written(id: int, s: State): Fields {
    Fields(s.isOpen, s.hasItem, Some(id), Canon(s).item, s.size)
  }

  /** A field followed by `,` hands the rest to the next turn of the loop. */
  lemma NextField(f: Fields, name: string, ts1: seq<Token>, f': Fields, tail: seq<Token>)
    requires DecodeValue(f, name, ts1) == Ok((f', [Sym(ValueSeparator)] + tail))
    ensures DecodeFields(f, [Word(name + [ValueMark])] + ts1) == DecodeFields(f', tail)
  {
    NameWithMark(name, ts1);
    assert ([Sym(ValueSeparator)] + tail)[1..] == tail;
  }

  /** A field followed by `}` ends the loop. */
  lemma LastField(f: Fields, name: string, ts1: seq<Token>, f': Fields, tail: seq<Token>)
    requires DecodeValue(f, name, ts1) == Ok((f', [Sym(EndMark)] + tail))
    ensures DecodeFields(f, [Word(name + [ValueMark])] + ts1) == Ok((f', tail))
  {
    NameWithMark(name, ts1);
    assert ([Sym(EndMark)] + tail)[1..] == tail;
  }

  lemma IdStep(f: Fields, id: int, tail: seq<Token>)
    ensures DecodeFields(f, [Word("id:"), Num(id), Sym(ValueSeparator)] + tail)
            == DecodeFields(f.(id := Some(id)), tail)
  {
    assert "id" + [ValueMark] == "id:";
    assert [Word("id:"), Num(id), Sym(ValueSeparator)] + tail == [Word("id:")] + ([Num(id)] + ([Sym(ValueSeparator)] + tail));
    assert ([Num(id)] + ([Sym(ValueSeparator)] + tail))[1..] == [Sym(ValueSeparator)] + tail;
    NextField(f, "id", [Num(id)] + ([Sym(ValueSeparator)] + tail), f.(id := Some(id)), tail);
  }

  lemma OpenStep(f: Fields, isOpen: bool, tail: seq<Token>)
    ensures DecodeFields(f, [Word("is_open:"), Flag(isOpen), Sym(ValueSeparator)] + tail)
            == DecodeFields(f.(leaveOpen := isOpen), tail)
  {
    assert "is_open" + [ValueMark] == "is_open:";
    assert [Word("is_open:"), Flag(isOpen), Sym(ValueSeparator)] + tail
           == [Word("is_open:")] + ([Flag(isOpen)] + ([Sym(ValueSeparator)] + tail));
    assert ([Flag(isOpen)] + ([Sym(ValueSeparator)] + tail))[1..] == [Sym(ValueSeparator)] + tail;
    NextField(f, "is_open", [Flag(isOpen)] + ([Sym(ValueSeparator)] + tail), f.(leaveOpen := isOpen), tail);
  }

  lemma ItemStep(f: Fields, item: Dimensions, tail: seq<Token>)
    ensures DecodeFields(f, [Word("item:")] + Dims.Encode(item) + [Sym(ValueSeparator)] + tail)
            == DecodeFields(f.(item := item, putItem := true), tail)
  {
    assert "item" + [ValueMark] == "item:";
    assert [Word("item:")] + Dims.Encode(item) + [Sym(ValueSeparator)] + tail
           == [Word("item:")] + (Dims.Encode(item) + ([Sym(ValueSeparator)] + tail));
    Dims.DecodeEncode(item, [Sym(ValueSeparator)] + tail);
    NextField(f, "item", Dims.Encode(item) + ([Sym(ValueSeparator)] + tail), f.(item := item, putItem := true), tail);
  }

  lemma SizeStep(f: Fields, size: Dimensions, rest: seq<Token>)
    requires IsValid(size)
    ensures DecodeFields(f, [Word("size:")] + Dims.Encode(size) + [Sym(EndMark)] + rest)
            == Ok((f.(size := size), rest))
  {
    assert "size" + [ValueMark] == "size:";
    assert [Word("size:")] + Dims.Encode(size) + [Sym(EndMark)] + rest
           == [Word("size:")] + (Dims.Encode(size) + ([Sym(EndMark)] + rest));
    Dims.DecodeEncode(size, [Sym(EndMark)] + rest);
    LastField(f, "size", Dims.Encode(size) + ([Sym(EndMark)] + rest), f.(size := size), rest);
  }

  /** A text holding only the `is_open` field sets `leaveOpen` and nothing else: every
      other local keeps its starting value. */
  lemma OnlyOpenFlag(start: Fields, isOpen: bool, rest: seq<Token>)
    ensures Decode(start, [Sym(BeginMark), Word("is_open:"), Flag(isOpen), Sym(EndMark)] + rest)
            == Ok((start.(leaveOpen := isOpen), rest))
  {
    var ts1 := [Flag(isOpen)] + ([Sym(EndMark)] + rest);
    assert "is_open" + [ValueMark] == "is_open:";
    assert [Sym(BeginMark), Word("is_open:"), Flag(isOpen), Sym(EndMark)] + rest
           == [Sym(BeginMark)] + ([Word("is_open:")] + ts1);
    assert ts1[1..] == [Sym(EndMark)] + rest;
    LastField(start, "is_open", ts1, start.(leaveOpen := isOpen), rest);
  }

  /** One `name: value` pair of a known field, as `toString` writes it. */
  datatype Pair = IsOpen(isOpen: bool) | Id(id: int) | Item(item: Dimensions) | Size(size: Dimensions)

  function PairName(p: Pair): string {
    match p
    case IsOpen(_) => "is_open"
    case Id(_) => "id"
    case Item(_) => "item"
    case Size(_) => "size"
  }

  function ValueTokens(p: Pair): seq<Token> {
    match p
    case IsOpen(b) => [Flag(b)]
    case Id(n) => [Num(n)]
    case Item(d) => Dims.Encode(d)
    case Size(d) => Dims.Encode(d)
  }

  function PairTokens(p: Pair): seq<Token> {
    [Word(PairName(p) + [ValueMark])] + ValueTokens(p)
  }

  /** A pair the loop accepts: a `size` must be valid. */
  predicate Accepted(p: Pair) {
    p.Size? ==> IsValid(p.size)
  }

  /** What one pair does to the locals. */
  function Apply(f: Fields, p: Pair): Fields {
    match p
    case IsOpen(b) => f.(leaveOpen := b)
    case Id(n) => f.(id := Some(n))
    case Item(d) => f.(item := d, putItem := true)
    case Size(d) => f.(size := d)
  }

  /** The pairs applied in order. */
  function ApplyAll(f: Fields, ps: seq<Pair>): Fields
    decreases |ps|
  {
    if ps == [] then f else ApplyAll(Apply(f, ps[0]), ps[1..])
  }

  /** Pairs, each followed by `,`. */
  function Leading(ps: seq<Pair>): seq<Token>
    decreases |ps|
  {
    if ps == [] then [] else PairTokens(ps[0]) + [Sym(ValueSeparator)] + Leading(ps[1..])
  }

  /** Pairs separated by `,` and closed by `}`. */
  function PairList(ps: seq<Pair>): seq<Token>
    requires |ps| > 0
  {
    Leading(ps[..|ps| - 1]) + PairTokens(ps[|ps| - 1]) + [Sym(EndMark)]
  }

  /** The value of an accepted pair is read into the locals it names. */
  lemma PairValue(f: Fields, p: Pair, tail: seq<Token>)
    requires Accepted(p)
    ensures DecodeValue(f, PairName(p), ValueTokens(p) + tail) == Ok((Apply(f, p), tail))
  {
    match p
    case IsOpen(b) => assert ([Flag(b)] + tail)[1..] == tail;
    case Id(n) => assert ([Num(n)] + tail)[1..] == tail;
    case Item(d) => Dims.DecodeEncode(d, tail);
    case Size(d) => Dims.DecodeEncode(d, tail);
  }

  /** Pairs followed by `,` are applied one per turn of the loop. */
  lemma {:induction false} LeadingPairs(f: Fields, ps: seq<Pair>, tail: seq<Token>)
    requires forall i :: 0 <= i < |ps| ==> Accepted(ps[i])
    ensures DecodeFields(f, Leading(ps) + tail) == DecodeFields(ApplyAll(f, ps), tail)
    decreases |ps|
  {
    if ps != [] {
      var p := ps[0];
      var after := Leading(ps[1..]) + tail;
      var ts1 := ValueTokens(p) + ([Sym(ValueSeparator)] + after);
      assert Leading(ps) + tail == [Word(PairName(p) + [ValueMark])] + ts1;
      PairValue(f, p, [Sym(ValueSeparator)] + after);
      NextField(f, PairName(p), ts1, Apply(f, p), after);
      LeadingPairs(Apply(f, p), ps[1..], tail);
      assert ApplyAll(f, ps) == ApplyAll(Apply(f, p), ps[1..]);
    } else {
      assert Leading(ps) + tail == tail;
    }
  }

  lemma {:induction false} ApplyLast(f: Fields, ps: seq<Pair>, p: Pair)
    ensures ApplyAll(f, ps + [p]) == Apply(ApplyAll(f, ps), p)
    decreases |ps|
  {
    if ps == [] {
      assert ([] + [p])[1..] == [];
    } else {
      assert (ps + [p])[1..] == ps[1..] + [p];
      ApplyLast(Apply(f, ps[0]), ps[1..], p);
    }
  }

  /** After the opening mark the loop takes over. */
  lemma AfterMark(start: Fields, body: seq<Token>)
    ensures Decode(start, [Sym(BeginMark)] + body) == DecodeFields(start, body)
  {
    assert ([Sym(BeginMark)] + body)[1..] == body;
  }

  /** An accepted pair followed by `}` ends the loop. */
  lemma ClosingPair(f: Fields, p: Pair, rest: seq<Token>)
    requires Accepted(p)
    ensures DecodeFields(f, PairTokens(p) + [Sym(EndMark)] + rest) == Ok((Apply(f, p), rest))
  {
    var closing := ValueTokens(p) + ([Sym(EndMark)] + rest);
    assert PairTokens(p) + [Sym(EndMark)] + rest == [Word(PairName(p) + [ValueMark])] + closing;
    PairValue(f, p, [Sym(EndMark)] + rest);
    LastField(f, PairName(p), closing, Apply(f, p), rest);
  }

  /** The known pairs may come in any order and any number of times: the loop applies
      them in turn, from the locals it starts with. */
  lemma DecodePairs(start: Fields, ps: seq<Pair>, rest: seq<Token>)
    requires |ps| > 0
    requires forall i :: 0 <= i < |ps| ==> Accepted(ps[i])
    ensures Decode(start, [Sym(BeginMark)] + PairList(ps) + rest) == Ok((ApplyAll(start, ps), rest))
  {
    var n := |ps| - 1;
    var last, lead := ps[n], ps[..n];
    assert ps == lead + [last];
    var closing := PairTokens(last) + [Sym(EndMark)] + rest;
    var body := PairList(ps) + rest;
    assert body == Leading(lead) + closing;
    assert [Sym(BeginMark)] + PairList(ps) + rest == [Sym(BeginMark)] + body;
    AfterMark(start, body);
    LeadingPairs(start, lead, closing);
    ClosingPair(ApplyAll(start, lead), last, rest);
    ApplyLast(start, lead, last);
  }

  /** An unknown name fails with `UnknownValue`, whatever known pairs precede it. */
  lemma UnknownNameFails(f: Fields, ps: seq<Pair>, name: string, tail: seq<Token>)
    requires forall i :: 0 <= i < |ps| ==> Accepted(ps[i])
    requires !IsBoxField(name)
    ensures DecodeFields(f, Leading(ps) + [Word(name + [ValueMark])] + tail) == Fail(UnknownValue)
  {
    assert Leading(ps) + [Word(name + [ValueMark])] + tail == Leading(ps) + ([Word(name + [ValueMark])] + tail);
    LeadingPairs(f, ps, [Word(name + [ValueMark])] + tail);
    NameWithMark(name, tail);
  }

  /** A `size` that is not valid fails as soon as it is read, whatever precedes it. */
  lemma InvalidSizeFails(f: Fields, ps: seq<Pair>, size: Dimensions, tail: seq<Token>)
    requires forall i :: 0 <= i < |ps| ==> Accepted(ps[i])
    requires !IsValid(size)
    ensures DecodeFields(f, Leading(ps) + PairTokens(Size(size)) + tail) == Fail(InvalidDimensions)
  {
    assert Leading(ps) + PairTokens(Size(size)) + tail == Leading(ps) + (PairTokens(Size(size)) + tail);
    LeadingPairs(f, ps, PairTokens(Size(size)) + tail);
    SizeValueFails(ApplyAll(f, ps), size, tail);
  }

  lemma SizeValueFails(f: Fields, size: Dimensions, tail: seq<Token>)
    requires !IsValid(size)
    ensures DecodeFields(f, PairTokens(Size(size)) + tail) == Fail(InvalidDimensions)
  {
    var after := Dims.Encode(size) + tail;
    assert PairTokens(Size(size)) + tail == [Word("size" + [ValueMark])] + after;
    NameWithMark("size", after);
    Dims.DecodeEncode(size, tail);
  }

  /** The locals a field name decides. */
  datatype Slot = OpenSlot(leaveOpen: bool) | IdSlot(id: Option<int>) | DimsSlot(d: Dimensions)

  function SlotOf(f: Fields, name: string): Slot {
    if name == "is_open" then OpenSlot(f.leaveOpen)
    else if name == "id" then IdSlot(f.id)
    else if name == "item" then DimsSlot(f.item)
    else DimsSlot(f.size)
  }

  /** What a pair writes into the locals its name decides. */
  function PairSlot(p: Pair): Slot {
    match p
    case IsOpen(b) => OpenSlot(b)
    case Id(n) => IdSlot(Some(n))
    case Item(d) => DimsSlot(d)
    case Size(d) => DimsSlot(d)
  }

  /** A field no pair names keeps its starting value. */
  lemma {:induction false} SlotUntouched(f: Fields, ps: seq<Pair>, name: string)
    requires IsBoxField(name)
    requires forall i :: 0 <= i < |ps| ==> PairName(ps[i]) != name
    ensures SlotOf(ApplyAll(f, ps), name) == SlotOf(f, name)
    decreases |ps|
  {
    if ps != [] {
      assert SlotOf(Apply(f, ps[0]), name) == SlotOf(f, name);
      SlotUntouched(Apply(f, ps[0]), ps[1..], name);
    }
  }

  /** The last pair naming a field decides it. */
  lemma {:induction false} LastPairWins(f: Fields, ps: seq<Pair>, i: nat)
    requires i < |ps|
    requires forall j :: i < j < |ps| ==> PairName(ps[j]) != PairName(ps[i])
    ensures SlotOf(ApplyAll(f, ps), PairName(ps[i])) == PairSlot(ps[i])
    decreases i
  {
    var f' := Apply(f, ps[0]);
    var tail := ps[1..];
    if i == 0 {
      assert SlotOf(f', PairName(ps[0])) == PairSlot(ps[0]);
      SlotUntouched(f', tail, PairName(ps[0]));
    } else {
      assert tail[i - 1] == ps[i];
      LastPairWins(f', tail, i - 1);
    }
  }

  /** `putItem` ends up set exactly when it started set or an `item` pair was read. */
  lemma {:induction false} ItemPairSetsPutItem(f: Fields, ps: seq<Pair>)
    ensures ApplyAll(f, ps).putItem <==> f.putItem || exists i :: 0 <= i < |ps| && ps[i].Item?
    decreases |ps|
  {
    if ps != [] {
      var f' := Apply(f, ps[0]);
      ItemPairSetsPutItem(f', ps[1..]);
      if exists i :: 0 <= i < |ps[1..]| && ps[1..][i].Item? {
        var i :| 0 <= i < |ps[1..]| && ps[1..][i].Item?;
        assert ps[i + 1].Item?;
      }
      if exists i :: 0 <= i < |ps| && ps[i].Item? {
        var i :| 0 <= i < |ps| && ps[i].Item?;
        if i > 0 {
          assert ps[1..][i - 1].Item?;
        }
      }
    }
  }

  /** The field loop reads back what `toString` wrote, whatever the locals start as,
      and stops right after it. */
  lemma DecodeEncode(id: int, s: State, size0: Dimensions, rest: seq<Token>)
    requires Inv(s)
    ensures Decode(Initial(size0), Encode(id, s) + rest) == Ok((Written(id, s), rest))
  {
    var tSize := [Word("size:")] + Dims.Encode(s.size) + [Sym(EndMark)] + rest;
    var item := if s.hasItem then [Word("item:")] + Dims.Encode(s.item) + [Sym(ValueSeparator)] else [];
    var tOpen := [Word("is_open:"), Flag(s.isOpen), Sym(ValueSeparator)] + (item + tSize);
    var tId := [Word("id:"), Num(id), Sym(ValueSeparator)] + tOpen;
    assert Encode(id, s) + rest == [Sym(BeginMark)] + tId;
    assert ([Sym(BeginMark)] + tId)[1..] == tId;
    var f1 := Initial(size0).(id := Some(id));
    IdStep(Initial(size0), id, tOpen);
    var f2 := f1.(leaveOpen := s.isOpen);
    OpenStep(f1, s.isOpen, item + tSize);
    var f3 := if s.hasItem then f2.(item := s.item, putItem := true) else f2;
    if s.hasItem {
      assert item + tSize == [Word("item:")] + Dims.Encode(s.item) + [Sym(ValueSeparator)] + tSize;
      ItemStep(f2, s.item, tSize);
    } else {
      assert item + tSize == tSize;
    }
    SizeStep(f3, s.size, rest);
    assert f3.(size := s.size) == Written(id, s);
  }

  /** Rebuilding from what the loop read gives back the encoded state: a fresh box of
      the written size, opened, furnished, is the original up to the item an empty box
      does not show. */
  lemma FurnishWritten(id: int, s: State)
    requires Inv(s)
    ensures Fresh(s.size).Ok?
    ensures Open(Fresh(s.size).value).Ok?
    ensures Furnish(Open(Fresh(s.size).value).value, Written(id, s)) == Ok(Canon(s))
  {
  }
}
