/** week05/dimensions.cpp: the Dimensions value (length, width, height), its volume,
    its structural equality and its text encoding `{length: L, width: W, height: H}`.
    week05/box.cpp:70-151 and week04/box.cpp:66-114 carry the same code inline.

    Dimensions is a C++ value type (every use copies it), so it is a datatype here;
    a setter applied to a variable becomes the variable reassigned to the setter's result. */
module Dims {
  import opened Errors
  import opened Tokens

  /** Fields are C++ ints; they are unbounded here and nothing validates them on
      construction or in the setters. */
  datatype Dimensions = Dimensions(length: int, width: int, height: int) {

    function SetLength(v: int): (r: Dimensions)
      ensures r.length == v && r.width == width && r.height == height
    {
      this.(length := v)
    }

    function SetWidth(v: int): (r: Dimensions)
      ensures r.width == v && r.length == length && r.height == height
    {
      this.(width := v)
    }

    function SetHeight(v: int): (r: Dimensions)
      ensures r.height == v && r.length == length && r.width == width
    {
      this.(height := v)
    }
  }

  /** `Dimensions()`: delegates to `Dimensions(0, 0, 0)`. */
  const Zero: Dimensions := Dimensions(0, 0, 0)

  /** `operator==`: field by field. */
  function Equal(a: Dimensions, b: Dimensions): (r: bool)
    ensures r <==> a == b
  {
    a.length == b.length && a.width == b.width && a.height == b.height
  }

  /** `computeVolume` (`volume` in week05/box.cpp and week04/box.cpp). */
  function ComputeVolume(d: Dimensions): (v: int)
    ensures IsValid(d) ==> v > 0
  {
    assert IsValid(d) ==> d.length * d.width > 0;
    d.length * d.width * d.height
  }

  /** The positivity that `validateDimensions` demands. */
  predicate IsValid(d: Dimensions) {
    d.length > 0 && d.width > 0 && d.height > 0
  }

  /** `validateDimensions`: fails on any non-positive field. */
  function Validate(d: Dimensions): (r: Status)
    ensures r == Success <==> d.length > 0 && d.width > 0 && d.height > 0
    ensures r != Success ==> r == Failure(InvalidDimensions)
  {
    if d.length <= 0 || d.width <= 0 || d.height <= 0 then Failure(InvalidDimensions) else Success
  }

  /** Names the decoder accepts. */
  predicate IsFieldName(name: string) {
    name == "length" || name == "width" || name == "height"
  }

  /** The field of `d` a name selects. */
  function FieldOf(d: Dimensions, name: string): int
    requires IsFieldName(name)
  {
    if name == "length" then d.length else if name == "width" then d.width else d.height
  }

  /** The assignment the decoder performs for one `name: value` pair. */
  function SetField(d: Dimensions, name: string, v: int): (r: Dimensions)
    requires IsFieldName(name)
    ensures FieldOf(r, name) == v
    ensures forall other :: IsFieldName(other) && other != name ==> FieldOf(r, other) == FieldOf(d, other)
  {
    if name == "length" then d.SetLength(v) else if name == "width" then d.SetWidth(v) else d.SetHeight(v)
  }

  /** The tokens `toString` writes. */
  function Encode(d: Dimensions): seq<Token> {
    [Sym(BeginMark),
     Word("length:"), Num(d.length), Sym(ValueSeparator),
     Word("width:"), Num(d.width), Sym(ValueSeparator),
     Word("height:"), Num(d.height),
     Sym(EndMark)]
  }

  /** `toString`. */
  function ToString(d: Dimensions): (s: string)
    ensures s == "{length: " + Decimal(d.length) + ", width: " + Decimal(d.width)
                 + ", height: " + Decimal(d.height) + "}"
  {
    EncodeText(d);
    Layout(Decimal(d.length), Decimal(d.width), Decimal(d.height));
    Render(Encode(d))
  }

  lemma EncodeText(d: Dimensions)
    ensures Render(Encode(d)) == Piece(Sym(BeginMark)) + "length:" + " " + Decimal(d.length)
      + (Piece(Sym(ValueSeparator)) + "width:" + " " + Decimal(d.width)
      + (Piece(Sym(ValueSeparator)) + "height:" + " " + Decimal(d.height) + "}"))
  {
    var close := [Sym(EndMark)];
    var height := [Sym(ValueSeparator), Word("height:"), Num(d.height)] + close;
    var width := [Sym(ValueSeparator), Word("width:"), Num(d.width)] + height;
    assert Encode(d) == [Sym(BeginMark), Word("length:"), Num(d.length)] + width;
    RenderCons(Sym(EndMark), []);
    assert Render(close) == "}";
    RenderField(ValueSeparator, "height:", d.height, close);
    RenderField(ValueSeparator, "width:", d.width, height);
    RenderField(BeginMark, "length:", d.length, width);
  }

  lemma Layout(l: string, w: string, h: string)
    ensures Piece(Sym(BeginMark)) + "length:" + " " + l
      + (Piece(Sym(ValueSeparator)) + "width:" + " " + w
      + (Piece(Sym(ValueSeparator)) + "height:" + " " + h + "}"))
      == "{length: " + l + ", width: " + w + ", height: " + h + "}"
  {
  }

  /** A mark, a field name and its value, as `toString` lays them out. */
  lemma RenderField(mark: char, name: string, v: int, tail: seq<Token>)
    ensures Render([Sym(mark), Word(name), Num(v)] + tail)
            == Piece(Sym(mark)) + name + " " + Decimal(v) + Render(tail)
  {
    var ts := [Sym(mark), Word(name), Num(v)] + tail;
    assert ts == [Sym(mark)] + ([Word(name)] + ([Num(v)] + tail));
    RenderCons(Sym(mark), [Word(name)] + ([Num(v)] + tail));
    RenderCons(Word(name), [Num(v)] + tail);
    RenderCons(Num(v), tail);
  }

  /** The do-while loop of `operator>>` after the opening mark, from the temporary `tmp`:
      one `name: value` pair per turn, until `}`. */
  function DecodeFields(tmp: Dimensions, ts: seq<Token>): (r: Result<(Dimensions, seq<Token>)>)
    ensures r.Ok? ==> |r.value.1| < |ts|
    decreases |ts|
  {
    match ReadValueName(ts)
    case Fail(e) => Fail(e)
    case Ok((name, ts1)) =>
      if IsFieldName(name) then
        var (v, ts2) := ReadInt(ts1);
        var tmp' := SetField(tmp, name, v);
        match ReadNextSeparator(ts2)
        case Fail(e) => Fail(e)
        case Ok((more, ts3)) => if more then DecodeFields(tmp', ts3) else Ok((tmp', ts3))
      else Fail(UnknownValue)
  }

  /** `operator>>`: the value read and the rest of the stream. */
  function Decode(ts: seq<Token>): (r: Result<(Dimensions, seq<Token>)>)
    ensures r.Ok? ==> |r.value.1| < |ts|
  {
    match ReadMark(ts, BeginMark)
    case Fail(e) => Fail(e)
    case Ok(ts1) => DecodeFields(Zero, ts1)
  }

  /** `operator>>(s, d)`: reads into a temporary and writes `d` only once the closing
      mark has been read; on any failure `d` keeps its value. */
  method Read(ts: seq<Token>, d: Dimensions) returns (r: Status, d': Dimensions, rest: seq<Token>)
    ensures Decode(ts).Ok? ==> r == Success && (d', rest) == Decode(ts).value
    ensures Decode(ts).Fail? ==> r == Failure(Decode(ts).error) && d' == d
  {
    var tmp := Zero;
    var afterMark := ReadMark(ts, BeginMark);
    if afterMark.Fail? {
      return Failure(afterMark.error), d, ts;
    }
    var cur := afterMark.value;
    var more := true;
    while more
      invariant more ==> DecodeFields(tmp, cur) == Decode(ts)
      invariant !more ==> Decode(ts) == Ok((tmp, cur))
      decreases more, |cur|
    {
      var named := ReadValueName(cur);
      if named.Fail? {
        return Failure(named.error), d, cur;
      }
      var (name, afterName) := named.value;
      if name == "length" {
        var (v, afterValue) := ReadInt(afterName);
        tmp, cur := tmp.(length := v), afterValue;
      } else if name == "width" {
        var (v, afterValue) := ReadInt(afterName);
        tmp, cur := tmp.(width := v), afterValue;
      } else if name == "height" {
        var (v, afterValue) := ReadInt(afterName);
        tmp, cur := tmp.(height := v), afterValue;
      } else {
        return Failure(UnknownValue), d, afterName;
      }
      var separator := ReadNextSeparator(cur);
      if separator.Fail? {
        return Failure(separator.error), d, cur;
      }
      more, cur := separator.value.0, separator.value.1;
    }
    return Success, tmp, cur;
  }

  /** One `name: value` pair of a known field, then whatever separator follows. */
  lemma DecodeStep(tmp: Dimensions, name: string, v: int, tail: seq<Token>)
    requires IsFieldName(name)
    ensures DecodeFields(tmp, [Word(name + [ValueMark]), Num(v)] + tail)
            == match ReadNextSeparator(tail)
               case Fail(e) => Fail(e)
               case Ok((more, ts3)) =>
                 if more then DecodeFields(SetField(tmp, name, v), ts3) else Ok((SetField(tmp, name, v), ts3))
  {
    var ts := [Word(name + [ValueMark]), Num(v)] + tail;
    assert ts == [Word(name + [ValueMark])] + ([Num(v)] + tail);
    NameWithMark(name, [Num(v)] + tail);
    assert ([Num(v)] + tail)[1..] == tail;
  }

  /** `name: value` pairs laid out as the encoders write them after the opening mark:
      separated by `,` and closed by `}`. */
  function FieldList(fs: seq<(string, int)>): seq<Token>
    requires |fs| > 0
    decreases |fs|
  {
    [Word(fs[0].0 + [ValueMark]), Num(fs[0].1)]
      + (if |fs| == 1 then [Sym(EndMark)] else [Sym(ValueSeparator)] + FieldList(fs[1..]))
  }

  /** The pairs assigned in order. */
  function Assign(d: Dimensions, fs: seq<(string, int)>): Dimensions
    requires forall i :: 0 <= i < |fs| ==> IsFieldName(fs[i].0)
    decreases |fs|
  {
    if fs == [] then d else Assign(SetField(d, fs[0].0, fs[0].1), fs[1..])
  }

  /** Known fields may come in any order and any number of times: decoding assigns them
      in turn. */
  lemma {:induction false} DecodeFieldList(tmp: Dimensions, fs: seq<(string, int)>, rest: seq<Token>)
    requires |fs| > 0
    requires forall i :: 0 <= i < |fs| ==> IsFieldName(fs[i].0)
    ensures DecodeFields(tmp, FieldList(fs) + rest) == Ok((Assign(tmp, fs), rest))
    decreases |fs|
  {
    var name, v := fs[0].0, fs[0].1;
    var tmp' := SetField(tmp, name, v);
    var tail := if |fs| == 1 then [Sym(EndMark)] + rest else [Sym(ValueSeparator)] + (FieldList(fs[1..]) + rest);
    assert FieldList(fs) + rest == [Word(name + [ValueMark]), Num(v)] + tail;
    DecodeStep(tmp, name, v, tail);
    assert tail[1..] == if |fs| == 1 then rest else FieldList(fs[1..]) + rest;
    assert Assign(tmp, fs) == Assign(tmp', fs[1..]);
    if |fs| > 1 {
      DecodeFieldList(tmp', fs[1..], rest);
    }
  }

  /** A field no pair names keeps its value. */
  lemma {:induction false} AssignUntouched(d: Dimensions, fs: seq<(string, int)>, name: string)
    requires forall i :: 0 <= i < |fs| ==> IsFieldName(fs[i].0)
    requires IsFieldName(name)
    requires forall i :: 0 <= i < |fs| ==> fs[i].0 != name
    ensures FieldOf(Assign(d, fs), name) == FieldOf(d, name)
    decreases |fs|
  {
    if fs != [] {
      var d' := SetField(d, fs[0].0, fs[0].1);
      assert FieldOf(d', name) == FieldOf(d, name);
      AssignUntouched(d', fs[1..], name);
    }
  }

  /** The last pair naming a field decides it. */
  lemma {:induction false} AssignLastWins(d: Dimensions, fs: seq<(string, int)>, name: string, i: nat)
    requires forall k :: 0 <= k < |fs| ==> IsFieldName(fs[k].0)
    requires i < |fs| && fs[i].0 == name
    requires forall j :: i < j < |fs| ==> fs[j].0 != name
    ensures FieldOf(Assign(d, fs), name) == fs[i].1
    decreases i
  {
    var d' := SetField(d, fs[0].0, fs[0].1);
    var tail := fs[1..];
    assert Assign(d, fs) == Assign(d', tail);
    if i == 0 {
      AssignUntouched(d', tail, name);
    } else {
      assert tail[i - 1] == fs[i];
      AssignLastWins(d', tail, name, i - 1);
    }
  }

  /** Decoding starts from `Dimensions()`, so a field the text leaves out stays 0. */
  lemma {:induction false} DecodeAnyOrder(fs: seq<(string, int)>, rest: seq<Token>)
    requires |fs| > 0
    requires forall i :: 0 <= i < |fs| ==> IsFieldName(fs[i].0)
    ensures Decode([Sym(BeginMark)] + FieldList(fs) + rest) == Ok((Assign(Zero, fs), rest))
  {
    var ts := [Sym(BeginMark)] + FieldList(fs) + rest;
    assert ts[1..] == FieldList(fs) + rest;
    DecodeFieldList(Zero, fs, rest);
  }

  /** An unknown name fails with `UnknownValue`, whatever known pairs precede it. */
  lemma {:induction false} UnknownFieldFails(tmp: Dimensions, fs: seq<(string, int)>, rest: seq<Token>, k: nat)
    requires k < |fs| && !IsFieldName(fs[k].0)
    requires forall i :: 0 <= i < k ==> IsFieldName(fs[i].0)
    ensures DecodeFields(tmp, FieldList(fs) + rest) == Fail(UnknownValue)
    decreases k
  {
    var name, v := fs[0].0, fs[0].1;
    var tail := if |fs| == 1 then [Sym(EndMark)] + rest else [Sym(ValueSeparator)] + (FieldList(fs[1..]) + rest);
    assert FieldList(fs) + rest == [Word(name + [ValueMark])] + ([Num(v)] + tail);
    NameWithMark(name, [Num(v)] + tail);
    if k > 0 {
      assert FieldList(fs) + rest == [Word(name + [ValueMark]), Num(v)] + tail;
      DecodeStep(tmp, name, v, tail);
      assert tail[1..] == FieldList(fs[1..]) + rest;
      UnknownFieldFails(SetField(tmp, name, v), fs[1..], rest, k - 1);
    }
  }

  /** Decoding what `toString` writes gives back the same value, and stops right after it. */
  lemma DecodeEncode(d: Dimensions, rest: seq<Token>)
    ensures Decode(Encode(d) + rest) == Ok((d, rest))
  {
    var f2 := [("height", d.height)];
    var f1 := [("width", d.width)] + f2;
    var fs := [("length", d.length)] + f1;
    assert fs[1..] == f1 && f1[1..] == f2;
    assert "height" + [ValueMark] == "height:";
    assert "width" + [ValueMark] == "width:";
    assert "length" + [ValueMark] == "length:";
    assert FieldList(f2) == [Word("height:"), Num(d.height), Sym(EndMark)];
    assert FieldList(f1) == [Word("width:"), Num(d.width), Sym(ValueSeparator)] + FieldList(f2);
    assert FieldList(fs) == [Word("length:"), Num(d.length), Sym(ValueSeparator)] + FieldList(f1);
    assert Encode(d) + rest == [Sym(BeginMark)] + FieldList(fs) + rest;
    DecodeAnyOrder(fs, rest);
    assert Assign(Zero, fs) == Assign(Zero.(length := d.length), f1);
    assert Assign(Zero.(length := d.length), f1) == Assign(Zero.(length := d.length, width := d.width), f2);
    assert f2[1..] == [];
    assert Assign(Zero.(length := d.length, width := d.width), f2) == Assign(d, []);
  }
}
