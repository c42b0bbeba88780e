/** The text format shared by Dimensions and Box, and the three low-level readers
    `readMark`, `readNextSeparator` and `readValueName` (identical in containers/box.cpp,
    week05/box.cpp and week04/box.cpp).

    The input stream is modelled as the sequence of tokens that the stream extraction
    operators see: a `Sym` is what `s >> c` reads into a char, a `Word` what `s >> str`
    reads into a string, a `Num` what `s >> n` reads into an int and a `Flag` what
    `s >> b` reads into a bool under `boolalpha`. Whitespace is not a token. */
module Tokens {
  import opened Errors

  datatype Token =
    | Sym(c: char)
    | Word(w: string)
    | Num(n: int)
    | Flag(b: bool)

  const BeginMark: char := '{'
  const EndMark: char := '}'
  const ValueMark: char := ':'
  const ValueSeparator: char := ','

  predicate IsDigit(c: char) {
    '0' <= c <= '9'
  }

  /** Decimal digits of a natural number, most significant first. */
  function Digits(n: nat): (s: string)
    ensures |s| > 0
    ensures forall i :: 0 <= i < |s| ==> IsDigit(s[i])
    decreases n
  {
    if n < 10 then ["0123456789"[n]] else Digits(n / 10) + ["0123456789"[n % 10]]
  }

  /** How `ostream << int` writes an integer. */
  function Decimal(n: int): (s: string)
    ensures |s| > 0 && IsDigit(s[|s| - 1])
    ensures s[0] == '-' <==> n < 0
  {
    if n < 0 then "-" + Digits(-n) else Digits(n)
  }

  /** The characters a token stands for. */
  function Text(t: Token): string {
    match t
    case Sym(c) => [c]
    case Word(w) => w
    case Num(n) => Decimal(n)
    case Flag(b) => if b then "true" else "false"
  }

  /** How the `toString` members lay a token out: every field name and every value
      separator is followed by one space. */
  function Piece(t: Token): string {
    match t
    case Word(w) => w + " "
    case Sym(c) => if c == ValueSeparator then [c, ' '] else [c]
    case _ => Text(t)
  }

  /** The text of a token sequence. */
  function Render(ts: seq<Token>): string
    decreases |ts|
  {
    if ts == [] then "" else Piece(ts[0]) + Render(ts[1..])
  }

  lemma {:induction false} RenderAppend(a: seq<Token>, b: seq<Token>)
    ensures Render(a + b) == Render(a) + Render(b)
    decreases |a|
  {
    if a == [] {
      assert a + b == b;
    } else {
      assert (a + b)[1..] == a[1..] + b;
      RenderAppend(a[1..], b);
    }
  }

  lemma RenderCons(t: Token, ts: seq<Token>)
    ensures Render([t] + ts) == Piece(t) + Render(ts)
  {
    assert ([t] + ts)[1..] == ts;
  }

  lemma RenderTriple(a: Token, b: Token, c: Token, ts: seq<Token>)
    ensures Render([a, b, c] + ts) == Piece(a) + Piece(b) + Piece(c) + Render(ts)
  {
    assert [a, b, c] + ts == [a] + ([b] + ([c] + ts));
    RenderCons(a, [b] + ([c] + ts));
    RenderCons(b, [c] + ts);
    RenderCons(c, ts);
  }

  /** `readMark`: reads one character and fails with an invalid symbol unless it is `mark`.
      At the end of the input the source compares an uninitialised char; this model fails. */
  function ReadMark(ts: seq<Token>, mark: char): (r: Result<seq<Token>>)
    ensures r.Ok? <==> |ts| > 0 && ts[0] == Sym(mark)
    ensures r.Ok? ==> r.value == ts[1..]
    ensures r.Fail? ==> r.error == InvalidSymbol
  {
    if |ts| > 0 && ts[0] == Sym(mark) then Ok(ts[1..]) else Fail(InvalidSymbol)
  }

  /** `readNextSeparator`: true after a `,`, false after a `}`, an invalid symbol otherwise. */
  function ReadNextSeparator(ts: seq<Token>): (r: Result<(bool, seq<Token>)>)
    ensures r.Ok? <==> |ts| > 0 && (ts[0] == Sym(ValueSeparator) || ts[0] == Sym(EndMark))
    ensures r.Ok? ==> r.value.1 == ts[1..] && (r.value.0 <==> ts[0] == Sym(ValueSeparator))
    ensures r.Fail? ==> r.error == InvalidSymbol
  {
    if |ts| > 0 && ts[0] == Sym(ValueSeparator) then Ok((true, ts[1..]))
    else if |ts| > 0 && ts[0] == Sym(EndMark) then Ok((false, ts[1..]))
    else Fail(InvalidSymbol)
  }

  /** `s >> str`: one word, or the empty string at the end of the input. */
  function ReadWord(ts: seq<Token>): (string, seq<Token>) {
    if ts == [] then ("", []) else (Text(ts[0]), ts[1..])
  }

  /** Whether a word carries its own trailing `:`. */
  predicate EndsInMark(w: string) {
    |w| > 0 && w[|w| - 1] == ValueMark
  }

  /** `readValueName`: a word with its trailing `:` removed, or a word followed by a
      separate `:`. It succeeds exactly in those two cases, and fails with an invalid
      symbol otherwise. */
  function ReadValueName(ts: seq<Token>): (r: Result<(string, seq<Token>)>)
    ensures r.Ok? <==> |ts| > 0 && (EndsInMark(Text(ts[0])) || (|ts| > 1 && ts[1] == Sym(ValueMark)))
    ensures r.Ok? && EndsInMark(Text(ts[0])) ==> r.value == (Text(ts[0])[..|Text(ts[0])| - 1], ts[1..])
    ensures r.Ok? && !EndsInMark(Text(ts[0])) ==> r.value == (Text(ts[0]), ts[2..])
    ensures r.Ok? ==> |r.value.1| < |ts|
    ensures r.Fail? ==> r.error == InvalidSymbol
  {
    var (word, rest) := ReadWord(ts);
    if |word| > 0 && word[|word| - 1] == ValueMark then Ok((word[..|word| - 1], rest))
    else
      match ReadMark(rest, ValueMark)
      case Ok(rest') => Ok((word, rest'))
      case Fail(e) => Fail(e)
  }

  /** The name form the encoders emit (`name:` as one word) reads back as the name. */
  lemma NameWithMark(name: string, rest: seq<Token>)
    ensures ReadValueName([Word(name + [ValueMark])] + rest) == Ok((name, rest))
  {
    var ts := [Word(name + [ValueMark])] + rest;
    assert ts[1..] == rest;
    assert (name + [ValueMark])[..|name|] == name;
  }

  /** A word without its own `:` that is not followed by a `:` is no value name. */
  lemma UnmarkedNameFails(word: string, next: Token, rest: seq<Token>)
    requires !EndsInMark(word) && next != Sym(ValueMark)
    ensures ReadValueName([Word(word), next] + rest) == Fail(InvalidSymbol)
  {
    var ts := [Word(word), next] + rest;
    assert ts[0] == Word(word) && ts[1] == next;
  }

  /** A name whose `:` stands apart (`name :`) reads back as the name too. */
  lemma NameThenMark(name: string, rest: seq<Token>)
    requires name == [] || name[|name| - 1] != ValueMark
    ensures ReadValueName([Word(name), Sym(ValueMark)] + rest) == Ok((name, rest))
  {
    var ts := [Word(name), Sym(ValueMark)] + rest;
    assert ts[1..] == [Sym(ValueMark)] + rest;
    assert ts[1..][1..] == rest;
  }

  /** `s >> n` for an int. The source never checks the stream state: when no integer
      can be read the variable gets 0 and the stream fails, which is modelled as a stream
      with nothing left to read. */
  function ReadInt(ts: seq<Token>): (r: (int, seq<Token>))
    ensures |r.1| < |ts| || r.1 == []
  {
    if |ts| > 0 && ts[0].Num? then (ts[0].n, ts[1..]) else (0, [])
  }

  /** `s >> b` for a bool under `boolalpha`; false and a failed stream when no
      `true`/`false` can be read. */
  function ReadBool(ts: seq<Token>): (r: (bool, seq<Token>))
    ensures |r.1| < |ts| || r.1 == []
  {
    if |ts| > 0 && ts[0].Flag? then (ts[0].b, ts[1..]) else (false, [])
  }
}
