/** The combinator decoder accepts exactly the grammar, with its meaning. */
module BencodeNomProofs {
  import opened ByteStrings
  import opened Wrappers
  import opened Bencode
  import opened BencodeNom

  // ---- Tokens ----

  lemma RunThenE(digits: Bytes, rest: Bytes)
    requires AllDigits(digits) && rest != [] && !IsDigit(rest[0])
    ensures Digits(digits + rest) == |digits|
    ensures (digits + rest)[..|digits|] == digits && (digits + rest)[|digits|..] == rest
  {
    var input := digits + rest;
    assert input[..|digits|] == digits;
    assert input[|digits|] == rest[0];
    DigitsAre(input, |digits|);
  }

  lemma NumberComplete(number: Bytes, rest: Bytes)
    requires ParseI64(number).Some? && rest != [] && rest[0] == LETTER_E
    ensures Number(number + rest) == Ok(rest, ParseI64(number).value)
  {
    var signed := number[0] == MINUS || number[0] == PLUS;
    var digits := if signed then number[1..] else number;
    var input := digits + rest;
    assert (number + rest)[0] == number[0];
    assert (if signed then (number + rest)[1..] else number + rest) == input;
    RunThenE(digits, rest);
    assert input[..0] == [];
    NumberFromReadsTheRun(number[0] != MINUS, input, 0);
  }

  lemma SignedNumber(sign: byte, run: Bytes)
    requires (sign == MINUS || sign == PLUS) && run != [] && AllDigits(run)
    requires InI64(Signed(sign != MINUS, DecimalValue(run)))
    ensures ParseI64([sign] + run) == Some(Signed(sign != MINUS, DecimalValue(run)))
  {
    assert ([sign] + run)[1..] == run;
  }

  lemma UnsignedNumber(run: Bytes)
    requires run != [] && AllDigits(run) && InI64(DecimalValue(run))
    ensures ParseI64(run) == Some(DecimalValue(run))
  {
    assert IsDigit(run[0]);
  }

  lemma SignedNumberSound(input: Bytes) returns (number: Bytes)
    requires Number(input).Ok? && (input[0] == MINUS || input[0] == PLUS)
    ensures input == number + Number(input).rest
    ensures ParseI64(number) == Some(Number(input).value)
  {
    var digits := input[1..];
    assert digits[..0] == [];
    NumberFromReadsTheRun(input[0] != MINUS, digits, 0);
    var run := digits[..Digits(digits)];
    SignedNumber(input[0], run);
    number := [input[0]] + run;
    assert input == [input[0]] + digits;
  }

  lemma UnsignedNumberSound(input: Bytes) returns (number: Bytes)
    requires Number(input).Ok? && input[0] != MINUS && input[0] != PLUS
    ensures input == number + Number(input).rest
    ensures ParseI64(number) == Some(Number(input).value)
  {
    assert input[..0] == [];
    NumberFromReadsTheRun(true, input, 0);
    number := input[..Digits(input)];
    UnsignedNumber(number);
  }

  lemma NumberSound(input: Bytes) returns (number: Bytes)
    requires Number(input).Ok?
    ensures input == number + Number(input).rest
    ensures ParseI64(number) == Some(Number(input).value)
  {
    if input[0] == MINUS || input[0] == PLUS {
      number := SignedNumberSound(input);
    } else {
      number := UnsignedNumberSound(input);
    }
  }

  lemma IntegerComplete(number: Bytes, rest: Bytes)
    requires ParseI64(number).Some?
    ensures Integer(Unparse(IntLit(number)) + rest) == Ok(rest, ParseI64(number).value)
  {
    var input := Unparse(IntLit(number)) + rest;
    assert input[1..] == number + ([LETTER_E] + rest);
    NumberComplete(number, [LETTER_E] + rest);
    assert ([LETTER_E] + rest)[1..] == rest;
  }

  lemma IntegerSound(input: Bytes) returns (number: Bytes)
    requires Integer(input).Ok?
    ensures ParseI64(number) == Some(Integer(input).value)
    ensures input == Unparse(IntLit(number)) + Integer(input).rest
  {
    number := NumberSound(input[1..]);
    var rest := Number(input[1..]).rest;
    assert rest == [LETTER_E] + rest[1..];
    assert input == [LETTER_I] + (number + ([LETTER_E] + rest[1..]));
    assert input == [LETTER_I] + number + [LETTER_E] + rest[1..];
  }

  lemma LengthPrefixComplete(length: Bytes, rest: Bytes)
    requires ParseLength(length).Some?
    ensures LengthPrefix(length + ([COLON] + rest)) == Ok(rest, ParseLength(length).value)
  {
    RunThenE(length, [COLON] + rest);
    assert ([COLON] + rest)[1..] == rest;
  }

  lemma TakeComplete(bytes: Bytes, rest: Bytes)
    ensures Take(|bytes|, bytes + rest) == Ok(rest, bytes)
  {
    assert (bytes + rest)[..|bytes|] == bytes && (bytes + rest)[|bytes|..] == rest;
  }

  lemma TextComplete(lossy: Bytes -> Bytes, length: Bytes, bytes: Bytes, rest: Bytes)
    requires ParseLength(length) == Some(|bytes|)
    ensures Text(lossy, UnparseString(length, bytes) + rest) == Ok(rest, lossy(bytes))
  {
    LengthPrefixComplete(length, bytes + rest);
    TakeComplete(bytes, rest);
    assert UnparseString(length, bytes) + rest == length + ([COLON] + (bytes + rest));
  }

  lemma TextSound(lossy: Bytes -> Bytes, input: Bytes) returns (length: Bytes, bytes: Bytes)
    requires Text(lossy, input).Ok?
    ensures ParseLength(length) == Some(|bytes|) && Text(lossy, input).value == lossy(bytes)
    ensures input == UnparseString(length, bytes) + Text(lossy, input).rest
  {
    var n := Digits(input);
    length := input[..n];
    var tail := input[n + 1..];
    bytes := tail[..DecimalValue(length)];
    assert input == length + [COLON] + tail;
    assert tail == bytes + tail[|bytes|..];
    assert input == length + [COLON] + bytes + tail[|bytes|..];
  }

  // ---- Every text of the grammar is decoded ----

  lemma NothingAtE(lossy: Bytes -> Bytes, rest: Bytes)
    requires rest != [] && rest[0] == LETTER_E
    ensures Decode(lossy, rest).Error? && Text(lossy, rest).Error?
  {
  }

  /** Reading the opening letter leaves the body, the closing letter and the rest. */
  lemma Opened(open: byte, body: Bytes, rest: Bytes)
    ensures var input := [open] + body + [LETTER_E] + rest;
            && input[0] == open && input[1..] == body + ([LETTER_E] + rest)
            && ([LETTER_E] + rest)[0] == LETTER_E && ([LETTER_E] + rest)[1..] == rest
  {
  }

  lemma {:induction false} DecodeComplete(lossy: Bytes -> Bytes, x: Syntax, rest: Bytes)
    requires WellFormed(x)
    ensures Decode(lossy, Unparse(x) + rest) == Ok(rest, Meaning(lossy, x))
    decreases x
  {
    var input := Unparse(x) + rest;
    match x
    case IntLit(number) =>
      IntegerComplete(number, rest);
    case StrLit(length, bytes) =>
      LengthsStartWithADigit(length);
      assert input[0] == length[0];
      TextComplete(lossy, length, bytes, rest);
    case ListLit(items) =>
      Opened(LETTER_L, UnparseItems(items), rest);
      Many0Complete(lossy, items, [LETTER_E] + rest);
      assert DecodeList(lossy, input) == Ok(rest, MeaningItems(lossy, items));
    case DictLit(entries) =>
      Opened(LETTER_D, UnparseEntries(entries), rest);
      FoldComplete(lossy, entries, [LETTER_E] + rest, map[]);
      assert DecodeDict(lossy, input) == Ok(rest, MeaningEntries(lossy, entries, map[]));
  }

  lemma {:induction false} Many0Complete(lossy: Bytes -> Bytes, xs: Items, rest: Bytes)
    requires WellFormedItems(xs) && rest != [] && rest[0] == LETTER_E
    ensures Many0(lossy, UnparseItems(xs) + rest) == (rest, MeaningItems(lossy, xs))
    decreases xs
  {
    match xs
    case NoItems =>
      NothingAtE(lossy, rest);
      assert UnparseItems(xs) + rest == rest;
    case MoreItems(x, tail) =>
      assert UnparseItems(xs) + rest == Unparse(x) + (UnparseItems(tail) + rest);
      DecodeComplete(lossy, x, UnparseItems(tail) + rest);
      Many0Complete(lossy, tail, rest);
  }

  lemma {:induction false} FoldComplete(lossy: Bytes -> Bytes, es: Entries, rest: Bytes, acc: map<Bytes, Value>)
    requires WellFormedEntries(es) && rest != [] && rest[0] == LETTER_E
    ensures FoldMany0(lossy, UnparseEntries(es) + rest, acc) == (rest, MeaningEntries(lossy, es, acc))
    decreases es
  {
    match es
    case NoEntries =>
      NothingAtE(lossy, rest);
      assert UnparseEntries(es) + rest == rest;
    case MoreEntries(length, key, x, tail) =>
      var after := UnparseEntries(tail) + rest;
      assert UnparseEntries(es) + rest == UnparseString(length, key) + (Unparse(x) + after);
      TextComplete(lossy, length, key, Unparse(x) + after);
      DecodeComplete(lossy, x, after);
      FoldComplete(lossy, tail, rest, acc[lossy(key) := Meaning(lossy, x)]);
  }

  // ---- Whatever is decoded is a text of the grammar ----

  lemma {:induction false} DecodeSound(lossy: Bytes -> Bytes, input: Bytes) returns (x: Syntax)
    requires Decode(lossy, input).Ok?
    ensures WellFormed(x) && Meaning(lossy, x) == Decode(lossy, input).value
    ensures input == Unparse(x) + Decode(lossy, input).rest
    decreases |input|, 1
  {
    if Integer(input).Ok? {
      var number := IntegerSound(input);
      x := IntLit(number);
    } else if Text(lossy, input).Ok? {
      var length, bytes := TextSound(lossy, input);
      x := StrLit(length, bytes);
    } else if DecodeList(lossy, input).Ok? {
      var xs := Many0Sound(lossy, input[1..]);
      x := ListLit(xs);
      var rest := Many0(lossy, input[1..]).0;
      Bracketed(input, LETTER_L, UnparseItems(xs), rest);
    } else {
      var es := FoldSound(lossy, input[1..], map[]);
      x := DictLit(es);
      var rest := FoldMany0(lossy, input[1..], map[]).0;
      Bracketed(input, LETTER_D, UnparseEntries(es), rest);
    }
  }

  lemma Bracketed(input: Bytes, open: byte, body: Bytes, rest: Bytes)
    requires input != [] && input[0] == open && input[1..] == body + rest && rest != [] && rest[0] == LETTER_E
    ensures input == [open] + body + [LETTER_E] + rest[1..]
  {
    assert rest == [LETTER_E] + rest[1..];
    assert input == [open] + input[1..];
  }

  lemma {:induction false} Many0Sound(lossy: Bytes -> Bytes, input: Bytes) returns (xs: Items)
    ensures WellFormedItems(xs) && MeaningItems(lossy, xs) == Many0(lossy, input).1
    ensures input == UnparseItems(xs) + Many0(lossy, input).0
    decreases |input|, 2
  {
    match Decode(lossy, input)
    case Error =>
      xs := NoItems;
    case Ok(rest, _) =>
      var x := DecodeSound(lossy, input);
      var tail := Many0Sound(lossy, rest);
      xs := MoreItems(x, tail);
      assert input == Unparse(x) + (UnparseItems(tail) + Many0(lossy, rest).0);
  }

  lemma Join(input: Bytes, a: Bytes, middle: Bytes, b: Bytes, rest: Bytes, c: Bytes, d: Bytes)
    requires input == a + middle && middle == b + rest && rest == c + d
    ensures input == a + b + c + d
  {
  }

  lemma {:induction false} FoldSound(lossy: Bytes -> Bytes, input: Bytes, acc: map<Bytes, Value>) returns (es: Entries)
    ensures WellFormedEntries(es) && MeaningEntries(lossy, es, acc) == FoldMany0(lossy, input, acc).1
    ensures input == UnparseEntries(es) + FoldMany0(lossy, input, acc).0
    decreases |input|, 2
  {
    es := NoEntries;
    if Text(lossy, input).Ok? && Decode(lossy, Text(lossy, input).rest).Ok? {
      var length, key := TextSound(lossy, input);
      var middle := Text(lossy, input).rest;
      var x := DecodeSound(lossy, middle);
      var rest := Decode(lossy, middle).rest;
      var acc' := acc[lossy(key) := Meaning(lossy, x)];
      var tail := FoldSound(lossy, rest, acc');
      es := MoreEntries(length, key, x, tail);
      Join(input, UnparseString(length, key), middle, Unparse(x), rest, UnparseEntries(tail),
           FoldMany0(lossy, rest, acc').0);
    }
  }
}
