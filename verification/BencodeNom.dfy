/** The decoder made of parser combinators, and that it accepts exactly the grammar. */
module BencodeNom {
  import opened ByteStrings
  import opened Wrappers
  import opened Bencode

  datatype Result<+T> = Ok(rest: Bytes, value: T) | Error

  /** `char(c)`: takes that one character. */
  function Char(c: byte, input: Bytes): Result<byte> {
    if input != [] && input[0] == c then Ok(input[1..], c) else Error
  }

  /** `digit1`: the longest run of digits, at least one. */
  function Digits(input: Bytes): (n: nat)
    ensures n <= |input| && AllDigits(input[..n])
    ensures n < |input| ==> !IsDigit(input[n])
  {
    if input == [] || !IsDigit(input[0]) then 0
    else
      var n := 1 + Digits(input[1..]);
      assert input[..n] == [input[0]] + input[1..][..n - 1];
      n
  }

  function Digit1(input: Bytes): Result<Bytes> {
    var n := Digits(input);
    if n == 0 then Error else Ok(input[n..], input[..n])
  }

  /** `take(n)` */
  function Take(n: nat, input: Bytes): Result<Bytes> {
    if n <= |input| then Ok(input[n..], input[..n]) else Error
  }

  function LengthPrefix(input: Bytes): Result<nat> {
    match Digit1(input)
    case Error => Error
    case Ok(rest, digits) =>
      match Char(COLON, rest)
      case Error => Error
      case Ok(rest, _) =>
        match ParseLength(digits)
        case None => Error
        case Some(n) => Ok(rest, n)
  }

  /** A length, a colon, and that many bytes. */
  function Text(lossy: Bytes -> Bytes, input: Bytes): Result<Bytes> {
    match LengthPrefix(input)
    case Error => Error
    case Ok(rest, n) =>
      match Take(n, rest)
      case Error => Error
      case Ok(rest, bytes) => Ok(rest, lossy(bytes))
  }

  /** One more digit of a 64-bit number, if it still fits. */
  function AddDigit(positive: bool, value: int, digit: nat): Option<int> {
    var shifted := value * 10;
    if !InI64(shifted) then None
    else
      var n: int := if positive then shifted + digit else shifted - digit;
      if InI64(n) then Some(n) else None
  }

  /** The digits of a 64-bit number from `pos` on, each checked for overflow. */
  function NumberFrom(positive: bool, input: Bytes, pos: nat, value: int): Result<int>
    requires pos <= |input|
    decreases |input| - pos
  {
    if pos == |input| then Ok([], value)
    else if !IsDigit(input[pos]) then (if pos == 0 then Error else Ok(input[pos..], value))
    else
      match AddDigit(positive, value, Digit(input[pos]))
      case None => Error
      case Some(n) => NumberFrom(positive, input, pos + 1, n)
  }

  /** `i64`: an optional sign and digits. */
  function Number(input: Bytes): Result<int> {
    var signed := input != [] && (input[0] == MINUS || input[0] == PLUS);
    var digits := if signed then input[1..] else input;
    if digits == [] then Error else NumberFrom(!(signed && input[0] == MINUS), digits, 0, 0)
  }

  function Integer(input: Bytes): Result<int> {
    match Char(LETTER_I, input)
    case Error => Error
    case Ok(rest, _) =>
      match Number(rest)
      case Error => Error
      case Ok(rest, n) =>
        match Char(LETTER_E, rest)
        case Error => Error
        case Ok(rest, _) => Ok(rest, n)
  }

  /** `alt`: the first of the four parsers that succeeds. */
  ghost function Decode(lossy: Bytes -> Bytes, input: Bytes): (r: Result<Value>)
    ensures r.Ok? ==> |r.rest| < |input|
    decreases |input|, 1
  {
    NumberLeavesASuffix(input);
    match Integer(input)
    case Ok(rest, n) => Ok(rest, Int(n))
    case Error =>
      match Text(lossy, input)
      case Ok(rest, s) => Ok(rest, String(s))
      case Error =>
        match DecodeList(lossy, input)
        case Ok(rest, vs) => Ok(rest, List(vs))
        case Error =>
          match DecodeDict(lossy, input)
          case Ok(rest, m) => Ok(rest, Map(m))
          case Error => Error
  }

  ghost function DecodeList(lossy: Bytes -> Bytes, input: Bytes): (r: Result<seq<Value>>)
    ensures r.Ok? ==> |r.rest| < |input|
    decreases |input|, 0
  {
    match Char(LETTER_L, input)
    case Error => Error
    case Ok(rest, _) =>
      var (rest, vs) := Many0(lossy, rest);
      match Char(LETTER_E, rest)
      case Error => Error
      case Ok(rest, _) => Ok(rest, vs)
  }

  /** `many0(decode)`: as many values as can be decoded. */
  ghost function Many0(lossy: Bytes -> Bytes, input: Bytes): (r: (Bytes, seq<Value>))
    ensures |r.0| <= |input|
    decreases |input|, 2
  {
    match Decode(lossy, input)
    case Error => (input, [])
    case Ok(rest, v) =>
      var (last, vs) := Many0(lossy, rest);
      (last, [v] + vs)
  }

  ghost function DecodeDict(lossy: Bytes -> Bytes, input: Bytes): (r: Result<map<Bytes, Value>>)
    ensures r.Ok? ==> |r.rest| < |input|
    decreases |input|, 0
  {
    match Char(LETTER_D, input)
    case Error => Error
    case Ok(rest, _) =>
      var (rest, m) := FoldMany0(lossy, rest, map[]);
      match Char(LETTER_E, rest)
      case Error => Error
      case Ok(rest, _) => Ok(rest, m)
  }

  /** `fold_many0(pair(string, decode))`: inserts as many entries as can be decoded. */
  ghost function FoldMany0(lossy: Bytes -> Bytes, input: Bytes, acc: map<Bytes, Value>): (r: (Bytes, map<Bytes, Value>))
    ensures |r.0| <= |input|
    decreases |input|, 2
  {
    match Text(lossy, input)
    case Error => (input, acc)
    case Ok(rest, key) =>
      match Decode(lossy, rest)
      case Error => (input, acc)
      case Ok(rest, v) => FoldMany0(lossy, rest, acc[key := v])
  }

  // ---- Numbers ----

  lemma {:induction false} NumberFromLeavesASuffix(positive: bool, input: Bytes, pos: nat, value: int)
    requires pos <= |input|
    ensures var r := NumberFrom(positive, input, pos, value); r.Ok? ==> |r.rest| <= |input| - pos
    decreases |input| - pos
  {
    if pos < |input| && IsDigit(input[pos]) {
      var next := AddDigit(positive, value, Digit(input[pos]));
      if next.Some? { NumberFromLeavesASuffix(positive, input, pos + 1, next.value); }
    }
  }

  lemma NumberLeavesASuffix(input: Bytes)
    ensures Integer(input).Ok? ==> |Integer(input).rest| < |input|
  {
    if input != [] && input[1..] != [] {
      var rest := input[1..];
      var digits := if rest[0] == MINUS || rest[0] == PLUS then rest[1..] else rest;
      NumberFromLeavesASuffix(rest[0] != MINUS, digits, 0, 0);
    }
  }

  lemma EachIsADigit(input: Bytes, n: nat)
    requires n <= |input| && AllDigits(input[..n])
    ensures forall k: nat :: k < n ==> IsDigit(input[k])
  {
    forall k: nat | k < n ensures IsDigit(input[k]) {
      assert input[k] in input[..n];
    }
  }

  lemma DigitsAre(input: Bytes, n: nat)
    requires n <= |input| && AllDigits(input[..n]) && (n < |input| ==> !IsDigit(input[n]))
    ensures Digits(input) == n
  {
    EachIsADigit(input, n);
    EachIsADigit(input, Digits(input));
  }

  lemma {:induction false} DecimalGrows(s: Bytes, i: nat, j: nat)
    requires i <= j <= |s| && AllDigits(s[..j])
    ensures AllDigits(s[..i]) && DecimalValue(s[..i]) <= DecimalValue(s[..j])
    decreases j - i
  {
    assert s[..i] == s[..j][..i];
    if i < j {
      assert s[..j][..j - 1] == s[..j - 1];
      DecimalGrows(s, i, j - 1);
    }
  }

  /** The number that the leading digits spell, if it fits. */
  function RunOf(positive: bool, input: Bytes): Result<int> {
    var n := Digits(input);
    var total := Signed(positive, DecimalValue(input[..n]));
    if input != [] && n == 0 then Error else if InI64(total) then Ok(input[n..], total) else Error
  }

  /** Reading on from a prefix that fits gives the whole run of digits if that fits, and an error otherwise. */
  lemma {:induction false} NumberFromReadsTheRun(positive: bool, input: Bytes, pos: nat)
    requires pos <= |input| && AllDigits(input[..pos]) && InI64(Signed(positive, DecimalValue(input[..pos])))
    ensures NumberFrom(positive, input, pos, Signed(positive, DecimalValue(input[..pos]))) == RunOf(positive, input)
    decreases |input| - pos
  {
    if pos == |input| || !IsDigit(input[pos]) {
      DigitsAre(input, pos);
    } else {
      OneMoreDigit(input, pos);
      match AddDigit(positive, Signed(positive, DecimalValue(input[..pos])), Digit(input[pos]))
      case None =>
      case Some(_) => NumberFromReadsTheRun(positive, input, pos + 1);
    }
  }

  lemma OneMoreDigit(input: Bytes, pos: nat)
    requires pos < |input| && AllDigits(input[..pos]) && IsDigit(input[pos])
    ensures AllDigits(input[..pos + 1])
    ensures DecimalValue(input[..pos + 1]) == DecimalValue(input[..pos]) * 10 + Digit(input[pos])
    ensures Digits(input) > pos && DecimalValue(input[..Digits(input)]) >= DecimalValue(input[..pos + 1])
  {
    var next := input[..pos + 1];
    assert next[..pos] == input[..pos] && next[pos] == input[pos];
    assert next == input[..pos] + [input[pos]];
    EachIsADigit(input, pos + 1);
    DecimalGrows(input, pos + 1, Digits(input));
  }
}
