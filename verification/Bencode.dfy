/**
 * Bencoding (BEP 3, "bencoding"): values, and the grammar as concrete syntax trees. Both decoders
 * are measured against it. Text is the bytes of a string after the lossy UTF-8 conversion, which
 * is a parameter.
 */
module Bencode {
  import opened ByteStrings
  import opened Wrappers

  datatype Value =
    | Int(n: int)
    | String(text: Bytes)
    | List(items: seq<Value>)
    | Map(entries: map<Bytes, Value>)

  const COLON: byte := 58
  const LETTER_D: byte := 100
  const LETTER_E: byte := 101
  const LETTER_I: byte := 105
  const LETTER_L: byte := 108
  const PLUS: byte := 43
  const MINUS: byte := 45

  const I64_MIN: int := -0x8000_0000_0000_0000
  const I64_MAX: int := 0x7fff_ffff_ffff_ffff

  // ---- Decimal numbers ----

  predicate IsDigit(b: byte) {
    48 <= b <= 57
  }

  predicate AllDigits(s: Bytes) {
    forall b <- s :: IsDigit(b)
  }

  function Digit(b: byte): nat
    requires IsDigit(b)
  {
    var n: int := b;
    n - 48
  }

  function DecimalValue(s: Bytes): nat
    requires AllDigits(s)
  {
    if s == [] then 0 else DecimalValue(s[..|s| - 1]) * 10 + Digit(s[|s| - 1])
  }

  function Signed(positive: bool, n: int): int {
    if positive then n else -n
  }

  predicate InI64(n: int) {
    I64_MIN <= n <= I64_MAX
  }

  /** A length: at least one digit, and the number fits 64 bits. */
  function ParseLength(s: Bytes): Option<nat> {
    if s != [] && AllDigits(s) && DecimalValue(s) < U64 then Some(DecimalValue(s)) else None
  }

  /** A signed 64-bit number with an optional sign. */
  function ParseI64(s: Bytes): Option<int> {
    var negative := s != [] && s[0] == MINUS;
    var digits := if s != [] && (s[0] == MINUS || s[0] == PLUS) then s[1..] else s;
    if digits == [] || !AllDigits(digits) then None
    else
      var n := Signed(!negative, DecimalValue(digits));
      if InI64(n) then Some(n) else None
  }

  // ---- The grammar ----

  /** A bencoded text as it is spelled out. */
  datatype Syntax =
    | IntLit(number: Bytes)
    | StrLit(length: Bytes, bytes: Bytes)
    | ListLit(items: Items)
    | DictLit(entries: Entries)

  datatype Items = NoItems | MoreItems(head: Syntax, tail: Items)

  datatype Entries = NoEntries | MoreEntries(length: Bytes, key: Bytes, value: Syntax, rest: Entries)

  function Unparse(x: Syntax): (r: Bytes)
    ensures r != []
  {
    match x
    case IntLit(number) => [LETTER_I] + number + [LETTER_E]
    case StrLit(length, bytes) => UnparseString(length, bytes)
    case ListLit(items) => [LETTER_L] + UnparseItems(items) + [LETTER_E]
    case DictLit(entries) => [LETTER_D] + UnparseEntries(entries) + [LETTER_E]
  }

  function UnparseString(length: Bytes, bytes: Bytes): Bytes {
    length + [COLON] + bytes
  }

  function UnparseItems(xs: Items): Bytes {
    match xs
    case NoItems => []
    case MoreItems(x, tail) => Unparse(x) + UnparseItems(tail)
  }

  function UnparseEntries(es: Entries): Bytes {
    match es
    case NoEntries => []
    case MoreEntries(length, key, x, rest) => UnparseString(length, key) + Unparse(x) + UnparseEntries(rest)
  }

  /** Numbers are numbers, and lengths are right. */
  predicate WellFormed(x: Syntax) {
    match x
    case IntLit(number) => ParseI64(number).Some?
    case StrLit(length, bytes) => ParseLength(length) == Some(|bytes|)
    case ListLit(items) => WellFormedItems(items)
    case DictLit(entries) => WellFormedEntries(entries)
  }

  predicate WellFormedItems(xs: Items) {
    xs.MoreItems? ==> WellFormed(xs.head) && WellFormedItems(xs.tail)
  }

  predicate WellFormedEntries(es: Entries) {
    es.MoreEntries? ==>
      ParseLength(es.length) == Some(|es.key|) && WellFormed(es.value) && WellFormedEntries(es.rest)
  }

  /** The value that a well-formed text stands for; of two entries with the same key the later one counts. */
  ghost function Meaning(lossy: Bytes -> Bytes, x: Syntax): Value
    requires WellFormed(x)
  {
    match x
    case IntLit(number) => Int(ParseI64(number).value)
    case StrLit(_, bytes) => String(lossy(bytes))
    case ListLit(items) => List(MeaningItems(lossy, items))
    case DictLit(entries) => Map(MeaningEntries(lossy, entries, map[]))
  }

  ghost function MeaningItems(lossy: Bytes -> Bytes, xs: Items): seq<Value>
    requires WellFormedItems(xs)
  {
    match xs
    case NoItems => []
    case MoreItems(x, tail) => [Meaning(lossy, x)] + MeaningItems(lossy, tail)
  }

  ghost function MeaningEntries(lossy: Bytes -> Bytes, es: Entries, acc: map<Bytes, Value>): map<Bytes, Value>
    requires WellFormedEntries(es)
    decreases es
  {
    match es
    case NoEntries => acc
    case MoreEntries(_, key, x, rest) => MeaningEntries(lossy, rest, acc[lossy(key) := Meaning(lossy, x)])
  }

  /** No list or dictionary in the text is empty. */
  predicate Full(x: Syntax) {
    match x
    case IntLit(_) => true
    case StrLit(_, _) => true
    case ListLit(items) => items.MoreItems? && FullItems(items)
    case DictLit(entries) => entries.MoreEntries? && FullEntries(entries)
  }

  predicate FullItems(xs: Items) {
    xs.MoreItems? ==> Full(xs.head) && FullItems(xs.tail)
  }

  predicate FullEntries(es: Entries) {
    es.MoreEntries? ==> Full(es.value) && FullEntries(es.rest)
  }

  // ---- First characters and delimiters ----

  lemma LengthsStartWithADigit(s: Bytes)
    requires ParseLength(s).Some?
    ensures s != [] && IsDigit(s[0]) && COLON !in s
  {
  }

  lemma NumbersHaveNoE(s: Bytes)
    requires ParseI64(s).Some?
    ensures LETTER_E !in s
  {
    var digits := if s[0] == MINUS || s[0] == PLUS then s[1..] else s;
    forall b <- s ensures b != LETTER_E {
      assert b == s[0] || b in s[1..];
    }
  }
}
