/** Bencoded texts in plain characters: what the delimiters are, and what both decoders make of them. */
module BencodeTexts {
  import opened ByteStrings
  import opened Wrappers
  import opened Bencode
  import opened BencodeTheorems
  import Nom = BencodeNom
  import NomProofs = BencodeNomProofs
  import Plain = BencodePlain

  predicate IsAscii(s: string) {
    forall k :: 0 <= k < |s| ==> s[k] < '\U{80}'
  }

  /** The bytes of a text. */
  function Chars(s: string): (r: Bytes)
    requires IsAscii(s)
    ensures |r| == |s| && forall k :: 0 <= k < |s| ==> r[k] == s[k] as int
  {
    seq(|s|, k requires 0 <= k < |s| => s[k] as int)
  }

  // ---- Delimiters ----

  /** The kind of a value, by its first character. */
  predicate KindIs(v: Value, first: byte) {
    && (v.Int? <==> first == 'i' as int)
    && (v.String? <==> '0' as int <= first <= '9' as int)
    && (v.List? <==> first == 'l' as int)
    && (v.Map? <==> first == 'd' as int)
  }

  lemma SyntaxKind(lossy: Bytes -> Bytes, x: Syntax)
    requires WellFormed(x)
    ensures KindIs(Meaning(lossy, x), Unparse(x)[0])
    ensures !x.StrLit? ==> Unparse(x)[|Unparse(x)| - 1] == 'e' as int
  {
    if x.StrLit? { LengthsStartWithADigit(x.length); }
  }

  /** Whatever is decoded: its first character tells the kind, and it ends with an `e` if it is no string. */
  lemma DecodedKind(lossy: Bytes -> Bytes, input: Bytes)
    requires Nom.Decode(lossy, input).Ok?
    ensures var r := Nom.Decode(lossy, input);
            && |r.rest| < |input| && KindIs(r.value, input[0])
            && (!r.value.String? ==> input[|input| - |r.rest| - 1] == 'e' as int)
  {
    var x := NomProofs.DecodeSound(lossy, input);
    SyntaxKind(lossy, x);
    var text, rest := Unparse(x), Nom.Decode(lossy, input).rest;
    assert input[0] == text[0] && input[|text| - 1] == text[|text| - 1];
  }

  lemma PlainDecodedKind(lossy: Bytes -> Bytes, input: Bytes)
    requires Plain.DecodeAt(lossy, input).Ok?
    ensures var r := Plain.DecodeAt(lossy, input);
            && |r.rest| < |input| && KindIs(r.value, input[0])
            && (!r.value.String? ==> input[|input| - |r.rest| - 1] == 'e' as int)
  {
    PlainResultsAreNomResults(lossy, input);
    DecodedKind(lossy, input);
  }

  /** The same for what is encoded. A string is its length, a colon, and its bytes. */
  lemma EncodedKind(lossy: Bytes -> Bytes, v: Value)
    requires Encodable(lossy, v)
    ensures Encode(v) != [] && KindIs(v, Encode(v)[0])
    ensures !v.String? ==> Encode(v)[|Encode(v)| - 1] == 'e' as int
    ensures v.String? ==> Encode(v) == DecimalText(|v.text|) + [':' as int] + v.text
  {
    CanonicalIsRight(lossy, v);
    SyntaxKind(lossy, Canonical(v));
  }

  // ---- Numbers ----

  /** The bounds of 64 bits. */
  lemma SixtyFourBits(n: int)
    ensures InI64(n) <==> -9223372036854775808 <= n <= 9223372036854775807
    ensures n < U64 <==> n < 18446744073709551616
  {
  }

  predicate AreDigits(s: Bytes) {
    s != [] && forall k :: 0 <= k < |s| ==> '0' as int <= s[k] <= '9' as int
  }

  /** The number that digits spell, from the left. */
  function Spells(s: Bytes): nat
    requires s == [] || AreDigits(s)
  {
    if s == [] then 0
    else
      var last: int := s[|s| - 1];
      10 * Spells(s[..|s| - 1]) + (last - '0' as int)
  }

  lemma {:induction false} DigitsSpell(s: Bytes)
    requires s == [] || AreDigits(s)
    ensures AllDigits(s) && DecimalValue(s) == Spells(s)
  {
    assert AllDigits(s);
    if s != [] { DigitsSpell(s[..|s| - 1]); }
  }

  /** The signs that a number can have. */
  predicate IsSign(sign: Bytes) {
    sign == [] || sign == Chars("+") || sign == Chars("-")
  }

  function NumberOf(sign: Bytes, digits: Bytes): int
    requires AreDigits(digits)
  {
    var n: int := Spells(digits);
    if sign == Chars("-") then -n else n
  }

  lemma SignedDigits(sign: Bytes, digits: Bytes)
    requires IsSign(sign) && AreDigits(digits)
    ensures ParseI64(sign + digits)
         == if -9223372036854775808 <= NumberOf(sign, digits) <= 9223372036854775807
            then Some(NumberOf(sign, digits)) else None
  {
    DigitsSpell(digits);
    var s := sign + digits;
    if sign == [] {
      assert s == digits;
    } else {
      assert s[0] == sign[0] && s[1..] == digits;
    }
    assert Chars("+")[0] == 43 && Chars("-")[0] == 45;
    assert sign != [] ==> |sign| == 1;
    assert sign == Chars("-") <==> sign != [] && sign[0] == 45;
  }

  /** An `i`, a sign or none, digits, and an `e`: both decoders read the number if it fits 64 bits. */
  lemma IntegersAreRead(lossy: Bytes -> Bytes, sign: Bytes, digits: Bytes, rest: Bytes)
    requires IsSign(sign) && AreDigits(digits)
    requires -9223372036854775808 <= NumberOf(sign, digits) <= 9223372036854775807
    ensures var input, n := Chars("i") + (sign + digits) + Chars("e") + rest, NumberOf(sign, digits);
            && Nom.Decode(lossy, input) == Nom.Ok(rest, Int(n))
            && Plain.DecodeAt(lossy, input) == Plain.Ok(rest, Int(n))
  {
    SignedDigits(sign, digits);
    assert Chars("i") == [LETTER_I] && Chars("e") == [LETTER_E];
    NomProofs.DecodeComplete(lossy, IntLit(sign + digits), rest);
    Plain.DecodeComplete(lossy, IntLit(sign + digits), rest);
  }

  /** A number that does not fit is an error in both. */
  lemma TooLargeIsAnError(lossy: Bytes -> Bytes, sign: Bytes, digits: Bytes, rest: Bytes)
    requires IsSign(sign) && AreDigits(digits)
    requires !(-9223372036854775808 <= NumberOf(sign, digits) <= 9223372036854775807)
    ensures var input := Chars("i") + (sign + digits) + Chars("e") + rest;
            Nom.Decode(lossy, input).Error? && Plain.DecodeAt(lossy, input) == Plain.Err
  {
    SignedDigits(sign, digits);
    var number := sign + digits;
    var input := Chars("i") + number + Chars("e") + rest;
    assert Chars("i") == [LETTER_I] && Chars("e") == [LETTER_E];
    forall b <- number ensures b != LETTER_E {
      if b in digits { var k :| 0 <= k < |digits| && digits[k] == b; } else { assert b in sign; }
    }
    assert input == ([LETTER_I] + number) + [LETTER_E] + rest;
    Plain.FirstPosition(LETTER_E, [LETTER_I] + number, rest);
    assert input[1..|number| + 1] == number;
    if Nom.Decode(lossy, input).Ok? {
      DecodedKind(lossy, input);
      var x := NomProofs.DecodeSound(lossy, input);
      Plain.DecodeComplete(lossy, x, Nom.Decode(lossy, input).rest);
      assert false;
    }
  }

  /** A length, a colon, and that many bytes. */
  lemma StringsAreRead(lossy: Bytes -> Bytes, digits: Bytes, text: Bytes, rest: Bytes)
    requires AreDigits(digits) && Spells(digits) == |text| < 18446744073709551616
    ensures var input := digits + Chars(":") + text + rest;
            && Nom.Decode(lossy, input) == Nom.Ok(rest, String(lossy(text)))
            && Plain.DecodeAt(lossy, input) == Plain.Ok(rest, String(lossy(text)))
  {
    DigitsSpell(digits);
    assert Chars(":") == [COLON];
    NomProofs.DecodeComplete(lossy, StrLit(digits, text), rest);
    Plain.DecodeComplete(lossy, StrLit(digits, text), rest);
  }

  // ---- Some texts ----

  lemma FiveAnd52()
    ensures AreDigits(Chars("5")) && Spells(Chars("5")) == 5
    ensures AreDigits(Chars("52")) && Spells(Chars("52")) == 52
    ensures AreDigits(Chars("326")) && Spells(Chars("326")) == 326
  {
    assert Chars("5")[..0] == [];
    assert Chars("52")[..1] == Chars("5");
    assert Chars("3")[..0] == [] && Chars("32")[..1] == Chars("3") && Chars("326")[..2] == Chars("32");
    assert Spells(Chars("3")) == 3 && Spells(Chars("32")) == 32;
  }

  /** The text `5:hello`, and the number 52. */
  const HELLO := StrLit(Chars("5"), Chars("hello"))
  const FIFTY_TWO := IntLit(Chars("52"))

  lemma HelloAnd52(lossy: Bytes -> Bytes)
    ensures WellFormed(HELLO) && Unparse(HELLO) == Chars("5:hello")
    ensures Meaning(lossy, HELLO) == String(lossy(Chars("hello")))
    ensures WellFormed(FIFTY_TWO) && Unparse(FIFTY_TWO) == Chars("i52e") && Meaning(lossy, FIFTY_TWO) == Int(52)
    ensures ParseLength(Chars("5")) == Some(5)
  {
    FiveAnd52();
    DigitsSpell(Chars("5"));
    DigitsSpell(Chars("52"));
    SignedDigits([], Chars("52"));
    assert [] + Chars("52") == Chars("52");
  }

  /** A list of a string and a number. */
  lemma AListIsRead(lossy: Bytes -> Bytes, rest: Bytes)
    ensures var input, v := Chars("l5:helloi52ee") + rest, List([String(lossy(Chars("hello"))), Int(52)]);
            && Nom.Decode(lossy, input) == Nom.Ok(rest, v)
            && Plain.DecodeAt(lossy, input) == Plain.Ok(rest, v)
  {
    AListText(lossy);
    NomProofs.DecodeComplete(lossy, A_LIST, rest);
    Plain.DecodeComplete(lossy, A_LIST, rest);
  }

  const A_LIST := ListLit(MoreItems(HELLO, MoreItems(FIFTY_TWO, NoItems)))

  lemma TwoItems(lossy: Bytes -> Bytes, x: Syntax, y: Syntax)
    requires WellFormed(x) && WellFormed(y)
    ensures var items := MoreItems(x, MoreItems(y, NoItems));
            && WellFormedItems(items) && UnparseItems(items) == Unparse(x) + Unparse(y)
            && MeaningItems(lossy, items) == [Meaning(lossy, x), Meaning(lossy, y)]
            && (Full(x) && Full(y) ==> FullItems(items))
  {
    var second := MoreItems(y, NoItems);
    assert UnparseItems(second) == Unparse(y) && MeaningItems(lossy, second) == [Meaning(lossy, y)];
    assert WellFormedItems(second) && (Full(y) ==> FullItems(second));
  }

  lemma AListText(lossy: Bytes -> Bytes)
    ensures WellFormed(A_LIST) && Full(A_LIST) && Unparse(A_LIST) == Chars("l5:helloi52ee")
    ensures Meaning(lossy, A_LIST) == List([String(lossy(Chars("hello"))), Int(52)])
  {
    HelloAnd52(lossy);
    TwoItems(lossy, HELLO, FIFTY_TWO);
    Joined();
  }

  lemma Joined()
    ensures [LETTER_L] + (Chars("5:hello") + Chars("i52e")) + [LETTER_E] == Chars("l5:helloi52ee")
    ensures [LETTER_D] + (Chars("5:hello") + Chars("i52e")) + [LETTER_E] == Chars("d5:helloi52ee")
  {
  }

  lemma OneEntry(lossy: Bytes -> Bytes, length: Bytes, key: Bytes, x: Syntax)
    requires ParseLength(length) == Some(|key|) && WellFormed(x)
    ensures var entries := MoreEntries(length, key, x, NoEntries);
            && WellFormedEntries(entries) && UnparseEntries(entries) == UnparseString(length, key) + Unparse(x)
            && MeaningEntries(lossy, entries, map[]) == map[lossy(key) := Meaning(lossy, x)]
            && (Full(x) ==> FullEntries(entries))
  {
    assert WellFormedEntries(NoEntries) && UnparseEntries(NoEntries) == [];
  }

  /** A dictionary of a string and a number. */
  lemma ADictionaryIsRead(lossy: Bytes -> Bytes, rest: Bytes)
    ensures var input, v := Chars("d5:helloi52ee") + rest, Map(map[lossy(Chars("hello")) := Int(52)]);
            && Nom.Decode(lossy, input) == Nom.Ok(rest, v)
            && Plain.DecodeAt(lossy, input) == Plain.Ok(rest, v)
  {
    ADictionaryText(lossy);
    NomProofs.DecodeComplete(lossy, A_DICTIONARY, rest);
    Plain.DecodeComplete(lossy, A_DICTIONARY, rest);
  }

  const A_DICTIONARY := DictLit(MoreEntries(Chars("5"), Chars("hello"), FIFTY_TWO, NoEntries))

  lemma ADictionaryText(lossy: Bytes -> Bytes)
    ensures WellFormed(A_DICTIONARY) && Full(A_DICTIONARY) && Unparse(A_DICTIONARY) == Chars("d5:helloi52ee")
    ensures Meaning(lossy, A_DICTIONARY) == Map(map[lossy(Chars("hello")) := Int(52)])
  {
    HelloAnd52(lossy);
    OneEntry(lossy, Chars("5"), Chars("hello"), FIFTY_TWO);
    Joined();
  }

  /** Empty ones are read by the combinators, and are a panic in the hand-written decoder. */
  lemma EmptyOnesDiffer(lossy: Bytes -> Bytes, rest: Bytes)
    ensures Nom.Decode(lossy, Chars("le") + rest) == Nom.Ok(rest, List([]))
    ensures Nom.Decode(lossy, Chars("de") + rest) == Nom.Ok(rest, Map(map[]))
    ensures Plain.DecodeAt(lossy, Chars("le") + rest).Panics? && Plain.DecodeAt(lossy, Chars("de") + rest).Panics?
  {
    assert Unparse(ListLit(NoItems)) == Chars("le") && Unparse(DictLit(NoEntries)) == Chars("de");
    NomProofs.DecodeComplete(lossy, ListLit(NoItems), rest);
    NomProofs.DecodeComplete(lossy, DictLit(NoEntries), rest);
    Plain.DecodeComplete(lossy, ListLit(NoItems), rest);
    Plain.DecodeComplete(lossy, DictLit(NoEntries), rest);
  }

  /** A negative number is encoded without leading zeros. */
  lemma ANumberIsEncoded()
    ensures Encode(Int(-326)) == Chars("i-326e")
  {
    assert DecimalText(3) == Chars("3");
    assert DecimalText(32) == Chars("32");
    assert DecimalText(326) == Chars("326");
  }

  // ---- Entries with the same key ----

  ghost function Keys(es: Entries): seq<Bytes> {
    match es
    case NoEntries => []
    case MoreEntries(_, key, _, rest) => [key] + Keys(rest)
  }

  ghost function Texts(es: Entries): (r: seq<Syntax>)
    ensures |r| == |Keys(es)|
  {
    match es
    case NoEntries => []
    case MoreEntries(_, _, x, rest) => [x] + Texts(rest)
  }

  lemma {:induction false} TextsAreWellFormed(es: Entries, i: nat)
    requires WellFormedEntries(es) && i < |Texts(es)|
    ensures WellFormed(Texts(es)[i])
  {
    if i > 0 { TextsAreWellFormed(es.rest, i - 1); }
  }

  lemma KeysShift(es: Entries)
    requires es.MoreEntries?
    ensures |Keys(es)| == |Keys(es.rest)| + 1 && Keys(es)[0] == es.key
    ensures forall j :: 0 <= j < |Keys(es.rest)| ==> Keys(es.rest)[j] == Keys(es)[j + 1]
  {
  }

  /** No entry after the `i`-th has the same key, as text. */
  ghost predicate LastWithKey(lossy: Bytes -> Bytes, es: Entries, i: nat)
    requires i < |Keys(es)|
  {
    forall j :: i < j < |Keys(es)| ==> lossy(Keys(es)[j]) != lossy(Keys(es)[i])
  }

  lemma {:induction false} OtherKeysStay(lossy: Bytes -> Bytes, es: Entries, acc: map<Bytes, Value>, k: Bytes)
    requires WellFormedEntries(es) && forall j :: 0 <= j < |Keys(es)| ==> lossy(Keys(es)[j]) != k
    ensures k in MeaningEntries(lossy, es, acc) <==> k in acc
    ensures k in acc ==> MeaningEntries(lossy, es, acc)[k] == acc[k]
    decreases es
  {
    if es.MoreEntries? {
      KeysShift(es);
      OtherKeysStay(lossy, es.rest, acc[lossy(es.key) := Meaning(lossy, es.value)], k);
    }
  }

  lemma NoLaterKey(lossy: Bytes -> Bytes, es: Entries)
    requires es.MoreEntries? && LastWithKey(lossy, es, 0)
    ensures forall j :: 0 <= j < |Keys(es.rest)| ==> lossy(Keys(es.rest)[j]) != lossy(es.key)
  {
    KeysShift(es);
  }

  lemma LastInRest(lossy: Bytes -> Bytes, es: Entries, i: nat)
    requires es.MoreEntries? && 0 < i < |Keys(es)| && LastWithKey(lossy, es, i)
    ensures i - 1 < |Keys(es.rest)| && LastWithKey(lossy, es.rest, i - 1)
    ensures Keys(es.rest)[i - 1] == Keys(es)[i] && Texts(es.rest)[i - 1] == Texts(es)[i]
  {
    KeysShift(es);
  }

  /** Of the entries with one key the last counts. */
  lemma {:induction false} LastEntryCounts(lossy: Bytes -> Bytes, es: Entries, acc: map<Bytes, Value>, i: nat)
    requires WellFormedEntries(es) && i < |Keys(es)| && LastWithKey(lossy, es, i)
    ensures WellFormed(Texts(es)[i])
    ensures var m, k := MeaningEntries(lossy, es, acc), lossy(Keys(es)[i]);
            k in m && m[k] == Meaning(lossy, Texts(es)[i])
    decreases es
  {
    TextsAreWellFormed(es, i);
    KeysShift(es);
    var acc' := acc[lossy(es.key) := Meaning(lossy, es.value)];
    if i == 0 {
      NoLaterKey(lossy, es);
      OtherKeysStay(lossy, es.rest, acc', lossy(es.key));
    } else {
      LastInRest(lossy, es, i);
      LastEntryCounts(lossy, es.rest, acc', i - 1);
    }
  }
}
