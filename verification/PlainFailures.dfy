/**
 * Exactly when the hand-written bencode decoder returns an error, and when it panics: by the place at
 * which it gets stuck, and what it finds there.
 */
module PlainFailures {
  import opened ByteStrings
  import opened Wrappers
  import opened Bencode
  import opened BencodePlain

  // ---- Where the decoder gets stuck ----

  /**
   * The lists and dictionaries that are open at that place, from the outside in, each with what was
   * read of it before. `AtKey` is the place of a key.
   */
  datatype Place =
    | Here
    | AtKey(before: Entries)
    | InItem(items: Items, inner: Place)
    | InKey(before: Entries, inner: Place)
    | InValue(before: Entries, length: Bytes, key: Bytes, inner: Place)

  /** The text in front of the place. */
  function Before(place: Place): Bytes {
    match place
    case Here => []
    case AtKey(before) => ['d' as int] + UnparseEntries(before)
    case InItem(items, inner) => ['l' as int] + UnparseItems(items) + Before(inner)
    case InKey(before, inner) => ['d' as int] + UnparseEntries(before) + Before(inner)
    case InValue(before, length, key, inner) =>
      ['d' as int] + UnparseEntries(before) + UnparseString(length, key) + Before(inner)
  }

  /** Behind something that was read an `e` would close the list or dictionary. */
  predicate NotClosed(nothingYet: bool, text: Bytes) {
    nothingYet || text == [] || text[0] != 'e' as int
  }

  /** What was read before is well-formed and full, and nothing is closed. */
  predicate IsPlace(place: Place, tail: Bytes) {
    match place
    case Here => true
    case AtKey(before) => WellFormedEntries(before) && FullEntries(before) && NotClosed(before.NoEntries?, tail)
    case InItem(items, inner) =>
      && WellFormedItems(items) && FullItems(items) && IsPlace(inner, tail)
      && NotClosed(items.NoItems?, Before(inner) + tail)
    case InKey(before, inner) =>
      && WellFormedEntries(before) && FullEntries(before) && IsPlace(inner, tail)
      && NotClosed(before.NoEntries?, Before(inner) + tail)
    case InValue(before, length, key, inner) =>
      && WellFormedEntries(before) && FullEntries(before) && ParseLength(length) == Some(|key|) && IsPlace(inner, tail)
      && NotClosed(before.NoEntries?, UnparseString(length, key))
  }

  /** A key is expected. */
  predicate KeyExpected(place: Place) {
    match place
    case Here => false
    case AtKey(_) => true
    case InItem(_, inner) => KeyExpected(inner)
    case InKey(_, inner) => KeyExpected(inner)
    case InValue(_, _, _, inner) => KeyExpected(inner)
  }

  // ---- What it finds there ----

  predicate FirstAt(c: char, s: Bytes, k: nat)
    requires c < '\U{80}'
  {
    k < |s| && s[k] == c as int && forall j: nat :: j < k ==> s[j] != c as int
  }

  predicate IsDigitChar(b: byte) {
    '0' as int <= b <= '9' as int
  }

  /** Nothing at all; a length or a number without an end; or one that is none. */
  ghost predicate IsErr(tail: Bytes) {
    || tail == []
    || (IsDigitChar(tail[0]) &&
        forall k: nat :: FirstAt(':', tail, k) ==> ParseLength(tail[..k]).None?)
    || (tail[0] == 'i' as int && forall k: nat :: FirstAt('e', tail, k) ==> ParseI64(tail[1..k]).None?)
  }

  /** A character that begins nothing, or a string that is cut off. */
  ghost predicate IsPanic(tail: Bytes) {
    && tail != []
    && ((!IsDigitChar(tail[0]) && tail[0] != 'i' as int && tail[0] != 'l' as int && tail[0] != 'd' as int)
        || (IsDigitChar(tail[0]) && exists k: nat :: FirstAt(':', tail, k) && CutOff(tail, k)))
  }

  /** The length in front of position `k` is more than what is left behind it. */
  predicate CutOff(tail: Bytes, k: nat)
    requires k < |tail|
  {
    ParseLength(tail[..k]).Some? && ParseLength(tail[..k]).value > |tail| - k - 1
  }

  /** A value that is no string. */
  ghost predicate IsNoString(tail: Bytes) {
    exists x: Syntax, rest: Bytes :: WellFormed(x) && Full(x) && !x.StrLit? && tail == Unparse(x) + rest
  }

  ghost predicate ErrsAt(place: Place, tail: Bytes) {
    IsPlace(place, tail) && !KeyExpected(place) && IsErr(tail)
  }

  ghost predicate PanicsAt(place: Place, tail: Bytes) {
    IsPlace(place, tail) && if KeyExpected(place) then IsNoString(tail) else IsPanic(tail)
  }

  // ---- Tokens ----

  lemma FirstIsPosition(c: char, s: Bytes)
    requires c < '\U{80}'
    ensures Position(c as int, s).None? <==> forall k: nat :: !FirstAt(c, s, k)
    ensures Position(c as int, s).Some? ==> FirstAt(c, s, Position(c as int, s).value)
    ensures forall k: nat :: FirstAt(c, s, k) ==> Position(c as int, s) == Some(k)
  {
    var b: byte := c as int;
    forall k: nat | FirstAt(c, s, k) ensures Position(b, s) == Some(k) {
      assert s[k] in s;
      var v := Position(b, s).value;
      assert !(v < k) && !(k < v);
    }
    if Position(b, s).Some? { assert FirstAt(c, s, Position(b, s).value); }
  }

  lemma TokenFails(lossy: Bytes -> Bytes, tail: Bytes)
    requires tail == [] || (tail[0] != 'l' as int && tail[0] != 'd' as int)
    ensures IsErr(tail) <==> DecodeAt(lossy, tail) == Err
    ensures IsPanic(tail) <==> DecodeAt(lossy, tail) == Panics
  {
    if tail != [] {
      if IsDigitChar(tail[0]) {
        StringFails(lossy, tail);
      } else if tail[0] == 'i' as int {
        NumberFails(lossy, tail);
      }
    }
  }

  lemma StringFails(lossy: Bytes -> Bytes, tail: Bytes)
    requires tail != [] && IsDigitChar(tail[0])
    ensures IsErr(tail) <==> DecodeAt(lossy, tail) == Err
    ensures IsPanic(tail) <==> DecodeAt(lossy, tail) == Panics
  {
    FirstIsPosition(':', tail);
    assert DecodeAt(lossy, tail) == StringAt(lossy, tail);
    var colon := Position(COLON, tail);
    if colon.Some? {
      var k := colon.value;
      assert FirstAt(':', tail, k);
      assert |tail[k + 1..]| == |tail| - k - 1;
      assert CutOff(tail, k) <==> DecodeAt(lossy, tail) == Panics;
    }
  }

  lemma NumberFails(lossy: Bytes -> Bytes, tail: Bytes)
    requires tail != [] && tail[0] == 'i' as int
    ensures IsErr(tail) <==> DecodeAt(lossy, tail) == Err
    ensures !IsPanic(tail) && DecodeAt(lossy, tail) != Panics
  {
    FirstIsPosition('e', tail);
    assert DecodeAt(lossy, tail) == IntAt(tail);
    var end := Position(LETTER_E, tail);
    if end.Some? { assert FirstAt('e', tail, end.value); }
  }

  lemma NoTokenIsAList(tail: Bytes)
    requires tail != [] && (tail[0] == 'l' as int || tail[0] == 'd' as int)
    ensures !IsErr(tail) && !IsPanic(tail)
  {
  }

  lemma TextsDoNotStartWithE(x: Syntax)
    requires WellFormed(x)
    ensures Unparse(x)[0] != 'e' as int
  {
    if x.StrLit? { LengthsStartWithADigit(x.length); }
  }

  // ---- From the place to the failure ----

  /** Reading on behind full items comes to the same end as what follows. */
  lemma {:induction false} ItemsThenStuck(lossy: Bytes -> Bytes, items: Items, rest: Bytes, list: seq<Value>)
    requires WellFormedItems(items) && FullItems(items) && NotClosed(items.NoItems?, rest)
    requires !DecodeAt(lossy, rest).Ok?
    ensures ListAt(lossy, UnparseItems(items) + rest, list) == DecodeAt(lossy, rest)
  {
    match items
    case NoItems => assert [] + rest == rest;
    case MoreItems(x, tail) =>
      var after := UnparseItems(tail) + rest;
      assert UnparseItems(items) + rest == Unparse(x) + after;
      DecodeComplete(lossy, x, after);
      if tail.MoreItems? {
        TextsDoNotStartWithE(tail.head);
        assert after[0] == Unparse(tail.head)[0];
      } else {
        assert after == rest;
      }
      ItemsThenStuck(lossy, tail, rest, list + [Meaning(lossy, x)]);
  }

  /** What follows full entries: a key that fails or is no string, or a value that fails. */
  ghost predicate KeyFails(lossy: Bytes -> Bytes, rest: Bytes, r: Result) {
    !r.Ok? && (DecodeAt(lossy, rest) == r
               || (r.Panics? && DecodeAt(lossy, rest).Ok? && !DecodeAt(lossy, rest).value.String?)
               || (DecodeAt(lossy, rest).Ok? && DecodeAt(lossy, rest).value.String?
                   && DecodeAt(lossy, DecodeAt(lossy, rest).rest) == r))
  }

  lemma {:induction false} EntriesThenStuck(
      lossy: Bytes -> Bytes, es: Entries, rest: Bytes, m: map<Bytes, Value>, r: Result)
    requires WellFormedEntries(es) && FullEntries(es) && NotClosed(es.NoEntries?, rest) && KeyFails(lossy, rest, r)
    ensures DictAt(lossy, UnparseEntries(es) + rest, m) == r
    decreases es
  {
    match es
    case NoEntries => assert [] + rest == rest;
    case MoreEntries(length, key, x, tail) =>
      var after := UnparseEntries(tail) + rest;
      assert UnparseEntries(es) + rest == UnparseString(length, key) + (Unparse(x) + after);
      StringComplete(lossy, length, key, Unparse(x) + after);
      DecodeComplete(lossy, x, after);
      if tail.MoreEntries? {
        LengthsStartWithADigit(tail.length);
        assert after[0] == tail.length[0];
      } else {
        assert after == rest;
      }
      EntriesThenStuck(lossy, tail, rest, m[lossy(key) := Meaning(lossy, x)], r);
  }

  lemma {:induction false} PlaceFails(lossy: Bytes -> Bytes, place: Place, tail: Bytes, r: Result)
    requires (r.Err? && ErrsAt(place, tail)) || (r.Panics? && PanicsAt(place, tail))
    ensures DecodeAt(lossy, Before(place) + tail) == r
    decreases place
  {
    match place
    case Here => HereFails(lossy, tail, r);
    case AtKey(before) =>
      NoStringFails(lossy, tail);
      DictFails(lossy, before, tail, r);
    case InItem(items, inner) =>
      PlaceFails(lossy, inner, tail, r);
      ListFails(lossy, items, Before(inner) + tail);
      Regroup(['l' as int], UnparseItems(items), Before(inner), tail);
    case InKey(before, inner) =>
      PlaceFails(lossy, inner, tail, r);
      DictFails(lossy, before, Before(inner) + tail, r);
      Regroup(['d' as int], UnparseEntries(before), Before(inner), tail);
    case InValue(before, length, key, inner) =>
      PlaceFails(lossy, inner, tail, r);
      ValueFails(lossy, before, length, key, Before(inner) + tail, r);
      Regroup(['d' as int] + UnparseEntries(before), UnparseString(length, key), Before(inner), tail);
      assert ['d' as int] + UnparseEntries(before) + (UnparseString(length, key) + (Before(inner) + tail))
          == ['d' as int] + UnparseEntries(before) + UnparseString(length, key) + (Before(inner) + tail);
  }

  lemma Regroup(a: Bytes, b: Bytes, c: Bytes, d: Bytes)
    ensures (a + b + c) + d == a + b + (c + d)
  {
  }

  lemma ListFails(lossy: Bytes -> Bytes, items: Items, rest: Bytes)
    requires WellFormedItems(items) && FullItems(items) && NotClosed(items.NoItems?, rest)
    requires !DecodeAt(lossy, rest).Ok?
    ensures DecodeAt(lossy, ['l' as int] + UnparseItems(items) + rest) == DecodeAt(lossy, rest)
  {
    DropFirst('l' as int, UnparseItems(items), rest);
    ItemsThenStuck(lossy, items, rest, []);
  }

  lemma DropFirst(first: byte, a: Bytes, b: Bytes)
    ensures var s := [first] + a + b; s[0] == first && s[1..] == a + b
  {
  }

  lemma DictFails(lossy: Bytes -> Bytes, before: Entries, rest: Bytes, r: Result)
    requires WellFormedEntries(before) && FullEntries(before) && NotClosed(before.NoEntries?, rest)
    requires KeyFails(lossy, rest, r)
    ensures DecodeAt(lossy, ['d' as int] + UnparseEntries(before) + rest) == r
  {
    DropFirst('d' as int, UnparseEntries(before), rest);
    EntriesThenStuck(lossy, before, rest, map[], r);
  }

  lemma HereFails(lossy: Bytes -> Bytes, tail: Bytes, r: Result)
    requires (r.Err? && IsErr(tail)) || (r.Panics? && IsPanic(tail))
    ensures DecodeAt(lossy, Before(Here) + tail) == r
  {
    assert Before(Here) + tail == tail;
    if tail != [] && (tail[0] == 'l' as int || tail[0] == 'd' as int) { NoTokenIsAList(tail); }
    TokenFails(lossy, tail);
  }

  lemma NoStringFails(lossy: Bytes -> Bytes, tail: Bytes)
    requires IsNoString(tail)
    ensures DecodeAt(lossy, tail).Ok? && !DecodeAt(lossy, tail).value.String?
  {
    var x: Syntax, rest: Bytes :| WellFormed(x) && Full(x) && !x.StrLit? && tail == Unparse(x) + rest;
    DecodeComplete(lossy, x, rest);
  }

  lemma ValueFails(lossy: Bytes -> Bytes, before: Entries, length: Bytes, key: Bytes, rest: Bytes, r: Result)
    requires WellFormedEntries(before) && FullEntries(before) && ParseLength(length) == Some(|key|)
    requires NotClosed(before.NoEntries?, UnparseString(length, key)) && !r.Ok? && DecodeAt(lossy, rest) == r
    ensures DecodeAt(lossy, ['d' as int] + UnparseEntries(before) + (UnparseString(length, key) + rest)) == r
  {
    StringComplete(lossy, length, key, rest);
    LengthsStartWithADigit(length);
    assert (UnparseString(length, key) + rest)[0] == length[0];
    DictFails(lossy, before, UnparseString(length, key) + rest, r);
  }

  // ---- From the failure to the place ----

  lemma {:induction false} Stuck(lossy: Bytes -> Bytes, input: Bytes) returns (place: Place, tail: Bytes)
    requires !DecodeAt(lossy, input).Ok?
    ensures input == Before(place) + tail
    ensures if DecodeAt(lossy, input).Err? then ErrsAt(place, tail) else PanicsAt(place, tail)
    decreases |input|, 1
  {
    if input == [] || (input[0] != 'l' as int && input[0] != 'd' as int) {
      place, tail := Here, input;
      StuckHere(lossy, input);
    } else if input[0] == 'l' as int {
      var items, inner;
      items, inner, tail := ListStuck(lossy, input[1..], [], true);
      place := InItem(items, inner);
      InListText(input, items, inner, tail);
      InListPlace(items, inner, tail);
    } else {
      place, tail := DictStuck(lossy, input[1..], map[], true);
      assert input == ['d' as int] + input[1..];
    }
  }

  lemma StuckHere(lossy: Bytes -> Bytes, input: Bytes)
    requires input == [] || (input[0] != 'l' as int && input[0] != 'd' as int)
    requires !DecodeAt(lossy, input).Ok?
    ensures input == Before(Here) + input
    ensures if DecodeAt(lossy, input).Err? then ErrsAt(Here, input) else PanicsAt(Here, input)
  {
    TokenFails(lossy, input);
    assert [] + input == input;
  }

  lemma InListText(input: Bytes, items: Items, inner: Place, tail: Bytes)
    requires input != [] && input[0] == 'l' as int && input[1..] == UnparseItems(items) + Before(inner) + tail
    ensures input == Before(InItem(items, inner)) + tail
  {
    Reassemble('l' as int, input, UnparseItems(items) + Before(inner), tail);
    ThreeParts(['l' as int], UnparseItems(items), Before(inner));
  }

  lemma InListPlace(items: Items, inner: Place, tail: Bytes)
    requires WellFormedItems(items) && FullItems(items) && NotClosed(items.NoItems?, Before(inner) + tail)
    ensures ErrsAt(inner, tail) ==> ErrsAt(InItem(items, inner), tail)
    ensures PanicsAt(inner, tail) ==> PanicsAt(InItem(items, inner), tail)
  {
  }

  lemma Reassemble(first: byte, input: Bytes, before: Bytes, tail: Bytes)
    requires input != [] && input[0] == first && input[1..] == before + tail
    ensures input == [first] + before + tail
  {
    assert input == [first] + input[1..];
  }

  /** The items read, the place in the one that fails, and what is there. */
  lemma {:induction false} ListStuck(lossy: Bytes -> Bytes, bytes: Bytes, list: seq<Value>, nothingYet: bool)
    returns (items: Items, inner: Place, tail: Bytes)
    requires !ListAt(lossy, bytes, list).Ok? && NotClosed(nothingYet, bytes)
    ensures bytes == UnparseItems(items) + Before(inner) + tail
    ensures WellFormedItems(items) && FullItems(items)
    ensures NotClosed(nothingYet && items.NoItems?, Before(inner) + tail)
    ensures if ListAt(lossy, bytes, list).Err? then ErrsAt(inner, tail) else PanicsAt(inner, tail)
    decreases |bytes|, 2
  {
    var r := DecodeAt(lossy, bytes);
    if !r.Ok? {
      inner, tail := Stuck(lossy, bytes);
      items := NoItems;
      assert [] + Before(inner) + tail == bytes;
    } else {
      var x := DecodeSound(lossy, bytes);
      var more;
      more, inner, tail := ListStuck(lossy, r.rest, list + [r.value], false);
      items := MoreItems(x, more);
      ItemsJoin(bytes, Unparse(x), r.rest, UnparseItems(more), Before(inner), tail);
    }
  }

  lemma ItemsJoin(bytes: Bytes, a: Bytes, rest: Bytes, b: Bytes, c: Bytes, d: Bytes)
    requires bytes == a + rest && rest == b + c + d
    ensures bytes == (a + b) + c + d
  {
  }

  predicate InDict(place: Place) {
    place.AtKey? || place.InKey? || place.InValue?
  }

  /** The text of the key or value that is read at the place. */
  function Following(place: Place, tail: Bytes): Bytes
    requires InDict(place)
  {
    match place
    case AtKey(_) => tail
    case InKey(_, inner) => Before(inner) + tail
    case InValue(_, length, key, inner) => UnparseString(length, key) + (Before(inner) + tail)
  }

  /** The place is in the dictionary whose entries are read; entries may have been read before. */
  predicate IsDictPlace(place: Place, tail: Bytes, nothingYet: bool)
    requires InDict(place)
  {
    && WellFormedEntries(place.before) && FullEntries(place.before)
    && NotClosed(nothingYet && place.before.NoEntries?, Following(place, tail))
    && (place.InKey? ==> IsPlace(place.inner, tail))
    && (place.InValue? ==> ParseLength(place.length) == Some(|place.key|) && IsPlace(place.inner, tail))
  }

  function Prepend(place: Place, length: Bytes, key: Bytes, x: Syntax): (p: Place)
    requires InDict(place)
    ensures InDict(p) && p.before == MoreEntries(length, key, x, place.before)
  {
    place.(before := MoreEntries(length, key, x, place.before))
  }

  lemma DictBefore(place: Place, tail: Bytes)
    requires InDict(place)
    ensures Before(place) + tail == ['d' as int] + (UnparseEntries(place.before) + Following(place, tail))
  {
    var d, es := ['d' as int], UnparseEntries(place.before);
    match place
    case AtKey(_) => ThreeParts(d, es, tail);
    case InKey(_, inner) =>
      Regroup(d, es, Before(inner), tail);
      ThreeParts(d, es, Before(inner) + tail);
    case InValue(_, length, key, inner) =>
      var text := UnparseString(length, key);
      Regroup(d + es, text, Before(inner), tail);
      ThreeParts(d + es, text, Before(inner) + tail);
      ThreeParts(d, es, text + (Before(inner) + tail));
  }

  lemma ThreeParts(a: Bytes, b: Bytes, c: Bytes)
    ensures (a + b) + c == a + (b + c)
  {
  }

  lemma DictPlaceIsPlace(place: Place, tail: Bytes)
    requires InDict(place) && IsDictPlace(place, tail, true)
    ensures IsPlace(place, tail)
  {
    if place.InValue? {
      LengthsStartWithADigit(place.length);
      assert Following(place, tail)[0] == place.length[0];
    }
  }

  lemma PrependedPlace(place: Place, tail: Bytes, length: Bytes, key: Bytes, x: Syntax)
    requires InDict(place) && IsDictPlace(place, tail, false)
    requires ParseLength(length) == Some(|key|) && WellFormed(x) && Full(x)
    ensures var p := Prepend(place, length, key, x);
            && IsDictPlace(p, tail, true) && IsDictPlace(p, tail, false)
            && KeyExpected(p) == KeyExpected(place) && Following(p, tail) == Following(place, tail)
  {
  }

  lemma NoStringHere(lossy: Bytes -> Bytes, bytes: Bytes)
    requires DecodeAt(lossy, bytes).Ok? && !DecodeAt(lossy, bytes).value.String?
    ensures IsNoString(bytes)
  {
    var x := DecodeSound(lossy, bytes);
  }

  /** The place in the dictionary whose entries are read. */
  lemma {:induction false} DictStuck(lossy: Bytes -> Bytes, bytes: Bytes, m: map<Bytes, Value>, nothingYet: bool)
    returns (place: Place, tail: Bytes)
    requires !DictAt(lossy, bytes, m).Ok? && NotClosed(nothingYet, bytes)
    ensures InDict(place) && IsDictPlace(place, tail, nothingYet) && (nothingYet ==> IsPlace(place, tail))
    ensures ['d' as int] + bytes == Before(place) + tail
    ensures if DictAt(lossy, bytes, m).Err? then !KeyExpected(place) && IsErr(tail)
            else if KeyExpected(place) then IsNoString(tail) else IsPanic(tail)
    decreases |bytes|, 2
  {
    var r := DecodeAt(lossy, bytes);
    if !r.Ok? {
      var inner;
      inner, tail := Stuck(lossy, bytes);
      place := InKey(NoEntries, inner);
      assert [] + Following(place, tail) == bytes;
    } else if !r.value.String? {
      NoStringHere(lossy, bytes);
      place, tail := AtKey(NoEntries), bytes;
      assert [] + Following(place, tail) == bytes;
    } else {
      place, tail := EntryStuck(lossy, bytes, m, nothingYet);
    }
    assert bytes == UnparseEntries(place.before) + Following(place, tail);
    DictBefore(place, tail);
    if nothingYet { DictPlaceIsPlace(place, tail); }
  }

  /** Behind a key that is a string. */
  lemma {:induction false} EntryStuck(lossy: Bytes -> Bytes, bytes: Bytes, m: map<Bytes, Value>, nothingYet: bool)
    returns (place: Place, tail: Bytes)
    requires !DictAt(lossy, bytes, m).Ok? && NotClosed(nothingYet, bytes)
    requires DecodeAt(lossy, bytes).Ok? && DecodeAt(lossy, bytes).value.String?
    ensures InDict(place) && IsDictPlace(place, tail, nothingYet)
    ensures bytes == UnparseEntries(place.before) + Following(place, tail)
    ensures if DictAt(lossy, bytes, m).Err? then !KeyExpected(place) && IsErr(tail)
            else if KeyExpected(place) then IsNoString(tail) else IsPanic(tail)
    decreases |bytes|, 1
  {
    var k := DecodeSound(lossy, bytes);
    var length, key, rest := k.length, k.bytes, DecodeAt(lossy, bytes).rest;
    var r := DecodeAt(lossy, rest);
    if !r.Ok? {
      var inner;
      inner, tail := Stuck(lossy, rest);
      place := InValue(NoEntries, length, key, inner);
      assert [] + Following(place, tail) == bytes;
    } else {
      var x := DecodeSound(lossy, rest);
      var m' := m[DecodeAt(lossy, bytes).value.text := r.value];
      var later;
      later, tail := DictStuck(lossy, r.rest, m', false);
      place := Prepend(later, length, key, x);
      PrependedPlace(later, tail, length, key, x);
      PrependedText(bytes, length, key, rest, x, r.rest, later, tail);
    }
  }

  lemma PrependedText(
      bytes: Bytes, length: Bytes, key: Bytes, rest: Bytes, x: Syntax, rest': Bytes, later: Place, tail: Bytes)
    requires bytes == UnparseString(length, key) + rest && rest == Unparse(x) + rest'
    requires InDict(later) && ['d' as int] + rest' == Before(later) + tail
    ensures bytes == UnparseEntries(MoreEntries(length, key, x, later.before)) + Following(later, tail)
  {
    DictBefore(later, tail);
    BehindD(rest', UnparseEntries(later.before) + Following(later, tail));
    EntriesJoin(bytes, UnparseString(length, key), rest, Unparse(x), rest',
      UnparseEntries(later.before), Following(later, tail));
  }

  lemma BehindD(a: Bytes, b: Bytes)
    requires ['d' as int] + a == ['d' as int] + b
    ensures a == b
  {
    assert (['d' as int] + a)[1..] == a && (['d' as int] + b)[1..] == b;
  }

  lemma EntriesJoin(bytes: Bytes, a: Bytes, rest: Bytes, b: Bytes, rest': Bytes, c: Bytes, d: Bytes)
    requires bytes == a + rest && rest == b + rest' && rest' == c + d
    ensures bytes == (a + b + c) + d
  {
  }

  // ---- Both directions ----

  /**
   * The decoder returns an error if and only if it gets stuck at a place where there is nothing, or a
   * number or length that has no end or is none.
   */
  lemma ErrsIff(lossy: Bytes -> Bytes, input: Bytes)
    ensures DecodeAt(lossy, input).Err? <==>
              exists place: Place, tail: Bytes :: input == Before(place) + tail && ErrsAt(place, tail)
  {
    if DecodeAt(lossy, input).Err? {
      var place, tail := Stuck(lossy, input);
    }
    forall place: Place, tail: Bytes | input == Before(place) + tail && ErrsAt(place, tail)
      ensures DecodeAt(lossy, input).Err?
    {
      PlaceFails(lossy, place, tail, Err);
    }
  }

  /**
   * It panics if and only if it gets stuck at a place where a character begins nothing, a string is
   * cut off, or a key is no string. An `e` begins nothing, so an empty list or dictionary is such a place.
   */
  lemma PanicsIff(lossy: Bytes -> Bytes, input: Bytes)
    ensures DecodeAt(lossy, input).Panics? <==>
              exists place: Place, tail: Bytes :: input == Before(place) + tail && PanicsAt(place, tail)
  {
    if DecodeAt(lossy, input).Panics? {
      var place, tail := Stuck(lossy, input);
    }
    forall place: Place, tail: Bytes | input == Before(place) + tail && PanicsAt(place, tail)
      ensures DecodeAt(lossy, input).Panics?
    {
      PlaceFails(lossy, place, tail, Panics);
    }
  }
}
