/** The hand-written recursive decoder, and that it accepts exactly the texts without empty lists and dictionaries. */
module BencodePlain {
  import opened ByteStrings
  import opened Wrappers
  import opened Bencode

  datatype Result = Ok(rest: Bytes, value: Value) | Err | Panics

  /** The first position of a character. */
  function Position(c: byte, s: Bytes): (r: Option<nat>)
    ensures r.None? ==> c !in s
    ensures r.Some? ==> r.value < |s| && s[r.value] == c && forall k: nat :: k < r.value ==> s[k] != c
  {
    if s == [] then None
    else if s[0] == c then Some(0)
    else
      match Position(c, s[1..])
      case None => None
      case Some(i) => Some(i + 1)
  }

  function StringAt(lossy: Bytes -> Bytes, bytes: Bytes): Result {
    match Position(COLON, bytes)
    case None => Err
    case Some(colon) =>
      match ParseLength(bytes[..colon])
      case None => Err
      case Some(len) =>
        var rest := bytes[colon + 1..];
        if len > |rest| then Panics else Ok(rest[len..], String(lossy(rest[..len])))
  }

  function IntAt(bytes: Bytes): Result
    requires bytes != [] && bytes[0] == LETTER_I
  {
    match Position(LETTER_E, bytes)
    case None => Err
    case Some(end) =>
      match ParseI64(bytes[1..end])
      case None => Err
      case Some(n) => Ok(bytes[end + 1..], Int(n))
  }

  /** Decodes one value from the front; an unknown first character, or a key that is no string, panics. */
  function DecodeAt(lossy: Bytes -> Bytes, bytes: Bytes): (r: Result)
    ensures r.Ok? ==> |r.rest| < |bytes|
    decreases |bytes|, 1
  {
    if bytes == [] then Err
    else if IsDigit(bytes[0]) then StringAt(lossy, bytes)
    else if bytes[0] == LETTER_I then IntAt(bytes)
    else if bytes[0] == LETTER_L then ListAt(lossy, bytes[1..], [])
    else if bytes[0] == LETTER_D then DictAt(lossy, bytes[1..], map[])
    else Panics
  }

  /** The rest of a list: decodes an element first, and only then looks for the end. */
  function ListAt(lossy: Bytes -> Bytes, bytes: Bytes, list: seq<Value>): (r: Result)
    ensures r.Ok? ==> |r.rest| < |bytes| && r.value.List?
    decreases |bytes|, 2
  {
    match DecodeAt(lossy, bytes)
    case Err => Err
    case Panics => Panics
    case Ok(rest, elem) =>
      if rest != [] && rest[0] == LETTER_E then Ok(rest[1..], List(list + [elem]))
      else ListAt(lossy, rest, list + [elem])
  }

  /** The rest of a dictionary, likewise. */
  function DictAt(lossy: Bytes -> Bytes, bytes: Bytes, m: map<Bytes, Value>): (r: Result)
    ensures r.Ok? ==> |r.rest| < |bytes| && r.value.Map?
    decreases |bytes|, 2
  {
    match DecodeAt(lossy, bytes)
    case Err => Err
    case Panics => Panics
    case Ok(rest, key) =>
      if !key.String? then Panics
      else
        match DecodeAt(lossy, rest)
        case Err => Err
        case Panics => Panics
        case Ok(rest, val) =>
          var m' := m[key.text := val];
          if rest != [] && rest[0] == LETTER_E then Ok(rest[1..], Map(m'))
          else DictAt(lossy, rest, m')
  }

  /** The decoder as it runs: the slice shrinks, and the list or map grows in a loop. */
  method Decode(lossy: Bytes -> Bytes, input: Bytes) returns (r: Result)
    ensures r == DecodeAt(lossy, input)
    decreases |input|
  {
    var bytes := input;
    if bytes == [] {
      return Err;
    }
    var ch := bytes[0];
    if IsDigit(ch) {
      var colonPos := Position(COLON, bytes);
      if colonPos == None {
        return Err;
      }
      var len := ParseLength(bytes[..colonPos.value]);
      if len == None {
        return Err;
      }
      bytes := bytes[colonPos.value + 1..];
      if len.value > |bytes| {
        return Panics;
      }
      var str := lossy(bytes[..len.value]);
      return Ok(bytes[len.value..], String(str));
    } else if ch == LETTER_I {
      var endPos := Position(LETTER_E, bytes);
      if endPos == None {
        return Err;
      }
      var num := ParseI64(bytes[1..endPos.value]);
      if num == None {
        return Err;
      }
      return Ok(bytes[endPos.value + 1..], Int(num.value));
    } else if ch == LETTER_L {
      var list: seq<Value> := [];
      bytes := bytes[1..];
      while true
        invariant |bytes| < |input|
        invariant DecodeAt(lossy, input) == ListAt(lossy, bytes, list)
        decreases |bytes|
      {
        var elem := Decode(lossy, bytes);
        if !elem.Ok? {
          return elem;
        }
        bytes := elem.rest;
        list := list + [elem.value];
        if bytes != [] && bytes[0] == LETTER_E {
          return Ok(bytes[1..], List(list));
        }
      }
    } else if ch == LETTER_D {
      var m: map<Bytes, Value> := map[];
      bytes := bytes[1..];
      while true
        invariant |bytes| < |input|
        invariant DecodeAt(lossy, input) == DictAt(lossy, bytes, m)
        decreases |bytes|
      {
        var key := Decode(lossy, bytes);
        if !key.Ok? {
          return key;
        }
        bytes := key.rest;
        if !key.value.String? {
          return Panics;
        }
        var val := Decode(lossy, bytes);
        if !val.Ok? {
          return val;
        }
        bytes := val.rest;
        m := m[key.value.text := val.value];
        if bytes != [] && bytes[0] == LETTER_E {
          return Ok(bytes[1..], Map(m));
        }
      }
    }
    return Panics;
  }

  // ---- Tokens ----

  lemma FirstPosition(c: byte, before: Bytes, rest: Bytes)
    requires c !in before
    ensures Position(c, before + [c] + rest) == Some(|before|)
    ensures var s := before + [c] + rest;
            s[..|before|] == before && s[|before| + 1..] == rest
  {
    var s := before + [c] + rest;
    assert s[..|before|] == before;
    assert s[|before|] == c;
    assert forall k: nat :: k < |before| ==> s[k] == before[k];
  }

  lemma StringComplete(lossy: Bytes -> Bytes, length: Bytes, bytes: Bytes, rest: Bytes)
    requires ParseLength(length) == Some(|bytes|)
    ensures DecodeAt(lossy, UnparseString(length, bytes) + rest) == Ok(rest, String(lossy(bytes)))
  {
    LengthsStartWithADigit(length);
    var input := UnparseString(length, bytes) + rest;
    assert input == length + [COLON] + (bytes + rest);
    FirstPosition(COLON, length, bytes + rest);
    assert (bytes + rest)[..|bytes|] == bytes && (bytes + rest)[|bytes|..] == rest;
  }

  lemma IntComplete(lossy: Bytes -> Bytes, number: Bytes, rest: Bytes)
    requires ParseI64(number).Some?
    ensures DecodeAt(lossy, Unparse(IntLit(number)) + rest) == Ok(rest, Int(ParseI64(number).value))
  {
    NumbersHaveNoE(number);
    var input := Unparse(IntLit(number)) + rest;
    assert input == ([LETTER_I] + number) + [LETTER_E] + rest;
    FirstPosition(LETTER_E, [LETTER_I] + number, rest);
    assert input[1..|number| + 1] == number;
  }

  // ---- Texts of the grammar: decoded when full, a panic otherwise ----

  /** What is expected of a text: its meaning if it is full, a panic if some list or dictionary is empty. */
  ghost function Expected(full: bool, rest: Bytes, value: Value): Result {
    if full then Ok(rest, value) else Panics
  }

  lemma {:induction false} DecodeComplete(lossy: Bytes -> Bytes, x: Syntax, rest: Bytes)
    requires WellFormed(x)
    ensures DecodeAt(lossy, Unparse(x) + rest) == Expected(Full(x), rest, Meaning(lossy, x))
    decreases x
  {
    var input := Unparse(x) + rest;
    match x
    case IntLit(number) => IntComplete(lossy, number, rest);
    case StrLit(length, bytes) => StringComplete(lossy, length, bytes, rest);
    case ListLit(items) =>
      assert input[1..] == UnparseItems(items) + ([LETTER_E] + rest);
      ListComplete(lossy, items, rest, []);
      assert [] + MeaningItems(lossy, items) == MeaningItems(lossy, items);
    case DictLit(entries) =>
      assert input[1..] == UnparseEntries(entries) + ([LETTER_E] + rest);
      DictComplete(lossy, entries, rest, map[]);
  }

  lemma {:induction false} ListComplete(lossy: Bytes -> Bytes, xs: Items, rest: Bytes, list: seq<Value>)
    requires WellFormedItems(xs)
    ensures ListAt(lossy, UnparseItems(xs) + ([LETTER_E] + rest), list)
         == Expected(xs.MoreItems? && FullItems(xs), rest, List(list + MeaningItems(lossy, xs)))
    decreases xs
  {
    var tail := [LETTER_E] + rest;
    match xs
    case NoItems =>
      assert UnparseItems(xs) + tail == tail;
    case MoreItems(x, more) =>
      var after, v := UnparseItems(more) + tail, Meaning(lossy, x);
      assert UnparseItems(xs) + tail == Unparse(x) + after;
      DecodeComplete(lossy, x, after);
      if Full(x) {
        if more.NoItems? {
          assert after == tail && tail[1..] == rest;
          assert list + [v] == list + MeaningItems(lossy, xs);
        } else {
          StartsWithNoE(more.head);
          assert after[0] == Unparse(more.head)[0];
          ListComplete(lossy, more, rest, list + [v]);
          assert list + MeaningItems(lossy, xs) == (list + [v]) + MeaningItems(lossy, more);
        }
      }
  }

  lemma StartsWithNoE(x: Syntax)
    requires WellFormed(x)
    ensures Unparse(x)[0] != LETTER_E
  {
    if x.StrLit? { LengthsStartWithADigit(x.length); }
  }

  lemma {:induction false} DictComplete(lossy: Bytes -> Bytes, es: Entries, rest: Bytes, m: map<Bytes, Value>)
    requires WellFormedEntries(es)
    ensures DictAt(lossy, UnparseEntries(es) + ([LETTER_E] + rest), m)
         == Expected(es.MoreEntries? && FullEntries(es), rest, Map(MeaningEntries(lossy, es, m)))
    decreases es
  {
    var tail := [LETTER_E] + rest;
    match es
    case NoEntries =>
      assert UnparseEntries(es) + tail == tail;
    case MoreEntries(length, key, x, more) =>
      var after := UnparseEntries(more) + tail;
      assert UnparseEntries(es) + tail == UnparseString(length, key) + (Unparse(x) + after);
      StringComplete(lossy, length, key, Unparse(x) + after);
      DecodeComplete(lossy, x, after);
      if Full(x) {
        if more.NoEntries? {
          assert after == tail && tail[1..] == rest;
        } else {
          LengthsStartWithADigit(more.length);
          assert after[0] == more.length[0];
          DictComplete(lossy, more, rest, m[lossy(key) := Meaning(lossy, x)]);
        }
      }
  }

  // ---- Whatever is decoded is a full text of the grammar ----

  lemma StringSound(lossy: Bytes -> Bytes, bytes: Bytes) returns (length: Bytes, text: Bytes)
    requires StringAt(lossy, bytes).Ok?
    ensures ParseLength(length) == Some(|text|)
    ensures StringAt(lossy, bytes).value == String(lossy(text))
    ensures bytes == UnparseString(length, text) + StringAt(lossy, bytes).rest
  {
    var colon := Position(COLON, bytes).value;
    length := bytes[..colon];
    text := bytes[colon + 1..][..DecimalValue(length)];
    CutAtColon(bytes, colon, |text|);
  }

  lemma CutAtColon(bytes: Bytes, colon: nat, n: nat)
    requires colon < |bytes| && bytes[colon] == COLON && n <= |bytes| - colon - 1
    ensures var tail := bytes[colon + 1..]; bytes == bytes[..colon] + [COLON] + tail[..n] + tail[n..]
  {
    var tail := bytes[colon + 1..];
    assert tail == tail[..n] + tail[n..];
    assert bytes == bytes[..colon] + [COLON] + tail;
  }

  lemma {:induction false} DecodeSound(lossy: Bytes -> Bytes, bytes: Bytes) returns (x: Syntax)
    requires DecodeAt(lossy, bytes).Ok?
    ensures WellFormed(x) && Full(x) && Meaning(lossy, x) == DecodeAt(lossy, bytes).value
    ensures bytes == Unparse(x) + DecodeAt(lossy, bytes).rest
    decreases |bytes|, 1
  {
    if IsDigit(bytes[0]) {
      var length, text := StringSound(lossy, bytes);
      x := StrLit(length, text);
    } else if bytes[0] == LETTER_I {
      var end := Position(LETTER_E, bytes).value;
      x := IntLit(bytes[1..end]);
      CutAtE(bytes, end);
    } else if bytes[0] == LETTER_L {
      var xs := ListSound(lossy, bytes[1..], []);
      x := ListLit(xs);
      assert [] + MeaningItems(lossy, xs) == MeaningItems(lossy, xs);
      Closed(bytes, LETTER_L, UnparseItems(xs), DecodeAt(lossy, bytes).rest);
    } else {
      var es := DictSound(lossy, bytes[1..], map[]);
      x := DictLit(es);
      Closed(bytes, LETTER_D, UnparseEntries(es), DecodeAt(lossy, bytes).rest);
    }
  }

  lemma CutAtE(bytes: Bytes, end: nat)
    requires 0 < end < |bytes| && bytes[0] == LETTER_I && bytes[end] == LETTER_E
    ensures bytes == [LETTER_I] + bytes[1..end] + [LETTER_E] + bytes[end + 1..]
  {
  }

  lemma Closed(bytes: Bytes, open: byte, body: Bytes, rest: Bytes)
    requires bytes != [] && bytes[0] == open && bytes[1..] == body + [LETTER_E] + rest
    ensures bytes == [open] + body + [LETTER_E] + rest
  {
    assert bytes == [open] + bytes[1..];
  }

  lemma LastOne(bytes: Bytes, a: Bytes, rest: Bytes)
    requires bytes == a + rest && rest != [] && rest[0] == LETTER_E
    ensures bytes == a + [] + [LETTER_E] + rest[1..]
  {
    assert rest == [LETTER_E] + rest[1..];
  }

  lemma OneMore(bytes: Bytes, a: Bytes, rest: Bytes, b: Bytes, last: Bytes)
    requires bytes == a + rest && rest == b + [LETTER_E] + last
    ensures bytes == a + b + [LETTER_E] + last
  {
  }

  lemma {:induction false} ListSound(lossy: Bytes -> Bytes, bytes: Bytes, list: seq<Value>) returns (xs: Items)
    requires ListAt(lossy, bytes, list).Ok?
    ensures xs.MoreItems? && WellFormedItems(xs) && FullItems(xs)
    ensures ListAt(lossy, bytes, list).value == List(list + MeaningItems(lossy, xs))
    ensures bytes == UnparseItems(xs) + [LETTER_E] + ListAt(lossy, bytes, list).rest
    decreases |bytes|, 2
  {
    var x := DecodeSound(lossy, bytes);
    var rest, v := DecodeAt(lossy, bytes).rest, Meaning(lossy, x);
    var more := NoItems;
    if rest != [] && rest[0] == LETTER_E {
      LastOne(bytes, Unparse(x), rest);
    } else {
      more := ListSound(lossy, rest, list + [v]);
      OneMore(bytes, Unparse(x), rest, UnparseItems(more), ListAt(lossy, rest, list + [v]).rest);
    }
    xs := MoreItems(x, more);
    AddedInFront(list, v, MeaningItems(lossy, more));
  }

  lemma AddedInFront(list: seq<Value>, v: Value, more: seq<Value>)
    ensures (list + [v]) + more == list + ([v] + more)
    ensures more == [] ==> list + [v] == list + ([v] + more)
  {
  }

  lemma KeyAndValue(bytes: Bytes, a: Bytes, middle: Bytes, b: Bytes, rest: Bytes)
    requires bytes == a + middle && middle == b + rest
    ensures bytes == a + b + rest
  {
  }

  lemma {:induction false} DictSound(lossy: Bytes -> Bytes, bytes: Bytes, m: map<Bytes, Value>) returns (es: Entries)
    requires DictAt(lossy, bytes, m).Ok?
    ensures es.MoreEntries? && WellFormedEntries(es) && FullEntries(es)
    ensures DictAt(lossy, bytes, m).value == Map(MeaningEntries(lossy, es, m))
    ensures bytes == UnparseEntries(es) + [LETTER_E] + DictAt(lossy, bytes, m).rest
    decreases |bytes|, 2
  {
    var length, text := StringSound(lossy, bytes);
    var middle := DecodeAt(lossy, bytes).rest;
    var x := DecodeSound(lossy, middle);
    var rest, m' := DecodeAt(lossy, middle).rest, m[lossy(text) := Meaning(lossy, x)];
    KeyAndValue(bytes, UnparseString(length, text), middle, Unparse(x), rest);
    var more := NoEntries;
    if rest != [] && rest[0] == LETTER_E {
      LastOne(bytes, UnparseString(length, text) + Unparse(x), rest);
    } else {
      more := DictSound(lossy, rest, m');
      OneMore(bytes, UnparseString(length, text) + Unparse(x), rest, UnparseEntries(more),
              DictAt(lossy, rest, m').rest);
    }
    es := MoreEntries(length, text, x, more);
  }
}
