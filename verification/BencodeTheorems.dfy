/** The two decoders agree, they look no further than the text they decode, and they invert encoding. */
module BencodeTheorems {
  import opened ByteStrings
  import opened Wrappers
  import opened Bencode
  import Nom = BencodeNom
  import NomProofs = BencodeNomProofs
  import Plain = BencodePlain

  // ---- Agreement ----

  /** What the hand-written decoder returns, the combinator decoder returns too. */
  lemma PlainResultsAreNomResults(lossy: Bytes -> Bytes, input: Bytes)
    requires Plain.DecodeAt(lossy, input).Ok?
    ensures var r := Plain.DecodeAt(lossy, input);
            Nom.Decode(lossy, input) == Nom.Ok(r.rest, r.value)
  {
    var x := Plain.DecodeSound(lossy, input);
    NomProofs.DecodeComplete(lossy, x, Plain.DecodeAt(lossy, input).rest);
  }

  /**
   * What the combinator decoder returns, the hand-written one returns if no list or dictionary in
   * the text it read is empty; otherwise it panics.
   */
  lemma NomResultsInPlain(lossy: Bytes -> Bytes, input: Bytes) returns (x: Syntax)
    requires Nom.Decode(lossy, input).Ok?
    ensures WellFormed(x) && input == Unparse(x) + Nom.Decode(lossy, input).rest
    ensures var r := Nom.Decode(lossy, input);
            Plain.DecodeAt(lossy, input) == if Full(x) then Plain.Ok(r.rest, r.value) else Plain.Panics
  {
    x := NomProofs.DecodeSound(lossy, input);
    Plain.DecodeComplete(lossy, x, Nom.Decode(lossy, input).rest);
  }

  /** The combinator decoder fails if and only if no text of the grammar is in front. */
  lemma NomFailsIff(lossy: Bytes -> Bytes, input: Bytes)
    ensures Nom.Decode(lossy, input).Error? <==>
              forall x: Syntax, rest: Bytes :: WellFormed(x) ==> input != Unparse(x) + rest
  {
    if Nom.Decode(lossy, input).Ok? {
      var x := NomProofs.DecodeSound(lossy, input);
    }
    forall x: Syntax, rest: Bytes | WellFormed(x) && input == Unparse(x) + rest
      ensures Nom.Decode(lossy, input).Ok?
    {
      NomProofs.DecodeComplete(lossy, x, rest);
    }
  }

  /** The text read is determined by the input, so the condition above does not depend on a choice. */
  lemma TextIsUnique(x: Syntax, rest: Bytes, y: Syntax, rest': Bytes)
    requires WellFormed(x) && WellFormed(y) && Unparse(x) + rest == Unparse(y) + rest'
    ensures rest == rest' && Unparse(x) == Unparse(y) && (Full(x) <==> Full(y))
  {
    var same := (b: Bytes) => b;
    var input := Unparse(x) + rest;
    NomProofs.DecodeComplete(same, x, rest);
    NomProofs.DecodeComplete(same, y, rest');
    assert input[..|Unparse(x)|] == Unparse(x) && input[..|Unparse(y)|] == Unparse(y);
    Plain.DecodeComplete(same, x, rest);
    Plain.DecodeComplete(same, y, rest');
  }

  // ---- Locality ----

  /** A successful decode consumes a non-empty prefix, and decodes it in the same way before anything else. */
  lemma NomIsLocal(lossy: Bytes -> Bytes, p: Bytes, r: Bytes, r': Bytes)
    requires Nom.Decode(lossy, p + r).Ok? && Nom.Decode(lossy, p + r).rest == r
    ensures p != []
    ensures Nom.Decode(lossy, p + r') == Nom.Ok(r', Nom.Decode(lossy, p + r).value)
  {
    var x := NomProofs.DecodeSound(lossy, p + r);
    SamePrefix(p, Unparse(x), r);
    NomProofs.DecodeComplete(lossy, x, r');
  }

  lemma PlainIsLocal(lossy: Bytes -> Bytes, p: Bytes, r: Bytes, r': Bytes)
    requires Plain.DecodeAt(lossy, p + r).Ok? && Plain.DecodeAt(lossy, p + r).rest == r
    ensures p != []
    ensures Plain.DecodeAt(lossy, p + r') == Plain.Ok(r', Plain.DecodeAt(lossy, p + r).value)
  {
    var x := Plain.DecodeSound(lossy, p + r);
    SamePrefix(p, Unparse(x), r);
    Plain.DecodeComplete(lossy, x, r');
  }

  lemma SamePrefix(p: Bytes, q: Bytes, r: Bytes)
    requires p + r == q + r
    ensures p == q
  {
    assert |p| == |q|;
    assert (p + r)[..|p|] == p && (q + r)[..|q|] == q;
  }

  // ---- Encoding, from BEP 3 ----

  /** Raw strings in dictionary order. */
  predicate LexLeq(a: Bytes, b: Bytes) {
    a == [] || (b != [] && (a[0] < b[0] || (a[0] == b[0] && LexLeq(a[1..], b[1..]))))
  }

  lemma {:induction false} LexTotal(a: Bytes, b: Bytes)
    ensures LexLeq(a, b) || LexLeq(b, a)
  {
    if a != [] && b != [] && a[0] == b[0] { LexTotal(a[1..], b[1..]); }
  }

  lemma {:induction false} LexTransitive(a: Bytes, b: Bytes, c: Bytes)
    requires LexLeq(a, b) && LexLeq(b, c)
    ensures LexLeq(a, c)
  {
    if a != [] && a[0] == b[0] == c[0] { LexTransitive(a[1..], b[1..], c[1..]); }
  }

  ghost predicate IsLeast(k: Bytes, keys: set<Bytes>) {
    k in keys && forall j <- keys :: LexLeq(k, j)
  }

  lemma {:induction false} LeastExists(keys: set<Bytes>) returns (k: Bytes)
    requires keys != {}
    ensures IsLeast(k, keys)
  {
    var first :| first in keys;
    var others := keys - {first};
    assert forall j <- keys :: j == first || j in others;
    LexTotal(first, first);
    k := first;
    if others != {} {
      var l := LeastExists(others);
      LexTotal(first, l);
      if LexLeq(l, first) {
        k := l;
      } else {
        forall j <- others { LexTransitive(first, l, j); }
      }
    }
  }

  /** The keys of a dictionary in sorted order. */
  ghost function SortedKeys(keys: set<Bytes>): (s: seq<Bytes>)
    ensures |s| == |keys| && forall k :: k in s <==> k in keys
    ensures forall i, j :: 0 <= i < j < |s| ==> LexLeq(s[i], s[j]) && s[i] != s[j]
  {
    if keys == {} then []
    else
      assert exists k :: IsLeast(k, keys) by { var k := LeastExists(keys); }
      var k :| IsLeast(k, keys);
      [k] + SortedKeys(keys - {k})
  }

  function DecimalText(n: nat): (s: Bytes)
    ensures s != []
  {
    var last: byte := 48 + n % 10;
    if n < 10 then [last] else DecimalText(n / 10) + [last]
  }

  function IntText(n: int): Bytes {
    if n < 0 then [MINUS] + DecimalText(-n) else DecimalText(n)
  }

  /** The canonical text of a value: no leading zeros, keys in sorted order. */
  ghost function Canonical(v: Value): Syntax
    decreases v, 1
  {
    match v
    case Int(n) => IntLit(IntText(n))
    case String(s) => StrLit(DecimalText(|s|), s)
    case List(vs) => ListLit(CanonicalItems(vs))
    case Map(m) => DictLit(CanonicalEntries(v, SortedKeys(m.Keys)))
  }

  ghost function CanonicalItems(vs: seq<Value>): Items
    decreases vs, 0
  {
    if vs == [] then NoItems else MoreItems(Canonical(vs[0]), CanonicalItems(vs[1..]))
  }

  ghost function CanonicalEntries(v: Value, keys: seq<Bytes>): Entries
    requires v.Map? && forall k <- keys :: k in v.entries
    decreases v, 0, |keys|
  {
    if keys == [] then NoEntries
    else MoreEntries(DecimalText(|keys[0]|), keys[0], Canonical(v.entries[keys[0]]), CanonicalEntries(v, keys[1..]))
  }

  ghost function Encode(v: Value): Bytes {
    Unparse(Canonical(v))
  }

  /** Numbers fit 64 bits, and strings are text that the lossy conversion does not change. */
  ghost predicate Encodable(lossy: Bytes -> Bytes, v: Value) {
    match v
    case Int(n) => InI64(n)
    case String(s) => IsText(lossy, s)
    case List(vs) => forall x <- vs :: Encodable(lossy, x)
    case Map(m) => forall k <- m :: IsText(lossy, k) && Encodable(lossy, m[k])
  }

  ghost predicate IsText(lossy: Bytes -> Bytes, s: Bytes) {
    |s| < U64 && lossy(s) == s
  }

  /** No list or dictionary at any depth is empty. */
  ghost predicate NothingEmpty(v: Value) {
    match v
    case Int(_) => true
    case String(_) => true
    case List(vs) => vs != [] && forall x <- vs :: NothingEmpty(x)
    case Map(m) => m != map[] && forall k <- m :: NothingEmpty(m[k])
  }

  lemma {:induction false} DecimalRoundTrip(n: nat)
    ensures AllDigits(DecimalText(n)) && DecimalValue(DecimalText(n)) == n
  {
    var s := DecimalText(n);
    if n >= 10 {
      DecimalRoundTrip(n / 10);
      assert s[..|s| - 1] == DecimalText(n / 10);
    } else {
      assert s[..0] == [];
    }
  }

  lemma LengthRoundTrip(n: nat)
    requires n < U64
    ensures ParseLength(DecimalText(n)) == Some(n)
  {
    DecimalRoundTrip(n);
  }

  lemma IntRoundTrip(n: int)
    requires InI64(n)
    ensures ParseI64(IntText(n)) == Some(n)
  {
    var m: nat := if n < 0 then -n else n;
    DecimalRoundTrip(m);
    assert IntText(n)[1..] == DecimalText(m) || n >= 0;
    assert IsDigit(DecimalText(m)[0]);
  }

  lemma {:induction false} CanonicalIsRight(lossy: Bytes -> Bytes, v: Value)
    requires Encodable(lossy, v)
    ensures WellFormed(Canonical(v)) && Meaning(lossy, Canonical(v)) == v
    decreases v, 1
  {
    match v
    case Int(n) => IntRoundTrip(n);
    case String(s) => LengthRoundTrip(|s|);
    case List(vs) => CanonicalItemsAreRight(lossy, vs);
    case Map(m) =>
      CanonicalEntriesAreRight(lossy, v, SortedKeys(m.Keys), map[]);
      SelectedAll(m);
  }

  lemma {:induction false} CanonicalItemsAreRight(lossy: Bytes -> Bytes, vs: seq<Value>)
    requires forall x <- vs :: Encodable(lossy, x)
    ensures WellFormedItems(CanonicalItems(vs)) && MeaningItems(lossy, CanonicalItems(vs)) == vs
    decreases vs, 0
  {
    if vs != [] {
      CanonicalIsRight(lossy, vs[0]);
      CanonicalItemsAreRight(lossy, vs[1..]);
    }
  }

  ghost function Selected(m: map<Bytes, Value>, keys: seq<Bytes>): map<Bytes, Value>
    requires forall k <- keys :: k in m
  {
    map k | k in keys :: m[k]
  }

  lemma SelectedAll(m: map<Bytes, Value>)
    ensures map[] + Selected(m, SortedKeys(m.Keys)) == m
  {
  }

  lemma SelectedFirst(m: map<Bytes, Value>, keys: seq<Bytes>, acc: map<Bytes, Value>)
    requires keys != [] && forall k <- keys :: k in m
    ensures acc[keys[0] := m[keys[0]]] + Selected(m, keys[1..]) == acc + Selected(m, keys)
  {
    assert keys == [keys[0]] + keys[1..];
  }

  lemma {:induction false} CanonicalEntriesAreRight(
      lossy: Bytes -> Bytes, v: Value, keys: seq<Bytes>, acc: map<Bytes, Value>)
    requires v.Map? && forall k <- keys :: k in v.entries && IsText(lossy, k) && Encodable(lossy, v.entries[k])
    ensures var es := CanonicalEntries(v, keys);
            && WellFormedEntries(es)
            && MeaningEntries(lossy, es, acc) == acc + Selected(v.entries, keys)
    decreases v, 0, |keys|
  {
    if keys == [] {
      assert acc + Selected(v.entries, keys) == acc;
    } else {
      var k := keys[0];
      CanonicalIsRight(lossy, v.entries[k]);
      LengthRoundTrip(|k|);
      CanonicalEntriesAreRight(lossy, v, keys[1..], acc[k := v.entries[k]]);
      SelectedFirst(v.entries, keys, acc);
    }
  }

  /** The canonical text is full exactly when nothing in the value is empty. */
  lemma {:induction false} FullIffNothingEmpty(v: Value)
    ensures Full(Canonical(v)) <==> NothingEmpty(v)
    decreases v, 1
  {
    match v
    case Int(_) =>
    case String(_) =>
    case List(vs) => FullItemsIff(vs);
    case Map(m) =>
      FullEntriesIff(v, SortedKeys(m.Keys));
      assert m == map[] <==> m.Keys == {};
  }

  lemma {:induction false} FullItemsIff(vs: seq<Value>)
    ensures FullItems(CanonicalItems(vs)) <==> forall x <- vs :: NothingEmpty(x)
    ensures CanonicalItems(vs).NoItems? <==> vs == []
    decreases vs, 0
  {
    if vs != [] {
      FullIffNothingEmpty(vs[0]);
      FullItemsIff(vs[1..]);
      assert vs == [vs[0]] + vs[1..];
    }
  }

  lemma {:induction false} FullEntriesIff(v: Value, keys: seq<Bytes>)
    requires v.Map? && forall k <- keys :: k in v.entries
    ensures FullEntries(CanonicalEntries(v, keys)) <==> forall k <- keys :: NothingEmpty(v.entries[k])
    ensures CanonicalEntries(v, keys).NoEntries? <==> keys == []
    decreases v, 0, |keys|
  {
    if keys != [] {
      FullIffNothingEmpty(v.entries[keys[0]]);
      FullEntriesIff(v, keys[1..]);
      assert keys == [keys[0]] + keys[1..];
    }
  }

  // ---- Round trips ----

  /** The combinator decoder inverts encoding, for every value. */
  lemma {:induction false} NomRoundTrip(lossy: Bytes -> Bytes, v: Value, rest: Bytes)
    requires Encodable(lossy, v)
    ensures Nom.Decode(lossy, Encode(v) + rest) == Nom.Ok(rest, v)
  {
    CanonicalIsRight(lossy, v);
    NomProofs.DecodeComplete(lossy, Canonical(v), rest);
  }

  /** The hand-written decoder inverts encoding exactly for the values without an empty list or dictionary. */
  lemma PlainRoundTripIff(lossy: Bytes -> Bytes, v: Value, rest: Bytes)
    requires Encodable(lossy, v)
    ensures Plain.DecodeAt(lossy, Encode(v) + rest) == if NothingEmpty(v) then Plain.Ok(rest, v) else Plain.Panics
  {
    CanonicalIsRight(lossy, v);
    FullIffNothingEmpty(v);
    Plain.DecodeComplete(lossy, Canonical(v), rest);
  }
}
