/**
 * What the piece picker means, on plain sets: a set of owned pieces, a cursor that goes round
 * the missing pieces, and a low-water mark below which everything is owned.
 * The packed bit vector that implements it is in Bitfield.dfy.
 */
module Picker {
  import opened Wrappers

  datatype State = State(total: nat, owned: set<nat>, cur: nat, confirmed: nat) {

    /** The low-water mark is the least missing piece, and the cursor names a piece. */
    ghost predicate Valid() {
      && (forall i <- owned :: i < total)
      && confirmed <= total
      && confirmed !in owned
      && (forall i: nat :: i < confirmed ==> i in owned)
      && cur <= total
      && (cur == total ==> total == 0)
    }

    ghost function Missing(): set<nat> {
      set i: nat | i < total && i !in owned
    }

    ghost predicate Complete() {
      Missing() == {}
    }

    /** Where the cursor goes after looking at `cur`: one on, or back to the low-water mark. */
    function Next(): nat {
      if cur + 1 == total then confirmed else cur + 1
    }

    /** One call of the picker. */
    ghost function Pick(): (State, Option<nat>)
      requires Valid()
      decreases if cur == confirmed then 0 else total - cur
    {
      if confirmed >= total then (this, None)
      else if cur !in owned then (this.(cur := Next()), Some(cur))
      else this.(cur := Next()).Pick()
    }

    /** Recording that piece `i` is owned. */
    ghost function Set(i: nat): (s: State)
      requires Valid() && i < total
      ensures s.Valid() && s.owned == owned + {i}
    {
      var have := owned + {i};
      this.(owned := have, confirmed := if confirmed == i then FirstAbsent(have, total, i + 1) else confirmed)
    }

    /** How many places the cursor moves before it stands on `x`. */
    function Distance(x: nat): int {
      if x >= cur then x - cur else x - cur + total
    }

    /** The cursor meets `x` before `y`. */
    predicate Before(x: nat, y: nat) {
      Distance(x) < Distance(y)
    }
  }

  function Zero(total: nat): State {
    State(total, {}, 0, 0)
  }

  /** The first index from `c` on that is not in `have`; it is `total` when there is none. */
  ghost function FirstAbsent(have: set<nat>, total: nat, c: nat): (r: nat)
    requires c <= total && forall i <- have :: i < total
    ensures c <= r <= total && r !in have
    ensures forall i: nat :: c <= i < r ==> i in have
    decreases total - c
  {
    if c in have then FirstAbsent(have, total, c + 1) else c
  }

  lemma CompleteIffConfirmed(s: State)
    requires s.Valid()
    ensures s.Complete() <==> s.confirmed == s.total
    ensures s.Complete() <==> forall i: nat :: i < s.total ==> i in s.owned
  {
    if s.confirmed < s.total {
      assert s.confirmed in s.Missing();
    }
  }

  /**
   * The picker returns the missing piece that the cursor meets first, and nothing exactly when
   * no piece is missing. Only the cursor moves, to just behind the piece returned.
   */
  lemma {:induction false} PickReturnsNearestMissing(s: State)
    requires s.Valid()
    ensures var (s', r) := s.Pick();
            && s'.Valid() && s' == s.(cur := s'.cur)
            && (r.None? <==> s.Complete())
            && (r.None? ==> s' == s)
            && (r.Some? ==>
                  && r.value in s.Missing()
                  && (forall x <- s.Missing() :: s.Distance(r.value) <= s.Distance(x))
                  && s'.cur == if r.value + 1 == s.total then s.confirmed else r.value + 1)
    decreases if s.cur == s.confirmed then 0 else s.total - s.cur
  {
    CompleteIffConfirmed(s);
    if s.confirmed < s.total && s.cur in s.owned {
      PickReturnsNearestMissing(s.(cur := s.Next()));
      assert s.(cur := s.Next()).Missing() == s.Missing();
    }
  }

  /**
   * A pick keeps the order in which the cursor meets the other missing pieces, and sends the
   * piece it returns to the back.
   */
  lemma PickKeepsOrder(s: State, x: nat, y: nat)
    requires s.Valid() && s.Pick().1.Some?
    requires x in s.Missing() && y in s.Missing() && y != s.Pick().1.value
    ensures var (s', r) := s.Pick();
            if x == r.value then s'.Before(y, x) else s'.Before(y, x) == s.Before(y, x)
  {
    PickReturnsNearestMissing(s);
  }

  // ---- Round-robin fairness over any interleaving of picks and completions ----

  datatype Op = PickOp | SetOp(piece: nat)

  ghost predicate InRange(s: State, ops: seq<Op>)
    requires s.Valid()
  {
    forall op <- ops :: op.SetOp? ==> op.piece < s.total
  }

  ghost function Do(s: State, op: Op): (s': State)
    requires s.Valid() && InRange(s, [op])
    ensures s'.Valid() && s'.total == s.total
    ensures s'.owned == s.owned + if op.SetOp? then {op.piece} else {}
  {
    match op
    case PickOp => PickReturnsNearestMissing(s); s.Pick().0
    case SetOp(i) => assert op in [op]; s.Set(i)
  }

  ghost function Returned(s: State, op: Op): seq<nat>
    requires s.Valid()
  {
    if op.PickOp? && s.Pick().1.Some? then [s.Pick().1.value] else []
  }

  ghost function After(s: State, ops: seq<Op>): (s': State)
    requires s.Valid() && InRange(s, ops)
    ensures s'.Valid() && s'.total == s.total && s.owned <= s'.owned
    decreases |ops|
  {
    if ops == [] then s
    else
      assert ops[0] in ops;
      After(Do(s, ops[0]), ops[1..])
  }

  /** From a fresh picker, what is owned is what was set, whatever was picked in between. */
  lemma {:induction false} OwnedIsWhatWasSet(s: State, ops: seq<Op>)
    requires s.Valid() && InRange(s, ops)
    ensures After(s, ops).owned == s.owned + set op <- ops | op.SetOp? :: op.piece
    decreases |ops|
  {
    if ops != [] {
      assert ops[0] in ops;
      OwnedIsWhatWasSet(Do(s, ops[0]), ops[1..]);
      assert ops == [ops[0]] + ops[1..];
    }
  }

  /** The pieces returned by the picks of a run, in order. */
  ghost function Picks(s: State, ops: seq<Op>): seq<nat>
    requires s.Valid() && InRange(s, ops)
    decreases |ops|
  {
    if ops == [] then []
    else
      assert ops[0] in ops;
      Returned(s, ops[0]) + Picks(Do(s, ops[0]), ops[1..])
  }

  ghost function PickCount(ops: seq<Op>): nat {
    if ops == [] then 0 else (if ops[0].PickOp? then 1 else 0) + PickCount(ops[1..])
  }

  /** The missing pieces that the cursor meets before `p`. */
  ghost function Ahead(s: State, p: nat): set<nat> {
    set x <- s.Missing() | s.Before(x, p)
  }

  /** One step takes at least one piece from the queue ahead of `p`, or returns `p`. */
  lemma StepAdvances(s: State, op: Op, p: nat)
    requires s.Valid() && InRange(s, [op]) && p in Do(s, op).Missing()
    ensures p in s.Missing()
    ensures p in Returned(s, op) || |Ahead(Do(s, op), p)| + PickCount([op]) <= |Ahead(s, p)|
  {
    var s' := Do(s, op);
    if p !in Returned(s, op) {
      if op.PickOp? {
        PickReturnsNearestMissing(s);
        CompleteIffConfirmed(s);
        var r := s.Pick().1.value;
        forall x | x in Ahead(s', p) ensures x in Ahead(s, p) - {r} {
          PickKeepsOrder(s, p, x);
          if x == r { PickKeepsOrder(s, r, p); }
        }
        assert r in Ahead(s, p);
        Smaller(Ahead(s', p), Ahead(s, p) - {r});
      } else {
        assert op in [op];
        Smaller(Ahead(s', p), Ahead(s, p));
      }
    }
  }

  lemma Smaller<T>(a: set<T>, b: set<T>)
    requires a <= b
    ensures |a| <= |b|
  {
    if a != {} {
      var x :| x in a;
      Smaller(a - {x}, b - {x});
    }
  }

  lemma {:induction false} ReturnedOnceItsTurnComes(s: State, ops: seq<Op>, p: nat)
    requires s.Valid() && InRange(s, ops) && p in After(s, ops).Missing()
    requires PickCount(ops) > |Ahead(s, p)|
    ensures p in Picks(s, ops)
    decreases |ops|
  {
    assert ops[0] in ops;
    var s' := Do(s, ops[0]);
    assert p in s'.Missing();
    StepAdvances(s, ops[0], p);
    if p !in Returned(s, ops[0]) {
      assert PickCount([ops[0]]) == if ops[0].PickOp? then 1 else 0;
      ReturnedOnceItsTurnComes(s', ops[1..], p);
    }
  }

  lemma AllMissingAtFirst(n: nat)
    ensures |Zero(n).Missing()| == n
  {
    if n > 0 {
      AllMissingAtFirst(n - 1);
      assert Zero(n).Missing() == Zero(n - 1).Missing() + {n - 1};
    }
  }

  /** A piece that stays missing is returned within `total` picks, whatever else completes meanwhile. */
  lemma {:induction false} FairWithinTotalPicks(s: State, ops: seq<Op>, p: nat)
    requires s.Valid() && InRange(s, ops) && p in After(s, ops).Missing()
    requires PickCount(ops) >= s.total
    ensures p in Picks(s, ops)
  {
    AllMissingAtFirst(s.total);
    Smaller(Ahead(s, p), Zero(s.total).Missing() - {p});
    ReturnedOnceItsTurnComes(s, ops, p);
  }

  /**
   * While `p` is not returned, `q` is returned at most once, and which of the two the cursor
   * meets first tells whether that has happened.
   */
  lemma {:induction false} AtMostOnceBetween(s: State, ops: seq<Op>, p: nat, q: nat)
    requires s.Valid() && InRange(s, ops) && p != q
    requires p in After(s, ops).Missing() && q in After(s, ops).Missing()
    requires p !in Picks(s, ops)
    ensures s.Before(q, p) ==>
              multiset(Picks(s, ops))[q] == if After(s, ops).Before(q, p) then 0 else 1
    ensures !s.Before(q, p) ==>
              multiset(Picks(s, ops))[q] == 0 && !After(s, ops).Before(q, p)
    decreases |ops|
  {
    if ops != [] {
      assert ops[0] in ops;
      var s', rest := Do(s, ops[0]), Picks(Do(s, ops[0]), ops[1..]);
      assert p in s'.Missing() && q in s'.Missing();
      AtMostOnceBetween(s', ops[1..], p, q);
      assert multiset(Picks(s, ops)) == multiset(Returned(s, ops[0])) + multiset(rest);
      if ops[0].PickOp? {
        PickReturnsNearestMissing(s);
        assert Returned(s, ops[0]) == [s.Pick().1.value];
        PickKeepsOrder(s, q, p);
        if q != s.Pick().1.value {
          PickKeepsOrder(s, p, q);
        }
      }
    }
  }

  /**
   * Between two successive picks of `p`, with `p` missing throughout, every other piece that
   * stays missing is picked exactly once.
   */
  lemma EveryOtherPieceOncePerRound(s: State, ops: seq<Op>, p: nat, q: nat)
    requires s.Valid() && s.Pick().1 == Some(p)
    requires var s1 := Do(s, PickOp);
             && InRange(s1, ops)
             && p !in Picks(s1, ops)
             && p in After(s1, ops).Missing() && q in After(s1, ops).Missing()
             && After(s1, ops).Pick().1 == Some(p)
    requires p != q
    ensures multiset(Picks(Do(s, PickOp), ops))[q] == 1
  {
    var s1 := Do(s, PickOp);
    PickReturnsNearestMissing(s);
    assert q in s1.Missing() && s1.Missing() == s.Missing();
    PickKeepsOrder(s, p, q);
    AtMostOnceBetween(s1, ops, p, q);
    PickReturnsNearestMissing(After(s1, ops));
  }
}
