/** The per-position LED state machine of the peck board (`LedState` in src/peckboard/lib.rs). */
module LedStates {
  import opened Words

  /** The colour one key position's LED group shows. */
  datatype LedState = Off | Blue | Red | Green | All

  /** Place of a state in the cycle Off, Blue, Red, Green, All: an independent reference for Next. */
  function Rank(s: LedState): (k: nat)
    ensures k < 5
  {
    match s
    case Off => 0
    case Blue => 1
    case Red => 2
    case Green => 3
    case All => 4
  }

  lemma RankInjective(a: LedState, b: LedState)
    requires Rank(a) == Rank(b)
    ensures a == b
  {
  }

  /** `LedState::next`: the successor of a state in the fixed cycle (the caller stores it back). */
  function Next(s: LedState): (r: LedState)
    ensures Rank(r) == (Rank(s) + 1) % 5
    ensures r != s
  {
    match s
    case Off => Blue
    case Blue => Red
    case Red => Green
    case Green => All
    case All => Off
  }

  /** Every state has exactly one predecessor, so Next is a bijection of the five states. */
  lemma NextBijective(b: LedState)
    ensures exists a :: Next(a) == b
    ensures forall a, a' :: Next(a) == b && Next(a') == b ==> a == a'
  {
    match b
    case Off => assert Next(All) == b;
    case Blue => assert Next(Off) == b;
    case Red => assert Next(Blue) == b;
    case Green => assert Next(Red) == b;
    case All => assert Next(Green) == b;
  }

  /** Next applied n times: the state after n pecks on one position. */
  function Advance(s: LedState, n: nat): LedState
    decreases n
  {
    if n == 0 then s else Advance(Next(s), n - 1)
  }

  lemma {:induction false} AdvanceRank(s: LedState, n: nat)
    ensures Rank(Advance(s, n)) == (Rank(s) + n) % 5
    decreases n
  {
    if n > 0 {
      AdvanceRank(Next(s), n - 1);
    }
  }

  /** Pecking `a + b` times is pecking `a` times and then `b` times. */
  lemma {:induction false} AdvanceAdd(s: LedState, a: nat, b: nat)
    ensures Advance(s, a + b) == Advance(Advance(s, a), b)
    decreases a
  {
    if a > 0 {
      AdvanceAdd(Next(s), a - 1, b);
    }
  }

  /** Only the number of pecks modulo five matters. */
  lemma {:induction false} AdvanceMod5(s: LedState, n: nat)
    ensures Advance(s, n) == Advance(s, n % 5)
    decreases n
  {
    if n >= 5 {
      AdvanceRank(s, 5);
      RankInjective(Advance(s, 5), s);
      AdvanceAdd(s, 5, n - 5);
      AdvanceMod5(s, n - 5);
    }
  }

  /** The cycle has length exactly five: five pecks return to the start, fewer never do. */
  lemma CycleLengthFive(s: LedState, n: nat)
    ensures Advance(s, n) == s <==> n % 5 == 0
  {
    AdvanceRank(s, n);
    if n % 5 == 0 {
      RankInjective(Advance(s, n), s);
    }
  }

  /** `LedState::as_value`: the three-line output pattern of a state (one 0/1 value per colour line). */
  function AsValue(s: LedState): (p: seq<u8>)
    ensures |p| == 3
    ensures forall i :: 0 <= i < 3 ==> p[i] <= 1
  {
    match s
    case Off => [0, 0, 0]
    case Red => [1, 0, 0]
    case Blue => [0, 1, 0]
    case Green => [0, 0, 1]
    case All => [1, 1, 1]
  }

  /** Number of lines a pattern drives high. */
  function Lit(p: seq<u8>): nat
  {
    if p == [] then 0 else (if p[0] == 1 then 1 else 0) + Lit(p[1..])
  }

  /** Off drives no line, All drives every line, each single colour drives exactly one. */
  lemma AsValueLit(s: LedState)
    ensures Lit(AsValue(s)) == (match s case Off => 0 case All => 3 case _ => 1)
  {
    var p := AsValue(s);
    assert p[1..][1..][1..] == [];
    assert Lit(p[1..][1..]) == (if p[2] == 1 then 1 else 0);
    assert Lit(p[1..]) == (if p[1] == 1 then 1 else 0) + Lit(p[1..][1..]);
  }

  /** Reads a pattern back as a state: the inverse of AsValue. */
  function FromValue(p: seq<u8>): (r: Option<LedState>)
    ensures r.Some? ==> AsValue(r.value) == p
  {
    if p == [0, 0, 0] then Some(Off)
    else if p == [1, 0, 0] then Some(Red)
    else if p == [0, 1, 0] then Some(Blue)
    else if p == [0, 0, 1] then Some(Green)
    else if p == [1, 1, 1] then Some(All)
    else None
  }

  lemma FromAsValue(s: LedState)
    ensures FromValue(AsValue(s)) == Some(s)
  {
  }

  /** Distinct states drive distinct patterns, so the LEDs always show which state a position is in. */
  lemma AsValueInjective(a: LedState, b: LedState)
    requires AsValue(a) == AsValue(b)
    ensures a == b
  {
    FromAsValue(a);
    FromAsValue(b);
  }
}
