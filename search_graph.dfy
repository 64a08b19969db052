// The graph container of search.py: a `State` holds a label, a walkable flag
// and the list of its successor states; an `Instance` maps labels to states
// and remembers the goal. Python's exceptions become `Exception` values.

module SearchGraph {
  import opened Wrappers
  import GridGraph

  /** The exceptions the container raises. */
  datatype Exception =
    | KeyError(key: GridGraph.Label)
    | ValueError(message: string)
    | AttributeError(name: string)

  // ---------------------------------------------------------------------------
  // Decimal text, as `str` writes an integer and `int` reads one back.
  // ---------------------------------------------------------------------------

  function Pow10(n: nat): (r: nat)
    ensures r >= 1
  {
    if n == 0 then 1 else 10 * Pow10(n - 1)
  }

  predicate IsDigit(c: char)
  {
    '0' <= c <= '9'
  }

  function DigitValue(c: char): (d: nat)
    requires IsDigit(c)
  {
    (c as int - '0' as int) as nat
  }

  function DigitChar(d: nat): (c: char)
    requires d < 10
  {
    (d + '0' as int) as char
  }

  /** The decimal digits of `n`, with no leading zero ("0" for zero), as `str` writes them. */
  function Digits(n: nat): (s: string)
    ensures |s| >= 1 && forall k :: 0 <= k < |s| ==> IsDigit(s[k])
    decreases n
  {
    if n < 10 then [DigitChar(n)] else Digits(n / 10) + [DigitChar(n % 10)]
  }

  /** `str(n)`: a minus sign for negative numbers, then the digits of the magnitude. */
  function Str(n: int): (s: string)
  {
    if n < 0 then "-" + Digits(-n) else Digits(n)
  }

  /** The number a string of digits denotes, leading zeros allowed. */
  function Value(s: string): (v: nat)
    requires forall k :: 0 <= k < |s| ==> IsDigit(s[k])
  {
    if s == [] then 0 else 10 * Value(s[..|s| - 1]) + DigitValue(s[|s| - 1])
  }

  /**
   * `int(s)` on text made of an optional sign and at least one digit; any
   * other text raises `ValueError`, written `None` here.
   */
  function IntOf(s: string): (r: Option<int>)
  {
    if |s| >= 2 && (s[0] == '-' || s[0] == '+') && forall k :: 1 <= k < |s| ==> IsDigit(s[k]) then
      var v: int := Value(s[1..]);
      Some(if s[0] == '-' then -v else v)
    else if |s| >= 1 && forall k :: 0 <= k < |s| ==> IsDigit(s[k]) then
      Some(Value(s))
    else
      None
  }

  /** Reading back what `Digits` writes gives the number again. */
  lemma {:induction false} ValueDigits(n: nat)
    ensures Value(Digits(n)) == n
    decreases n
  {
    if n >= 10 {
      ValueDigits(n / 10);
      var s := Digits(n);
      assert s[..|s| - 1] == Digits(n / 10);
    }
  }

  /** The value of two digit strings put side by side. */
  lemma {:induction false} ValueConcat(a: string, b: string)
    requires forall k :: 0 <= k < |a| ==> IsDigit(a[k])
    requires forall k :: 0 <= k < |b| ==> IsDigit(b[k])
    ensures Value(a + b) == Shifted(Value(a), |b|) + Value(b)
    decreases |b|
  {
    if b == [] {
      assert a + b == a;
    } else {
      var b' := b[..|b| - 1];
      assert (a + b)[..|a + b| - 1] == a + b';
      ValueConcat(a, b');
    }
  }

  /** `a` followed by `n` zero digits. */
  function Shifted(a: nat, n: nat): (r: nat)
  {
    if n == 0 then a else 10 * Shifted(a, n - 1)
  }

  /** Shifting by `n` digits multiplies by ten to the `n`. */
  lemma {:induction false} ShiftedProduct(a: nat, n: nat)
    ensures Shifted(a, n) == a * Pow10(n)
  {
    if n > 0 {
      ShiftedProduct(a, n - 1);
      assert 10 * (a * Pow10(n - 1)) == a * (10 * Pow10(n - 1));
    }
  }

  /** A number is below ten to the power of its digit count. */
  lemma {:induction false} DigitsBound(n: nat)
    ensures n < Pow10(|Digits(n)|)
    decreases n
  {
    if n >= 10 {
      DigitsBound(n / 10);
    }
  }

  /** The number written by the digits of `a` followed by those of `b`. */
  function Joined(a: nat, b: nat): (r: nat)
  {
    Shifted(a, |Digits(b)|) + b
  }

  /**
   * `int(str(a) + str(b))`, the hash of the label `(a, b)`: the digits of `b`
   * written after those of `a`, signed like `a`; `None` (a `ValueError`) when
   * `b` is negative, since a minus sign then stands in the middle of the text.
   */
  function LabelHash(a: int, b: int): (h: Option<int>)
    ensures b < 0 ==> h.None?
    ensures b >= 0 && a >= 0 ==> h == Some(Joined(a, b))
    ensures b >= 0 && a < 0 ==> h == Some(-(Joined(-a, b) as int))
  {
    if b < 0 then
      HashTextSignInside(a, b);
      IntOf(Str(a) + Str(b))
    else if a < 0 then
      HashTextNegative(a, b);
      IntOf(Str(a) + Str(b))
    else
      HashTextNatural(a, b);
      IntOf(Str(a) + Str(b))
  }

  lemma HashTextSignInside(a: int, b: int)
    requires b < 0
    ensures IntOf(Str(a) + Str(b)) == None
  {
    assert Str(b) == "-" + Digits(-b);
    IntOfInnerSign(Str(a), Digits(-b));
  }

  lemma HashTextNegative(a: int, b: nat)
    requires a < 0
    ensures IntOf(Str(a) + Str(b)) == Some(-(Joined(-a, b) as int))
  {
    var m: nat := -a;
    assert Str(a) + Str(b) == ("-" + Digits(m)) + Digits(b);
    ReadNegative(m, b);
  }

  /** `int` reads a minus sign followed by the digits of `m` and of `b` as `-Joined(m, b)`. */
  lemma ReadNegative(m: nat, b: nat)
    ensures IntOf(("-" + Digits(m)) + Digits(b)) == Some(-(Joined(m, b) as int))
  {
    IntOfNegative(Digits(m), Digits(b));
    DigitsValue(m, b);
  }

  lemma HashTextNatural(a: nat, b: nat)
    ensures IntOf(Str(a) + Str(b)) == Some(Joined(a, b) as int)
  {
    IntOfDigits(Digits(a) + Digits(b));
    DigitsValue(a, b);
  }

  /** The digits of `a` followed by those of `b` denote `Joined(a, b)`. */
  lemma DigitsValue(a: nat, b: nat)
    ensures Value(Digits(a) + Digits(b)) == Joined(a, b)
  {
    ValueDigits(a);
    ValueDigits(b);
    ValueConcat(Digits(a), Digits(b));
  }

  lemma IntOfDigits(t: string)
    requires |t| >= 1 && forall k :: 0 <= k < |t| ==> IsDigit(t[k])
    ensures IntOf(t) == Some(Value(t))
  {
    assert IsDigit(t[0]);
  }

  lemma IntOfNegative(t: string, w: string)
    requires |t| >= 1 && forall k :: 0 <= k < |t| ==> IsDigit(t[k])
    requires forall k :: 0 <= k < |w| ==> IsDigit(w[k])
    ensures IntOf(("-" + t) + w) == Some(-(Value(t + w) as int))
  {
    assert (("-" + t) + w)[1..] == t + w;
  }

  /** A minus sign after the first character makes the text unreadable. */
  lemma IntOfInnerSign(u: string, t: string)
    requires |u| >= 1
    ensures IntOf(u + ("-" + t)) == None
  {
    assert (u + ("-" + t))[|u|] == '-';
  }

  /** Distinct labels can share a hash: (1, 12) and (11, 2), or (0, 12) and (1, 2). */
  lemma HashCollisions()
    ensures LabelHash(1, 12) == LabelHash(11, 2) == Some(112)
    ensures LabelHash(0, 12) == LabelHash(1, 2) == Some(12)
  {
    assert |Digits(12)| == 2;
    assert |Digits(2)| == 1;
  }

  /** Among labels with non-negative parts whose second parts have equally many digits, the hash tells them apart. */
  lemma HashInjectiveSameWidth(a: nat, b: nat, c: nat, d: nat)
    requires |Digits(b)| == |Digits(d)|
    requires LabelHash(a, b) == LabelHash(c, d)
    ensures a == c && b == d
  {
    var n := |Digits(b)|;
    DigitsBound(b);
    DigitsBound(d);
    ShiftedProduct(a, n);
    ShiftedProduct(c, n);
    SplitUnique(a, b, c, d, Pow10(n));
  }

  /** A number splits in one way only into a multiple of `n` and a remainder below `n`. */
  lemma SplitUnique(a: nat, b: nat, c: nat, d: nat, n: nat)
    requires b < n && d < n
    requires a * n + b == c * n + d
    ensures a == c && b == d
  {
    if a < c {
      MultipleGap(a, c, n);
    } else if c < a {
      MultipleGap(c, a, n);
    }
  }

  lemma {:induction false} MultipleGap(a: nat, c: nat, n: nat)
    requires a < c
    ensures a * n + n <= c * n
    decreases c - a
  {
    assert c * n == (c - 1) * n + n;
    if a < c - 1 {
      MultipleGap(a, c - 1, n);
    }
  }

  // ---------------------------------------------------------------------------
  // States and the instance.
  // ---------------------------------------------------------------------------

  /** A search state: its label `cell`, whether it is walkable, and its successors in insertion order. */
  class State {
    const cell: GridGraph.Label
    const info: bool
    var successors: seq<State>

    constructor (cell: GridGraph.Label, info: bool)
      ensures this.cell == cell && this.info == info && successors == []
    {
      this.cell := cell;
      this.info := info;
      successors := [];
    }

    /** Appends `state` to the end of the successor list. */
    method AddSuccessor(state: State)
      modifies this
      ensures successors == old(successors) + [state]
    {
      successors := successors + [state];
    }

    /** `__hash__`: the label's two parts written one after the other and read as one integer. */
    function Hash(): (h: Option<int>)
      ensures cell.1 < 0 ==> h.None?
      ensures cell.0 >= 0 && cell.1 >= 0 ==> h == Some(cell.0 * Pow10(|Digits(cell.1)|) + cell.1)
      ensures cell.0 < 0 && cell.1 >= 0 ==> h == Some(-((-cell.0) * Pow10(|Digits(cell.1)|) + cell.1))
    {
      var (a, b) := cell;
      if b >= 0 then
        ShiftedProduct(if a < 0 then -a else a, |Digits(b)|);
        LabelHash(a, b)
      else
        LabelHash(a, b)
    }
  }

  /** The state space: states by label, and the goal once one is set. */
  class Instance {
    var states: map<GridGraph.Label, State>
    var goal: State?

    /** Every state is stored under its own label. */
    ghost predicate Valid()
      reads this
    {
      forall k :: k in states ==> states[k].cell == k
    }

    constructor ()
      ensures states == map[] && goal == null
      ensures Valid()
    {
      states := map[];
      goal := null;
    }

    /** Sets the goal, which must be walkable; otherwise raises and keeps the previous goal. */
    method SetGoal(state: State) returns (r: Outcome<Exception>)
      modifies this
      ensures states == old(states)
      ensures state.info ==> r == Pass && goal == state
      ensures !state.info ==> r == Fail(ValueError("goal state is not reachable")) && goal == old(goal)
      ensures r.Pass? ==> IsGoal(state) == Success(true)
    {
      if state.info {
        goal := state;
        r := Pass;
      } else {
        r := Fail(ValueError("goal state is not reachable"));
      }
    }

    /**
     * Whether `state` has the goal's label. With no goal set, reading the
     * goal's label raises `AttributeError`.
     */
    function IsGoal(state: State): (r: Result<bool, Exception>)
      reads this
      ensures goal == null ==> r == Failure(AttributeError("label"))
      ensures goal != null ==> r.Success? && (r.value <==> state.cell == goal.cell)
    {
      if goal == null then Failure(AttributeError("label")) else Success(state.cell == goal.cell)
    }

    /** Stores a fresh state with no successors under `(i, j)`, replacing any earlier one. */
    method AddState(i: int, j: int, free: bool)
      modifies this
      ensures (i, j) in states && fresh(states[(i, j)])
      ensures states == old(states)[(i, j) := states[(i, j)]]
      ensures states[(i, j)].cell == (i, j) && states[(i, j)].info == free && states[(i, j)].successors == []
      ensures goal == old(goal)
      ensures old(Valid()) ==> Valid()
    {
      var s := new State((i, j), free);
      states := states[(i, j) := s];
    }

    /**
     * Appends the state stored under `(p, q)` to the successors of the one
     * under `(i, j)`. A missing `(i, j)` raises first, then a missing `(p, q)`;
     * either way nothing changes.
     */
    method AddSuccessor(i: int, j: int, p: int, q: int) returns (r: Outcome<Exception>)
      modifies if (i, j) in states then {states[(i, j)]} else {}
      ensures states == old(states) && goal == old(goal)
      ensures (i, j) !in states ==> r == Fail(KeyError((i, j)))
      ensures (i, j) in states && (p, q) !in states ==> r == Fail(KeyError((p, q)))
      ensures r.Fail? ==> forall k :: k in states ==> states[k].successors == old(states[k].successors)
      ensures r.Pass? <==> (i, j) in states && (p, q) in states
      ensures r.Pass? ==>
        states[(i, j)].successors == old(states[(i, j)].successors) + [states[(p, q)]]
      ensures r.Pass? && old(Valid()) ==>
        forall k :: k in states && k != (i, j) ==> states[k].successors == old(states[k].successors)
    {
      if (i, j) !in states {
        return Fail(KeyError((i, j)));
      }
      if (p, q) !in states {
        return Fail(KeyError((p, q)));
      }
      states[(i, j)].AddSuccessor(states[(p, q)]);
      r := Pass;
    }

    /** `is_goal` looks at labels only: a state with the goal's label is the goal, whatever its flag and successors. */
    lemma IsGoalByLabel(s: State, t: State)
      requires s.cell == t.cell
      ensures IsGoal(s) == IsGoal(t)
    {
    }
  }
}
