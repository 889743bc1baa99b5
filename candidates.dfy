/** `DigitOptions`, the candidate mask of one cell (src/board.rs), and the
    free function `available`.  A mask is a `u16` whose bit d-1 stands for
    digit d; its abstract value is the set of positions whose bit is set. */
module Candidates {
  import opened Primitives
  import opened Bits

  /** The digits of a Sudoku, 1 to 9. */
  function DigitRange(): set<int> {
    {1, 2, 3, 4, 5, 6, 7, 8, 9}
  }

  /** The shift amount `digit as i8 - 1` that `check` and `new` compute. */
  function ShiftOf(digit: U16): int {
    AsI8(digit) - 1
  }

  /** A debug build panics when that shift amount is negative or 16 or more. */
  predicate ShiftOk(digit: U16) {
    0 <= ShiftOf(digit) < 16
  }

  /** For a digit 1 to 16 the shift is valid and is the digit less one. */
  lemma DigitShift(d: U16)
    requires 1 <= d <= 16
    ensures ShiftOk(d) && ShiftOf(d) == d - 1
  {
  }

  /** The set of values a sequence of digits holds. */
  function DigitsOf(ds: seq<U16>): (r: set<int>)
    ensures forall x :: x in r <==> x in ds
  {
    if ds == [] then {} else {ds[0] as int} + DigitsOf(ds[1..])
  }

  /** `1 << (x as i8 - 1)`, one term of `new`. */
  function Power(x: U16): (r: nat)
    requires ShiftOk(x)
    ensures r < 0x1_0000
  {
    Pow2Sixteen();
    Pow2Grows(ShiftOf(x), 16);
    Pow2(ShiftOf(x))
  }

  /** The vector of powers `new` collects from its digits. */
  function Powers(digits: seq<U16>): (r: seq<nat>)
    requires forall i :: 0 <= i < |digits| ==> ShiftOk(digits[i])
    ensures |r| == |digits|
    ensures forall i :: 0 <= i < |r| ==> r[i] < 0x1_0000
  {
    if digits == [] then [] else [Power(digits[0])] + Powers(digits[1..])
  }

  /** `fold(acc, |acc, x| acc + x)` over `u16`: None where a partial sum
      leaves `u16`, which panics in a debug build. */
  function SumFold(acc: U16, ps: seq<nat>): Option<U16>
    decreases |ps|
  {
    if ps == [] then Some(acc)
    else if acc + ps[0] > 0xFFFF then None
    else SumFold(acc + ps[0], ps[1..])
  }

  /** `fold(acc, |acc, x| acc | x)`: the union the evident intent of `new` asks for. */
  function UnionFold(acc: U16, ps: seq<nat>): U16
    requires forall i :: 0 <= i < |ps| ==> ps[i] < 0x1_0000
    decreases |ps|
  {
    if ps == [] then acc
    else
      Pow2Sixteen();
      OrBound(acc, ps[0], 16);
      UnionFold(Or(acc, ps[0]), ps[1..])
  }

  /** The positions (1 to 16) a mask marks as candidates. */
  function Members(o: DigitOptions): set<int> {
    Ones(o.opts, 16)
  }

  /** The mask holds digits only: no bit above bit 8 is set. */
  predicate IsDigitSet(o: DigitOptions) {
    Members(o) <= DigitRange()
  }

  datatype DigitOptions = DigitOptions(opts: U16) {

    /** `check`: whether `digit` is a candidate. */
    function Check(digit: U16): (r: bool)
      requires ShiftOk(digit)
      ensures r <==> ShiftOf(digit) + 1 in Members(this)
    {
      AndOne(Shr(opts, ShiftOf(digit)));
      And(Shr(opts, ShiftOf(digit)), 1) == 1
    }

    /** `count`: the number of candidates. */
    function Count(): (r: nat)
      ensures r == |Members(this)|
    {
      CountOnesIsCard(opts);
      CountOnes(opts)
    }

    /** `new`: the sum of `1 << (x - 1)` over the digits. */
    static function New(digits: seq<U16>): DigitOptions
      requires forall i :: 0 <= i < |digits| ==> ShiftOk(digits[i])
      requires SumFold(0, Powers(digits)).Some?
    {
      DigitOptions(SumFold(0, Powers(digits)).value)
    }

    /** `new` as evidently intended: the union of `1 << (x - 1)` over the
        digits, so that a repeated digit counts once. */
    static function NewUnion(digits: seq<U16>): DigitOptions
      requires forall i :: 0 <= i < |digits| ==> ShiftOk(digits[i])
    {
      DigitOptions(UnionFold(0, Powers(digits)))
    }

    /** `exclude`: `self.opts & !digits.opts`. */
    function Exclude(digits: DigitOptions): (r: DigitOptions)
      ensures Members(r) == Members(this) - Members(digits)
      ensures r.Count() <= Count()
    {
      AndBound(opts, Not16(digits.opts));
      var r := DigitOptions(And(opts, Not16(digits.opts)));
      AndNotMembers(this, digits);
      SubsetCard(Members(r), Members(this));
      r
    }

    /** `subtract_options`: remove the single candidate of every entry 1 to 8
        of `digits` that has exactly one; a slice shorter than 9 panics. */
    method SubtractOptions(digits: seq<DigitOptions>) returns (r: Outcome<DigitOptions>)
      ensures r.Panic? <==> |digits| < 9
      ensures r.Ok? ==> Members(r.value) == Members(this) - SingletonMembers(digits, 1, 9)
    {
      if |digits| < 9 {
        return Panic;
      }
      var result := ExcludeSingletons(this, digits, 1, 9);
      r := Ok(result);
    }
  }

  /** The union of the candidates of those entries lo..hi-1 of `digits` that
      hold exactly one. */
  function SingletonMembers(digits: seq<DigitOptions>, lo: nat, hi: nat): set<int>
    requires lo <= hi <= |digits|
    decreases hi - lo
  {
    if lo == hi then {}
    else SingletonMembers(digits, lo, hi - 1)
         + (if digits[hi - 1].Count() == 1 then Members(digits[hi - 1]) else {})
  }

  /** The loop `for i in lo..hi { if digits[i].count() == 1 { result =
      result.exclude(digits[i]) } }` shared by `subtract_options` and
      `available`, started from `start`. */
  method ExcludeSingletons(start: DigitOptions, digits: seq<DigitOptions>, lo: nat, hi: nat)
    returns (result: DigitOptions)
    requires lo <= hi <= |digits|
    ensures Members(result) == Members(start) - SingletonMembers(digits, lo, hi)
  {
    result := start;
    for i := lo to hi
      invariant Members(result) == Members(start) - SingletonMembers(digits, lo, i)
    {
      ghost var removed := if digits[i].Count() == 1 then Members(digits[i]) else {};
      assert SingletonMembers(digits, lo, i + 1) == SingletonMembers(digits, lo, i) + removed;
      if digits[i].Count() == 1 {
        result := result.Exclude(digits[i]);
      }
      RemoveInTurn(Members(start), SingletonMembers(digits, lo, i), removed);
    }
  }

  /** Removing two sets in turn removes their union (a step of the loop
      invariant above, stated apart to keep that proof small). */
  lemma RemoveInTurn(m: set<int>, a: set<int>, b: set<int>)
    ensures m - a - b == m - (a + b)
  {
  }

  /** `available`: the loop of `subtract_options` started from the empty mask. */
  method Available(digits: seq<DigitOptions>) returns (r: DigitOptions)
    requires |digits| == 9
    ensures r == DigitOptions(0)
  {
    var result := ExcludeSingletons(DigitOptions(0), digits, 1, 9);
    EmptyMembers();
    MembersDetermine(result, DigitOptions(0));
    r := result;
  }

  /** `available` as evidently intended: the same loop over entries 1 to 8,
      started from all nine digits, so the result is the digits that none of
      those entries pins down as its single candidate. */
  method AvailableIntended(digits: seq<DigitOptions>) returns (r: DigitOptions)
    requires |digits| == 9
    ensures Members(r) == DigitRange() - SingletonMembers(digits, 1, 9)
  {
    FullMembers();
    r := ExcludeSingletons(DigitOptions(0x1FF), digits, 1, 9);
  }

  // Lemmas about the mask operations

  /** 0x1FF holds exactly the nine digits. */
  lemma FullMembers()
    ensures Members(DigitOptions(0x1FF)) == DigitRange()
  {
    Pow2Sixteen();
    forall p | 1 <= p <= 16
      ensures HasPosition(0x1FF, p) <==> p <= 9
    {
      if p <= 9 {
        NotBitWidth(0, 9, p - 1);
        ZeroBit(p - 1);
      } else {
        HighBitZero(0x1FF, 9, p - 1);
      }
    }
  }

  lemma SubsetCard(a: set<int>, b: set<int>)
    requires a <= b
    ensures |a| <= |b|
  {
    assert b == a + (b - a);
  }

  lemma AndNotMembers(a: DigitOptions, b: DigitOptions)
    ensures And(a.opts, Not16(b.opts)) < 0x1_0000
    ensures Ones(And(a.opts, Not16(b.opts)), 16) == Members(a) - Members(b)
  {
    AndBound(a.opts, Not16(b.opts));
    forall p | 1 <= p <= 16
      ensures HasPosition(And(a.opts, Not16(b.opts)), p) <==> p in Members(a) && p !in Members(b)
    {
      AndBit(a.opts, Not16(b.opts), p - 1);
      NotBit(b.opts, p - 1);
    }
  }

  lemma EmptyMembers()
    ensures Members(DigitOptions(0)) == {}
  {
    forall p | 1 <= p <= 16
      ensures !HasPosition(0, p)
    {
      ZeroBit(p - 1);
    }
  }

  /** A mask is determined by its candidates. */
  lemma MembersDetermine(a: DigitOptions, b: DigitOptions)
    requires Members(a) == Members(b)
    ensures a == b
  {
    forall k | 0 <= k < 16
      ensures BitAt(a.opts, k) == BitAt(b.opts, k)
    {
      assert (k + 1 in Members(a)) == (k + 1 in Members(b));
    }
    Pow2Sixteen();
    BitsDetermine(a.opts, b.opts, 16);
  }
}
