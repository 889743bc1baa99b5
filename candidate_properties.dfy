/** What the candidate masks of src/board.rs promise, stated on the model of
    module Candidates. */
module CandidateProperties {
  import opened Primitives
  import opened Bits
  import opened Candidates

  /** On a digit set, the digits 1 to 9 that `check` accepts are its candidates. */
  lemma CheckedDigits(o: DigitOptions)
    requires IsDigitSet(o)
    ensures (set d | d in DigitRange() && o.Check(d)) == Members(o)
  {
    forall d | d in DigitRange()
      ensures o.Check(d) <==> d in Members(o)
    {
      CheckIsMember(o, d);
    }
  }

  /** On a digit set, `count` is the number of digits 1 to 9 that `check` accepts. */
  lemma CountIsDigitCount(o: DigitOptions)
    requires IsDigitSet(o)
    ensures o.Count() == |set d | d in DigitRange() && o.Check(d)|
  {
    CheckedDigits(o);
  }

  /** Excluding the same mask twice changes nothing more. */
  lemma ExcludeTwice(a: DigitOptions, b: DigitOptions)
    ensures a.Exclude(b).Exclude(b) == a.Exclude(b)
  {
    MembersDetermine(a.Exclude(b).Exclude(b), a.Exclude(b));
  }

  /** Every entry is a digit 1 to 9. */
  predicate AreDigits(ds: seq<U16>) {
    forall i :: 0 <= i < |ds| ==> 1 <= ds[i] <= 9
  }

  /** No value occurs twice. */
  predicate Distinct(ds: seq<U16>) {
    forall i, j :: 0 <= i < j < |ds| ==> ds[i] != ds[j]
  }

  /** Every digit is a valid shift for `check` and `new`. */
  lemma DigitsShiftOk(ds: seq<U16>)
    requires AreDigits(ds)
    ensures forall i :: 0 <= i < |ds| ==> ShiftOk(ds[i])
  {
    forall i | 0 <= i < |ds|
      ensures ShiftOk(ds[i])
    {
      DigitShift(ds[i]);
    }
  }

  /** The tail of a distinct digit sequence is one too, and misses the head. */
  lemma DistinctTail(ds: seq<U16>)
    requires ds != [] && AreDigits(ds) && Distinct(ds)
    ensures AreDigits(ds[1..]) && Distinct(ds[1..])
    ensures ds[0] !in DigitsOf(ds[1..])
    ensures DigitsOf(ds) == {ds[0] as int} + DigitsOf(ds[1..])
  {
    var tail := ds[1..];
    forall i, j | 0 <= i < j < |tail|
      ensures tail[i] != tail[j]
    {
      assert tail[i] == ds[i + 1] && tail[j] == ds[j + 1];
    }
    forall j | 0 <= j < |tail|
      ensures tail[j] != ds[0]
    {
      assert tail[j] == ds[j + 1];
    }
  }

  lemma {:induction false} DistinctCard(ds: seq<U16>)
    requires AreDigits(ds) && Distinct(ds)
    ensures |DigitsOf(ds)| == |ds|
  {
    if ds != [] {
      DistinctTail(ds);
      DistinctCard(ds[1..]);
    }
  }

  /** One step of the fold of `new`, when it does not overflow. */
  lemma SumFoldStep(acc: U16, ds: seq<U16>)
    requires ds != [] && 1 <= ds[0] <= 9
    requires forall i :: 0 <= i < |ds| ==> ShiftOk(ds[i])
    requires acc + Pow2(ds[0] - 1) <= 0xFFFF
    ensures SumFold(acc, Powers(ds)) == SumFold(acc + Pow2(ds[0] - 1), Powers(ds[1..]))
  {
    DigitShift(ds[0]);
    assert Powers(ds) == [Pow2(ds[0] - 1)] + Powers(ds[1..]);
  }

  /** Adding the power of a digit that is not yet a candidate adds that
      candidate and stays below 512. */
  lemma AddFreshDigit(acc: U16, d: int)
    requires acc < 512 && 1 <= d <= 9 && d !in Ones(acc, 16)
    ensures acc + Pow2(d - 1) < 512
    ensures Ones(acc + Pow2(d - 1), 16) == Ones(acc, 16) + {d}
  {
    assert !HasPosition(acc, d);
    Pow2Sixteen();
    AddPowBound(acc, d - 1, 9);
    OnesAddPow(acc, d - 1);
  }

  /** The set bookkeeping of one step of the fold. */
  lemma FoldSets(all: set<int>, tail: set<int>, before: set<int>, d: int)
    requires all == {d} + tail && d !in tail && all !! before
    ensures tail !! before + {d}
    ensures before + {d} + tail == before + all
  {
  }

  lemma {:induction false} SumFoldDistinct(acc: U16, ds: seq<U16>)
    requires acc < 512 && AreDigits(ds) && Distinct(ds)
    requires DigitsOf(ds) !! Ones(acc, 16)
    ensures forall i :: 0 <= i < |ds| ==> ShiftOk(ds[i])
    ensures SumFold(acc, Powers(ds)).Some? && SumFold(acc, Powers(ds)).value < 512
    ensures Ones(SumFold(acc, Powers(ds)).value, 16) == Ones(acc, 16) + DigitsOf(ds)
    decreases |ds|
  {
    DigitsShiftOk(ds);
    if ds != [] {
      var d := ds[0];
      DistinctTail(ds);
      assert d in DigitsOf(ds);
      AddFreshDigit(acc, d);
      FoldSets(DigitsOf(ds), DigitsOf(ds[1..]), Ones(acc, 16), d);
      SumFoldDistinct(acc + Pow2(d - 1), ds[1..]);
      SumFoldStep(acc, ds);
    }
  }

  /** On a digit, `check` is membership in the mask's candidates. */
  lemma CheckIsMember(o: DigitOptions, d: U16)
    requires 1 <= d <= 9
    ensures o.Check(d) <==> d in Members(o)
  {
    DigitShift(d);
  }

  /** A membership step in the set display of the digits, stated apart so
      that proofs using it stay small. */
  lemma InDigitRange(p: int)
    requires 1 <= p <= 9
    ensures p in DigitRange()
  {
  }

  /** A mask whose candidates are the values of a sequence of digits is a
      digit set. */
  lemma DigitSetBySequence(o: DigitOptions, ds: seq<U16>)
    requires AreDigits(ds)
    requires Members(o) == DigitsOf(ds)
    ensures IsDigitSet(o)
  {
    forall p | p in Members(o)
      ensures p in DigitRange()
    {
      assert p in ds;
      var i :| 0 <= i < |ds| && ds[i] == p;
      InDigitRange(p);
    }
  }

  /** A mask whose candidates are the values of a sequence answers `check`
      by membership in that sequence. */
  lemma CheckBySequence(o: DigitOptions, ds: seq<U16>)
    requires Members(o) == DigitsOf(ds)
    ensures forall d :: 1 <= d <= 9 ==> (o.Check(d) <==> d in ds)
  {
    forall d | 1 <= d <= 9
      ensures o.Check(d) <==> d in ds
    {
      CheckIsMember(o, d);
    }
  }

  /** For distinct digits 1 to 9, `new` does not overflow and its candidates
      are exactly the digits given. */
  lemma NewDistinctMembers(ds: seq<U16>)
    requires AreDigits(ds) && Distinct(ds)
    ensures forall i :: 0 <= i < |ds| ==> ShiftOk(ds[i])
    ensures SumFold(0, Powers(ds)).Some?
    ensures Members(DigitOptions.New(ds)) == DigitsOf(ds)
  {
    EmptyMembers();
    SumFoldDistinct(0, ds);
  }

  /** For distinct digits, `new` builds exactly their set: `check` accepts a
      digit iff it was given, and `count` is the number of digits given. */
  lemma NewDistinct(ds: seq<U16>)
    requires AreDigits(ds) && Distinct(ds)
    ensures forall i :: 0 <= i < |ds| ==> ShiftOk(ds[i])
    ensures SumFold(0, Powers(ds)).Some?
    ensures IsDigitSet(DigitOptions.New(ds))
    ensures DigitOptions.New(ds).Count() == |ds|
    ensures forall d :: 1 <= d <= 9 ==> (DigitOptions.New(ds).Check(d) <==> d in ds)
  {
    NewDistinctMembers(ds);
    DistinctCard(ds);
    DigitSetBySequence(DigitOptions.New(ds), ds);
    CheckBySequence(DigitOptions.New(ds), ds);
  }

  lemma {:induction false} UnionFoldMembers(acc: U16, ds: seq<U16>)
    requires forall i :: 0 <= i < |ds| ==> 1 <= ds[i] <= 16
    ensures forall i :: 0 <= i < |ds| ==> ShiftOk(ds[i])
    ensures Ones(UnionFold(acc, Powers(ds)), 16) == Ones(acc, 16) + DigitsOf(ds)
    decreases |ds|
  {
    if ds != [] {
      var d := ds[0];
      DigitShift(d);
      Pow2Sixteen();
      Pow2Grows(d - 1, 16);
      OrBound(acc, Pow2(d - 1), 16);
      var next := Or(acc, Pow2(d - 1));
      OnesOrPow(acc, d - 1);
      UnionFoldMembers(next, ds[1..]);
      assert Powers(ds)[1..] == Powers(ds[1..]);
    }
  }

  /** The intended `new` builds the set of its digits whatever repeats. */
  lemma NewUnionMembers(ds: seq<U16>)
    requires forall i :: 0 <= i < |ds| ==> 1 <= ds[i] <= 16
    ensures forall i :: 0 <= i < |ds| ==> ShiftOk(ds[i])
    ensures Members(DigitOptions.NewUnion(ds)) == DigitsOf(ds)
  {
    EmptyMembers();
    UnionFoldMembers(0, ds);
  }

  /** On digits 1 to 9 the intended `new` answers `check` by membership. */
  lemma NewUnionChecks(ds: seq<U16>)
    requires AreDigits(ds)
    ensures forall i :: 0 <= i < |ds| ==> ShiftOk(ds[i])
    ensures IsDigitSet(DigitOptions.NewUnion(ds))
    ensures forall d :: 1 <= d <= 9 ==> (DigitOptions.NewUnion(ds).Check(d) <==> d in ds)
  {
    NewUnionMembers(ds);
    DigitSetBySequence(DigitOptions.NewUnion(ds), ds);
    CheckBySequence(DigitOptions.NewUnion(ds), ds);
  }

  lemma MembersOfTwo()
    ensures Members(DigitOptions(2)) == {2}
  {
    Pow2Sixteen();
    OnesAddPow(0, 1);
    EmptyMembers();
  }

  /** `new` with a repeated digit: [1, 1] sums to 2, the set {2} ... */
  lemma NewRepeatedDigit()
    ensures forall i :: 0 <= i < 2 ==> ShiftOk([1, 1][i])
    ensures SumFold(0, Powers([1, 1])) == Some(2)
    ensures DigitOptions.New([1, 1]) == DigitOptions(2)
    ensures Members(DigitOptions(2)) == {2}
  {
    MembersOfTwo();
  }

  /** ... where the intended union gives {1}. */
  lemma NewUnionRepeatedDigit(ds: seq<U16>)
    requires ds == [1, 1]
    ensures forall i :: 0 <= i < |ds| ==> ShiftOk(ds[i])
    ensures Members(DigitOptions.NewUnion(ds)) == {1}
  {
    NewUnionMembers(ds);
  }

  /** Entry j of `digits` holds exactly one candidate, p. */
  predicate Pins(digits: seq<DigitOptions>, j: int, p: int)
    requires 0 <= j < |digits|
  {
    digits[j].Count() == 1 && p in Members(digits[j])
  }

  /** The characterisation of what `subtract_options` removes: position p is
      removed iff some entry j in lo..hi-1 holds exactly one candidate, p. */
  lemma {:induction false} SingletonMembersAt(digits: seq<DigitOptions>, lo: nat, hi: nat, p: int)
    requires lo <= hi <= |digits|
    ensures p in SingletonMembers(digits, lo, hi) <==> exists j :: lo <= j < hi && Pins(digits, j, p)
    decreases hi - lo
  {
    if lo < hi {
      SingletonMembersAt(digits, lo, hi - 1, p);
      SingletonMembersLast(digits, lo, hi, p);
      PinsLast(digits, lo, hi, p);
    }
  }

  /** The last entry of the range adds its candidate when it holds exactly one. */
  lemma SingletonMembersLast(digits: seq<DigitOptions>, lo: nat, hi: nat, p: int)
    requires lo < hi <= |digits|
    ensures p in SingletonMembers(digits, lo, hi)
        <==> p in SingletonMembers(digits, lo, hi - 1) || Pins(digits, hi - 1, p)
  {
  }

  /** Some entry of lo..hi-1 pins p iff one below hi - 1 does or entry hi - 1 does. */
  lemma PinsLast(digits: seq<DigitOptions>, lo: nat, hi: nat, p: int)
    requires lo < hi <= |digits|
    ensures (exists j :: lo <= j < hi && Pins(digits, j, p))
        <==> (exists j :: lo <= j < hi - 1 && Pins(digits, j, p)) || Pins(digits, hi - 1, p)
  {
    if exists j :: lo <= j < hi && Pins(digits, j, p) {
      var j :| lo <= j < hi && Pins(digits, j, p);
      if j < hi - 1 {
        assert lo <= j < hi - 1 && Pins(digits, j, p);
      }
    }
  }

  lemma {:induction false} SingletonMembersFrame(a: seq<DigitOptions>, b: seq<DigitOptions>, lo: nat, hi: nat)
    requires lo <= hi <= |a| && hi <= |b|
    requires forall j :: lo <= j < hi ==> a[j] == b[j]
    ensures SingletonMembers(a, lo, hi) == SingletonMembers(b, lo, hi)
    decreases hi - lo
  {
    if lo < hi {
      SingletonMembersFrame(a, b, lo, hi - 1);
    }
  }

  /** Entry 0 of the slice never affects `subtract_options`. */
  lemma SubtractIgnoresEntryZero(digits: seq<DigitOptions>, x: DigitOptions)
    requires |digits| >= 9
    ensures SingletonMembers(digits, 1, 9) == SingletonMembers(digits[0 := x], 1, 9)
  {
    SingletonMembersFrame(digits, digits[0 := x], 1, 9);
  }

  /** Entries that do not hold exactly one candidate contribute nothing. */
  lemma {:induction false} NoSingletons(digits: seq<DigitOptions>, lo: nat, hi: nat)
    requires lo <= hi <= |digits|
    requires forall j :: lo <= j < hi ==> digits[j].Count() != 1
    ensures SingletonMembers(digits, lo, hi) == {}
    decreases hi - lo
  {
    if lo < hi {
      NoSingletons(digits, lo, hi - 1);
    }
  }

  /** For nine cells with no candidates at all, the intended `available` is
      every digit, where `available` as written returns the empty mask. */
  lemma AvailableOnEmptyCells()
    ensures DigitRange() - SingletonMembers(seq(9, _ => DigitOptions(0)), 1, 9) == DigitRange()
    ensures Members(DigitOptions(0)) == {}
  {
    EmptyMembers();
    assert DigitOptions(0).Count() == 0;
    NoSingletons(seq(9, _ => DigitOptions(0)), 1, 9);
  }

  lemma MembersOfThree()
    ensures Members(DigitOptions(3)) == {1, 2}
  {
    Pow2Sixteen();
    OnesAddPow(0, 0);
    OnesAddPow(1, 1);
    EmptyMembers();
  }

  /** The unit test `test_things`: a mask of 3 holds 1 and 2 but not 3 ... */
  lemma TestCheckThree()
    ensures DigitOptions(3).Check(1) && DigitOptions(3).Check(2) && !DigitOptions(3).Check(3)
  {
    MembersOfThree();
    CheckIsMember(DigitOptions(3), 1);
    CheckIsMember(DigitOptions(3), 2);
    CheckIsMember(DigitOptions(3), 3);
  }

  /** ... and `new([1, 2, 5, 9])` answers `check` for 1 to 9 with true
      exactly at 1, 2, 5 and 9. */
  lemma TestNew(ds: seq<U16>)
    requires ds == [1, 2, 5, 9]
    ensures forall i :: 0 <= i < |ds| ==> ShiftOk(ds[i])
    ensures SumFold(0, Powers(ds)).Some?
    ensures forall d :: 1 <= d <= 9 ==> (DigitOptions.New(ds).Check(d) <==> d in {1, 2, 5, 9})
  {
    NewDistinct(ds);
  }
}
