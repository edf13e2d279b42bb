/** Integer formatting into a fixed buffer, after Code/log/LogStream.h: digits are written from
    the lowest up and reversed in place. */
module LogStreams {
  import opened CTypes

  const FIXED_BUFFER_SIZE: nat := 4096
  const MAX_NUMERIC_SIZE: nat := 48
  const UINT64_END: int := 0x1_0000_0000_0000_0000
  const INT64_MIN: int := -0x8000_0000_0000_0000

  /** The division of C++: both the quotient and the remainder take the sign of the dividend. */
  function Quotient(v: int): int {
    if v >= 0 then v / 10 else -((-v) / 10)
  }

  function Remainder(v: int): int {
    if v >= 0 then v % 10 else -((-v) % 10)
  }

  /** tmp + '0', kept in a char. A negative remainder lands below '0'. */
  function DigitChar(remainder: int): char
    requires -10 < remainder < 10
  {
    (remainder + ('0' as int)) as char
  }

  function Abs(v: int): nat {
    if v >= 0 then v else -v
  }

  /** The characters of the digit loop, in the order they are written. */
  function LowestFirst(v: int): (s: string)
    ensures |s| > 0
    decreases Abs(v)
  {
    [DigitChar(Remainder(v))] + (if Quotient(v) == 0 then "" else LowestFirst(Quotient(v)))
  }

  lemma FirstDigit(v: int)
    ensures -10 < Remainder(v) < 10 && LowestFirst(v)[0] == DigitChar(Remainder(v))
    ensures LowestFirst(v)[1..] == if Quotient(v) == 0 then "" else LowestFirst(Quotient(v))
    ensures Quotient(v) != 0 ==> Abs(Quotient(v)) < Abs(v)
  {
  }

  function Reversed(s: string): (r: string)
    ensures |r| == |s| && forall i :: 0 <= i < |s| ==> r[i] == s[|s| - 1 - i]
  {
    if s == "" then "" else Reversed(s[1..]) + [s[0]]
  }

  lemma BackToFront(s: string, r: string)
    requires |r| == |s| && forall k :: 0 <= k < |s| ==> r[k] == s[|s| - 1 - k]
    ensures r == Reversed(s)
  {
  }

  /** Digits only, and no zero in front of another digit. */
  ghost predicate Canonical(s: string) {
    s != "" && (forall i :: 0 <= i < |s| ==> IsDigit(s[i])) && (|s| > 1 ==> s[0] != '0')
  }

  lemma {:induction false} DigitsOf(v: nat)
    ensures Canonical(Reversed(LowestFirst(v)))
    ensures Decimal(Reversed(LowestFirst(v))) == v
    ensures v > 0 ==> Reversed(LowestFirst(v))[0] != '0'
  {
    var s := LowestFirst(v);
    assert s[1..] == if v < 10 then "" else LowestFirst(v / 10);
    var r := Reversed(s);
    assert r == Reversed(s[1..]) + [s[0]];
    assert r[..|r| - 1] == Reversed(s[1..]);
    if v < 10 {
      assert Reversed(s[1..]) == "";
    } else {
      DigitsOf(v / 10);
    }
  }

  function Power(n: nat): nat {
    if n == 0 then 1 else 10 * Power(n - 1)
  }

  /** A value has at most n digits exactly when it is below ten to the n. */
  lemma {:induction false} DigitCount(v: nat, n: nat)
    requires n > 0
    ensures |LowestFirst(v)| <= n <==> v < Power(n)
  {
    if v < 10 {
      PowerGrows(n);
    } else if n == 1 {
      assert Power(1) == 10 * Power(0) == 10;
      assert |LowestFirst(v)| == 1 + |LowestFirst(v / 10)|;
    } else {
      DigitCount(v / 10, n - 1);
    }
  }

  lemma {:induction false} PowerGrows(n: nat)
    requires n > 0
    ensures Power(n) >= 10
  {
    if n == 1 {
      assert Power(1) == 10 * Power(0);
    } else {
      PowerGrows(n - 1);
    }
  }

  lemma TwentyDigits(v: nat)
    requires v < UINT64_END
    ensures |LowestFirst(v)| <= 20
  {
    DigitCount(v, 20);
    assert Power(20) == 100_000_000_000_000_000_000 by {
      assert Power(5) == 100_000 by { assert Power(2) == 100; assert Power(4) == 10_000; }
      assert Power(10) == 10_000_000_000 by { assert Power(7) == 10_000_000; assert Power(9) == 1_000_000_000; }
      assert Power(15) == 1_000_000_000_000_000 by { assert Power(12) == 1_000_000_000_000; assert Power(14) == 100_000_000_000_000; }
      assert Power(17) == 100_000_000_000_000_000;
      assert Power(19) == 10_000_000_000_000_000_000;
    }
  }

  /** A negative value gives as many characters as its absolute value, each as far below '0' as the digit is
      above it, and the first one shown is no digit. */
  lemma {:induction false} NegativeChars(v: int)
    requires v < 0
    ensures |LowestFirst(v)| == |LowestFirst(-v)|
    ensures forall i :: 0 <= i < |LowestFirst(v)| ==> LowestFirst(v)[i] as int - 48 == 48 - LowestFirst(-v)[i] as int
    ensures Reversed(LowestFirst(v))[0] < '0'
    decreases Abs(v)
  {
    var s := LowestFirst(v);
    assert Reversed(s) == Reversed(s[1..]) + [s[0]];
    assert s[1..] == if Quotient(v) == 0 then "" else LowestFirst(Quotient(v));
    if Quotient(v) != 0 {
      NegativeChars(Quotient(v));
    }
  }

  lemma LengthBound(v: int)
    requires INT64_MIN <= v < UINT64_END
    ensures |LowestFirst(v)| <= 20
  {
    if v >= 0 {
      TwentyDigits(v);
    } else {
      NegativeChars(v);
      TwentyDigits(-v);
    }
  }

  /** What one call appends. For a negative value the cursor steps over one byte before the sign
      is written, so the sign ends up outside and that stale byte in front. */
  function Appended(v: int, stale: char): string {
    if v >= 0 then Reversed(LowestFirst(v)) else [stale] + Reversed(LowestFirst(v))
  }

  ghost predicate Denotes(s: string, v: int) {
    if v >= 0 then Canonical(s) && Decimal(s) == v
    else |s| > 1 && s[0] == '-' && Canonical(s[1..]) && Decimal(s[1..]) == -v
  }

  /** The appended text is the decimal text of the value exactly when the value is not negative. */
  lemma DecimalIffNotNegative(v: int, stale: char)
    ensures Denotes(Appended(v, stale), v) <==> v >= 0
  {
    if v >= 0 {
      DigitsOf(v);
    } else {
      NegativeChars(v);
      assert Appended(v, stale)[1..] == Reversed(LowestFirst(v));
    }
  }

  class FixedBuffer {
    const data_: array<char>
    var cur_: nat

    ghost predicate Valid()
      reads this
    {
      cur_ <= data_.Length == FIXED_BUFFER_SIZE
    }

    ghost function Text(): string
      requires Valid()
      reads this, data_
    {
      data_[..cur_]
    }

    constructor ()
      ensures Valid() && Text() == "" && fresh(data_)
    {
      data_ := new char[FIXED_BUFFER_SIZE];
      cur_ := 0;
    }

    method Avail() returns (n: nat)
      requires Valid()
      ensures n == FIXED_BUFFER_SIZE - cur_
    {
      n := data_.Length - cur_;
    }

    /** All of the text or none of it. */
    method Append(text: string)
      requires Valid()
      modifies this`cur_, data_
      ensures Valid()
      ensures Text() == if old(|Text()|) + |text| <= FIXED_BUFFER_SIZE then old(Text()) + text else old(Text())
    {
      if data_.Length - cur_ >= |text| {
        for i := 0 to |text|
          invariant cur_ == old(cur_) && data_[..cur_] == old(data_[..cur_])
          invariant data_[cur_..cur_ + i] == text[..i]
        {
          data_[cur_ + i] := text[i];
        }
        assert text[..|text|] == text;
        cur_ := cur_ + |text|;
      }
    }

    /** The digit loop: a do-while, so zero gives one digit. */
    method WriteDigits(val: int) returns (n: nat)
      requires Valid() && cur_ + MAX_NUMERIC_SIZE <= FIXED_BUFFER_SIZE && INT64_MIN <= val < UINT64_END
      modifies data_
      ensures n == |LowestFirst(val)| <= 20 && Text() == old(Text())
      ensures data_[cur_..cur_ + n] == LowestFirst(val)
      ensures forall k :: cur_ + n <= k < data_.Length ==> data_[k] == old(data_[k])
    {
      hide LowestFirst, Quotient, Remainder, DigitChar;
      LengthBound(val);
      ghost var all := LowestFirst(val);
      var v := val;
      n := 0;
      while n == 0 || v != 0
        invariant n == 0 ==> v == val
        invariant n <= |all| && all[n..] == if n == 0 || v != 0 then LowestFirst(v) else ""
        invariant forall k :: 0 <= k < cur_ || cur_ + n <= k < data_.Length ==> data_[k] == old(data_[k])
        invariant data_[cur_..cur_ + n] == all[..n]
        decreases n == 0, Abs(v)
      {
        FirstDigit(v);
        assert all[n] == all[n..][0] && all[n + 1..] == all[n..][1..] && all[..n + 1] == all[..n] + [all[n]];
        data_[cur_ + n] := DigitChar(Remainder(v));
        n := n + 1;
        v := Quotient(v);
      }
    }

    /** The sign goes one byte past the cursor, which steps over a byte that nothing wrote. */
    method WriteSign(n: nat)
      requires Valid() && cur_ + n + 1 < FIXED_BUFFER_SIZE
      modifies data_
      ensures data_[cur_..cur_ + n + 1] == old(data_[cur_..cur_ + n]) + [old(data_[cur_ + n])]
      ensures data_[cur_ + n + 1] == '-'
      ensures Text() == old(Text())
    {
      data_[cur_ + n + 1] := '-';
    }

    /** std::reverse on the n bytes behind the cursor. */
    method Reverse(n: nat)
      requires Valid() && cur_ + n <= FIXED_BUFFER_SIZE
      modifies data_
      ensures data_[cur_..cur_ + n] == Reversed(old(data_[cur_..cur_ + n]))
      ensures Text() == old(Text())
    {
      ghost var was := data_[cur_..cur_ + n];
      hide Reversed;
      SwapEnds(n);
      BackToFront(was, data_[cur_..cur_ + n]);
    }

    method SwapEnds(n: nat)
      requires Valid() && cur_ + n <= FIXED_BUFFER_SIZE
      modifies data_
      ensures forall k :: 0 <= k < cur_ ==> data_[k] == old(data_[k])
      ensures forall k :: cur_ <= k < cur_ + n ==> data_[k] == old(data_[cur_ + cur_ + n - 1 - k])
    {
      var lo, hi := cur_, cur_ + n;
      while lo + 1 < hi
        invariant cur_ <= lo <= hi <= cur_ + n && lo + hi == cur_ + cur_ + n
        invariant forall k :: 0 <= k < cur_ || lo <= k < hi ==> data_[k] == old(data_[k])
        invariant forall k :: cur_ <= k < lo || hi <= k < cur_ + n ==> data_[k] == old(data_[cur_ + cur_ + n - 1 - k])
        decreases hi - lo
      {
        hi := hi - 1;
        data_[lo], data_[hi] := data_[hi], data_[lo];
        lo := lo + 1;
      }
    }

    method Add(n: nat)
      requires Valid() && cur_ + n <= FIXED_BUFFER_SIZE
      modifies this`cur_
      ensures Valid() && cur_ == old(cur_) + n
      ensures Text() == old(Text()) + old(data_[cur_..cur_ + n])
    {
      cur_ := cur_ + n;
    }

    /** LogStream::formattedInteger. */
    method FormattedInteger(val: int)
      requires Valid() && INT64_MIN <= val < UINT64_END
      modifies this`cur_, data_
      ensures Valid() && |LowestFirst(val)| <= 20
      ensures old(cur_) + 48 > 4096 ==> Text() == old(Text())
      ensures old(cur_) + 48 <= 4096 ==>
                Text() == old(Text()) + Appended(val, old(data_[cur_ + |LowestFirst(val)|]))
    {
      hide LowestFirst, Reversed;
      LengthBound(val);
      if data_.Length - cur_ >= MAX_NUMERIC_SIZE {
        ghost var stale := data_[cur_ + |LowestFirst(val)|];
        var n := WriteDigits(val);
        assert data_[cur_ + n] == stale;
        if val < 0 {
          WriteSign(n);
          n := n + 1;
          ReversedSnoc(LowestFirst(val), stale);
        }
        assert Reversed(data_[cur_..cur_ + n]) == Appended(val, stale);
        Reverse(n);
        Add(n);
      }
    }
  }

  lemma ReversedSnoc(s: string, c: char)
    ensures Reversed(s + [c]) == [c] + Reversed(s)
  {
    var t := s + [c];
    forall i | 0 <= i < |t| ensures Reversed(t)[i] == ([c] + Reversed(s))[i] {
      assert Reversed(t)[i] == t[|t| - 1 - i];
    }
  }
}
