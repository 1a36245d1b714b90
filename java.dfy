/**
 * The parts of the Java language and of its standard library whose exact
 * behaviour the modelled code depends on: null references, exceptions,
 * 32-bit `int` arithmetic, UTF-16 strings and a few `String`, `Character`
 * and `StringUtils` helpers.
 */
module Java {

  /** A Java reference that may be null: `None` is `null`. */
  datatype Option<T> = None | Some(value: T)

  /** The exceptions the modelled code throws, one constructor per Java exception class. */
  datatype Exception =
    | NullPointer                           // NullPointerException, also from Validate.notNull
    | IllegalArgument                       // IllegalArgumentException
    | IllegalState                          // IllegalStateException
    | StringIndexOutOfBounds                // String.charAt past the end
    | InvalidParameter                      // the lambdas' InvalidParameterException
    | AdvertisementClient(attribute: string) // AdvertisementClientException, naming the rejected attribute
    | NoClassFound | MultipleClassesFound
    | NoMethodFound | MultipleMethodsFound
    | NoConstructorFound | MultipleConstructorsFound

  /** A call that either returns a value or throws. */
  datatype Result<T> = Ok(value: T) | Err(error: Exception)

  const INT_MIN: int := -0x8000_0000
  const INT_MAX: int := 0x7FFF_FFFF
  const TWO_TO_32: int := 0x1_0000_0000

  /** Java's `int`. */
  type Int32 = x: int | INT_MIN <= x <= INT_MAX

  /** Two's-complement wrap-around: the `int` that is congruent to `x` modulo 2^32. */
  function Wrap32(x: int): (r: Int32)
    ensures (x - r) % TWO_TO_32 == 0
    ensures INT_MIN <= x <= INT_MAX ==> r == x
  {
    var m := x % TWO_TO_32;
    if m <= INT_MAX then m else m - TWO_TO_32
  }

  /** Two integers that differ by a multiple of 2^32 wrap to the same `int`. */
  lemma WrapCongruent(x: int, y: int)
    requires (x - y) % TWO_TO_32 == 0
    ensures Wrap32(x) == Wrap32(y)
  {
    var k := (x - y) / TWO_TO_32;
    assert x == y + k * TWO_TO_32;
    assert x % TWO_TO_32 == y % TWO_TO_32;
  }

  /** Java's `/` for a positive divisor: the quotient is truncated toward zero. */
  function Quot(a: int, b: int): int
    requires b > 0
  {
    if a >= 0 then a / b else -((-a) / b)
  }

  /** Java's `%` for a positive divisor: it truncates, so the remainder takes the sign of the dividend. */
  function Rem(a: int, b: int): (r: int)
    requires b > 0
    ensures Quot(a, b) * b + r == a
    ensures a >= 0 ==> 0 <= r < b
    ensures a < 0 ==> -b < r <= 0
  {
    if a >= 0 then a % b else -((-a) % b)
  }

  /** The UTF-16 code units Java stores for one character: a surrogate pair above U+FFFF. */
  function CodeUnits(c: char): (u: seq<int>)
    ensures |u| == 1 <==> c as int < 0x1_0000
    ensures 1 <= |u| <= 2
    ensures forall k | 0 <= k < |u| :: 0 <= u[k] < 0x1_0000
  {
    var v := c as int;
    if v < 0x1_0000 then [v]
    else [0xD800 + (v - 0x1_0000) / 0x400, 0xDC00 + (v - 0x1_0000) % 0x400]
  }

  /** The code units of a string, in the order `String.chars()` yields them. */
  function Chars(s: string): (u: seq<int>)
    ensures |u| >= |s|
    ensures forall k | 0 <= k < |u| :: 0 <= u[k] < 0x1_0000
  {
    if s == [] then [] else CodeUnits(s[0]) + Chars(s[1..])
  }

  /** `String.charAt(0)`: the first code unit, or an exception for the empty string. */
  function FirstChar(s: string): (r: Result<int>)
    ensures r.Ok? <==> s != []
    ensures r.Ok? ==> r.value == Chars(s)[0]
  {
    if s == [] then Err(StringIndexOutOfBounds) else Ok(CodeUnits(s[0])[0])
  }

  /** Mathematical sum of a sequence, folded from the left. */
  function Sum(u: seq<int>): int
  {
    if u == [] then 0 else Sum(u[..|u| - 1]) + u[|u| - 1]
  }

  /** `IntStream.sum()`: a left fold of `int` additions, each wrapping at 32 bits. */
  function IntSum(u: seq<int>): Int32
  {
    if u == [] then 0 else Wrap32(IntSum(u[..|u| - 1]) + u[|u| - 1])
  }

  /** `s.chars().sum()` as Java computes it. */
  function CharSum(s: string): Int32
  {
    IntSum(Chars(s))
  }

  /** The contribution of one character to the sum of a string's code units. */
  function Weight(c: char): int
  {
    Sum(CodeUnits(c))
  }

  /** The unbounded sum of a string's code units, character by character. */
  function WeightSum(s: string): int
  {
    if s == [] then 0 else Weight(s[0]) + WeightSum(s[1..])
  }

  lemma {:induction false} SumConcat(a: seq<int>, b: seq<int>)
    ensures Sum(a + b) == Sum(a) + Sum(b)
    decreases |b|
  {
    if b != [] {
      assert (a + b)[..|a + b| - 1] == a + b[..|b| - 1];
      SumConcat(a, b[..|b| - 1]);
    } else {
      assert a + b == a;
    }
  }

  /** Summing the code units equals summing the characters' weights. */
  lemma {:induction false} SumOfChars(s: string)
    ensures Sum(Chars(s)) == WeightSum(s)
  {
    if s != [] {
      SumConcat(CodeUnits(s[0]), Chars(s[1..]));
      SumOfChars(s[1..]);
    }
  }

  lemma {:induction false} SumNonNegative(u: seq<int>)
    requires forall k | 0 <= k < |u| :: u[k] >= 0
    ensures Sum(u) >= 0
  {
    if u != [] {
      SumNonNegative(u[..|u| - 1]);
    }
  }

  /** Character sums are never negative before they are wrapped. */
  lemma WeightSumNonNegative(s: string)
    ensures WeightSum(s) >= 0
  {
    SumOfChars(s);
    SumNonNegative(Chars(s));
  }

  /** The wrapping fold equals the wrapped mathematical sum. */
  lemma {:induction false} IntSumIsWrappedSum(u: seq<int>)
    ensures IntSum(u) == Wrap32(Sum(u))
  {
    if u != [] {
      var init := u[..|u| - 1];
      IntSumIsWrappedSum(init);
      var a := Sum(init);
      var b := u[|u| - 1];
      assert (Wrap32(a) + b - (a + b)) % TWO_TO_32 == 0 by {
        assert (a - Wrap32(a)) % TWO_TO_32 == 0;
      }
      WrapCongruent(Wrap32(a) + b, a + b);
    }
  }

  /** `chars().sum()` is the unbounded character sum wrapped into an `int`. */
  lemma CharSumIsWrappedWeightSum(s: string)
    ensures CharSum(s) == Wrap32(WeightSum(s))
  {
    IntSumIsWrappedSum(Chars(s));
    SumOfChars(s);
  }

  lemma {:induction false} WeightSumConcat(a: string, b: string)
    ensures WeightSum(a + b) == WeightSum(a) + WeightSum(b)
  {
    if a != [] {
      assert (a + b)[1..] == a[1..] + b;
      WeightSumConcat(a[1..], b);
    } else {
      assert a + b == b;
    }
  }

  /** Taking one character out of a string takes its weight out of the sum. */
  lemma WeightSumRemove(t: string, j: int)
    requires 0 <= j < |t|
    ensures WeightSum(t) == Weight(t[j]) + WeightSum(t[..j] + t[j + 1..])
  {
    assert t == t[..j] + ([t[j]] + t[j + 1..]);
    WeightSumConcat(t[..j], [t[j]] + t[j + 1..]);
    WeightSumConcat([t[j]], t[j + 1..]);
    WeightSumConcat(t[..j], t[j + 1..]);
  }

  /** Two permutations of each other stay so once the same element leaves both. */
  lemma MultisetRemoveHead<T>(s: seq<T>, t: seq<T>, j: int)
    requires multiset(s) == multiset(t) && s != [] && 0 <= j < |t| && t[j] == s[0]
    ensures multiset(s[1..]) == multiset(t[..j] + t[j + 1..])
  {
    assert t == t[..j] + [t[j]] + t[j + 1..];
    assert multiset(t[..j] + t[j + 1..]) == multiset(t) - multiset{s[0]};
    assert s == [s[0]] + s[1..];
    assert multiset(s[1..]) == multiset(s) - multiset{s[0]};
  }

  /** The character sum does not depend on the order of the characters. */
  lemma {:induction false} WeightSumPermutation(s: string, t: string)
    requires multiset(s) == multiset(t)
    ensures WeightSum(s) == WeightSum(t)
  {
    if s == [] {
      assert |t| == |multiset(t)| == 0;
    } else {
      assert s[0] in multiset(t);
      var j :| 0 <= j < |t| && t[j] == s[0];
      var rest := t[..j] + t[j + 1..];
      MultisetRemoveHead(s, t, j);
      WeightSumPermutation(s[1..], rest);
      WeightSumRemove(t, j);
    }
  }

  /** A string made of `n` copies of `c` has character sum `n * Weight(c)`. */
  lemma {:induction false} WeightSumOfRepeat(n: nat, c: char)
    ensures WeightSum(seq(n, _ => c)) == n * Weight(c)
  {
    if n > 0 {
      var s := seq(n, _ => c);
      assert s[1..] == seq(n - 1, _ => c);
      WeightSumOfRepeat(n - 1, c);
    }
  }

  /** A string of 32769 copies of U+FFFF: the shortest whose code units add up past `INT_MAX`. */
  function OverflowingString(): string
  {
    seq(32769, _ => '\U{FFFF}')
  }

  /** U+FFFF is a single code unit. */
  lemma WeightOfLastBmpChar()
    ensures CodeUnits('\U{FFFF}') == [0xFFFF]
    ensures Weight('\U{FFFF}') == 0xFFFF
  {
    assert [0xFFFF][..0] == [];
  }

  /** Its code units add up to 2147516415, which `chars().sum()` wraps to -2147450881. */
  lemma OverflowingStringSum()
    ensures WeightSum(OverflowingString()) == 2147516415
    ensures CharSum(OverflowingString()) == -2147450881
    ensures FirstChar(OverflowingString()) == Ok(0xFFFF)
  {
    var s := OverflowingString();
    WeightOfLastBmpChar();
    WeightSumOfRepeat(32769, '\U{FFFF}');
    assert WeightSum(s) == 32769 * 0xFFFF == 2147516415;
    assert Wrap32(2147516415) == -2147450881 by {
      assert 2147516415 % TWO_TO_32 == 2147516415;
    }
    CharSumIsWrappedWeightSum(s);
    assert s[0] == '\U{FFFF}';
  }

  /** `String.hashCode()`: `h = 31 * h + unit` over the code units, wrapping at 32 bits. */
  function HashOfUnits(u: seq<int>): Int32
  {
    if u == [] then 0 else Wrap32(31 * HashOfUnits(u[..|u| - 1]) + u[|u| - 1])
  }

  function StringHashCode(s: string): Int32
  {
    HashOfUnits(Chars(s))
  }

  /** `Objects.hash(values...)`: `r = 31 * r + hash(v)` from 1, a null value hashing to 0. */
  function ObjectsHash(values: seq<Option<string>>): Int32
  {
    if values == [] then 1
    else
      var last := values[|values| - 1];
      Wrap32(31 * ObjectsHash(values[..|values| - 1]) + (if last.None? then 0 else StringHashCode(last.value)))
  }

  /** `Character.isWhitespace`: the Unicode space, line and paragraph separators other than the
      no-break spaces, and the control characters U+0009..U+000D and U+001C..U+001F. */
  predicate IsWhitespace(c: char)
  {
    var v := c as int;
    (0x09 <= v <= 0x0D) || (0x1C <= v <= 0x20) || v == 0x1680
    || (0x2000 <= v <= 0x2006) || (0x2008 <= v <= 0x200A)
    || v == 0x2028 || v == 0x2029 || v == 0x205F || v == 0x3000
  }

  /** `StringUtils.isBlank`: null, empty, or whitespace only. */
  predicate IsBlank(s: Option<string>)
  {
    s.None? || forall k | 0 <= k < |s.value| :: IsWhitespace(s.value[k])
  }

  /** `StringUtils.isEmpty`: null or empty. */
  predicate IsEmpty(s: Option<string>)
  {
    s.None? || s.value == []
  }

  /** `String.contains`: `t` occurs in `s` at some position. */
  predicate Contains(s: string, t: string)
  {
    exists i | 0 <= i <= |s| - |t| :: OccursAt(s, t, i)
  }

  /** `t` occurs in `s` starting at index `i`. */
  predicate OccursAt(s: string, t: string, i: int)
  {
    0 <= i <= |s| - |t| && s[i..i + |t|] == t
  }

  /** Upper case for the ASCII letters; every other character is left alone. */
  function AsciiUpper(c: char): char
  {
    if 'a' <= c <= 'z' then (c as int - 32) as char else c
  }

  /** `a.equalsIgnoreCase(b)`, folding ASCII letters only; false when `b` is null. */
  predicate EqualsIgnoreCase(a: string, b: Option<string>)
  {
    b.Some? && |a| == |b.value| && forall k | 0 <= k < |a| :: AsciiUpper(a[k]) == AsciiUpper(b.value[k])
  }
}
