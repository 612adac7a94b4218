/** Formatted output into a bounded buffer: rt_vsnprintf and print_number (kservice.c), as
    configured: with precision, without long long and without the `#` prefix.

    Render is the text that a format and its arguments stand for; the method that fills
    the buffer stores as much of it as fits.
 */
module Format {

  import opened Words

  /** Variable arguments. An argument of another kind than the format asks for, or a
      missing one, is undefined in C; here it reads as 0 or as no string. */
  datatype Arg = Int(v: int) | Str(s: string) | NoStr

  datatype Flags = Flags(zero: bool, sign: bool, plus: bool, space: bool, left: bool, special: bool, large: bool)

  const NO_FLAGS := Flags(false, false, false, false, false, false, false)

  // ----- numbers -----

  function Repeat(c: char, n: int): (s: string)
    ensures |s| == if n > 0 then n else 0
    ensures forall i :: 0 <= i < |s| ==> s[i] == c
  {
    if n <= 0 then "" else [c] + Repeat(c, n - 1)
  }

  lemma RepeatSnoc(c: char, n: nat)
    ensures Repeat(c, n) + [c] == Repeat(c, n + 1)
  {
  }

  /** divide() knows base 10 only and takes 16 for any other. */
  function Radix(base: nat): nat {
    if base == 10 then 10 else 16
  }

  function Digit(d: nat, large: bool): char
    requires d < 16
  {
    if large then "0123456789ABCDEF"[d] else "0123456789abcdef"[d]
  }

  function Digits(n: nat, radix: nat, large: bool): (s: string)
    requires radix == 10 || radix == 16
    ensures |s| > 0
  {
    if n < radix then [Digit(n, large)] else Digits(n / radix, radix, large) + [Digit(n % radix, large)]
  }

  /** The value of a digit. */
  function DigitValue(c: char): nat {
    if '0' <= c <= '9' then (c - '0') as nat else if 'a' <= c <= 'f' then (c - 'a') as nat + 10
    else if 'A' <= c <= 'F' then (c - 'A') as nat + 10 else 0
  }

  /** The number that a string of digits denotes. */
  function Value(s: string, radix: nat): nat {
    if s == "" then 0 else Value(s[..|s| - 1], radix) * radix + DigitValue(s[|s| - 1])
  }

  lemma DigitRoundTrip(d: nat, large: bool)
    requires d < 16
    ensures DigitValue(Digit(d, large)) == d
  {
  }

  lemma ValueSnoc(s: string, c: char, radix: nat)
    ensures Value("", radix) == 0
    ensures Value(s + [c], radix) == Value(s, radix) * radix + DigitValue(c)
  {
    assert (s + [c])[..|s|] == s;
  }

  lemma DivMod(n: nat, radix: nat)
    requires radix > 0
    ensures n / radix * radix + n % radix == n
  {
  }

  /** Reading the digits back gives the number. */
  lemma {:induction false} DigitsRoundTrip(n: nat, radix: nat, large: bool)
    requires radix == 10 || radix == 16
    ensures Value(Digits(n, radix, large), radix) == n
  {
    hide DigitValue, Digit, Value;
    DigitRoundTrip(n % radix, large);
    if n < radix {
      ValueSnoc("", Digit(n, large), radix);
      assert "" + [Digit(n, large)] == [Digit(n, large)];
    } else {
      DigitsRoundTrip(n / radix, radix, large);
      ValueSnoc(Digits(n / radix, radix, large), Digit(n % radix, large), radix);
      DivMod(n, radix);
    }
  }

  /** A 32-bit number has at most ten digits, so they fit the 16 characters of tmp. */
  lemma DigitsFit(n: nat, radix: nat, large: bool, k: nat)
    requires radix == 10 || radix == 16
    requires n < Power10(k) && k > 0
    ensures |Digits(n, radix, large)| <= k
    decreases k
  {
    if n >= radix { DigitsFit(n / radix, radix, large, k - 1); }
  }

  function Power10(k: nat): nat {
    if k == 0 then 1 else 10 * Power10(k - 1)
  }

  function SignOf(num: nat, fl: Flags): string {
    if !fl.sign then "" else if num >= HALF_WORD then "-" else if fl.plus then "+" else if fl.space then " " else ""
  }

  /** The magnitude of a 32-bit word, read as signed where the flags say so. */
  function Magnitude(num: nat, fl: Flags): nat
    requires num < WORD
  {
    if fl.sign && num >= HALF_WORD then WORD - num else num
  }

  /** The text of a number: sign, at least `precision` digits, and padding to `width` on
      the left with blanks, after the sign with zeros, or on the right. */
  function Number(num: nat, base: nat, width: int, precision: int, fl: Flags): string
    requires num < WORD
  {
    var digits := Digits(Magnitude(num, fl), Radix(base), fl.large);
    var places := if precision > |digits| then precision else |digits|;
    var sign := SignOf(num, fl);
    var pad := width - places - |sign|;
    Compose(sign, places - |digits|, if precision != 0 then digits else "", pad, fl.left, fl.zero)
  }

  /** The sign and the digits, zeros in front of them, and pad more characters if that is
      positive. */
  function Compose(sign: string, zeros: nat, digits: string, pad: int, left: bool, zero: bool): string {
    var body := Repeat('0', zeros) + digits;
    if left then sign + body + Repeat(' ', pad)
    else if zero then sign + Repeat('0', pad) + body
    else Repeat(' ', pad) + sign + body
  }

  /** Unless the precision is 0, the text is as long as the width or what has to be shown,
      whichever is longer. */
  lemma NumberWidth(num: nat, base: nat, width: int, precision: int, fl: Flags)
    requires num < WORD && precision != 0
    ensures var digits := Digits(Magnitude(num, fl), Radix(base), fl.large);
            var shown := |SignOf(num, fl)| + if precision > |digits| then precision else |digits|;
            |Number(num, base, width, precision, fl)| == if width > shown then width else shown
  {
  }

  // ----- the buffer -----

  /** The address of the i-th character put; the pointer wraps around. */
  function Lands(start: nat, i: nat): nat {
    (start + i) % WORD
  }

  /** Putting n characters from `start` on writes address a. */
  ghost predicate Writes(start: nat, end: nat, n: nat, a: int) {
    0 <= a < end && exists i :: 0 <= i < n && Lands(start, i) == a
  }

  /** Where the NUL goes after n characters. */
  function NulAt(address: nat, end: nat, n: nat): (a: int)
    ensures end > 0 ==> 0 <= a < end
  {
    if Lands(address, n) < end then Lands(address, n) else end - 1
  }

  /** n characters and the NUL write address a. */
  ghost predicate Touches(start: nat, end: nat, n: nat, a: int) {
    Writes(start, end, n, a) || (end > start && a == NulAt(start, end, n))
  }

  lemma LandsApart(start: nat, i: nat, n: nat)
    requires i < n < i + WORD
    ensures Lands(start, i) != Lands(start, n)
  {
    assert (start + n) / WORD == (start + i) / WORD || (start + n) / WORD == (start + i) / WORD + 1;
  }

  lemma WritesOne(start: nat, end: nat, n: nat)
    ensures forall a :: Writes(start, end, n + 1, a) <==> Writes(start, end, n, a) || (a == Lands(start, n) && a < end)
  {
    hide Lands;
  }

  /** The output position of rt_vsnprintf in the address space. `str` may run past `end`
      and around; ghost `text` is all that was put so far. */
  class Output {
    const memory: array<char>
    const start: nat                // buf
    const end: nat
    var str: nat
    ghost var text: string
    ghost var written: set<int>
    ghost const initial: seq<char>  // what memory held before

    /** Each address written holds the last character that landed there; all others hold
        what they held before. */
    ghost predicate Valid()
      reads this, memory
    {
      && memory.Length == |initial| == WORD && start <= end < WORD && str == Lands(start, |text|)
      && (forall a :: a in written <==> Writes(start, end, |text|, a))
      && (forall a :: 0 <= a < WORD && a !in written ==> memory[a] == initial[a])
      && forall i :: 0 <= i < |text| < i + WORD && Lands(start, i) < end ==> memory[Lands(start, i)] == text[i]
    }

    constructor (memory: array<char>, start: nat, end: nat)
      requires memory.Length == WORD && start <= end < WORD
      ensures Valid() && text == "" && this.memory == memory && initial == memory[..] && this.start == start &&
        this.end == end
    {
      this.memory := memory;
      this.start, this.end := start, end;
      this.initial := memory[..];
      str := start;
      text := "";
      written := {};
    }

    /** if (str < end) *str = c; ++str; */
    method Put(c: char)
      requires Valid()
      modifies this, memory
      ensures Valid() && text == old(text) + [c]
    {
      WritesOne(start, end, |text|);
      forall i | 0 <= i < |text| < i + WORD
        ensures Lands(start, i) != str
      {
        LandsApart(start, i, |text|);
      }
      assert Lands(start, |text| + 1) == (str + 1) % WORD;
      hide Lands, Writes;
      if str < end {
        memory[str] := c;
        written := written + {str};
      }
      str := (str + 1) % WORD;
      text := text + [c];
    }

    /** while (n-- > 0) put c; what is left of n. */
    method Pad(c: char, n: int) returns (left: int)
      requires Valid()
      modifies this, memory
      ensures Valid() && text == old(text) + Repeat(c, n) && left == if n > 0 then -1 else n - 1
    {
      left := n;
      ghost var k := 0;
      while left > 0
        invariant Valid() && k >= 0 && (n > 0 ==> left + k == n && left >= 0) && (n <= 0 ==> k == 0 && left == n)
        invariant text == old(text) + Repeat(c, k)
        decreases left
      {
        RepeatSnoc(c, k);
        Put(c);
        k := k + 1;
        left := left - 1;
      }
      left := left - 1;
    }

    /** The NUL, and str - buf. */
    method Finish() returns (ghost all: set<int>, r: int)
      requires Valid()
      modifies memory
      ensures r == Signed(|text| % WORD)
      ensures forall a :: a in all <==> Touches(start, end, |text|, a)
      ensures forall a :: 0 <= a < WORD && a !in all ==> memory[a] == initial[a]
      ensures end > start ==> memory[NulAt(start, end, |text|)] == '\0'
      ensures forall i :: 0 <= i < |text| < i + WORD && Lands(start, i) < end ==>
        Lands(start, i) != NulAt(start, end, |text|) ==> memory[Lands(start, i)] == text[i]
    {
      assert (str - start) % WORD == |text| % WORD;
      hide Writes, Lands;
      var nul := if str < end then str else end - 1;
      all := written;
      if end - start > 0 {
        memory[nul] := '\0';
        all := all + {nul};
      }
      r := Signed((str - start) % WORD);
    }
  }

  /** Something below buf is written iff the write position comes around. */
  lemma StaysInside(start: nat, end: nat, n: nat)
    requires start <= end < WORD
    ensures (forall a :: Touches(start, end, n, a) ==> start <= a < end) <==> StaysAbove(start, end - start, n)
  {
    if StaysAbove(start, end - start, n) {
      forall a | Touches(start, end, n, a)
        ensures start <= a < end
      {
      }
    } else {
      if start + n > WORD {
        assert Lands(start, WORD - start) == 0;
        assert Writes(start, end, n, 0) && Touches(start, end, n, 0);
      } else {
        assert Touches(start, end, n, 0);
      }
    }
  }

  lemma NoWrap(start: nat, n: nat)
    requires start + n < WORD
    ensures forall i :: 0 <= i <= n ==> Lands(start, i) == start + i
  {
  }

  lemma WritesInside(start: nat, end: nat, n: nat)
    requires start <= end < WORD && start + n < WORD
    ensures forall a :: Writes(start, end, n, a) <==> start <= a < end && a < start + n
  {
    forall a | start <= a < end && a < start + n
      ensures Writes(start, end, n, a)
    {
      assert Lands(start, a - start) == a;
    }
  }

  lemma Pasted(before: seq<char>, after: seq<char>, start: nat, stored: seq<char>)
    requires |after| == |before| && start + |stored| <= |before|
    requires forall a :: 0 <= a < |before| && !(start <= a < start + |stored|) ==> after[a] == before[a]
    requires forall a :: start <= a < start + |stored| ==> after[a] == stored[a - start]
    ensures after == before[..start] + stored + before[start + |stored|..]
  {
    assert after == after[..start] + after[start..start + |stored|] + after[start + |stored|..];
  }

  /** Without wrap-around memory holds what fits of the text. */
  lemma InsideText(start: nat, end: nat, text: string, before: seq<char>, after: seq<char>)
    requires start <= end < WORD && |before| == |after| == WORD && start + |text| < WORD
    requires forall a :: 0 <= a < WORD && !Touches(start, end, |text|, a) ==> after[a] == before[a]
    requires end > start ==> after[NulAt(start, end, |text|)] == '\0'
    requires forall i :: 0 <= i < |text| && Lands(start, i) < end && Lands(start, i) != NulAt(start, end, |text|) ==>
      after[Lands(start, i)] == text[i]
    ensures var stored := Fitting(text, end - start);
      start + |stored| < WORD && after == before[..start] + stored + before[start + |stored|..]
  {
    var stored := Fitting(text, end - start);
    NoWrap(start, |text|);
    WritesInside(start, end, |text|);
    hide Writes, Lands;
    forall a | start <= a < start + |stored|
      ensures after[a] == stored[a - start]
    {
      if a != NulAt(start, end, |text|) { assert Lands(start, a - start) == a; }
    }
    hide Fitting, NulAt;
    Pasted(before, after, start, stored);
  }

  /** The first i characters of tmp, last one first. */
  ghost function Backwards(tmp: seq<char>, i: nat): (s: string)
    requires i <= |tmp|
    ensures |s| == i
  {
    if i == 0 then "" else [tmp[i - 1]] + Backwards(tmp, i - 1)
  }

  lemma {:induction false} BackwardsFrame(tmp: seq<char>, i: nat, k: nat, c: char)
    requires i <= k < |tmp|
    ensures Backwards(tmp[k := c], i) == Backwards(tmp, i)
  {
    if i > 0 { BackwardsFrame(tmp, i - 1, k, c); }
  }

  lemma DivideStep(n: nat, radix: nat, large: bool, tmp: seq<char>, i: nat)
    requires (radix == 10 || radix == 16) && n > 0 && i < |tmp|
    ensures var after := tmp[i := Digit(n % radix, large)];
            Digits(n, radix, large) + Backwards(tmp, i) == (if n / radix == 0 then ""
              else Digits(n / radix, radix, large)) + Backwards(after, i + 1)
    ensures n / radix < n && |Digits(n, radix, large)| == 1 + if n / radix == 0 then 0
      else |Digits(n / radix, radix, large)|
  {
    hide Digit, Digits;
    DigitsStep(n, radix, large);
    var after, c := tmp[i := Digit(n % radix, large)], Digit(n % radix, large);
    BackwardsFrame(tmp, i, i, c);
    assert Backwards(after, i + 1) == [c] + Backwards(tmp, i);
    hide Backwards;
    Joined(if n / radix == 0 then "" else Digits(n / radix, radix, large), [c], Backwards(tmp, i));
  }

  /** The last digit, and the others. */
  lemma DigitsStep(n: nat, radix: nat, large: bool)
    requires radix == 10 || radix == 16
    ensures Digits(n, radix, large) ==
      (if n / radix == 0 then "" else Digits(n / radix, radix, large)) + [Digit(n % radix, large)]
    ensures n > 0 ==> n / radix < n
    ensures n / radix == 0 <==> n < radix
  {
    hide Digit;
    assert "" + [Digit(n % radix, large)] == [Digit(n % radix, large)];
  }

  lemma ZeroDigits(radix: nat, large: bool, tmp: seq<char>)
    requires (radix == 10 || radix == 16) && |tmp| > 0
    ensures Backwards(tmp[0 := '0'], 1) == Digits(0, radix, large)
  {
    assert Backwards(tmp[0 := '0'], 1) == ['0'] + "";
  }

  /** The digits of num, lowest first, in tmp: the loop over divide(). */
  method Divide(num: nat, base: nat, large: bool, tmp: array<char>) returns (i: nat)
    requires num < WORD && tmp.Length == 16
    modifies tmp
    ensures 0 < i <= 10 && Backwards(tmp[..], i) == Digits(num, Radix(base), large)
  {
    hide Digits, Backwards, Digit;
    var radix := Radix(base);
    var n := num;
    BackwardsNone(tmp[..]);
    DigitsFit(num, radix, large, 10);
    i := 0;
    if n == 0 {
      ZeroDigits(radix, large, tmp[..]);
      ghost var before := tmp[..];
      tmp[0] := '0';
      assert tmp[..] == before[0 := '0'];
      i := 1;
    }
    while n != 0
      invariant i <= 10 && (n != 0 ==> |Digits(n, radix, large)| + i <= 10)
      invariant n == 0 ==> i > 0 && Backwards(tmp[..], i) == Digits(num, radix, large)
      invariant n != 0 ==> Digits(n, radix, large) + Backwards(tmp[..], i) == Digits(num, radix, large)
    {
      DivideStep(n, radix, large, tmp[..], i);
      ghost var before := tmp[..];
      tmp[i] := Digit(n % radix, large);
      assert tmp[..] == before[i := Digit(n % radix, large)];
      n := n / radix;
      i := i + 1;
    }
  }

  lemma BackwardsNone(tmp: seq<char>)
    ensures Backwards(tmp, 0) == ""
    ensures Power10(10) == 10_000_000_000
  {
  }

  /** The digits from tmp, last one first. */
  method PutBackwards(out: Output, tmp: array<char>, n: nat)
    requires out.Valid() && n <= tmp.Length && tmp != out.memory
    modifies out, out.memory
    ensures out.Valid() && out.text == old(out.text) + Backwards(tmp[..], n)
  {
    var i: nat := n;
    while i > 0
      invariant i <= n && out.Valid() && tmp[..] == old(tmp[..])
      invariant out.text + Backwards(tmp[..], i) == old(out.text) + Backwards(tmp[..], n)
    {
      i := i - 1;
      out.Put(tmp[i]);
    }
  }

  /** What is left of a count after while (n-- > 0). */
  function CountedDown(n: int): int {
    if n > 0 then -1 else n - 1
  }

  /** The blanks before the sign, and what print_number then has in `size`. */
  function Lead(size: int, sign: string, plain: bool): (int, int) {
    var n := if sign != "" && size > 0 then size - 1 else size;
    if plain then (n, CountedDown(n)) else (0, size)
  }

  /** Blanks, sign, fill, leading zeros, digits, trailing blanks. */
  function Pieces(a: string, b: string, c: string, d: string, e: string, f: string): string {
    a + b + c + d + e + f
  }

  lemma PiecesLeft(b: string, d: string, e: string, f: string)
    ensures Pieces("", b, "", d, e, f) == b + (d + e) + f
  {
    assert "" + b + "" == b;
    assert b + d + e == b + (d + e);
  }

  lemma PiecesZero(b: string, c: string, d: string, e: string)
    ensures Pieces("", b, c, d, e, "") == b + c + (d + e)
  {
    assert "" + b == b;
    assert b + c + d + e + "" == b + c + (d + e);
  }

  lemma PiecesPlain(a: string, b: string, d: string, e: string)
    ensures Pieces(a, b, "", d, e, "") == a + b + (d + e)
  {
    assert a + b + "" == a + b;
    assert a + b + d + e + "" == a + b + (d + e);
  }

  lemma PiecesAfter(t: string, a: string, b: string, c: string, d: string, e: string, f: string)
    ensures t + a + b + c + d + e + f == t + Pieces(a, b, c, d, e, f)
  {
    assert t + a + b == t + (a + b);
    assert t + (a + b) + c == t + (a + b + c);
    assert t + (a + b + c) + d == t + (a + b + c + d);
    assert t + (a + b + c + d) + e == t + (a + b + c + d + e);
    assert t + (a + b + c + d + e) + f == t + (a + b + c + d + e + f);
  }

  /** Number in the pieces of each way to pad. */
  lemma NumberInPieces(num: nat, base: nat, width: int, precision: int, fl: Flags, digits: string, sign: string,
                       places: int)
    requires num < WORD && digits == Digits(Magnitude(num, fl), Radix(base), fl.large) && sign == SignOf(num, fl)
    requires places == if |digits| > precision then |digits| else precision
    ensures var zeros := Repeat('0', places - |digits|);
            var shown := if precision != 0 then digits else "";
            var pad := width - places - |sign|;
            Number(num, base, width, precision, fl)
              == if fl.left then Pieces("", sign, "", zeros, shown, Repeat(' ', pad))
                 else if fl.zero then Pieces("", sign, Repeat('0', pad), zeros, shown, "")
                 else Pieces(Repeat(' ', pad), sign, "", zeros, shown, "")
  {
    hide Digits, Repeat, Pieces, Magnitude, SignOf, Radix;
    var zeros := Repeat('0', places - |digits|);
    var shown := if precision != 0 then digits else "";
    var pad := width - places - |sign|;
    assert Number(num, base, width, precision, fl)
      == if fl.left then sign + (zeros + shown) + Repeat(' ', pad)
         else if fl.zero then sign + Repeat('0', pad) + (zeros + shown)
         else Repeat(' ', pad) + sign + (zeros + shown);
    hide Number;
    if fl.left {
      PiecesLeft(sign, zeros, shown, Repeat(' ', pad));
    } else if fl.zero {
      PiecesZero(sign, Repeat('0', pad), zeros, shown);
    } else {
      PiecesPlain(Repeat(' ', pad), sign, zeros, shown);
    }
  }

  /** The pieces that print_number puts, from its running `size`, make up the number. */
  lemma PiecesMakeNumber(num: nat, base: nat, width: int, precision: int, fl: Flags, digits: string, sign: string,
                         size: int)
    requires num < WORD && digits == Digits(Magnitude(num, fl), Radix(base), fl.large) && sign == SignOf(num, fl)
    requires size == width - if |digits| > precision then |digits| else precision
    ensures var places := if |digits| > precision then |digits| else precision;
            var (blanks, size1) := Lead(size, sign, !fl.zero && !fl.left);
            var size2 := size1 - |sign|;
            var fill := if fl.left then 0 else size2;
            var size3 := if fl.left then size2 else CountedDown(size2);
            Number(num, base, width, precision, fl)
              == Pieces(Repeat(' ', blanks), sign, Repeat(if fl.zero then '0' else ' ', fill),
                Repeat('0', places - |digits|),
                        if precision != 0 then digits else "", Repeat(' ', size3))
  {
    hide Digits, Repeat, Pieces, Magnitude, SignOf, Radix, Number;
    SignShort(num, fl);
    NumberInPieces(num, base, width, precision, fl, digits, sign, if |digits| > precision then |digits| else precision);
    var (blanks, size1) := Lead(size, sign, !fl.zero && !fl.left);
    var size2 := size1 - |sign|;
    RepeatNone(' ', blanks);
    RepeatNone(' ', size - |sign|);
    RepeatNone('0', size2);
    RepeatNone(' ', size2);
    RepeatNone(' ', CountedDown(size2));
    RepeatNone('0', 0);
    RepeatNone(' ', 0);
  }

  lemma RepeatNone(c: char, n: int)
    ensures n <= 0 ==> Repeat(c, n) == ""
  {
  }

  lemma AppendNone(t: string)
    ensures t + "" == t
  {
  }

  /** print_number up to the digits: blanks, the sign, fill. */
  method PutLead(out: Output, start: int, sign: string, fl: Flags) returns (size: int)
    requires out.Valid() && (sign == "" || sign == [sign[0]])
    modifies out, out.memory
    ensures out.Valid()
    ensures var (blanks, size1) := Lead(start, sign, !fl.zero && !fl.left);
            var size2 := size1 - |sign|;
            && out.text == old(out.text) + Repeat(' ', blanks) + sign + Repeat(if fl.zero then '0'
              else ' ', if fl.left then 0 else size2)
            && size == if fl.left then size2 else CountedDown(size2)
  {
    hide Repeat;
    size := start;
    ghost var t := out.text;
    RepeatNone(' ', 0);
    RepeatNone('0', 0);
    AppendNone(t);
    if !fl.zero && !fl.left {
      if sign != "" && size > 0 { size := size - 1; }
      size := out.Pad(' ', size);
    }
    ghost var a := Repeat(' ', Lead(start, sign, !fl.zero && !fl.left).0);
    assert out.text == t + a;
    AppendNone(t + a);
    if sign != "" {
      out.Put(sign[0]);
      size := size - 1;
    }
    assert out.text == t + a + sign;
    AppendNone(t + a + sign);
    if !fl.left {
      size := out.Pad(if fl.zero then '0' else ' ', size);
    }
  }

  /** print_number. */
  method PrintNumber(out: Output, num: nat, base: nat, s: int, precision: int, fl: Flags)
    requires out.Valid() && num < WORD
    modifies out, out.memory
    ensures out.Valid() && out.text == old(out.text) + Number(num, base, s, precision, fl)
  {
    hide Digits, Repeat, Backwards, Number, SignOf, Pieces, Radix, Lead, CountedDown, Output.Valid;
    var sign := SignOf(num, fl);
    SignShort(num, fl);
    var tmp := new char[16];
    var i := Divide(Magnitude(num, fl), base, fl.large, tmp);
    ghost var digits := Backwards(tmp[..], i);
    var places := if i > precision then i else precision;
    ghost var lead := Lead(s - places, sign, !fl.zero && !fl.left);
    PiecesMakeNumber(num, base, s, precision, fl, digits, sign, s - places);
    ghost var t := out.text;
    var size := PutLead(out, s - places, sign, fl);
    ghost var a, c := Repeat(' ', lead.0), Repeat(if fl.zero then '0' else ' ', if fl.left then 0 else lead.1 - |sign|);
    PutRest(out, tmp, i, places - i, precision != 0, size);
    PiecesAfter(t, a, sign, c, Repeat('0', places - i), if precision != 0 then digits else "", Repeat(' ', size));
  }

  /** print_number from the leading zeros on. */
  method PutRest(out: Output, tmp: array<char>, i: nat, zeros: int, shown: bool, size: int)
    requires out.Valid() && i <= tmp.Length && tmp != out.memory
    modifies out, out.memory
    ensures out.Valid()
    ensures out.text == old(out.text) + Repeat('0', zeros) + (if shown then Backwards(tmp[..], i)
      else "") + Repeat(' ', size)
  {
    hide Repeat, Backwards, Output.Valid;
    var _ := out.Pad('0', zeros);
    AppendNone(out.text);
    if shown {
      PutBackwards(out, tmp, i);
    }
    var _ := out.Pad(' ', size);
  }

  lemma SignShort(num: nat, fl: Flags)
    ensures var s := SignOf(num, fl); s == "" || s == [s[0]]
  {
  }

  // ----- the format -----

  /** *fmt; the string ends with NUL. */
  function At(f: string, k: nat): char {
    if k < |f| then f[k] else '\0'
  }

  function IsDigit(c: char): bool {
    '0' <= c <= '9'
  }

  function IsFlag(c: char): bool {
    c == '-' || c == '+' || c == ' ' || c == '#' || c == '0'
  }

  function WithFlag(fl: Flags, c: char): Flags {
    if c == '-' then fl.(left := true) else if c == '+' then fl.(plus := true) else if c == ' ' then fl.(space := true)
    else if c == '#' then fl.(special := true) else fl.(zero := true)
  }

  /** The flags from position k on, and where they end. */
  function FlagsAt(f: string, k: nat, fl: Flags): (r: (Flags, nat))
    ensures r.1 >= k
    decreases |f| - k
  {
    if IsFlag(At(f, k)) then FlagsAt(f, k + 1, WithFlag(fl, At(f, k))) else (fl, k)
  }

  /** skip_atoi: the number from position k on, and where it ends. */
  function AtoiAt(f: string, k: nat, acc: nat): (r: (nat, nat))
    ensures r.1 >= k
    decreases |f| - k
  {
    if IsDigit(At(f, k)) then AtoiAt(f, k + 1, acc * 10 + (At(f, k) - '0') as nat) else (acc, k)
  }

  function IntOf(args: seq<Arg>): int {
    if args != [] && args[0].Int? then args[0].v else 0
  }

  function Rest(args: seq<Arg>): seq<Arg> {
    if args == [] then [] else args[1..]
  }

  /** A conversion specification up to its letter, which stands at `at`. */
  datatype Spec = Spec(flags: Flags, width: int, precision: int, qualifier: char, at: nat, args: seq<Arg>)

  function WidthAt(f: string, k: nat, fl: Flags, args: seq<Arg>): (s: Spec)
    ensures s.at >= k
  {
    if IsDigit(At(f, k)) then var (n, e) := AtoiAt(f, k, 0); Spec(fl, n, -1, '\0', e, args)
    else if At(f, k) == '*' then
      var n := IntOf(args);
      if n < 0 then Spec(fl.(left := true), -n, -1, '\0', k + 1, Rest(args))
        else Spec(fl, n, -1, '\0', k + 1, Rest(args))
    else Spec(fl, -1, -1, '\0', k, args)
  }

  function WithPrecision(f: string, s: Spec): (r: Spec)
    ensures r.at >= s.at
  {
    if At(f, s.at) != '.' then s
    else if IsDigit(At(f, s.at + 1)) then var (n, e) := AtoiAt(f, s.at + 1, 0); s.(precision := n, at := e)
    else if At(f, s.at + 1) == '*' then
      s.(precision := if IntOf(s.args) < 0 then 0 else IntOf(s.args), at := s.at + 2, args := Rest(s.args))
    else s.(precision := 0, at := s.at + 1)
  }

  function WithQualifier(f: string, s: Spec): (r: Spec)
    ensures r.at >= s.at
  {
    if At(f, s.at) == 'h' || At(f, s.at) == 'l' then s.(qualifier := At(f, s.at), at := s.at + 1) else s
  }

  /** The specification after the percent sign at k. */
  function Parse(f: string, k: nat, args: seq<Arg>): (s: Spec)
    ensures s.at > k
  {
    var (fl, e) := FlagsAt(f, k + 1, NO_FLAGS);
    WithQualifier(f, WithPrecision(f, WidthAt(f, e, fl, args)))
  }

  // ----- conversions -----

  /** Length of a string up to its NUL, at most `most` characters unless that is negative. */
  function LengthUpTo(s: string, most: int, len: nat): (n: nat)
    ensures n >= len
    decreases |s| - len
  {
    if len != most && At(s, len) != '\0' then LengthUpTo(s, most, len + 1) else len
  }

  function Shown(args: seq<Arg>): string {
    if args != [] && args[0].Str? then args[0].s else "(NULL)"
  }

  function Text(s: string, n: nat): string {
    if n == 0 then "" else Text(s, n - 1) + [At(s, n - 1)]
  }

  function Align(text: string, width: int, left: bool): string {
    if left then text + Repeat(' ', width - |text|) else Repeat(' ', width - |text|) + text
  }

  /** The length of what is shown of a string. */
  function ShownLength(s: Spec): nat {
    var n := LengthUpTo(Shown(s.args), s.width, 0);
    if s.precision > 0 && n > s.precision then s.precision else n
  }

  function StringText(s: Spec): string {
    Align(Text(Shown(s.args), ShownLength(s)), s.width, s.flags.left)
  }

  /** The argument as the 32-bit word that print_number gets. */
  function WordOf(v: int, qualifier: char, signed: bool): (w: nat)
    ensures w < WORD
  {
    if qualifier == 'h' then
      var h := v % 0x1_0000;
      if signed && h >= 0x8000 then WORD - 0x1_0000 + h else h
    else v % WORD
  }

  function NumberText(s: Spec, letter: char): string {
    var fl := s.flags.(sign := letter == 'd' || letter == 'i', large := letter == 'X');
    var base := if letter == 'o' then 8 else if letter == 'x' || letter == 'X' then 16 else 10;
    Number(WordOf(IntOf(s.args), s.qualifier, fl.sign), base, s.width, s.precision, fl)
  }

  function PointerText(s: Spec): string {
    if s.width == -1 then Number(IntOf(s.args) % WORD, 16, 8, s.precision, s.flags.(zero := true))
    else Number(IntOf(s.args) % WORD, 16, s.width, s.precision, s.flags)
  }

  function IsNumeric(c: char): bool {
    c == 'o' || c == 'x' || c == 'X' || c == 'd' || c == 'i' || c == 'u'
  }

  /** What a conversion stands for, where the format goes on, and the arguments left. */
  function Convert(f: string, s: Spec): (string, nat, seq<Arg>) {
    var c := At(f, s.at);
    if c == 'c' then (Align([(IntOf(s.args) % 256) as char], s.width, s.flags.left), s.at + 1, Rest(s.args))
    else if c == 's' then (StringText(s), s.at + 1, Rest(s.args))
    else if c == 'p' then (PointerText(s), s.at + 1, Rest(s.args))
    else if c == '%' then ("%", s.at + 1, s.args)
    else if IsNumeric(c) then (NumberText(s, c), s.at + 1, Rest(s.args))
    else if c == '\0' then ("%", s.at, s.args)
    else (['%', c], s.at + 1, s.args)
  }

  // ----- what a conversion shows, read back -----

  /** A digit of the radix, in the case asked for. */
  predicate IsDigitOf(c: char, radix: nat, large: bool) {
    '0' <= c <= '9' || (radix == 16 && if large then 'A' <= c <= 'F' else 'a' <= c <= 'f')
  }

  lemma {:induction false} DigitsReadable(n: nat, radix: nat, large: bool)
    requires radix == 10 || radix == 16
    ensures var s := Digits(n, radix, large);
      (forall i :: 0 <= i < |s| ==> IsDigitOf(s[i], radix, large)) && (if n == 0 then s == "0" else s[0] != '0')
  {
    DigitsStep(n, radix, large);
    DigitReadable(n % radix, radix, large);
    hide Digits, Digit, IsDigitOf;
    if n >= radix { DigitsReadable(n / radix, radix, large); }
  }

  lemma DigitReadable(d: nat, radix: nat, large: bool)
    requires (radix == 10 || radix == 16) && d < radix
    ensures IsDigitOf(Digit(d, large), radix, large) && (Digit(d, large) == '0' <==> d == 0)
  {
  }

  /** lead blanks, a sign, zeros, digits, and trail blanks. */
  ghost predicate LaidOut(text: string, lead: nat, sign: string, zeros: nat, digits: string, trail: nat) {
    Made(text, Repeat(' ', lead), sign, Repeat('0', zeros), digits, Repeat(' ', trail))
  }

  ghost predicate Made(text: string, a: string, b: string, c: string, d: string, e: string) {
    text == a + b + c + d + e
  }

  function Most(a: int, b: int): int {
    if a > b then a else b
  }

  /** The sign of v is '-' exactly if v is negative; of another number it is '+' or a blank
      exactly if that flag is set, '+' before the blank, and numbers without sign show none. */
  ghost predicate SignFits(sign: string, v: int, signed: bool, fl: Flags) {
    && (sign == "-" <==> v < 0)
    && (sign == "+" <==> v >= 0 && signed && fl.plus)
    && (sign == " " <==> v >= 0 && signed && fl.space && !fl.plus)
    && (sign == "" || sign == "-" || sign == "+" || sign == " ")
  }

  /** The digits are those of |v|, without leading zeros. */
  ghost predicate DigitsFor(digits: string, v: int, radix: nat, large: bool) {
    && digits != "" && Value(digits, radix) == (if v < 0 then -v else v)
    && (forall i :: 0 <= i < |digits| ==> IsDigitOf(digits[i], radix, large))
    && (digits[0] == '0' ==> digits == "0")
  }

  /** With a precision of 0 the digits are not shown, but count for the width. Zeros fill up to
      the precision; what the width leaves is filled with blanks behind, or with zeros after
      the sign, or with blanks before. */
  ghost predicate Filled(lead: nat, sign: string, zeros: nat, digits: string, trail: nat, width: int, precision: int,
                         fl: Flags) {
    var pad := Most(width - Most(precision, |digits|) - |sign|, 0);
    && lead == (if fl.left || fl.zero then 0 else pad) && trail == (if fl.left then pad else 0)
    && zeros == Most(precision - |digits|, 0) + if !fl.left && fl.zero then pad else 0
  }

  /** The text shows the number v, and all characters of it are accounted for. */
  ghost predicate ShowsNumber(text: string, v: int, radix: nat, large: bool, signed: bool, width: int, precision: int,
                              fl: Flags) {
    exists lead: nat, sign, zeros: nat, digits, trail: nat ::
      && LaidOut(text, lead, sign, zeros, if precision == 0 then "" else digits, trail)
      && SignFits(sign, v, signed, fl) && DigitsFor(digits, v, radix, large)
      && Filled(lead, sign, zeros, digits, trail, width, precision, fl)
  }

  lemma NumberShows(num: nat, base: nat, width: int, precision: int, fl: Flags)
    requires num < WORD
    ensures ShowsNumber(Number(num, base, width, precision, fl),
      if fl.sign && num >= HALF_WORD then num - WORD else num, Radix(base), fl.large, fl.sign, width, precision, fl)
  {
    hide Digits, Value, LaidOut, Repeat, IsDigitOf, Compose, SignOf, Magnitude, SignFits, DigitsFor;
    var n := Magnitude(num, fl);
    var v := if fl.sign && num >= HALF_WORD then num - WORD else num;
    SignShows(num, fl);
    var digits := Digits(n, Radix(base), fl.large);
    DigitsShow(num, Radix(base), fl);
    var sign := SignOf(num, fl);
    var places := if precision > |digits| then precision else |digits|;
    var shown := if precision != 0 then digits else "";
    var pad := width - places - |sign|;
    var rest := Most(pad, 0);
    ComposeLaidOut(sign, places - |digits|, shown, pad, fl.left, fl.zero);
    ShowsParts(Number(num, base, width, precision, fl), v, Radix(base), width, precision, fl,
               if fl.left || fl.zero then 0 else rest, sign,
               places - |digits| + if !fl.left && fl.zero then rest else 0, digits, if fl.left then rest else 0);
  }

  lemma SignShows(num: nat, fl: Flags)
    ensures SignFits(SignOf(num, fl), if fl.sign && num >= HALF_WORD then num - WORD else num, fl.sign, fl)
      || num >= WORD
  {
  }

  lemma DigitsShow(num: nat, radix: nat, fl: Flags)
    requires num < WORD && (radix == 10 || radix == 16)
    ensures DigitsFor(Digits(Magnitude(num, fl), radix, fl.large),
      if fl.sign && num >= HALF_WORD then num - WORD else num, radix, fl.large)
  {
    DigitsReadable(Magnitude(num, fl), radix, fl.large);
    DigitsRoundTrip(Magnitude(num, fl), radix, fl.large);
    hide Digits, Value, IsDigitOf;
  }

  lemma ShowsParts(text: string, v: int, radix: nat, width: int, precision: int, fl: Flags, lead: nat, sign: string,
                   zeros: nat, digits: string, trail: nat)
    requires LaidOut(text, lead, sign, zeros, if precision == 0 then "" else digits, trail)
    requires SignFits(sign, v, fl.sign, fl) && DigitsFor(digits, v, radix, fl.large)
    requires Filled(lead, sign, zeros, digits, trail, width, precision, fl)
    ensures ShowsNumber(text, v, radix, fl.large, fl.sign, width, precision, fl)
  {
    hide LaidOut, SignFits, DigitsFor, Filled;
  }


  lemma ComposeLaidOut(sign: string, zeros: nat, digits: string, pad: int, left: bool, zero: bool)
    ensures var rest := Most(pad, 0);
      LaidOut(Compose(sign, zeros, digits, pad, left, zero), if left || zero then 0 else rest, sign,
        zeros + if !left && zero then rest else 0, digits, if left then rest else 0)
  {
    hide LaidOut, Repeat;
    LeftLaidOut(sign, digits, zeros, pad);
    ZeroLaidOut(sign, digits, zeros, pad);
    RightLaidOut(sign, digits, zeros, pad);
  }

  lemma LeftLaidOut(sign: string, shown: string, fill: nat, pad: int)
    ensures LaidOut(sign + (Repeat('0', fill) + shown) + Repeat(' ', pad), 0, sign, fill, shown, Most(pad, 0))
  {
    RepeatAny(' ', pad);
    MadeLeft(sign, Repeat('0', fill), shown, Repeat(' ', pad));
    hide Repeat, Made;
  }

  lemma ZeroLaidOut(sign: string, shown: string, fill: nat, pad: int)
    ensures LaidOut(sign + Repeat('0', pad) + (Repeat('0', fill) + shown), 0, sign, fill + Most(pad, 0), shown, 0)
  {
    RepeatAny('0', pad);
    RepeatAny(' ', 0);
    RepeatJoins('0', Most(pad, 0), fill);
    MadeZero(sign, Repeat('0', fill), shown, Repeat('0', pad));
    hide Repeat, Made;
  }

  lemma RightLaidOut(sign: string, shown: string, fill: nat, pad: int)
    ensures LaidOut(Repeat(' ', pad) + sign + (Repeat('0', fill) + shown), Most(pad, 0), sign, fill, shown, 0)
  {
    RepeatAny(' ', pad);
    MadeRight(sign, Repeat('0', fill), shown, Repeat(' ', pad));
    hide Repeat, Made;
  }

  lemma MadeLeft(sign: string, fill: string, shown: string, blanks: string)
    ensures Made(sign + (fill + shown) + blanks, "", sign, fill, shown, blanks)
  {
  }

  lemma MadeZero(sign: string, fill: string, shown: string, zeros: string)
    ensures Made(sign + zeros + (fill + shown), "", sign, zeros + fill, shown, "")
  {
  }

  lemma MadeRight(sign: string, fill: string, shown: string, blanks: string)
    ensures Made(blanks + sign + (fill + shown), blanks, sign, fill, shown, "")
  {
  }

  lemma RepeatAny(c: char, n: int)
    ensures Repeat(c, n) == Repeat(c, Most(n, 0)) && Repeat(c, 0) == ""
  {
  }

  lemma {:induction false} RepeatJoins(c: char, m: nat, n: nat)
    ensures Repeat(c, m) + Repeat(c, n) == Repeat(c, n + m)
  {
    if m > 0 { RepeatJoins(c, m - 1, n); }
  }

  /** v is the argument as a signed or unsigned number of 16 or 32 bits. */
  ghost predicate InWord(v: int, arg: int, signed: bool, short: bool) {
    var m := if short then 0x1_0000 else WORD;
    && (v - arg) % m == 0
    && if signed then -m <= 2 * v < m else 0 <= v < m
  }

  /** Blanks fill up to the width, behind the text or before it. */
  ghost predicate ShowsText(text: string, shown: string, width: int, left: bool) {
    var pad := Most(width - |shown|, 0);
    if left then text == shown + Repeat(' ', pad) else text == Repeat(' ', pad) + shown
  }

  /** n is how much is shown of a string: all of it, up to a NUL, the width, or a precision
      that is not 0. */
  ghost predicate Cut(str: string, n: nat, width: int, precision: int) {
    && n <= |str| && (forall i :: 0 <= i < n ==> str[i] != '\0')
    && (width >= 0 ==> n <= width) && (precision > 0 ==> n <= precision)
    && (n == |str| || str[n] == '\0' || n == width || (precision > 0 && n == precision))
  }

  ghost predicate ShowsString(text: string, str: string, width: int, precision: int, left: bool) {
    exists n: nat :: Cut(str, n, width, precision) && ShowsText(text, str[..n], width, left)
  }

  ghost predicate ShowsWord(text: string, arg: int, radix: nat, large: bool, signed: bool, s: Spec) {
    exists v :: InWord(v, arg, signed, s.qualifier == 'h') &&
      ShowsNumber(text, v, radix, large, signed, s.width, s.precision, s.flags.(sign := signed, large := large))
  }

  /** What an integer conversion shows of its argument. */
  ghost predicate ShowsInt(text: string, c: char, arg: int, s: Spec) {
    && (c == 'd' || c == 'i' ==> ShowsWord(text, arg, 10, false, true, s))
    && (c == 'u' ==> ShowsWord(text, arg, 10, false, false, s))
    && (c == 'x' || c == 'o' ==> ShowsWord(text, arg, 16, false, false, s))
    && (c == 'X' ==> ShowsWord(text, arg, 16, true, false, s))
    && (c == 'c' ==> ShowsChar(text, arg, s))
    && (c == 'p' && !s.flags.sign && !s.flags.large ==> ShowsPointer(text, arg, s))
  }

  ghost predicate ShowsChar(text: string, arg: int, s: Spec) {
    exists c: char :: (c as int - arg) % 256 == 0 && c as int < 256 && ShowsText(text, [c], s.width, s.flags.left)
  }

  /** Without a width, 8 digits. */
  ghost predicate ShowsPointer(text: string, arg: int, s: Spec) {
    exists v ::
      && InWord(v, arg, false, false)
      && if s.width == -1 then ShowsNumber(text, v, 16, false, false, 8, s.precision, s.flags.(zero := true))
         else ShowsNumber(text, v, 16, false, false, s.width, s.precision, s.flags)
  }

  predicate TakesArgument(c: char) {
    c == 'd' || c == 'i' || c == 'u' || c == 'x' || c == 'X' || c == 'o' || c == 'p' || c == 'c' || c == 's'
  }

  /** What a conversion shows, and where the format and the arguments go on. */
  ghost predicate Shows(f: string, s: Spec, text: string, next: nat, rest: seq<Arg>) {
    if s.at >= |f| || f[s.at] == '\0' then text == "%" && next == s.at && rest == s.args
    else
      var c := f[s.at];
      && next == s.at + 1
      && (TakesArgument(c) && s.args != [] ==> rest == s.args[1..])
      && (TakesArgument(c) && s.args != [] && s.args[0].Int? && c != 's' ==> ShowsInt(text, c, s.args[0].v, s))
      && (c == 's' && s.args != [] && !s.args[0].Int? ==>
            ShowsString(text, if s.args[0].Str? then s.args[0].s else "(NULL)", s.width, s.precision, s.flags.left))
      && (!TakesArgument(c) ==> rest == s.args && text == if c == '%' then "%" else ['%', c])
  }

  lemma ConvertShows(f: string, s: Spec)
    ensures Shows(f, s, Convert(f, s).0, Convert(f, s).1, Convert(f, s).2)
  {
    if s.at < |f| && s.args != [] {
      if s.args[0].Int? {
        IntShows(s, f[s.at], s.args[0].v);
      } else if f[s.at] == 's' {
        StringShows(s);
      }
    }
    hide ShowsInt, ShowsString, NumberText, StringText, PointerText, Align;
  }

  lemma IntShows(s: Spec, c: char, arg: int)
    requires s.args != [] && s.args[0] == Int(arg)
    ensures IsNumeric(c) ==> ShowsInt(NumberText(s, c), c, arg, s)
    ensures c == 'p' ==> ShowsInt(PointerText(s), c, arg, s)
    ensures c == 'c' ==> ShowsInt(Align([(arg % 256) as char], s.width, s.flags.left), c, arg, s)
  {
    if IsNumeric(c) {
      WordShows(s, c, arg);
    } else if c == 'p' && !s.flags.sign && !s.flags.large {
      PointerShows(s, arg);
    } else if c == 'c' {
      CharShows(s, arg);
    }
    hide NumberText, PointerText, ShowsWord, ShowsChar, ShowsPointer, Align;
  }

  lemma WordShows(s: Spec, c: char, arg: int)
    requires s.args != [] && s.args[0] == Int(arg) && IsNumeric(c)
    ensures ShowsWord(NumberText(s, c), arg, if c == 'x' || c == 'o' || c == 'X' then 16 else 10, c == 'X',
      c == 'd' || c == 'i', s)
  {
    var signed := c == 'd' || c == 'i';
    WordMeans(arg, s.qualifier, signed);
    hide Number, ShowsNumber, WordOf, InWord;
    NumberShows(WordOf(arg, s.qualifier, signed), if c == 'o' then 8 else if c == 'x' || c == 'X' then 16 else 10,
      s.width, s.precision, s.flags.(sign := signed, large := c == 'X'));
  }

  lemma PointerShows(s: Spec, arg: int)
    requires s.args != [] && s.args[0] == Int(arg) && !s.flags.sign && !s.flags.large
    ensures ShowsPointer(PointerText(s), arg, s)
  {
    ModuloSame(arg);
    assert InWord(arg % WORD, arg, false, false);
    hide Number, ShowsNumber, InWord;
    NumberShows(arg % WORD, 16, 8, s.precision, s.flags.(zero := true));
    NumberShows(arg % WORD, 16, s.width, s.precision, s.flags);
  }

  lemma CharShows(s: Spec, arg: int)
    ensures ShowsChar(Align([(arg % 256) as char], s.width, s.flags.left), arg, s)
  {
    var c := (arg % 256) as char;
    AlignShows([c], s.width, s.flags.left);
    hide ShowsText, Align;
    assert (c as int - arg) % 256 == 0;
  }

  lemma ModuloSame(arg: int)
    ensures (arg % WORD - arg) % WORD == 0 && (arg % WORD - WORD - arg) % WORD == 0
    ensures (arg % 0x1_0000 - arg) % 0x1_0000 == 0 && (arg % 0x1_0000 - 0x1_0000 - arg) % 0x1_0000 == 0
  {
    var q, h := arg / WORD, arg / 0x1_0000;
    assert arg % WORD - arg == -q * WORD && arg % WORD - WORD - arg == (-q - 1) * WORD;
    assert arg % 0x1_0000 - arg == -h * 0x1_0000 && arg % 0x1_0000 - 0x1_0000 - arg == (-h - 1) * 0x1_0000;
  }

  lemma WordMeans(arg: int, qualifier: char, signed: bool)
    ensures var w := WordOf(arg, qualifier, signed);
      InWord(if signed && w >= HALF_WORD then w - WORD else w, arg, signed, qualifier == 'h')
  {
    ModuloSame(arg);
  }

  lemma AlignShows(shown: string, width: int, left: bool)
    ensures ShowsText(Align(shown, width, left), shown, width, left)
  {
    RepeatAny(' ', width - |shown|);
  }

  lemma StringShows(s: Spec)
    ensures ShowsString(StringText(s), Shown(s.args), s.width, s.precision, s.flags.left)
  {
    var str, n := Shown(s.args), ShownLength(s);
    LengthCuts(str, s.width, 0);
    TextIs(str, n);
    AlignShows(Text(str, n), s.width, s.flags.left);
    hide Align, ShowsText, Text, LengthUpTo;
  }

  /** Nothing before the NUL is left out but for the limit. */
  lemma {:induction false} LengthCuts(str: string, most: int, len: nat)
    requires len <= |str| && (most >= 0 ==> len <= most)
    ensures var n := LengthUpTo(str, most, len);
      && n <= |str| && (forall i :: len <= i < n ==> str[i] != '\0') && (most >= 0 ==> n <= most)
      && (n == |str| || str[n] == '\0' || n == most)
    decreases |str| - len
  {
    if len < |str| && len != most && str[len] != '\0' { LengthCuts(str, most, len + 1); }
  }

  lemma {:induction false} TextIs(str: string, n: nat)
    requires n <= |str|
    ensures Text(str, n) == str[..n]
  {
    if n > 0 {
      TextIs(str, n - 1);
      assert str[..n] == str[..n - 1] + [str[n - 1]];
    }
  }

  /** The whole text that a format stands for, from position k on. */
  function Render(f: string, k: nat, args: seq<Arg>): string
    decreases |f| - k
  {
    if At(f, k) == '\0' then ""
    else if At(f, k) != '%' then [At(f, k)] + Render(f, k + 1, args)
    else
      var (text, next, rest) := Convert(f, Parse(f, k, args));
      text + Render(f, next, rest)
  }

  // ----- rt_vsnprintf -----

  /** From k to e there are digits only, and no further one at e. */
  ghost predicate IsRun(f: string, k: nat, e: nat) {
    k <= e && (k < e ==> e <= |f|) && (forall i :: k <= i < e ==> IsDigit(f[i])) && !IsDigit(At(f, e))
  }

  /** The longest run of digits from k on, read as a decimal number. */
  lemma {:induction false} AtoiReads(f: string, k: nat, e: nat)
    requires IsRun(f, k, e)
    ensures AtoiAt(f, k, 0) == (if k < e then Value(f[k..e], 10) else 0, e)
  {
    AtoiGoesOn(f, k, k, e);
    if k < e { assert f[k..k] == ""; }
  }

  lemma {:induction false} AtoiGoesOn(f: string, k: nat, m: nat, e: nat)
    requires k <= m <= e && IsRun(f, k, e)
    ensures AtoiAt(f, m, if m <= |f| then Value(f[k..m], 10) else 0) == (if e <= |f| then Value(f[k..e], 10) else 0, e)
    decreases e - m
  {
    if m < e {
      assert f[k..m + 1] == f[k..m] + [f[m]];
      ValueSnoc(f[k..m], f[m], 10);
      AtoiGoesOn(f, k, m + 1, e);
    }
  }

  lemma {:induction false} RunEnds(f: string, k: nat) returns (e: nat)
    ensures IsRun(f, k, e)
    decreases |f| - k
  {
    if IsDigit(At(f, k)) { e := RunEnds(f, k + 1); } else { e := k; }
  }

  /** skip_atoi: reads the longest run of digits from k on as a decimal number, and stops
      behind it. */
  method SkipAtoi(f: string, k: nat) returns (n: nat, e: nat)
    ensures (n, e) == AtoiAt(f, k, 0)
    ensures IsRun(f, k, e) && n == if k < e then Value(f[k..e], 10) else 0
  {
    ghost var end := RunEnds(f, k);
    AtoiReads(f, k, end);
    n, e := 0, k;
    while IsDigit(At(f, e))
      invariant AtoiAt(f, e, n) == AtoiAt(f, k, 0)
      decreases |f| - e
    {
      n, e := n * 10 + (At(f, e) - '0') as nat, e + 1;
    }
  }

  method ParseWidth(f: string, k: nat, fl: Flags, args: seq<Arg>) returns (s: Spec)
    ensures s == WidthAt(f, k, fl, args)
  {
    hide AtoiAt;
    s := Spec(fl, -1, -1, '\0', k, args);
    if IsDigit(At(f, k)) {
      var n, at := SkipAtoi(f, k);
      s := s.(width := n, at := at);
    } else if At(f, k) == '*' {
      var n := IntOf(args);
      s := s.(width := n, at := k + 1, args := Rest(args));
      if n < 0 { s := s.(width := -n, flags := fl.(left := true)); }
    }
  }

  method ParsePrecision(f: string, start: Spec) returns (s: Spec)
    requires start.precision == -1
    ensures s == WithPrecision(f, start)
  {
    hide AtoiAt;
    s := start;
    if At(f, s.at) == '.' {
      s := s.(at := s.at + 1);
      if IsDigit(At(f, s.at)) {
        var n, at := SkipAtoi(f, s.at);
        s := s.(precision := n, at := at);
      } else if At(f, s.at) == '*' {
        s := s.(precision := IntOf(s.args), at := s.at + 1, args := Rest(s.args));
      }
      if s.precision < 0 { s := s.(precision := 0); }
    }
  }

  /** From the percent sign at k to the letter of the conversion. */
  method ParseSpec(f: string, k: nat, args: seq<Arg>) returns (s: Spec)
    ensures s == Parse(f, k, args)
  {
    var fl, e := NO_FLAGS, k + 1;
    while IsFlag(At(f, e))
      invariant FlagsAt(f, e, fl) == FlagsAt(f, k + 1, NO_FLAGS) && e > k
      decreases |f| - e
    {
      fl, e := WithFlag(fl, At(f, e)), e + 1;
    }
    s := ParseWidth(f, e, fl, args);
    s := ParsePrecision(f, s);
    if At(f, s.at) == 'h' || At(f, s.at) == 'l' {
      s := s.(qualifier := At(f, s.at), at := s.at + 1);
    }
  }

  // ----- reading back what was written -----

  lemma {:induction false} DigitsAreDigits(n: nat)
    ensures forall c :: c in Digits(n, 10, false) ==> IsDigit(c)
    ensures n > 0 ==> Digits(n, 10, false)[0] != '0'
  {
    if n >= 10 { DigitsAreDigits(n / 10); }
  }

  ghost predicate StandsAt(f: string, k: nat, s: string) {
    k + |s| <= |f| && f[k..k + |s|] == s
  }

  /** The decimal digits of n are read as n. */
  lemma AtoiRoundTrip(f: string, k: nat, n: nat)
    requires StandsAt(f, k, Digits(n, 10, false)) && !IsDigit(At(f, k + |Digits(n, 10, false)|))
    ensures AtoiAt(f, k, 0) == (n, k + |Digits(n, 10, false)|) && IsDigit(At(f, k))
  {
    var d := Digits(n, 10, false);
    DigitsAreDigits(n);
    forall i | k <= i < k + |d|
      ensures IsDigit(f[i])
    {
      assert f[i] == f[k..k + |d|][i - k];
    }
    AtoiReads(f, k, k + |d|);
    DigitsRoundTrip(n, 10, false);
  }

  lemma SliceAt(f: string, k: nat, s: string, i: nat, j: nat)
    requires StandsAt(f, k, s) && i <= j <= |s|
    ensures f[k + i..k + j] == s[i..j]
  {
    forall m | 0 <= m < j - i
      ensures f[k + i..k + j][m] == s[i..j][m]
    {
      assert f[k..k + |s|][i + m] == f[k + i + m];
    }
  }

  lemma FlagSets(fl: Flags, c: char)
    requires IsFlag(c)
    ensures var r := WithFlag(fl, c);
      && r.sign == fl.sign && r.large == fl.large
      && (r.left <==> fl.left || c == '-') && (r.plus <==> fl.plus || c == '+') && (r.space <==> fl.space || c == ' ')
      && (r.special <==> fl.special || c == '#') && (r.zero <==> fl.zero || c == '0')
  {
    if c == '-' {
    } else if c == '+' {
    } else if c == ' ' {
    } else if c == '#' {
    } else {
    }
  }

  /** Each flag is set exactly when its character is among those read. */
  lemma {:induction false} FlagsRead(f: string, k: nat, fl: Flags, g: string)
    requires StandsAt(f, k, g) && (forall c :: c in g ==> IsFlag(c)) && !IsFlag(At(f, k + |g|))
    ensures var (r, e) := FlagsAt(f, k, fl);
      && e == k + |g| && r.sign == fl.sign && r.large == fl.large
      && (r.left <==> fl.left || '-' in g) && (r.plus <==> fl.plus || '+' in g) && (r.space <==> fl.space || ' ' in g)
      && (r.special <==> fl.special || '#' in g) && (r.zero <==> fl.zero || '0' in g)
    decreases |g|
  {
    if g != "" {
      assert f[k..k + |g|][0] == f[k];
      SliceAt(f, k, g, 1, |g|);
      assert forall c :: c in g <==> c == g[0] || c in g[1..] by { assert g == [g[0]] + g[1..]; }
      FlagSets(fl, f[k]);
      hide WithFlag;
      FlagsRead(f, k + 1, WithFlag(fl, f[k]), g[1..]);
    }
  }

  /** A specification with flags g, width w and precision p is read as what it says. */
  lemma ParseReads(f: string, k: nat, g: string, w: nat, p: nat, args: seq<Arg>)
    requires (forall x :: x in g ==> IsFlag(x)) && w > 0
    requires StandsAt(f, k + 1, g) && StandsAt(f, k + 1 + |g|, Digits(w, 10, false))
    requires var b := k + 1 + |g| + |Digits(w, 10, false)|;
      && At(f, b) == '.' && StandsAt(f, b + 1, Digits(p, 10, false))
      && var c := At(f, b + 1 + |Digits(p, 10, false)|); !IsDigit(c) && c != 'h' && c != 'l'
    ensures var s := Parse(f, k, args);
      && s.width == w && s.precision == p && s.qualifier == '\0' && s.args == args
      && s.at == k + |g| + |Digits(w, 10, false)| + |Digits(p, 10, false)| + 2
      && (s.flags.left <==> '-' in g) && (s.flags.plus <==> '+' in g) && (s.flags.space <==> ' ' in g)
      && (s.flags.zero <==> '0' in g)
  {
    hide StandsAt, FlagsAt, WidthAt, WithPrecision, Digits, IsFlag, IsDigit;
    var a := k + 1 + |g|;
    NoFlag(f, a, w);
    FlagsRead(f, k + 1, NO_FLAGS, g);
    WidthReads(f, a, FlagsAt(f, k + 1, NO_FLAGS).0, w, args);
    PrecisionReads(f, WidthAt(f, a, FlagsAt(f, k + 1, NO_FLAGS).0, args), p);
  }

  /** Without width and precision, and with or without a qualifier. */
  lemma PlainReads(f: string, k: nat, g: string, args: seq<Arg>)
    requires (forall x :: x in g ==> IsFlag(x)) && StandsAt(f, k + 1, g)
    requires var c := At(f, k + 1 + |g|); !IsFlag(c) && !IsDigit(c) && c != '*' && c != '.'
    ensures var s, c := Parse(f, k, args), At(f, k + 1 + |g|);
      && s.width == -1 && s.precision == -1 && s.args == args
      && (if c == 'h' || c == 'l' then s.qualifier == c && s.at == k + 2 + |g|
          else s.qualifier == '\0' && s.at == k + 1 + |g|)
      && !s.flags.sign && !s.flags.large && (s.flags.left <==> '-' in g) && (s.flags.plus <==> '+' in g)
      && (s.flags.space <==> ' ' in g) && (s.flags.zero <==> '0' in g)
  {
    FlagsRead(f, k + 1, NO_FLAGS, g);
    hide StandsAt, FlagsAt, IsFlag, AtoiAt;
  }

  /** Width and precision from the arguments: a negative width is a width with the flag '-', a
      negative precision is 0. */
  lemma StarsRead(f: string, k: nat, g: string, w: int, p: int, args: seq<Arg>)
    requires (forall x :: x in g ==> IsFlag(x)) && StandsAt(f, k + 1, g)
    requires var a := k + 1 + |g|; At(f, a) == '*' && At(f, a + 1) == '.' && At(f, a + 2) == '*'
    requires var c := At(f, k + 4 + |g|); c != 'h' && c != 'l'
    ensures var s := Parse(f, k, [Int(w), Int(p)] + args);
      && s.width == (if w < 0 then -w else w) && s.precision == (if p < 0 then 0 else p)
      && s.qualifier == '\0' && s.args == args && s.at == k + 4 + |g|
      && (s.flags.left <==> '-' in g || w < 0) && (s.flags.plus <==> '+' in g)
      && (s.flags.space <==> ' ' in g) && (s.flags.zero <==> '0' in g)
  {
    var all := [Int(w), Int(p)] + args;
    assert all[0] == Int(w) && all[1..] == [Int(p)] + args && ([Int(p)] + args)[1..] == args;
    FlagsRead(f, k + 1, NO_FLAGS, g);
    hide StandsAt, FlagsAt, AtoiAt;
  }

  lemma NoFlag(f: string, k: nat, w: nat)
    requires w > 0 && StandsAt(f, k, Digits(w, 10, false))
    ensures !IsFlag(At(f, k)) && IsDigit(At(f, k))
  {
    var d := Digits(w, 10, false);
    DigitsAreDigits(w);
    assert f[k] == f[k..k + |d|][0] == d[0] && d[0] in d;
  }

  lemma WidthReads(f: string, k: nat, fl: Flags, w: nat, args: seq<Arg>)
    requires StandsAt(f, k, Digits(w, 10, false)) && At(f, k + |Digits(w, 10, false)|) == '.'
    ensures WidthAt(f, k, fl, args) == Spec(fl, w, -1, '\0', k + |Digits(w, 10, false)|, args)
  {
    AtoiRoundTrip(f, k, w);
    hide AtoiAt, Digits, StandsAt;
  }

  lemma PrecisionReads(f: string, s: Spec, p: nat)
    requires At(f, s.at) == '.' && StandsAt(f, s.at + 1, Digits(p, 10, false)) &&
      !IsDigit(At(f, s.at + 1 + |Digits(p, 10, false)|))
    ensures WithPrecision(f, s) == s.(precision := p, at := s.at + 1 + |Digits(p, 10, false)|)
  {
    AtoiRoundTrip(f, s.at + 1, p);
    hide AtoiAt, Digits, StandsAt;
  }

  lemma TextNext(s: string, n: nat)
    ensures Text(s, n) + [At(s, n)] == Text(s, n + 1)
  {
  }

  lemma {:induction false} TextSize(s: string, n: nat)
    ensures |Text(s, n)| == n
  {
    if n > 0 { TextSize(s, n - 1); }
  }

  method Measure(s: Spec) returns (len: nat)
    ensures len == ShownLength(s)
  {
    var t := Shown(s.args);
    len := 0;
    while len != s.width && At(t, len) != '\0'
      invariant LengthUpTo(t, s.width, len) == LengthUpTo(t, s.width, 0)
      decreases |t| - len
    {
      len := len + 1;
    }
    if s.precision > 0 && len > s.precision { len := s.precision; }
  }

  /** The first len characters of t. */
  method PutText(out: Output, t: string, len: nat)
    requires out.Valid()
    modifies out, out.memory
    ensures out.Valid() && out.text == old(out.text) + Text(t, len)
  {
    hide Text, Output.Valid;
    TextNone(t);
    AppendNone(out.text);
    var i: nat := 0;
    while i < len
      invariant i <= len && out.Valid() && out.text == old(out.text) + Text(t, i)
    {
      TextNext(t, i);
      out.Put(At(t, i));
      i := i + 1;
    }
  }

  /** case 's'. */
  method PutString(out: Output, s: Spec)
    requires out.Valid()
    modifies out, out.memory
    ensures out.Valid() && out.text == old(out.text) + StringText(s)
  {
    hide Repeat, Text, Output.Valid;
    var t := Shown(s.args);
    var len := Measure(s);
    TextSize(t, len);
    ghost var text := out.text;
    var room := s.width - len;
    RepeatNone(' ', room);
    AppendNone(text);
    AlignText(text, Text(t, len), s.width, s.flags.left);
    if !s.flags.left {
      room := out.Pad(' ', room);
    }
    PutText(out, t, len);
    RepeatNone(' ', room);
    AppendNone(out.text);
    var _ := out.Pad(' ', room);
  }

  lemma TextNone(s: string)
    ensures Text(s, 0) == ""
  {
  }

  lemma AlignText(t: string, text: string, width: int, left: bool)
    ensures left ==> t + "" + text + Repeat(' ', width - |text|) == t + Align(text, width, left)
    ensures !left ==> t + Repeat(' ', width - |text|) + text == t + Align(text, width, left)
  {
    hide Repeat;
    assert t + "" == t;
  }

  /** case 'c'. */
  method PutChar(out: Output, s: Spec)
    requires out.Valid()
    modifies out, out.memory
    ensures out.Valid() && out.text == old(out.text) + Align([(IntOf(s.args) % 256) as char], s.width, s.flags.left)
  {
    hide Repeat;
    var c := (IntOf(s.args) % 256) as char;
    var room := s.width - 1;
    ghost var text := out.text;
    AlignText(text, [c], s.width, s.flags.left);
    if !s.flags.left {
      room := out.Pad(' ', room);
    }
    AppendNone(text);
    out.Put(c);
    RepeatNone(' ', room);
    AppendNone(out.text);
    var _ := out.Pad(' ', room);
  }

  /** The switch of rt_vsnprintf. */
  method PutConversion(out: Output, f: string, s: Spec) returns (next: nat, rest: seq<Arg>)
    requires out.Valid()
    modifies out, out.memory
    ensures out.Valid() && out.text == old(out.text) + Convert(f, s).0 &&
      (next, rest) == (Convert(f, s).1, Convert(f, s).2)
    ensures Shows(f, s, out.text[|old(out.text)|..], next, rest)
  {
    ConvertShows(f, s);
    hide Align, StringText, Number, Shows;
    var c := At(f, s.at);
    next, rest := s.at + 1, s.args;
    if c == 'c' {
      PutChar(out, s);
      rest := Rest(s.args);
    } else if c == 's' {
      PutString(out, s);
      rest := Rest(s.args);
    } else if c == 'p' {
      var width, fl := s.width, s.flags;
      if width == -1 { width, fl := 8, fl.(zero := true); }
      PrintNumber(out, IntOf(s.args) % WORD, 16, width, s.precision, fl);
      rest := Rest(s.args);
    } else if c == '%' {
      out.Put('%');
    } else if IsNumeric(c) {
      var fl := s.flags.(sign := c == 'd' || c == 'i', large := c == 'X');
      var base := if c == 'o' then 8 else if c == 'x' || c == 'X' then 16 else 10;
      PrintNumber(out, WordOf(IntOf(s.args), s.qualifier, fl.sign), base, s.width, s.precision, fl);
      rest := Rest(s.args);
    } else {
      out.Put('%');
      if c != '\0' {
        out.Put(c);
      } else {
        next := s.at;
      }
    }
  }

  /** buf + size, or the last address where that wraps around. */
  function EndOf(address: nat, size: nat): (end: nat)
    requires address < WORD && size < WORD
    ensures address <= end < WORD && end <= address + size
  {
    if address + size >= WORD then WORD - 1 else address + size
  }

  /** As much of the text as fits in front of a NUL. */
  function Fitting(text: string, room: nat): string {
    if room == 0 then "" else if |text| < room then text + "\0" else text[..room - 1] + "\0"
  }

  /** A word read as rt_int32_t. */
  function Signed(w: nat): (r: int)
    ensures w < WORD ==> 0 <= r + HALF_WORD && r < HALF_WORD && (r == w || r == w - WORD)
  {
    if w < HALF_WORD then w else w - WORD
  }

  /** The write position does not come around to an address below buf. */
  predicate StaysAbove(address: nat, room: nat, n: nat) {
    address == 0 || address + n < WORD || (room == 0 && address + n == WORD)
  }

  /** The loop of rt_vsnprintf over the format. */
  method PutAll(out: Output, f: string, args: seq<Arg>)
    requires out.Valid() && out.text == ""
    modifies out, out.memory
    ensures out.Valid() && out.text == Render(f, 0, args)
  {
    hide Render, Convert, Parse, Output.Valid;
    var k, left := 0, args;
    assert "" + Render(f, 0, args) == Render(f, 0, args);
    while At(f, k) != '\0'
      invariant out.Valid() && out.text + Render(f, k, left) == Render(f, 0, args)
      decreases |f| - k
    {
      RenderStep(f, k, left);
      ghost var text := out.text;
      if At(f, k) != '%' {
        out.Put(At(f, k));
        Joined(text, [At(f, k)], Render(f, k + 1, left));
        k := k + 1;
      } else {
        var s := ParseSpec(f, k, left);
        var next, rest := PutConversion(out, f, s);
        Joined(text, Convert(f, s).0, Render(f, next, rest));
        k, left := next, rest;
      }
    }
    RenderEnd(f, k, left);
    AppendNone(out.text);
  }

  /** rt_vsnprintf; `memory` is the address space. Without wrap-around the buffer holds what
      fits of the text, then NUL. Nothing outside the buffer is written exactly when the
      write position does not come around. */
  method Vsnprintf(address: nat, size: nat, memory: array<char>, f: string, args: seq<Arg>)
      returns (r: int, ghost written: set<int>)
    requires address < WORD && size < WORD && memory.Length == WORD
    modifies memory
    ensures r == Signed(|Render(f, 0, args)| % WORD)
    ensures var end, n := EndOf(address, size), |Render(f, 0, args)|;
      && (forall a :: a in written <==> Touches(address, end, n, a))
      && ((forall a :: a in written ==> address <= a < end) <==> StaysAbove(address, end - address, n))
    ensures forall a :: 0 <= a < WORD && a !in written ==> memory[a] == old(memory[a])
    ensures var stored := Fitting(Render(f, 0, args), EndOf(address, size) - address);
      address + |Render(f, 0, args)| < WORD ==>
        && address + |stored| < WORD
        && memory[..] == old(memory[..])[..address] + stored + old(memory[..])[address + |stored|..]
    ensures Reads(f, 0, args, Render(f, 0, args))
  {
    hide Render, Reads, Writes, Lands, Fitting, StaysAbove, NulAt, Touches;
    RenderReads(f, 0, args);
    var end := EndOf(address, size);
    ghost var before := memory[..];
    var out := new Output(memory, address, end);
    PutAll(out, f, args);
    written, r := out.Finish();
    ghost var text := out.text;
    StaysInside(address, end, |text|);
    if address + |text| < WORD { InsideText(address, end, text, before, memory[..]); }
  }

  lemma RenderStep(f: string, k: nat, args: seq<Arg>)
    requires At(f, k) != '\0'
    ensures At(f, k) != '%' ==> Render(f, k, args) == [At(f, k)] + Render(f, k + 1, args)
    ensures At(f, k) == '%' ==>
              var (text, next, rest) := Convert(f, Parse(f, k, args));
                Render(f, k, args) == text + Render(f, next, rest) && next > k && k < |f|
    ensures k < |f|
  {
    hide NumberText, StringText, PointerText, Align, FlagsAt, WidthAt, WithPrecision, WithQualifier;
  }

  /** The text of a format, read back: its own characters as they are, up to a NUL, and for each
      conversion in turn what shows the next argument. */
  ghost predicate Reads(f: string, k: nat, args: seq<Arg>, text: string)
    decreases |f| - k
  {
    if k >= |f| || f[k] == '\0' then text == ""
    else if f[k] != '%' then text != "" && text[0] == f[k] && Reads(f, k + 1, args, text[1..])
    else
      exists n: nat, next: nat, rest ::
        && n <= |text| && k < next && Shows(f, Parse(f, k, args), text[..n], next, rest)
        && Reads(f, next, rest, text[n..])
  }

  lemma {:induction false} RenderReads(f: string, k: nat, args: seq<Arg>)
    ensures Reads(f, k, args, Render(f, k, args))
    decreases |f| - k
  {
    hide Shows, Convert, Parse, Render;
    if k < |f| && f[k] != '\0' {
      RenderStep(f, k, args);
      if f[k] != '%' {
        RenderReads(f, k + 1, args);
        assert Render(f, k, args)[1..] == Render(f, k + 1, args);
      } else {
        var (text, next, rest) := Convert(f, Parse(f, k, args));
        ConvertShows(f, Parse(f, k, args));
        RenderReads(f, next, rest);
        var all := Render(f, k, args);
        assert all[..|text|] == text && all[|text|..] == Render(f, next, rest);
      }
    } else {
      RenderEnd(f, k, args);
    }
  }

  lemma RenderEnd(f: string, k: nat, args: seq<Arg>)
    requires At(f, k) == '\0'
    ensures Render(f, k, args) == ""
  {
  }

  lemma Joined(a: string, b: string, c: string)
    ensures a + (b + c) == (a + b) + c
  {
  }

  /** The text is stored up to the same place whatever the size: with a smaller buffer a
      prefix of it. */
  lemma SmallerIsPrefix(text: string, small: nat, large: nat)
    requires 0 < small <= large
    ensures var s := Fitting(text, small); s[..|s| - 1] <= Fitting(text, large)
  {
  }

  // ----- a field wider than the rest of the address space -----

  /** "%<w>d" stands for a text of w characters, if w exceeds what a number needs. */
  lemma WideField(f: string, w: nat, v: int)
    requires w > 11 && f == "%" + Digits(w, 10, false) + "d"
    ensures |Render(f, 0, [Int(v)])| == w
  {
    var d := Digits(w, 10, false);
    DigitsAreDigits(w);
    assert f[1] == d[0] && f[1 + |d|] == 'd' && f[1..1 + |d|] == d;
    assert d[0] in d;
    assert FlagsAt(f, 1, NO_FLAGS) == (NO_FLAGS, 1);
    hide Digits;
    AtoiRoundTrip(f, 1, w);
    hide FlagsAt, AtoiAt;
    var args := [Int(v)];
    var s := Parse(f, 0, args);
    assert s == Spec(NO_FLAGS, w, -1, '\0', 1 + |d|, args);
    RenderStep(f, 0, args);
    RenderEnd(f, |f|, Rest(args));
    var fl := NO_FLAGS.(sign := true);
    var num := WordOf(v, '\0', true);
    NumberWidth(num, 10, w, -1, fl);
    BackwardsNone("");
    DigitsFit(Magnitude(num, fl), 10, false, 10);
    hide Render, Number, Parse;
    assert Convert(f, s) == (Number(num, 10, w, -1, fl), |f|, Rest(args));
  }

  lemma OneMore(n: nat, s: string, d: nat)
    requires Digits(n, 10, false) == s && n > 0 && d < 10
    ensures Digits(n * 10 + d, 10, false) == s + [Digit(d, false)]
  {
  }

  lemma WideDigits()
    ensures Digits(1073741825, 10, false) == "1073741825"
  {
    assert Digits(1, 10, false) == "1";
    hide Digits;
    OneMore(1, "1", 0);
    OneMore(10, "10", 7);
    OneMore(107, "107", 3);
    OneMore(1073, "1073", 7);
    OneMore(10737, "10737", 4);
    OneMore(107374, "107374", 1);
    OneMore(1073741, "1073741", 8);
    OneMore(10737418, "10737418", 2);
    OneMore(107374182, "107374182", 5);
  }

  /** With a buffer of 10 bytes at 0xC0000000, "%1073741825d" writes address 0. */
  method WideFieldWritesBelow(memory: array<char>, v: int) returns (ghost written: set<int>)
    requires memory.Length == WORD
    modifies memory
    ensures 0 in written
  {
    hide Render, Fitting, StaysAbove, NulAt, Digits;
    var f := "%1073741825d";
    WideDigits();
    assert f == "%" + "1073741825" + "d";
    WideField(f, 1073741825, v);
    var r;
    r, written := Vsnprintf(0xC000_0000, 10, memory, f, [Int(v)]);
    assert Lands(0xC000_0000, 0x4000_0000) == 0;
    assert Touches(0xC000_0000, 0xC000_000A, 1073741825, 0);
  }
}
