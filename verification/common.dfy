/** Values shared by every component of the trading bot: optional values,
    trade sides, and the few string operations the bot applies to symbols
    and plan cells (substring test, whitespace stripping, ASCII lower-case). */
module Common {

  datatype Option<+T> = None | Some(value: T)

  datatype Result<+T, +E> = Ok(value: T) | Err(error: E)

  /** The direction of a position. The exchange spells these "BUY" and "SELL". */
  datatype Side = Buy | Sell

  /** `t in s` for strings: t occurs as a contiguous piece of s. */
  predicate HasSubstring(s: string, t: string)
  {
    |t| <= |s| && (s[..|t|] == t || HasSubstring(s[1..], t))
  }

  /** The pip of a pair: 0.01 when the symbol mentions JPY, else 0.0001. */
  function PipValue(symbol: string): (p: real)
    ensures p > 0.0
    ensures HasSubstring(symbol, "JPY") <==> p == 0.01
    ensures !HasSubstring(symbol, "JPY") ==> p == 0.0001
  {
    if HasSubstring(symbol, "JPY") then 0.01 else 0.0001
  }

  /** The characters str.strip() removes: those str.isspace() accepts, the
      ASCII controls \t through \r and \x1c through \x1f, the space, and the
      Unicode spaces and separators (the ideographic space U+3000 among them). */
  predicate IsSpace(c: char)
  {
    var n := c as int;
    || 0x09 <= n <= 0x0D || 0x1C <= n <= 0x20 || n == 0x85 || n == 0xA0 || n == 0x1680
    || 0x2000 <= n <= 0x200A || n == 0x2028 || n == 0x2029 || n == 0x202F || n == 0x205F
    || n == 0x3000
  }

  function TrimLeft(s: string): (r: string)
    ensures |r| <= |s|
  {
    if s == [] || !IsSpace(s[0]) then s else TrimLeft(s[1..])
  }

  function TrimRight(s: string): (r: string)
    ensures |r| <= |s|
  {
    if s == [] || !IsSpace(s[|s| - 1]) then s else TrimRight(s[..|s| - 1])
  }

  /** str.strip(). */
  function Strip(s: string): string
  {
    TrimRight(TrimLeft(s))
  }

  /** lstrip() removes exactly the leading whitespace. */
  lemma {:induction false} TrimLeftSpec(s: string)
    ensures var r := TrimLeft(s);
            && r == s[|s| - |r|..]
            && (r == [] || !IsSpace(r[0]))
            && forall k :: 0 <= k < |s| - |r| ==> IsSpace(s[k])
    decreases |s|
  {
    if s != [] && IsSpace(s[0]) {
      TrimLeftSpec(s[1..]);
    }
  }

  /** rstrip() removes exactly the trailing whitespace. */
  lemma {:induction false} TrimRightSpec(s: string)
    ensures var r := TrimRight(s);
            && r == s[..|r|]
            && (r == [] || !IsSpace(r[|r| - 1]))
            && forall k :: |r| <= k < |s| ==> IsSpace(s[k])
    decreases |s|
  {
    if s != [] && IsSpace(s[|s| - 1]) {
      TrimRightSpec(s[..|s| - 1]);
    }
  }

  /** str.strip(): both ends of the result are free of whitespace, and the
      result is the piece of the input between the whitespace removed at the
      front and the whitespace removed at the back. */
  lemma StripSpec(s: string)
    ensures var r := Strip(s);
            && (r == [] || (!IsSpace(r[0]) && !IsSpace(r[|r| - 1])))
            && exists i, j :: 0 <= i <= j <= |s| && r == s[i..j]
                              && (forall k :: 0 <= k < i ==> IsSpace(s[k]))
                              && (forall k :: j <= k < |s| ==> IsSpace(s[k]))
  {
    var i, j := StripBounds(s);
  }

  /** Where strip() cuts: the whitespace before `i` and from `j` on goes. */
  lemma StripBounds(s: string) returns (i: int, j: int)
    ensures 0 <= i <= j <= |s| && Strip(s) == s[i..j]
    ensures Strip(s) == [] || (!IsSpace(s[i]) && !IsSpace(s[j - 1]))
    ensures forall k :: 0 <= k < i ==> IsSpace(s[k])
    ensures forall k :: j <= k < |s| ==> IsSpace(s[k])
  {
    var l := TrimLeft(s);
    TrimLeftSpec(s);
    var r := TrimRight(l);
    TrimRightSpec(l);
    i := |s| - |l|;
    j := i + |r|;
    assert r == s[i..j] by {
      assert l == s[i..];
    }
    if r != [] {
      assert r[0] == l[0] && s[i] == r[0] && s[j - 1] == r[|r| - 1];
    }
    forall k | j <= k < |s|
      ensures IsSpace(s[k])
    {
      assert s[k] == l[k - i];
    }
  }

  /** True when the string holds something besides whitespace (`s.strip()` is truthy). */
  predicate NotBlank(s: string)
  {
    Strip(s) != []
  }

  /** Moves a character of the range lo..hi to the same place in the range
      starting at `to`; any other character is kept. */
  function ShiftCase(c: char, lo: char, hi: char, to: char): (d: char)
    requires to as int + (hi as int - lo as int) < 0xD800
    ensures lo <= c <= hi ==> d as int == c as int - lo as int + to as int
    ensures !(lo <= c <= hi) ==> d == c
  {
    if lo <= c <= hi then (c as int - lo as int + to as int) as char else c
  }

  function LowerChar(c: char): (d: char)
    ensures !('A' <= d <= 'Z')
  {
    ShiftCase(c, 'A', 'Z', 'a')
  }

  function UpperChar(c: char): (d: char)
    ensures !('a' <= d <= 'z')
  {
    ShiftCase(c, 'a', 'z', 'A')
  }

  /** str.lower() on ASCII letters: no capital is left, each capital becomes
      its small letter, and every other character stays as it is. */
  function Lower(s: string): (r: string)
    ensures |r| == |s|
    ensures forall k :: 0 <= k < |r| ==> !('A' <= r[k] <= 'Z')
    ensures forall k :: 0 <= k < |s| && !('A' <= s[k] <= 'Z') ==> r[k] == s[k]
    ensures forall k :: 0 <= k < |s| && 'A' <= s[k] <= 'Z' ==> r[k] as int == s[k] as int + ('a' as int - 'A' as int)
  {
    seq(|s|, k requires 0 <= k < |s| => LowerChar(s[k]))
  }

  /** str.upper() on ASCII letters: no small letter is left, each small
      letter becomes its capital, and every other character stays as it is. */
  function Upper(s: string): (r: string)
    ensures |r| == |s|
    ensures forall k :: 0 <= k < |r| ==> !('a' <= r[k] <= 'z')
    ensures forall k :: 0 <= k < |s| && !('a' <= s[k] <= 'z') ==> r[k] == s[k]
    ensures forall k :: 0 <= k < |s| && 'a' <= s[k] <= 'z' ==> r[k] as int == s[k] as int - ('a' as int - 'A' as int)
  {
    seq(|s|, k requires 0 <= k < |s| => UpperChar(s[k]))
  }

  /** Lower-casing twice is lower-casing once. */
  lemma LowerIdempotent(s: string)
    ensures Lower(Lower(s)) == Lower(s)
  {
  }

  /** Lower-casing forgets the case: upper-casing first changes nothing. */
  lemma LowerUpper(s: string)
    ensures Lower(Upper(s)) == Lower(s)
  {
    var l, u := Lower(Upper(s)), Lower(s);
    forall k | 0 <= k < |s|
      ensures l[k] == u[k]
    {
      assert Upper(s)[k] == UpperChar(s[k]);
    }
  }

  // Sequence facts the loops and recursions over plan rows, positions and
  // results rely on, stated once for every element type.

  /** A non-empty sequence is its front followed by its last element. */
  lemma LastSplit<T>(s: seq<T>)
    requires s != []
    ensures s == s[..|s| - 1] + [s[|s| - 1]]
    ensures multiset(s) == multiset(s[..|s| - 1]) + multiset{s[|s| - 1]}
  {
    assert s == s[..|s| - 1] + [s[|s| - 1]];
  }

  /** One more step of a loop over a prefix. */
  lemma PrefixStep<T>(s: seq<T>, i: nat)
    requires i < |s|
    ensures s[..i + 1][..i] == s[..i]
    ensures s[..i + 1] == s[..i] + [s[i]]
  {
    assert s[..i + 1] == s[..i] + [s[i]];
  }

  /** The whole prefix is the sequence. */
  lemma WholePrefix<T>(s: seq<T>)
    ensures s[..|s|] == s
  {
  }
}
