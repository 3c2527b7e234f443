/**
 * The pieces of `java.lang` that the plugin's logic leans on, written out over unbounded
 * integers and `seq<char>`: the 32-bit `int`, `Integer.parseInt`, `Integer.toString`,
 * `String.split` with a one-character separator, ASCII `toLowerCase`, `startsWith`,
 * `equalsIgnoreCase` and `String.hashCode`.
 */
module JavaText {
  import opened Wrappers

  /** Java's `int`. */
  type Int32 = x: int | -0x8000_0000 <= x < 0x8000_0000

  predicate InInt32(x: int) {
    -0x8000_0000 <= x < 0x8000_0000
  }

  /** Two's-complement narrowing of an integer to `int` (overflowing arithmetic, `intValue`). */
  function Wrap32(x: int): (r: Int32)
    ensures (x - r) % 0x1_0000_0000 == 0
    ensures InInt32(x) ==> r == x
  {
    var q := (x + 0x8000_0000) / 0x1_0000_0000;
    assert x + 0x8000_0000 == q * 0x1_0000_0000 + (x + 0x8000_0000) % 0x1_0000_0000;
    (x + 0x8000_0000) % 0x1_0000_0000 - 0x8000_0000
  }

  // ---------------------------------------------------------------------------------------
  // Case and prefixes

  /** `Character.toLowerCase` on the ASCII letters; every other character is left as it is. */
  function LowerChar(c: char): char {
    if 'A' <= c <= 'Z' then (c as int + 32) as char else c
  }

  function ToLower(s: string): (r: string)
    ensures |r| == |s|
    ensures forall i :: 0 <= i < |s| ==> r[i] == LowerChar(s[i])
  {
    if s == [] then [] else [LowerChar(s[0])] + ToLower(s[1..])
  }

  /** Lower-casing twice is lower-casing once. */
  lemma ToLowerIdempotent(s: string)
    ensures ToLower(ToLower(s)) == ToLower(s)
  {
    assert forall i :: 0 <= i < |s| ==> LowerChar(LowerChar(s[i])) == LowerChar(s[i]);
  }

  predicate StartsWith(s: string, prefix: string) {
    |prefix| <= |s| && s[..|prefix|] == prefix
  }

  predicate EqualsIgnoreCase(a: string, b: string) {
    ToLower(a) == ToLower(b)
  }

  // ---------------------------------------------------------------------------------------
  // Decimal numerals

  predicate IsDigit(c: char) {
    '0' <= c <= '9'
  }

  predicate AllDigits(s: string) {
    forall i :: 0 <= i < |s| ==> IsDigit(s[i])
  }

  function DigitChar(d: int): (c: char)
    requires 0 <= d < 10
    ensures IsDigit(c) && c as int - '0' as int == d
  {
    ('0' as int + d) as char
  }

  /** The value of a string of ASCII digits, most significant first. */
  function DigitsValue(s: string): nat
    requires AllDigits(s)
  {
    if s == [] then 0 else 10 * DigitsValue(s[..|s| - 1]) + (s[|s| - 1] as int - '0' as int)
  }

  /** The shortest decimal numeral of `n`. */
  function NatToDecimal(n: nat): (s: string)
    ensures |s| >= 1 && AllDigits(s)
  {
    if n < 10 then [DigitChar(n)] else NatToDecimal(n / 10) + [DigitChar(n % 10)]
  }

  /** `Integer.toString` / `"" + n`: a minus sign for negative numbers, then the digits. */
  function IntToString(n: int): (s: string)
    ensures |s| >= 1 && ':' !in s && '.' !in s
  {
    var d := NatToDecimal(if n < 0 then -n else n);
    assert forall i :: 0 <= i < |d| ==> IsDigit(d[i]);
    if n < 0 then "-" + d else d
  }

  /**
   * `Integer.parseInt(s)`: an optional `+` or `-`, then at least one ASCII digit, and a value
   * that fits in an `int`; anything else is a `NumberFormatException`, here `None`.
   */
  function ParseInt(s: string): (r: Option<Int32>)
    ensures r.Some? ==> |s| >= 1
  {
    if |s| == 0 then None
    else
      var signed := s[0] == '-' || s[0] == '+';
      var digits := if signed then s[1..] else s;
      if |digits| == 0 || !AllDigits(digits) then None
      else
        var v: int := if s[0] == '-' then -(DigitsValue(digits) as int) else DigitsValue(digits);
        if InInt32(v) then Some(v) else None
  }

  lemma {:induction false} DecimalValue(n: nat)
    ensures DigitsValue(NatToDecimal(n)) == n
  {
    if n >= 10 {
      var s := NatToDecimal(n);
      var prefix := NatToDecimal(n / 10);
      assert s == prefix + [DigitChar(n % 10)];
      assert s[..|s| - 1] == prefix;
      DecimalValue(n / 10);
    }
  }

  /** Reading back a printed `int` gives the same `int`. */
  lemma ParseIntToString(n: Int32)
    ensures ParseInt(IntToString(n)) == Some(n)
  {
    var m: nat := if n < 0 then -(n as int) else n;
    DecimalValue(m);
    var d := NatToDecimal(m);
    if n < 0 {
      assert IntToString(n) == "-" + d;
      assert ("-" + d)[1..] == d;
    } else {
      assert IntToString(n)[0] != '-' && IntToString(n)[0] != '+';
    }
  }

  lemma AppendDigit(s: string, c: char)
    requires AllDigits(s) && IsDigit(c)
    ensures AllDigits(s + [c])
    ensures DigitsValue(s + [c]) == 10 * DigitsValue(s) + (c as int - '0' as int)
  {
    assert (s + [c])[..|s|] == s;
  }

  /** `Integer.parseInt` refuses an empty string, a bare sign and any stray character. */
  lemma ParseIntRejectsMalformed()
    ensures ParseInt("") == None && ParseInt("-") == None && ParseInt("+") == None
    ensures ParseInt("25565a") == None && ParseInt(" 1") == None
  {
    assert !AllDigits("25565a") by { assert "25565a"[5] == 'a'; }
    assert !AllDigits(" 1") by { assert " 1"[0] == ' '; }
  }

  /** A leading `+` is accepted. */
  lemma ParseIntAcceptsPlus()
    ensures ParseInt("+7") == Some(7)
  {
    assert "+7"[1..] == "7";
    AppendDigit("", '7');
    assert "" + ['7'] == "7";
  }

  /** Leading zeros are accepted. */
  lemma ParseIntAcceptsLeadingZeros()
    ensures ParseInt("007") == Some(7)
  {
    AppendDigit("", '0');
    assert "" + ['0'] == "0";
    AppendDigit("0", '0');
    assert "0" + ['0'] == "00";
    AppendDigit("00", '7');
    assert "00" + ['7'] == "007";
  }

  lemma {:induction false} ValueOfTwoToThe31()
    ensures AllDigits("2147483648") && DigitsValue("2147483648") == 0x8000_0000
  {
    var digits := "2147483648";
    var values := [0, 2, 21, 214, 2147, 21474, 214748, 2147483, 21474836, 214748364, 2147483648];
    var k := 0;
    while k < |digits|
      invariant 0 <= k <= |digits|
      invariant AllDigits(digits[..k])
      invariant DigitsValue(digits[..k]) == values[k]
    {
      AppendDigit(digits[..k], digits[k]);
      assert digits[..k + 1] == digits[..k] + [digits[k]];
      k := k + 1;
    }
    assert digits[..|digits|] == digits;
  }

  /** 2^31 does not fit in an `int`, but its negation does. */
  lemma ParseIntRange()
    ensures ParseInt("2147483648") == None && ParseInt("-2147483648") == Some(-0x8000_0000)
  {
    ValueOfTwoToThe31();
    assert "-2147483648"[1..] == "2147483648";
  }

  // ---------------------------------------------------------------------------------------
  // String.split with a one-character separator

  function IndexOf(s: string, c: char): (i: nat)
    requires c in s
    ensures i < |s| && s[i] == c && c !in s[..i]
  {
    if s[0] == c then 0 else 1 + IndexOf(s[1..], c)
  }

  /** Every piece between separators, empty ones included (`split(c, -1)`). */
  function Pieces(s: string, c: char): (r: seq<string>)
    ensures |r| >= 1
    ensures forall i :: 0 <= i < |r| ==> c !in r[i]
    decreases |s|
  {
    if c !in s then [s]
    else
      var i := IndexOf(s, c);
      [s[..i]] + Pieces(s[i + 1..], c)
  }

  function Join(parts: seq<string>, c: char): string {
    if |parts| == 0 then ""
    else if |parts| == 1 then parts[0]
    else parts[0] + [c] + Join(parts[1..], c)
  }

  function DropTrailingEmpty(parts: seq<string>): (r: seq<string>)
    ensures |r| <= |parts| && r == parts[..|r|]
    ensures forall i :: |r| <= i < |parts| ==> parts[i] == ""
    ensures r == [] || r[|r| - 1] != ""
  {
    if |parts| > 0 && parts[|parts| - 1] == "" then DropTrailingEmpty(parts[..|parts| - 1]) else parts
  }

  /**
   * `s.split(c)` for a separator that is not a regular-expression metacharacter (or is escaped):
   * a string without the separator gives itself; otherwise the pieces without the trailing
   * empty ones, which may leave none at all.
   */
  function Split(s: string, c: char): (r: seq<string>)
    ensures forall i :: 0 <= i < |r| ==> c !in r[i]
  {
    if c !in s then [s] else DropTrailingEmpty(Pieces(s, c))
  }

  /** Joining the pieces again gives back the string: nothing is lost by splitting. */
  lemma {:induction false} JoinPieces(s: string, c: char)
    ensures Join(Pieces(s, c), c) == s
    decreases |s|
  {
    if c in s {
      var i := IndexOf(s, c);
      var rest := s[i + 1..];
      JoinPieces(rest, c);
      var tail := Pieces(rest, c);
      assert Pieces(s, c) == [s[..i]] + tail;
      assert ([s[..i]] + tail)[1..] == tail;
      assert s == s[..i] + [c] + rest;
    }
  }

  /** `Split` is `Pieces` less its trailing empty strings, unless the separator is absent. */
  lemma SplitIsPiecesPrefix(s: string, c: char)
    ensures c in s ==> Split(s, c) == Pieces(s, c)[..|Split(s, c)|]
    ensures c in s ==> forall i :: |Split(s, c)| <= i < |Pieces(s, c)| ==> Pieces(s, c)[i] == ""
    ensures c !in s ==> Split(s, c) == [s] == Pieces(s, c)
  {
  }

  /** Splitting `a + c + b` where only the one separator occurs and `b` is not empty. */
  lemma {:induction false} SplitAtSeparator(a: string, b: string, c: char)
    requires c !in a && c !in b && b != ""
    ensures Split(a + [c] + b, c) == [a, b]
  {
    var s := a + [c] + b;
    assert s[|a|] == c;
    assert s[..|a|] == a;
    var i := IndexOf(s, c);
    assert i == |a|;
    assert s[..i] == a;
    assert s[i + 1..] == b;
    assert Pieces(s, c) == [a] + [b];
  }

  /** A trailing separator leaves one piece: `"h:"` splits into `["h"]`. */
  lemma SplitTrailingSeparator()
    ensures Split("h:", ':') == ["h"]
  {
    assert "h:"[..1] == "h" && "h:"[2..] == "";
    assert Pieces("h:", ':') == ["h", ""];
  }

  /** A leading separator keeps its empty piece: `":1"` splits into `["", "1"]`. */
  lemma SplitLeadingSeparator()
    ensures Split(":1", ':') == ["", "1"]
  {
    assert ":1"[..0] == "" && ":1"[1..] == "1";
    assert Pieces(":1", ':') == ["", "1"];
  }

  /** The empty string splits into itself; a string of separators into nothing at all. */
  lemma SplitDegenerate()
    ensures Split("", ':') == [""]
    ensures Split("::", ':') == []
  {
    assert "::"[..0] == "" && "::"[1..] == ":";
    assert ":"[..0] == "" && ":"[1..] == "";
    assert Pieces(":", ':') == ["", ""];
    assert Pieces("::", ':') == ["", "", ""];
  }

  // ---------------------------------------------------------------------------------------
  // String.hashCode

  /** `s[0]*31^(n-1) + ... + s[n-1]` in 32-bit arithmetic, computed left to right. */
  function StringHash(s: string): Int32 {
    if s == [] then 0 else Wrap32(31 * StringHash(s[..|s| - 1]) + s[|s| - 1] as int)
  }

  /** Equal hash codes do not mean equal strings: "Aa" and "BB" collide. */
  lemma HashCollision()
    ensures StringHash("Aa") == StringHash("BB") == 2112
    ensures "Aa" != "BB"
  {
    assert "Aa"[..1] == "A" && "BB"[..1] == "B";
    assert "A"[..0] == "" && "B"[..0] == "";
  }
}
