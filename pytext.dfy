/**
 * The two pieces of Python's string handling the corpus reader relies on: str.split() with
 * no separator, and int() on a decimal literal. Rendering functions are their inverses and
 * are used to state round trips.
 */
module PyText {
  import opened Common

  /** The characters for which Python's str.isspace() holds. */
  predicate IsSpace(c: char)
  {
    var u := c as int;
    if u <= 0x20 then 0x09 <= u <= 0x0d || 0x1c <= u
    else if u < 0x85 then false
    else u == 0x85 || u == 0xa0 || u == 0x1680 || (0x2000 <= u <= 0x200a) || u == 0x2028 || u == 0x2029 ||
         u == 0x202f || u == 0x205f || u == 0x3000
  }

  /** A field str.split() can produce: non-empty and without whitespace. */
  predicate IsField(w: string)
  {
    |w| > 0 && forall k :: 0 <= k < |w| ==> !IsSpace(w[k])
  }

  /** Length of the run of non-space characters at the start of s. */
  function RunLength(s: string): (r: nat)
    ensures r <= |s|
    ensures forall k :: 0 <= k < r ==> !IsSpace(s[k])
    ensures r < |s| ==> IsSpace(s[r])
  {
    if s == [] || IsSpace(s[0]) then 0 else 1 + RunLength(s[1..])
  }

  /** Python's s.split(): the maximal runs of non-space characters, in order. */
  function Split(s: string): (r: seq<string>)
    ensures forall k :: 0 <= k < |r| ==> IsField(r[k])
    decreases |s|
  {
    if s == [] then []
    else if IsSpace(s[0]) then Split(s[1..])
    else
      var t := RunLength(s);
      [s[..t]] + Split(s[t..])
  }

  /** Fields separated by single spaces. */
  function JoinFields(fs: seq<string>): string
  {
    if |fs| == 0 then ""
    else if |fs| == 1 then fs[0]
    else fs[0] + " " + JoinFields(fs[1..])
  }

  lemma {:induction false} RunLengthOfField(w: string, rest: string)
    requires IsField(w) && (rest == [] || IsSpace(rest[0]))
    ensures RunLength(w + rest) == |w|
    decreases |w|
  {
    if |w| > 1 {
      assert (w + rest)[1..] == w[1..] + rest;
      RunLengthOfField(w[1..], rest);
    } else {
      assert (w + rest)[1..] == rest;
    }
  }

  /** A field followed by a space (or by nothing) splits off as the first field. */
  lemma SplitField(w: string, rest: string)
    requires IsField(w) && (rest == [] || IsSpace(rest[0]))
    ensures Split(w + rest) == [w] + Split(rest)
  {
    RunLengthOfField(w, rest);
    assert (w + rest)[..|w|] == w;
    assert (w + rest)[|w|..] == rest;
  }

  lemma SplitSpace(c: char, rest: string)
    requires IsSpace(c)
    ensures Split([c] + rest) == Split(rest)
  {
    assert ([c] + rest)[1..] == rest;
  }

  /** Splitting a row of joined fields and its line terminator gives the fields back. */
  lemma {:induction false} SplitJoin(fs: seq<string>)
    requires forall k :: 0 <= k < |fs| ==> IsField(fs[k])
    ensures Split(JoinFields(fs) + "\n") == fs
  {
    if |fs| == 0 {
      SplitSpace('\n', "");
    } else if |fs| == 1 {
      SplitField(fs[0], "\n");
      SplitSpace('\n', "");
    } else {
      SplitJoin(fs[1..]);
      SplitJoinCons(fs);
    }
  }

  /** The step of SplitJoin: the first field splits off in front of the rest of the row. */
  lemma SplitJoinCons(fs: seq<string>)
    requires |fs| > 1 && IsField(fs[0])
    requires Split(JoinFields(fs[1..]) + "\n") == fs[1..]
    ensures Split(JoinFields(fs) + "\n") == fs
  {
    var tail := JoinFields(fs[1..]) + "\n";
    JoinFieldsCons(fs);
    SplitField(fs[0], [' '] + tail);
    SplitSpace(' ', tail);
  }

  lemma JoinFieldsCons(fs: seq<string>)
    requires |fs| > 1
    ensures JoinFields(fs) + "\n" == fs[0] + ([' '] + (JoinFields(fs[1..]) + "\n"))
    ensures fs == [fs[0]] + fs[1..]
  {
    var rest := JoinFields(fs[1..]);
    assert JoinFields(fs) == fs[0] + [' '] + rest;
    ConcatAssoc(fs[0], [' '], rest, "\n");
  }

  lemma ConcatAssoc(a: string, b: string, c: string, d: string)
    ensures a + b + c + d == a + (b + (c + d))
  {
  }

  // ---------------------------------------------------------------------------
  // Decimal integers
  // ---------------------------------------------------------------------------

  predicate IsDigit(c: char)
  {
    '0' <= c <= '9'
  }

  predicate AllDigits(s: string)
  {
    forall k :: 0 <= k < |s| ==> IsDigit(s[k])
  }

  /** The value of a string of decimal digits. */
  function DigitsValue(s: string): (v: nat)
    requires AllDigits(s)
  {
    if s == [] then 0 else DigitsValue(s[..|s| - 1]) * 10 + (s[|s| - 1] as int - '0' as int)
  }

  /** int(s) for a whitespace-free s: an optional sign, then one or more decimal digits. */
  function ParseInt(s: string): Option<int>
  {
    if |s| > 0 && (s[0] == '-' || s[0] == '+') then
      var ds := s[1..];
      if |ds| > 0 && AllDigits(ds) then Some(if s[0] == '-' then 0 - DigitsValue(ds) as int else DigitsValue(ds))
      else None
    else if |s| > 0 && AllDigits(s) then Some(DigitsValue(s))
    else None
  }

  function DigitChar(d: int): (c: char)
    requires 0 <= d < 10
    ensures IsDigit(c) && c as int - '0' as int == d
  {
    (d + '0' as int) as char
  }

  /** The decimal spelling of a natural number. */
  function NatToString(n: nat): (s: string)
    ensures |s| > 0 && AllDigits(s)
  {
    if n < 10 then [DigitChar(n)] else NatToString(n / 10) + [DigitChar(n % 10)]
  }

  /** The decimal spelling of any integer, with a leading '-' when negative. */
  function IntToString(n: int): string
  {
    if n < 0 then "-" + NatToString(-n) else NatToString(n)
  }

  lemma {:induction false} DigitsOfNat(n: nat)
    ensures DigitsValue(NatToString(n)) == n
  {
    if n >= 10 {
      DigitsOfNat(n / 10);
      var s := NatToString(n);
      assert s[..|s| - 1] == NatToString(n / 10);
    }
  }

  lemma DigitsAreField(s: string)
    requires |s| > 0 && AllDigits(s)
    ensures IsField(s)
  {
    forall k | 0 <= k < |s| ensures !IsSpace(s[k]) {
      assert IsDigit(s[k]);
    }
  }

  lemma ParseNatString(n: nat)
    ensures ParseInt(NatToString(n)) == Some(n)
  {
    var ds := NatToString(n);
    assert IsDigit(ds[0]);
    DigitsOfNat(n);
  }

  /** int() reads back what IntToString writes, and the spelling is a single field. */
  lemma ParseIntToString(n: int)
    ensures IsField(IntToString(n))
    ensures ParseInt(IntToString(n)) == Some(n)
  {
    if n < 0 {
      var ds := NatToString(-n);
      var s := "-" + ds;
      assert s[0] == '-' && s[1..] == ds;
      DigitsOfNat(-n);
      DigitsAreField(ds);
      assert forall k :: 1 <= k < |s| ==> s[k] == ds[k - 1];
    } else {
      ParseNatString(n);
      DigitsAreField(NatToString(n));
    }
  }
}
