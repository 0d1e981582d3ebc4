/** String helpers the component relies on: upper-casing the first character
    of a label, `Array.prototype.join`, and the decimal rendering of a count
    inside a template literal. */
module Text {

  /** The lower-case letters whose `toUpperCase` is a single character that
      this model knows: ASCII a-z and the Latin-1 lower-case letters other
      than U+00DF, whose upper case is the two letters "SS". */
  predicate IsLowerLetter(c: char)
  {
    ('a' <= c <= 'z') || ('à' <= c <= 'þ' && c != '÷') || c == 'ÿ' || c == 'µ'
  }

  /** `c.toUpperCase()` on the characters covered by `IsLowerLetter`:
      a-z and U+00E0..U+00FE move down by 32, U+00FF becomes U+0178 and
      U+00B5 becomes the Greek capital mu U+039C. Every other character is
      returned as it is. */
  function UpperChar(c: char): (u: char)
    ensures !IsLowerLetter(u)
    ensures !IsLowerLetter(c) ==> u == c
    ensures ('a' <= c <= 'z') || ('à' <= c <= 'þ' && c != '÷') ==> u as int + 32 == c as int
    ensures c == 'ÿ' ==> u == '\U{0178}'
    ensures c == 'µ' ==> u == '\U{039C}'
  {
    if c == 'ÿ' then '\U{0178}'
    else if c == 'µ' then '\U{039C}'
    else if IsLowerLetter(c) then (c as int - 32) as char
    else c
  }

  /** `s.charAt(0).toUpperCase() + s.slice(1)`: on the empty string both
      halves are empty. */
  function Capitalize(s: string): (r: string)
    ensures |r| == |s|
    ensures s != [] ==> r[0] == UpperChar(s[0])
    ensures forall i :: 1 <= i < |s| ==> r[i] == s[i]
    ensures s != [] ==> !IsLowerLetter(r[0])
    ensures s != [] && !IsLowerLetter(s[0]) ==> r == s
  {
    if s == [] then [] else [UpperChar(s[0])] + s[1..]
  }

  /** Capitalizing twice is capitalizing once. */
  lemma CapitalizeIdempotent(s: string)
    ensures Capitalize(Capitalize(s)) == Capitalize(s)
  {
  }

  /** Total length of a list of strings. */
  function TotalLength(xs: seq<string>): nat
  {
    if xs == [] then 0 else TotalLength(xs[..|xs| - 1]) + |xs[|xs| - 1]|
  }

  /** `xs.join(sep)`. */
  function Join(xs: seq<string>, sep: string): (r: string)
    ensures xs == [] ==> r == ""
    ensures |xs| > 0 ==> |r| == TotalLength(xs) + (|xs| - 1) * |sep|
    ensures |xs| > 0 ==> xs[0] <= r
    ensures |xs| > 0 ==> r[|r| - |xs[|xs| - 1]|..] == xs[|xs| - 1]
  {
    if xs == [] then ""
    else if |xs| == 1 then xs[0]
    else
      var init := xs[..|xs| - 1];
      assert init[0] == xs[0];
      Join(init, sep) + sep + xs[|xs| - 1]
  }

  lemma MulStep(a: int, k: int)
    ensures (a + 1) * k == a * k + k
  {
  }

  /** Where part `i` of `xs.join(sep)` begins: after every earlier part
      and one separator behind each of them. */
  function PartStart(xs: seq<string>, sep: string, i: nat): nat
    requires i <= |xs|
  {
    TotalLength(xs[..i]) + i * |sep|
  }

  lemma PartStartNext(xs: seq<string>, sep: string, i: nat)
    requires i < |xs|
    ensures PartStart(xs, sep, i + 1) == PartStart(xs, sep, i) + |xs[i]| + |sep|
  {
    assert xs[..i + 1][..i] == xs[..i];
    MulStep(i, |sep|);
  }

  /** The last part of `xs.join(sep)` stands at `PartStart(xs, sep, |xs| - 1)`. */
  lemma JoinLastPart(xs: seq<string>, sep: string)
    requires |xs| > 1
    ensures PartStart(xs, sep, |xs| - 1) + |xs[|xs| - 1]| == |Join(xs, sep)|
    ensures Join(xs, sep)[PartStart(xs, sep, |xs| - 1)..] == xs[|xs| - 1]
  {
    var n := |xs|;
    var init := xs[..n - 1];
    var j := Join(init, sep);
    var k := |sep|;
    assert xs[..n - 1] == init;
    MulStep(n - 2, k);
    assert PartStart(xs, sep, n - 1) == |j| + k;
    assert Join(xs, sep) == j + sep + xs[n - 1];
  }

  /** Part `i` of `xs.join(sep)` stands at `PartStart(xs, sep, i)`. */
  lemma {:induction false} JoinPartAt(xs: seq<string>, sep: string, i: nat)
    requires i < |xs|
    ensures PartStart(xs, sep, i) + |xs[i]| <= |Join(xs, sep)|
    ensures Join(xs, sep)[PartStart(xs, sep, i)..PartStart(xs, sep, i) + |xs[i]|] == xs[i]
  {
    var n := |xs|;
    if n == 1 {
      assert xs[..0] == [];
    } else if i == n - 1 {
      JoinLastPart(xs, sep);
    } else {
      var init := xs[..n - 1];
      JoinPartAt(init, sep, i);
      assert Join(xs, sep) == Join(init, sep) + sep + xs[n - 1];
      assert xs[..i] == init[..i];
      assert PartStart(xs, sep, i) == PartStart(init, sep, i);
    }
  }

  /** The last separator of `xs.join(sep)` follows the part before the last. */
  lemma JoinLastSeparator(xs: seq<string>, sep: string)
    requires |xs| > 1
    ensures PartStart(xs, sep, |xs| - 2) + |xs[|xs| - 2]| + |sep| <= |Join(xs, sep)|
    ensures Join(xs, sep)[PartStart(xs, sep, |xs| - 2) + |xs[|xs| - 2]|..][..|sep|] == sep
  {
    var n := |xs|;
    var init := xs[..n - 1];
    var j := Join(init, sep);
    assert Join(xs, sep) == j + sep + xs[n - 1];
    assert xs[..n - 2] == init[..n - 2];
    assert init[..n - 2] + [init[n - 2]] == init;
    assert TotalLength(init) == TotalLength(init[..n - 2]) + |init[n - 2]|;
    assert PartStart(xs, sep, n - 2) + |xs[n - 2]| == |j|;
  }

  /** In `xs.join(sep)`, `sep` follows part `i` whenever another part comes after it. */
  lemma {:induction false} JoinSeparatorAt(xs: seq<string>, sep: string, i: nat)
    requires i < |xs| - 1
    ensures PartStart(xs, sep, i) + |xs[i]| + |sep| <= |Join(xs, sep)|
    ensures Join(xs, sep)[PartStart(xs, sep, i) + |xs[i]|..PartStart(xs, sep, i) + |xs[i]| + |sep|] == sep
  {
    var n := |xs|;
    if i == n - 2 {
      JoinLastSeparator(xs, sep);
    } else {
      var init := xs[..n - 1];
      JoinSeparatorAt(init, sep, i);
      assert Join(xs, sep) == Join(init, sep) + sep + xs[n - 1];
      assert xs[..i] == init[..i];
      assert PartStart(xs, sep, i) == PartStart(init, sep, i);
    }
  }

  /** `xs.join(sep)` lays the parts out in order: part `i` stands at
      `PartStart(xs, sep, i)`, and `sep` follows every part but the last,
      so the next part starts right after it. */
  lemma JoinParts(xs: seq<string>, sep: string)
    ensures forall i :: 0 <= i < |xs| ==>
      && PartStart(xs, sep, i) + |xs[i]| <= |Join(xs, sep)|
      && Join(xs, sep)[PartStart(xs, sep, i)..PartStart(xs, sep, i) + |xs[i]|] == xs[i]
    ensures forall i :: 0 <= i < |xs| - 1 ==>
      && PartStart(xs, sep, i) + |xs[i]| + |sep| <= |Join(xs, sep)|
      && Join(xs, sep)[PartStart(xs, sep, i) + |xs[i]|..PartStart(xs, sep, i) + |xs[i]| + |sep|] == sep
      && PartStart(xs, sep, i + 1) == PartStart(xs, sep, i) + |xs[i]| + |sep|
  {
    forall i | 0 <= i < |xs|
      ensures PartStart(xs, sep, i) + |xs[i]| <= |Join(xs, sep)|
      ensures Join(xs, sep)[PartStart(xs, sep, i)..PartStart(xs, sep, i) + |xs[i]|] == xs[i]
    {
      JoinPartAt(xs, sep, i);
    }
    forall i | 0 <= i < |xs| - 1
      ensures PartStart(xs, sep, i) + |xs[i]| + |sep| <= |Join(xs, sep)|
      ensures Join(xs, sep)[PartStart(xs, sep, i) + |xs[i]|..PartStart(xs, sep, i) + |xs[i]| + |sep|] == sep
      ensures PartStart(xs, sep, i + 1) == PartStart(xs, sep, i) + |xs[i]| + |sep|
    {
      JoinSeparatorAt(xs, sep, i);
      PartStartNext(xs, sep, i);
    }
  }

  predicate IsDigit(c: char)
  {
    '0' <= c <= '9'
  }

  function DigitChar(d: nat): (c: char)
    requires d < 10
    ensures IsDigit(c) && c as int - '0' as int == d
  {
    ('0' as int + d) as char
  }

  /** The decimal text JavaScript produces for a non-negative integer in a
      template literal: digits only, no leading zero. */
  function DecimalString(n: nat): (r: string)
    ensures |r| >= 1
    ensures forall i :: 0 <= i < |r| ==> IsDigit(r[i])
    ensures |r| > 1 ==> r[0] != '0'
    decreases n
  {
    if n < 10 then [DigitChar(n)] else DecimalString(n / 10) + [DigitChar(n % 10)]
  }

  /** The value of a non-empty string of decimal digits. */
  function DigitsValue(s: string): nat
    requires forall i :: 0 <= i < |s| ==> IsDigit(s[i])
  {
    if s == [] then 0
    else
      assert IsDigit(s[|s| - 1]);
      DigitsValue(s[..|s| - 1]) * 10 + (s[|s| - 1] as int - '0' as int)
  }

  /** Reading back the decimal text of `n` gives `n`. */
  lemma {:induction false} DecimalRoundTrip(n: nat)
    ensures DigitsValue(DecimalString(n)) == n
    decreases n
  {
    var r := DecimalString(n);
    if n >= 10 {
      DecimalRoundTrip(n / 10);
      assert r[..|r| - 1] == DecimalString(n / 10);
    }
  }
}
