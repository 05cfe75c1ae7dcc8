/** `utils::decimal_places`: how many decimal places a number written as text
    carries, as the exchange writes tick and step sizes ("0.01000000"). */
module Utils {
  import opened Strings

  /** Trailing '0's are dropped; with no '.' left the answer is 0, otherwise it
      is the length of the text after the first '.' (up to any second '.'),
      cast to an 8-bit unsigned integer. */
  function DecimalPlaces(input: string): (r: nat)
    ensures r < 256
    ensures r <= |input|
    ensures '.' !in input ==> r == 0
  {
    var trimmed := TrimEnd(input, '0');
    var parts := Split(trimmed, '.');
    SplitSingle(trimmed, '.');
    if |parts| == 1 then 0
    else
      PieceLength(trimmed, '.');
      |parts[1]| % 256
  }

  /** The second piece of a split is no longer than the input. */
  lemma PieceLength(s: string, c: char)
    requires |Split(s, c)| >= 2
    ensures |Split(s, c)[1]| <= |s|
  {
    JoinSplit(s, c);
    var p := Split(s, c);
    var rest := p[1..];
    if |rest| == 1 {
    } else {
      assert Join(rest, c) == p[1] + [c] + Join(rest[1..], c);
    }
  }

  /** Appending '0's to the text never changes the answer. */
  lemma TrailingZerosIgnored(s: string, n: nat)
    ensures DecimalPlaces(s + Repeat('0', n)) == DecimalPlaces(s)
  {
    TrimEndAppend(s, '0', n);
  }

  /** A number written as whole part, '.', and `f` digits that do not end in
      '0' — followed by any number of '0's — has |f| decimal places (modulo 256). */
  lemma DecimalPlacesOfDecimal(whole: string, f: string, zeros: nat)
    requires '.' !in whole && '.' !in f
    requires |f| == 0 || f[|f| - 1] != '0'
    ensures DecimalPlaces(whole + "." + f + Repeat('0', zeros)) == |f| % 256
  {
    var s := whole + "." + f;
    TrailingZerosIgnored(s, zeros);
    assert s[|s| - 1] != '0';
    assert TrimEnd(s, '0') == s;
    assert Join([whole, f], '.') == s;
    SplitJoin([whole, f], '.');
  }

  /** The 8-bit cast wraps: 256 significant decimals count as 0. */
  lemma DecimalPlacesWraps()
    ensures DecimalPlaces("0." + Repeat('1', 256)) == 0
  {
    var f := Repeat('1', 256);
    assert f[255] == '1';
    DecimalPlacesOfDecimal("0", f, 0);
    assert "0" + "." + f + Repeat('0', 0) == "0." + f;
  }
}
