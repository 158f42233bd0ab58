/** The Python string operations the models use. */
module PyText {

  /** `str.isspace` on one character. */
  predicate IsSpace(c: char) {
    var n := c as int;
    || 9 <= n <= 13 || 28 <= n <= 32
    || n == 0x85 || n == 0xa0 || n == 0x1680
    || 0x2000 <= n <= 0x200a
    || n == 0x2028 || n == 0x2029 || n == 0x202f || n == 0x205f || n == 0x3000
  }

  ghost predicate AllSpace(s: string) {
    forall i :: 0 <= i < |s| ==> IsSpace(s[i])
  }

  /** `s.lstrip()`. */
  function LStrip(s: string): (r: string)
    ensures |r| <= |s|
  {
    if s != "" && IsSpace(s[0]) then LStrip(s[1..]) else s
  }

  /** `s.rstrip()`. */
  function RStrip(s: string): (r: string)
    ensures |r| <= |s|
  {
    if s != "" && IsSpace(s[|s| - 1]) then RStrip(s[..|s| - 1]) else s
  }

  /** `s.strip()`. */
  function Strip(s: string): string {
    RStrip(LStrip(s))
  }

  lemma {:induction false} LStripDropsSpace(s: string)
    ensures AllSpace(s[..|s| - |LStrip(s)|]) && LStrip(s) == s[|s| - |LStrip(s)|..]
    ensures LStrip(s) != "" ==> !IsSpace(LStrip(s)[0])
  {
    if s != "" && IsSpace(s[0]) {
      LStripDropsSpace(s[1..]);
      var k := |s| - |LStrip(s)|;
      forall i | 0 <= i < k ensures IsSpace(s[..k][i]) {
        if i > 0 { assert s[..k][i] == s[1..][..k - 1][i - 1]; }
      }
      assert s[1..][k - 1..] == s[k..];
    }
  }

  lemma {:induction false} RStripIsPrefix(s: string)
    ensures RStrip(s) == s[..|RStrip(s)|]
    ensures RStrip(s) != "" ==> !IsSpace(RStrip(s)[|RStrip(s)| - 1])
  {
    if s != "" && IsSpace(s[|s| - 1]) {
      RStripIsPrefix(s[..|s| - 1]);
      var k := |RStrip(s)|;
      assert s[..|s| - 1][..k] == s[..k];
    }
  }

  /** `s.strip(c)` for one character. */
  function StripChar(s: string, c: char): (r: string)
    ensures |r| <= |s|
    decreases |s|
  {
    if s != "" && s[0] == c then StripChar(s[1..], c)
    else if s != "" && s[|s| - 1] == c then StripChar(s[..|s| - 1], c)
    else s
  }

  /** `str(n)`. */
  function Decimal(n: nat): (r: string)
    ensures |r| >= 1
    ensures forall c :: c in r ==> '0' <= c <= '9'
  {
    if n < 10 then ['0' + n as char] else Decimal(n / 10) + ['0' + (n % 10) as char]
  }

  /** Stripping on the right takes white space only. */
  lemma {:induction false} RStripDropsSpace(s: string)
    ensures AllSpace(s[|RStrip(s)|..])
  {
    RStripIsPrefix(s);
    if s != "" && IsSpace(s[|s| - 1]) {
      var front, k := s[..|s| - 1], |RStrip(s)|;
      RStripDropsSpace(front);
      forall i | k <= i < |s| ensures IsSpace(s[i]) { if i < |front| { assert front[k..][i - k] == s[i]; } }
    }
  }

  /** What stripping one character leaves: a part of the text that neither starts nor ends with it,
      with nothing but that character around it. */
  lemma {:induction false} StripCharIs(s: string, c: char) returns (i: nat, j: nat)
    ensures i <= j <= |s| && StripChar(s, c) == s[i..j]
    ensures forall k :: 0 <= k < i || j <= k < |s| ==> s[k] == c
    ensures i < j ==> s[i] != c && s[j - 1] != c
    decreases |s|
  {
    i, j := 0, |s|;
    if s != "" && s[0] == c {
      i, j := StripCharIs(s[1..], c);
      i, j := i + 1, j + 1;
      assert forall k :: 0 < k < |s| ==> s[k] == s[1..][k - 1];
    } else if s != "" && s[|s| - 1] == c {
      i, j := StripCharIs(s[..|s| - 1], c);
      assert forall k :: 0 <= k < |s| - 1 ==> s[k] == s[..|s| - 1][k];
    }
  }

  /** The number that a text of digits writes. */
  function ValueOf(s: string): int {
    if s == "" then 0 else ValueOf(s[..|s| - 1]) * 10 + (s[|s| - 1] as int - '0' as int)
  }

  /** The decimal text of a number reads back as the number, and has no leading zero. */
  lemma {:induction false} DecimalReadsBack(n: nat)
    ensures ValueOf(Decimal(n)) == n && (n > 0 ==> Decimal(n)[0] != '0')
  {
    if n < 10 {
      assert Decimal(n)[..0] == "";
    } else {
      var r, last := Decimal(n / 10), '0' + (n % 10) as char;
      DecimalReadsBack(n / 10);
      assert (r + [last])[..|r|] == r;
    }
  }
}
