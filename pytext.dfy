/** The part of Python's `str` that the order pricing relies on: `strip()` with no argument. */
module PyText {

  /** Python's `str.isspace()` for one code point: the characters `str.strip()` removes by default. */
  predicate IsSpace(c: char) {
    var n := c as int;
    (0x09 <= n <= 0x0D) || (0x1C <= n <= 0x20) || n == 0x85 || n == 0xA0 || n == 0x1680
    || (0x2000 <= n <= 0x200A) || n == 0x2028 || n == 0x2029 || n == 0x202F || n == 0x205F
    || n == 0x3000
  }

  /** `s.lstrip()`. */
  function LStrip(s: string): string {
    if s != [] && IsSpace(s[0]) then LStrip(s[1..]) else s
  }

  /** `s.rstrip()`. */
  function RStrip(s: string): string {
    if s != [] && IsSpace(s[|s| - 1]) then RStrip(s[..|s| - 1]) else s
  }

  /** `s.strip()`. */
  function Strip(s: string): string {
    RStrip(LStrip(s))
  }

  /** `lstrip` keeps the longest suffix that does not start with whitespace. */
  lemma {:induction false} LStripKeepsSuffix(s: string)
    ensures |LStrip(s)| <= |s| && LStrip(s) == s[|s| - |LStrip(s)|..]
    ensures forall i :: 0 <= i < |s| - |LStrip(s)| ==> IsSpace(s[i])
    ensures LStrip(s) != [] ==> !IsSpace(LStrip(s)[0])
  {
    if s != [] && IsSpace(s[0]) {
      LStripKeepsSuffix(s[1..]);
      forall i | 1 <= i < |s| - |LStrip(s)| ensures IsSpace(s[i]) {
        assert s[i] == s[1..][i - 1];
      }
    }
  }

  /** `rstrip` keeps the longest prefix that does not end with whitespace. */
  lemma {:induction false} RStripKeepsPrefix(s: string)
    ensures |RStrip(s)| <= |s| && RStrip(s) == s[..|RStrip(s)|]
    ensures forall i :: |RStrip(s)| <= i < |s| ==> IsSpace(s[i])
    ensures RStrip(s) != [] ==> !IsSpace(RStrip(s)[|RStrip(s)| - 1])
  {
    if s != [] && IsSpace(s[|s| - 1]) {
      RStripKeepsPrefix(s[..|s| - 1]);
      forall i | |RStrip(s)| <= i < |s| - 1 ensures IsSpace(s[i]) {
        assert s[i] == s[..|s| - 1][i];
      }
    }
  }

  /**
   * `strip` leaves a string with no whitespace at either end, and leaves nothing exactly
   * when the string is blank.
   */
  lemma StripIsBlankExactly(s: string)
    ensures |Strip(s)| <= |s|
    ensures Strip(s) != [] ==> !IsSpace(Strip(s)[0]) && !IsSpace(Strip(s)[|Strip(s)| - 1])
    ensures Strip(s) == [] <==> forall i :: 0 <= i < |s| ==> IsSpace(s[i])
  {
    var l := LStrip(s);
    var r := RStrip(l);
    LStripKeepsSuffix(s);
    RStripKeepsPrefix(l);
    if r != [] {
      assert r[0] == l[0];
      var k := |s| - |l|;
      assert s[k] == l[0];
    } else {
      forall i | 0 <= i < |s| ensures IsSpace(s[i]) {
        if i >= |s| - |l| {
          assert s[i] == l[i - (|s| - |l|)];
        }
      }
    }
  }
}
