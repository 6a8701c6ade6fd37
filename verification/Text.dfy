/** ASCII text as the naming and numbering code sees it. */
module Text {
  import opened Wrappers

  predicate IsDigit(c: char) { '0' <= c <= '9' }

  predicate IsUpper(c: char) { 'A' <= c <= 'Z' }

  predicate IsLetter(c: char) { IsUpper(c) || 'a' <= c <= 'z' }

  predicate IsSpace(c: char) {
    c == ' ' || '\t' <= c <= '\r' || '\U{1C}' <= c <= '\U{1F}'
  }

  function LowerChar(c: char): char {
    if IsUpper(c) then (c as int + 32) as char else c
  }

  function Lower(s: string): (r: string)
    ensures |r| == |s| && forall i :: 0 <= i < |s| ==> r[i] == LowerChar(s[i])
  {
    seq(|s|, i requires 0 <= i < |s| => LowerChar(s[i]))
  }

  function StripLeft(s: string): string {
    if s != "" && IsSpace(s[0]) then StripLeft(s[1..]) else s
  }

  function StripRight(s: string): string {
    if s != "" && IsSpace(s[|s| - 1]) then StripRight(s[..|s| - 1]) else s
  }

  /** `str.strip()`. */
  function Strip(s: string): string {
    StripRight(StripLeft(s))
  }

  predicate Trimmed(s: string) {
    s != "" ==> !IsSpace(s[0]) && !IsSpace(s[|s| - 1])
  }

  lemma {:induction false} StripLeftSuffix(s: string)
    ensures |StripLeft(s)| <= |s| && StripLeft(s) == s[|s| - |StripLeft(s)|..]
    ensures StripLeft(s) != "" ==> !IsSpace(StripLeft(s)[0])
    ensures forall i :: 0 <= i < |s| - |StripLeft(s)| ==> IsSpace(s[i])
  {
    if s != "" && IsSpace(s[0]) {
      StripLeftSuffix(s[1..]);
      forall i | 0 <= i < |s| - |StripLeft(s)| ensures IsSpace(s[i]) {
        assert i > 0 ==> s[i] == s[1..][i - 1];
      }
    }
  }

  lemma {:induction false} StripRightPrefix(s: string)
    ensures |StripRight(s)| <= |s| && StripRight(s) == s[..|StripRight(s)|]
    ensures StripRight(s) != "" ==> !IsSpace(StripRight(s)[|StripRight(s)| - 1])
    ensures forall i :: |StripRight(s)| <= i < |s| ==> IsSpace(s[i])
  {
    if s != "" && IsSpace(s[|s| - 1]) {
      StripRightPrefix(s[..|s| - 1]);
    }
  }

  /** Stripping cuts blanks off both ends and nothing else. */
  lemma StripSlice(s: string) returns (lo: nat, hi: nat)
    ensures lo <= hi <= |s| && Strip(s) == s[lo..hi]
    ensures Trimmed(Strip(s))
    ensures forall i :: 0 <= i < lo || hi <= i < |s| ==> IsSpace(s[i])
  {
    StripLeftSuffix(s);
    var l := StripLeft(s);
    StripRightPrefix(l);
    lo := |s| - |l|;
    hi := lo + |StripRight(l)|;
    forall i | hi <= i < |s| ensures IsSpace(s[i]) {
      assert s[i] == l[i - lo];
    }
  }

  /** Decimal digits of `n`, without leading zeros. */
  function Decimal(n: nat): (s: string)
    ensures |s| >= 1 && forall i :: 0 <= i < |s| ==> IsDigit(s[i])
  {
    if n < 10 then [('0' as int + n) as char] else Decimal(n / 10) + [('0' as int + n % 10) as char]
  }

  /** Python's `f"{n:02d}"`. */
  function Pad2(n: nat): (s: string)
    ensures |s| >= 2 && forall i :: 0 <= i < |s| ==> IsDigit(s[i])
    ensures |s| > 2 ==> s[0] != '0'
  {
    if n < 10 then "0" + Decimal(n) else DecimalLead(n); Decimal(n)
  }

  lemma {:induction false} DecimalLead(n: nat)
    ensures n >= 1 ==> Decimal(n)[0] != '0'
    ensures n >= 10 ==> |Decimal(n)| >= 2
  {
    if n >= 10 {
      DecimalLead(n / 10);
    }
  }

  predicate AllDigits(s: string) { forall i :: 0 <= i < |s| ==> IsDigit(s[i]) }

  /** The number a string of digits stands for. */
  function Value(s: string): nat
    requires AllDigits(s)
  {
    if s == "" then 0 else 10 * Value(s[..|s| - 1]) + (s[|s| - 1] as int - '0' as int)
  }

  /** `int(text)` on ASCII digits; anything else is a `ValueError`. */
  function ParseInt(s: string): Option<nat> {
    if s != "" && AllDigits(s) then Some(Value(s)) else None
  }

  lemma {:induction false} ValueOfDecimal(n: nat)
    ensures Value(Decimal(n)) == n
  {
    if n >= 10 {
      ValueOfDecimal(n / 10);
      var s := Decimal(n);
      assert s[..|s| - 1] == Decimal(n / 10);
    } else {
      assert Decimal(n)[..0] == "";
    }
  }

  /** Zero-padded printing and integer parsing undo each other. */
  lemma ParsePadded(n: nat)
    ensures ParseInt(Pad2(n)) == Some(n)
  {
    ValueOfDecimal(n);
    if n < 10 {
      var s := Pad2(n);
      assert s[..1] == "0" && "0"[..0] == "";
      assert Value("0") == 0;
      assert Decimal(n)[..0] == "" && s[1] == Decimal(n)[0];
    }
  }

  predicate OccursAt(needle: string, s: string, i: int) {
    0 <= i <= |s| - |needle| && s[i..i + |needle|] == needle
  }

  /** Largest index below `limit` at which `needle` occurs, or -1. */
  function LastBelow(needle: string, s: string, limit: nat): (i: int)
    ensures -1 <= i < limit
    ensures i >= 0 ==> OccursAt(needle, s, i)
    ensures forall k :: i < k < limit ==> !OccursAt(needle, s, k)
  {
    if limit == 0 then -1
    else if OccursAt(needle, s, limit - 1) then limit - 1
    else LastBelow(needle, s, limit - 1)
  }

  /** `s.rsplit(sep, 1)` when it yields two parts. */
  function RSplit(s: string, sep: string): Option<(string, string)> {
    var i := LastBelow(sep, s, |s| + 1);
    if i < 0 then None else Some((s[..i], s[i + |sep|..]))
  }
}
