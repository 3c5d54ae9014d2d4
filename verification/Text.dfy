/** Strings as the components use them: whitespace, trimming, substrings and joining. */
module Text {
  /** The characters that Python's `str.strip` removes. */
  predicate IsSpace(c: char) {
    var n := c as int;
    9 <= n <= 13 || 28 <= n <= 32 || n == 0x85 || n == 0xA0 || n == 0x1680 ||
    0x2000 <= n <= 0x200A || n == 0x2028 || n == 0x2029 || n == 0x202F || n == 0x205F || n == 0x3000
  }

  predicate Blank(s: string) { forall i | 0 <= i < |s| :: IsSpace(s[i]) }

  /** The index of the first character that is not whitespace. */
  function Lead(s: string, from: nat): (n: nat)
    requires from <= |s|
    ensures from <= n <= |s|
    ensures forall i :: from <= i < n ==> IsSpace(s[i])
    ensures n < |s| ==> !IsSpace(s[n])
    decreases |s| - from
  {
    if from < |s| && IsSpace(s[from]) then Lead(s, from + 1) else from
  }

  /** The index after the last character that is not whitespace, but at least `from`. */
  function Trail(s: string, from: nat, to: nat): (n: nat)
    requires from <= to <= |s|
    ensures from <= n <= to
    ensures forall i :: n <= i < to ==> IsSpace(s[i])
    ensures n > from ==> !IsSpace(s[n - 1])
  {
    if from < to && IsSpace(s[to - 1]) then Trail(s, from, to - 1) else to
  }

  function Strip(s: string): string {
    var a := Lead(s, 0);
    s[a..Trail(s, a, |s|)]
  }

  predicate OccursAt(whole: string, part: string, i: nat) {
    i + |part| <= |whole| && whole[i..i + |part|] == part
  }

  predicate Contains(whole: string, part: string) {
    exists i | 0 <= i <= |whole| :: OccursAt(whole, part, i)
  }

  function Join(parts: seq<string>, separator: string): string {
    if parts == [] then ""
    else if |parts| == 1 then parts[0]
    else parts[0] + separator + Join(parts[1..], separator)
  }

  function Digits(n: nat): string {
    if n < 10 then [('0' as int + n) as char] else Digits(n / 10) + [('0' as int + n % 10) as char]
  }

  function Decimal(n: int): string { if n < 0 then "-" + Digits(-n) else Digits(n) }
}
