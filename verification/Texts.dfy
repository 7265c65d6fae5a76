/** Small text rules: blanks, stripping, lower case of the basic letters. */
module Texts {
  predicate Space(c: char) {
    var n := c as int;
    || 0x09 <= n <= 0x0d || 0x1c <= n <= 0x20 || n == 0x85 || n == 0xa0 || n == 0x1680
    || 0x2000 <= n <= 0x200a || n == 0x2028 || n == 0x2029 || n == 0x202f || n == 0x205f || n == 0x3000
  }

  /** The characters that stripping removes, one by one. */
  lemma SpacesListed(c: char)
    ensures Space(c) <==> c as int in {
              0x09, 0x0a, 0x0b, 0x0c, 0x0d, 0x1c, 0x1d, 0x1e, 0x1f, 0x20, 0x85, 0xa0, 0x1680,
              0x2000, 0x2001, 0x2002, 0x2003, 0x2004, 0x2005, 0x2006, 0x2007, 0x2008, 0x2009, 0x200a,
              0x2028, 0x2029, 0x202f, 0x205f, 0x3000}
  {
  }

  predicate Blank(s: string) {
    forall c | c in s :: Space(c)
  }

  function Trimmed(s: string): string {
    if s != "" && Space(s[0]) then Trimmed(s[1..])
    else if s != "" && Space(s[|s| - 1]) then Trimmed(s[..|s| - 1])
    else s
  }

  /** Lower case of every character whose lower case is a basic letter: A to Z and the
      kelvin sign. */
  function LowerChar(c: char): char {
    if 'A' <= c <= 'Z' then ('a' as int + (c as int - 'A' as int)) as char
    else if c == '\U{212a}' then 'k'
    else c
  }

  function Lower(s: string): (t: string)
    ensures |t| == |s|
  {
    seq(|s|, i requires 0 <= i < |s| => LowerChar(s[i]))
  }
}
