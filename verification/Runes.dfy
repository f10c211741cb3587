/** Lowercase as strings.ToLower has it. */
module Runes {
  /** Only the letters whose lowercase is an ASCII letter: A to Z, the dotted capital I and the Kelvin sign.
  Every other letter keeps a lowercase outside ASCII, which no comparison in the program looks for. */
  function ToLowerRune(c: char): (r: char)
  {
    if 'A' <= c <= 'Z' then (c as int + 32) as char
    else if c == '\U{0130}' then 'i'
    else if c == '\U{212A}' then 'k'
    else c
  }

  function ToLower(s: string): (r: string)
    ensures |r| == |s| && forall i | 0 <= i < |s| :: r[i] == ToLowerRune(s[i])
  {
    if s == "" then "" else [ToLowerRune(s[0])] + ToLower(s[1..])
  }

  /** The number of bytes of a character in UTF-8. */
  function Width(c: char): (w: nat)
    ensures 1 <= w <= 4
  {
    if c as int < 0x80 then 1 else if c as int < 0x800 then 2 else if c as int < 0x1_0000 then 3 else 4
  }
}
