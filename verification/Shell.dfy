/** The text tools that the resource agent's shell code is made of, on one line of text. */
module Shell {

  function Before(s: string, delimiter: char): string {
    if s == [] || s[0] == delimiter then [] else [s[0]] + Before(s[1..], delimiter)
  }

  function After(s: string, delimiter: char): string
    requires delimiter in s
  {
    if s[0] == delimiter then s[1..] else After(s[1..], delimiter)
  }

  /** cut -d delimiter -f 1, and -f 2: a line without the delimiter is printed whole. */
  function Cut1(s: string, delimiter: char): string {
    Before(s, delimiter)
  }

  function Cut2(s: string, delimiter: char): string {
    if delimiter in s then Before(After(s, delimiter), delimiter) else s
  }

  /** printf "%08s" with the blanks turned into zeros: short text is padded, long text is left alone. */
  function Pad8(s: string): string {
    Zeros(8 - |s|) + s
  }

  function Zeros(n: int): string {
    if n <= 0 then "" else "0" + Zeros(n - 1)
  }

  /** Byte order, a prefix before what extends it. */
  predicate TextLess(a: string, b: string) {
    if a == [] then b != []
    else b != [] && (a[0] < b[0] || (a[0] == b[0] && TextLess(a[1..], b[1..])))
  }

  /** sort | head -1 and sort -r | head -1 of two lines. */
  function First(a: string, b: string): string {
    if TextLess(b, a) then b else a
  }

  function Last(a: string, b: string): string {
    if TextLess(a, b) then b else a
  }

  /** The text matches the regular expression x, in which nothing but dots is special. */
  predicate Like(x: string, text: string) {
    |text| == |x| && forall i :: 0 <= i < |x| ==> x[i] == '.' || x[i] == text[i]
  }

  predicate StartsLike(s: string, x: string) {
    |x| <= |s| && Like(x, s[..|x|])
  }

  /** sed "s/x//g": drops every match, left to right. */
  function RemoveAll(s: string, x: string): string
    requires x != ""
  {
    if s == "" then ""
    else if StartsLike(s, x) then RemoveAll(s[|x|..], x)
    else [s[0]] + RemoveAll(s[1..], x)
  }

  /** sed "s/^,//g": a line has one beginning. */
  function TrimHead(s: string): string {
    if s != "" && s[0] == ',' then s[1..] else s
  }

  /** sed "s/,,/,/g" */
  function Squeeze(s: string): string {
    if s == "" then ""
    else if ",," <= s then "," + Squeeze(s[2..])
    else [s[0]] + Squeeze(s[1..])
  }

  /** sed "s/,$//g" */
  function TrimTail(s: string): string {
    if s != "" && s[|s| - 1] == ',' then s[..|s| - 1] else s
  }

  /** grep -e "[,' ]x[,' ]" */
  predicate GrepDelimited(s: string, x: string) {
    exists i: nat :: i < |s| && DelimitedAt(s, x, i)
  }

  predicate DelimitedAt(s: string, x: string, i: nat) {
    i + |x| + 1 < |s| && IsDelimiter(s[i]) && IsDelimiter(s[i + |x| + 1]) && Like(x, s[i + 1..i + 1 + |x|])
  }

  predicate IsDelimiter(c: char) {
    c == ',' || c == '\'' || c == ' '
  }
}
