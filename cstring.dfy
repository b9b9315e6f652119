/** C character and NUL-terminated string helpers shared by the console, the font renderer and the ANSI formatter. */
module CString {

  /** A C `char`: one byte. */
  type CChar = c: char | c as int < 256

  /** The value a C `char` holds on a platform where `char` is signed (x86). */
  function CharCode(c: CChar): (v: int)
    ensures -128 <= v < 128
    ensures (v + 256) % 256 == c as int
  {
    if c as int < 128 then c as int else c as int - 256
  }

  /** strlen: the index of the first NUL, or the whole length when the sequence holds none. */
  function StrLen(s: seq<CChar>): (n: nat)
    ensures n <= |s|
    ensures forall i :: 0 <= i < n ==> s[i] != '\0'
    ensures n < |s| ==> s[n] == '\0'
  {
    if |s| == 0 || s[0] == '\0' then 0 else 1 + StrLen(s[1..])
  }

  /** The characters of the C string that starts at the beginning of `s`. */
  function CStr(s: seq<CChar>): (r: seq<CChar>)
    ensures '\0' !in r
    ensures r <= s
    ensures |r| < |s| ==> s[|r|] == '\0'
  {
    s[..StrLen(s)]
  }

  /** Skipping k characters of a C string (pointer arithmetic `s + k`) gives its suffix. */
  lemma {:induction false} CStrDrop(s: seq<CChar>, k: nat)
    requires k <= |CStr(s)|
    ensures CStr(s[k..]) == CStr(s)[k..]
  {
    if k > 0 {
      assert s[k..] == s[1..][k - 1..];
      CStrDrop(s[1..], k - 1);
    }
  }

  /** A C string is determined by its characters followed by a NUL, whatever comes after. */
  lemma CStrOfTerminated(text: seq<CChar>, rest: seq<CChar>)
    requires '\0' !in text
    ensures CStr(text + ['\0'] + rest) == text
  {
    var s := text + ['\0'] + rest;
    assert s[|text|] == '\0';
    assert forall i :: 0 <= i < |text| ==> s[i] == text[i];
  }

  /** True when the C string `s` begins with `prefix`: `strncmp(s, prefix, |prefix|) == 0` for a NUL-free prefix. */
  predicate StartsWith(s: seq<CChar>, prefix: seq<CChar>)
  {
    |prefix| <= |s| && s[..|prefix|] == prefix
  }
}
