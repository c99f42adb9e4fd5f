/** Strings, bytes and the few text operations the installer relies on:
    UTF-8 encoding (what `str::as_bytes` yields), substring search (`str::contains`),
    and the newline handling of captured command output. */
module Text {

  /** One octet of a file or of a process stream. */
  newtype byte = b: int | 0 <= b < 0x100

  type Bytes = seq<byte>

  /** The UTF-8 encoding of one Unicode scalar value. */
  function EncodeChar(c: char): (r: Bytes)
    ensures 1 <= |r| <= 4
    ensures |r| == 1 <==> c as int < 0x80
    ensures |r| == 1 ==> r[0] as int == c as int
    ensures c as int >= 0x80 ==> forall i :: 0 <= i < |r| ==> r[i] >= 0x80
  {
    var n := c as int;
    if n < 0x80 then
      [n as byte]
    else if n < 0x800 then
      [(0xC0 + n / 0x40) as byte, (0x80 + n % 0x40) as byte]
    else if n < 0x10000 then
      [(0xE0 + n / 0x1000) as byte, (0x80 + (n / 0x40) % 0x40) as byte, (0x80 + n % 0x40) as byte]
    else
      [(0xF0 + n / 0x40000) as byte, (0x80 + (n / 0x1000) % 0x40) as byte,
       (0x80 + (n / 0x40) % 0x40) as byte, (0x80 + n % 0x40) as byte]
  }

  /** The bytes of a Rust `&str`, which is always UTF-8. */
  function Utf8(s: string): (r: Bytes)
    ensures |s| <= |r| <= 4 * |s|
    ensures |r| == 0 <==> |s| == 0
  {
    if |s| == 0 then [] else EncodeChar(s[0]) + Utf8(s[1..])
  }

  /** Concatenation regroups freely. */
  lemma AppendAssoc<T>(a: seq<T>, b: seq<T>, c: seq<T>)
    ensures a + (b + c) == a + b + c
  {
  }

  /** A sequence is a prefix of itself extended. */
  lemma PrefixOfConcat<T>(a: seq<T>, b: seq<T>)
    ensures a <= a + b
  {
    assert (a + b)[..|a|] == a;
  }

  /** A text that ends in `b`, written twice: `b` runs straight into the
      text's start `e`. */
  lemma GlueTwice<T>(p: seq<T>, e: seq<T>, q: seq<T>, b: seq<T>)
    requires p == e + q
    ensures (p + b) + (p + b) == p + (b + e) + (q + b)
  {
  }

  /** Encoding is a homomorphism: the bytes of a concatenation are the
      concatenation of the bytes, so writing `s` twice yields `Utf8(s + s)`. */
  lemma {:induction false} Utf8Concat(a: string, b: string)
    ensures Utf8(a + b) == Utf8(a) + Utf8(b)
  {
    if |a| == 0 {
      assert a + b == b;
    } else {
      var ab := a + b;
      assert ab[0] == a[0];
      assert ab[1..] == a[1..] + b;
      Utf8Concat(a[1..], b);
      calc {
        Utf8(ab);
        EncodeChar(a[0]) + Utf8(a[1..] + b);
        EncodeChar(a[0]) + (Utf8(a[1..]) + Utf8(b));
        (EncodeChar(a[0]) + Utf8(a[1..])) + Utf8(b);
      }
    }
  }

  predicate IsAscii(s: string) {
    forall i :: 0 <= i < |s| ==> s[i] as int < 0x80
  }

  /** ASCII text is encoded byte for byte. */
  lemma {:induction false} Utf8Ascii(s: string)
    requires IsAscii(s)
    ensures |Utf8(s)| == |s|
    ensures forall i :: 0 <= i < |s| ==> Utf8(s)[i] as int == s[i] as int
  {
    if |s| > 0 {
      assert IsAscii(s[1..]) by {
        forall i | 0 <= i < |s[1..]| ensures s[1..][i] as int < 0x80 {
          assert s[1..][i] == s[i + 1];
        }
      }
      Utf8Ascii(s[1..]);
    }
  }

  /** `needle` occurs in `s` at position `i`. */
  predicate OccursAt(s: string, needle: string, i: nat) {
    i + |needle| <= |s| && s[i..i + |needle|] == needle
  }

  /** `str::contains`: some position of `s` starts an occurrence of `needle`. */
  predicate Contains(s: string, needle: string) {
    exists i: nat | i <= |s| :: OccursAt(s, needle, i)
  }

  /** Text embedded in a larger string is found by `Contains`. */
  lemma ContainsInfix(pre: string, needle: string, post: string)
    ensures Contains(pre + needle + post, needle)
  {
    var s := pre + needle + post;
    assert s[|pre|..|pre| + |needle|] == needle;
    assert OccursAt(s, needle, |pre|);
  }

  /** The lines of a stream glued back together with `\n` separators. */
  function JoinLines(lines: seq<string>): (r: string)
    ensures |lines| == 0 ==> r == ""
    ensures |lines| == 1 ==> r == lines[0]
  {
    if |lines| == 0 then ""
    else if |lines| == 1 then lines[0]
    else lines[0] + "\n" + JoinLines(lines[1..])
  }

  /** Drops every trailing `\n`, as duct's `read` does with captured output. */
  function TrimNewlines(s: string): string {
    if |s| > 0 && s[|s| - 1] == '\n' then TrimNewlines(s[..|s| - 1]) else s
  }

  /** The trimmed text is a prefix that does not end in `\n`, and everything
      removed was `\n`. */
  lemma {:induction false} TrimNewlinesSpec(s: string)
    ensures TrimNewlines(s) <= s
    ensures |TrimNewlines(s)| == 0 || TrimNewlines(s)[|TrimNewlines(s)| - 1] != '\n'
    ensures forall i :: |TrimNewlines(s)| <= i < |s| ==> s[i] == '\n'
  {
    if |s| > 0 && s[|s| - 1] == '\n' {
      TrimNewlinesSpec(s[..|s| - 1]);
    }
  }

  function DigitChar(d: nat): (c: char)
    requires d < 10
  {
    "0123456789"[d]
  }

  /** Decimal rendering of an integer, as `{}` formats it. */
  function IntText(n: int): (r: string)
    ensures |r| > 0
    ensures n < 0 <==> r[0] == '-'
    decreases if n < 0 then -n + 1 else n
  {
    if n < 0 then "-" + IntText(-n)
    else if n < 10 then [DigitChar(n)]
    else IntText(n / 10) + [DigitChar(n % 10)]
  }
}
