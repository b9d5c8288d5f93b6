/** UTF-8: the encoding `str.encode()` uses, and the one a text file
    opened with `open(p, "w")` is written in under a UTF-8 locale. */
module Utf8 {
  import opened FileTree

  /** The bytes of one Unicode scalar value. */
  function EncodeChar(c: char): (r: seq<Byte>)
    ensures 1 <= |r| <= 4
    ensures (c as int < 128) <==> |r| == 1
    ensures |r| == 1 ==> r[0] == c as int
    ensures |r| > 1 ==> forall k :: 0 <= k < |r| ==> r[k] >= 128
  {
    var n := c as int;
    if n < 0x80 then [n]
    else if n < 0x800 then [0xC0 + n / 64, 0x80 + n % 64]
    else if n < 0x10000 then [0xE0 + n / 4096, 0x80 + (n / 64) % 64, 0x80 + n % 64]
    else [0xF0 + n / 262144, 0x80 + (n / 4096) % 64, 0x80 + (n / 64) % 64, 0x80 + n % 64]
  }

  function Encode(s: string): seq<Byte>
  {
    if s == [] then [] else EncodeChar(s[0]) + Encode(s[1..])
  }

  /** Encoding distributes over concatenation. */
  lemma {:induction false} EncodeAppend(a: string, b: string)
    ensures Encode(a + b) == Encode(a) + Encode(b)
  {
    if a == [] {
      assert a + b == b;
    } else {
      assert (a + b)[0] == a[0] && (a + b)[1..] == a[1..] + b;
      EncodeAppend(a[1..], b);
    }
  }

  /** Text made of ASCII characters encodes to one byte per character,
      each equal to the character's code. */
  lemma {:induction false} EncodeAscii(s: string)
    requires forall k :: 0 <= k < |s| ==> s[k] as int < 128
    ensures |Encode(s)| == |s|
    ensures forall k :: 0 <= k < |s| ==> Encode(s)[k] == s[k] as int
  {
    if s != [] {
      EncodeAscii(s[1..]);
      assert Encode(s) == [s[0] as int] + Encode(s[1..]);
    }
  }

  /** The encoding ends in a newline byte (10) exactly when the text ends
      in '\n': a multi-byte character never ends in a byte below 128. */
  lemma {:induction false} EncodeEndsInNewline(s: string)
    ensures (|Encode(s)| > 0 && Encode(s)[|Encode(s)| - 1] == 10) <==> (|s| > 0 && s[|s| - 1] == '\n')
  {
    if s != [] {
      var init := s[..|s| - 1];
      assert s == init + [s[|s| - 1]];
      EncodeAppend(init, [s[|s| - 1]]);
      assert Encode([s[|s| - 1]]) == EncodeChar(s[|s| - 1]);
    }
  }
}
