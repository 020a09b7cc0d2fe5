/**
 Ruby strings as characters, and their UTF-8 bytes: `String#length` counts
 characters, while the engine reads bytes.
 */
module Text {

  /** Number of UTF-8 bytes one Unicode scalar value occupies. */
  function Utf8Width(c: char): (n: nat)
    ensures 1 <= n <= 4
    ensures n == 1 <==> c as int < 0x80
  {
    if c as int < 0x80 then 1
    else if c as int < 0x800 then 2
    else if c as int < 0x10000 then 3
    else 4
  }

  /** The UTF-8 encoding of one character (section 3 of RFC 3629). */
  function Utf8Char(c: char): (b: seq<bv8>)
    ensures |b| == Utf8Width(c)
  {
    var v := c as int;
    if v < 0x80 then [v as bv8]
    else if v < 0x800 then [(0xC0 + v / 0x40) as bv8, (0x80 + v % 0x40) as bv8]
    else if v < 0x10000 then
      [(0xE0 + v / 0x1000) as bv8, (0x80 + (v / 0x40) % 0x40) as bv8, (0x80 + v % 0x40) as bv8]
    else
      [(0xF0 + v / 0x40000) as bv8, (0x80 + (v / 0x1000) % 0x40) as bv8,
       (0x80 + (v / 0x40) % 0x40) as bv8, (0x80 + v % 0x40) as bv8]
  }

  /** The bytes of a UTF-8 string. */
  function Utf8(s: seq<char>): seq<bv8>
    decreases |s|
  {
    if |s| == 0 then [] else Utf8(s[..|s| - 1]) + Utf8Char(s[|s| - 1])
  }

  predicate IsAscii(s: seq<char>)
  {
    forall i :: 0 <= i < |s| ==> s[i] as int < 0x80
  }

  /** A string never has fewer bytes than characters, and has as many exactly when it is ASCII. */
  lemma {:induction false} Utf8LengthVersusCharacters(s: seq<char>)
    ensures |Utf8(s)| >= |s|
    ensures |Utf8(s)| == |s| <==> IsAscii(s)
    decreases |s|
  {
    if |s| > 0 {
      var init := s[..|s| - 1];
      Utf8LengthVersusCharacters(init);
      assert forall i :: 0 <= i < |init| ==> init[i] == s[i];
      if IsAscii(init) && s[|s| - 1] as int < 0x80 {
        assert IsAscii(s);
      }
    }
  }

  /** Encoding distributes over concatenation. */
  lemma {:induction false} Utf8Append(a: seq<char>, b: seq<char>)
    ensures Utf8(a + b) == Utf8(a) + Utf8(b)
    decreases |b|
  {
    if |b| == 0 {
      assert a + b == a;
    } else {
      var b' := b[..|b| - 1];
      assert (a + b)[..|a + b| - 1] == a + b';
      assert (a + b)[|a + b| - 1] == b[|b| - 1];
      Utf8Append(a, b');
    }
  }

  /** The last byte of a non-empty string's encoding is the last byte of its last character's encoding. */
  lemma Utf8LastByte(s: seq<char>)
    requires |s| > 0
    ensures |Utf8(s)| > 0
    ensures Utf8(s)[|Utf8(s)| - 1] == Utf8Char(s[|s| - 1])[Utf8Width(s[|s| - 1]) - 1]
  {
  }

  /**
   ASCII text around one two-byte character: the encoding is one byte longer
   than the character count, and it ends with the last byte of the trailing text.
   */
  lemma OneTwoByteCharacter(head: seq<char>, c: char, tail: seq<char>)
    requires IsAscii(head) && IsAscii(tail) && |tail| > 0
    requires Utf8Width(c) == 2
    ensures |Utf8(head + [c] + tail)| == |head + [c] + tail| + 1
    ensures |Utf8(tail)| == |tail|
    ensures Utf8(head + [c] + tail)[|head + [c] + tail|] == Utf8(tail)[|tail| - 1]
  {
    Utf8Append(head, [c]);
    Utf8Append(head + [c], tail);
    Utf8LengthVersusCharacters(head);
    Utf8LengthVersusCharacters(tail);
    assert [c][..0] == [];
    assert Utf8([c]) == Utf8Char(c);
  }

  /** The UTF-8 bytes of a request line holding one accented character. */
  lemma AccentedRequestBytes(data: seq<char>, head: seq<char>, tail: seq<char>)
    requires data == head + ['\U{00E9}'] + tail
    requires head == "GET /" && tail == " HTTP/1.1\r\n\r\n"
    ensures |Utf8(data)| == 20
    ensures Utf8(data)[19] == 0x0A
  {
    assert IsAscii(head) && IsAscii(tail);
    OneTwoByteCharacter(head, '\U{00E9}', tail);
    Utf8LastByte(tail);
  }
}
