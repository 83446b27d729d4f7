/** Printing text as UTF-8, and reading it back. */
module Utf8 {
  import opened Sequences
  import opened Text

  function EncodeChar(c: char): (b: bytes)
    ensures 1 <= |b| <= 4
  {
    var n := c as int;
    if n < 0x80 then [n]
    else if n < 0x800 then [0xC0 + n / 0x40, 0x80 + n % 0x40]
    else if n < 0x1_0000 then
      [0xE0 + n / 0x1000, 0x80 + n / 0x40 % 0x40, 0x80 + n % 0x40]
    else
      [0xF0 + n / 0x4_0000, 0x80 + n / 0x1000 % 0x40, 0x80 + n / 0x40 % 0x40, 0x80 + n % 0x40]
  }

  function Encode(s: string): bytes {
    if s == "" then [] else EncodeChar(s[0]) + Encode(s[1..])
  }

  /** Base-64 digits: what the continuation bytes carry. */
  lemma SixBits(n: nat)
    ensures n == n / 0x40 * 0x40 + n % 0x40
    ensures n / 0x1000 == n / 0x40 / 0x40 && n / 0x4_0000 == n / 0x1000 / 0x40
  {
  }

  lemma ShortCharReadsBack(c: char, tail: bytes)
    requires c as int < 0x800
    ensures ScanUtf8(EncodeChar(c) + tail) == Scan(true, c, |EncodeChar(c)|)
  {
    var n, b := c as int, EncodeChar(c) + tail;
    SixBits(n);
    assert n >= 0x80 ==> b[0] == 0xC0 + n / 0x40 && Low(b, 1) == n % 0x40;
  }

  lemma MiddleCharReadsBack(c: char, tail: bytes)
    requires 0x800 <= c as int < 0x1_0000
    ensures ScanUtf8(EncodeChar(c) + tail) == Scan(true, c, 3)
  {
    var n, b := c as int, EncodeChar(c) + tail;
    SixBits(n);
    SixBits(n / 0x40);
    assert b[0] == 0xE0 + n / 0x1000 && Low(b, 1) == n / 0x40 % 0x40 && Low(b, 2) == n % 0x40;
  }

  lemma LongCharReadsBack(c: char, tail: bytes)
    requires c as int >= 0x1_0000
    ensures ScanUtf8(EncodeChar(c) + tail) == Scan(true, c, 4)
  {
    var n, b := c as int, EncodeChar(c) + tail;
    SixBits(n);
    SixBits(n / 0x40);
    SixBits(n / 0x1000);
    assert b[0] == 0xF0 + n / 0x4_0000 && Low(b, 1) == n / 0x1000 % 0x40;
    assert Low(b, 2) == n / 0x40 % 0x40 && Low(b, 3) == n % 0x40;
  }

  /** The decoder takes a character's bytes as that character, whatever follows. */
  lemma CharReadsBack(c: char, tail: bytes)
    ensures ScanUtf8(EncodeChar(c) + tail) == Scan(true, c, |EncodeChar(c)|)
  {
    hide ScanUtf8;
    if c as int < 0x800 {
      ShortCharReadsBack(c, tail);
    } else if c as int < 0x1_0000 {
      MiddleCharReadsBack(c, tail);
    } else {
      LongCharReadsBack(c, tail);
    }
  }

  lemma OneCharReadsBack(c: char, rest: bytes)
    ensures FromUtf8Lossy(EncodeChar(c) + rest) == [c] + FromUtf8Lossy(rest)
  {
    hide ScanUtf8, EncodeChar;
    CharReadsBack(c, rest);
    var b := EncodeChar(c) + rest;
    assert b[|EncodeChar(c)|..] == rest;
  }

  /** Text that was printed reads back as itself, whatever bytes follow. */
  lemma {:induction false} ReadsBack(s: string, tail: bytes)
    ensures FromUtf8Lossy(Encode(s) + tail) == s + FromUtf8Lossy(tail)
  {
    hide FromUtf8Lossy, EncodeChar;
    if s == "" {
      assert Encode(s) + tail == tail;
    } else {
      var rest := Encode(s[1..]) + tail;
      assert Encode(s) + tail == EncodeChar(s[0]) + rest;
      OneCharReadsBack(s[0], rest);
      ReadsBack(s[1..], tail);
      assert [s[0]] + (s[1..] + FromUtf8Lossy(tail)) == s + FromUtf8Lossy(tail);
    }
  }

  lemma OneCharDecodes(c: char, rest: bytes)
    ensures FromUtf8(EncodeChar(c) + rest)
            == match FromUtf8(rest)
               case None => None
               case Some(more) => Some([c] + more)
  {
    hide ScanUtf8, EncodeChar;
    CharReadsBack(c, rest);
    var b := EncodeChar(c) + rest;
    assert b[|EncodeChar(c)|..] == rest;
  }

  /** Printed text is well-formed UTF-8, and decodes to itself. */
  lemma {:induction false} Decodes(s: string)
    ensures FromUtf8(Encode(s)) == Some(s)
  {
    hide FromUtf8, EncodeChar;
    if s == "" {
      EmptyDecodes();
    } else {
      OneCharDecodes(s[0], Encode(s[1..]));
      Decodes(s[1..]);
      assert [s[0]] + s[1..] == s;
    }
  }

  /** A decoded step gives a character whose printed form is what was read. */
  lemma StepPrintsBack(b: bytes)
    requires b != [] && ScanUtf8(b).ok
    ensures EncodeChar(ScanUtf8(b).c) == b[..ScanUtf8(b).len]
  {
    var b0: int := b[0];
    if b0 < 0x80 {
    } else if b0 <= 0xDF {
      TwoBytesPrintBack(b);
    } else if b0 <= 0xEF {
      ThreeBytesPrintBack(b);
    } else {
      FourBytesPrintBack(b);
    }
  }

  lemma TwoBytesPrintBack(b: bytes)
    requires b != [] && ScanUtf8(b).ok && 0x80 <= b[0] <= 0xDF
    ensures EncodeChar(ScanUtf8(b).c) == b[..ScanUtf8(b).len]
  {
    var h: int, l := b[0] - 0xC0, Low(b, 1);
    var n := h * 0x40 + l;
    assert ScanUtf8(b).c as int == n && n / 0x40 == h && n % 0x40 == l;
  }

  lemma ThreeBytesPrintBack(b: bytes)
    requires b != [] && ScanUtf8(b).ok && 0xE0 <= b[0] <= 0xEF
    ensures EncodeChar(ScanUtf8(b).c) == b[..ScanUtf8(b).len]
  {
    var h: int, m, l := b[0] - 0xE0, Low(b, 1), Low(b, 2);
    var n := h * 0x1000 + m * 0x40 + l;
    assert ScanUtf8(b).c as int == n;
    assert n / 0x40 == h * 0x40 + m && n % 0x40 == l;
    assert n / 0x1000 == h && n / 0x40 % 0x40 == m;
  }

  lemma FourBytesPrintBack(b: bytes)
    requires b != [] && ScanUtf8(b).ok && 0xF0 <= b[0]
    ensures EncodeChar(ScanUtf8(b).c) == b[..ScanUtf8(b).len]
  {
    var h: int, k, m, l := b[0] - 0xF0, Low(b, 1), Low(b, 2), Low(b, 3);
    var n := h * 0x4_0000 + k * 0x1000 + m * 0x40 + l;
    assert ScanUtf8(b).c as int == n;
    assert n / 0x40 == h * 0x1000 + k * 0x40 + m && n % 0x40 == l;
    assert n / 0x1000 == h * 0x40 + k && n / 0x40 % 0x40 == m;
    assert n / 0x4_0000 == h && n / 0x1000 % 0x40 == k;
  }

  /** Bytes decode to a text exactly when they are its printed form: no other spelling is accepted. */
  lemma {:induction false} DecodesIff(b: bytes, s: string)
    ensures FromUtf8(b) == Some(s) <==> b == Encode(s)
    decreases |b|
  {
    hide ScanUtf8, EncodeChar;
    if b == Encode(s) {
      Decodes(s);
    }
    if FromUtf8(b) == Some(s) && b != [] {
      var step := ScanUtf8(b);
      StepPrintsBack(b);
      assert s[0] == step.c && s[1..] == FromUtf8(b[step.len..]).value;
      DecodesIff(b[step.len..], s[1..]);
      assert b == b[..step.len] + b[step.len..];
    }
  }

  lemma EmptyDecodes()
    ensures FromUtf8([]) == Some("")
  {
  }

  lemma {:induction false} EncodeOfSum(a: string, b: string)
    ensures Encode(a + b) == Encode(a) + Encode(b)
  {
    hide EncodeChar;
    if a == "" {
      assert a + b == b;
    } else {
      assert (a + b)[1..] == a[1..] + b;
      EncodeOfSum(a[1..], b);
      assert EncodeChar(a[0]) + (Encode(a[1..]) + Encode(b))
          == EncodeChar(a[0]) + Encode(a[1..]) + Encode(b);
    }
  }

  /** An ASCII byte is printed for its own character only. */
  lemma {:induction false} AsciiBytes(s: string, c: char)
    requires c as int < 128
    requires c !in s
    ensures c as int !in Encode(s)
  {
    if s != "" {
      AsciiBytes(s[1..], c);
      assert s[0] in s;
    }
  }
}
