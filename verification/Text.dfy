/** The parts of Rust's `str` that the parsers and printers rest on. */
module Text {
  import opened Sequences

  const CR: char := '\r'
  const LF: char := '\n'
  const REPLACEMENT: char := '\U{FFFD}'

  predicate IsAscii(s: string) {
    forall i | 0 <= i < |s| :: s[i] as int < 128
  }

  function ToBytes(s: string): (b: bytes)
    requires IsAscii(s)
    ensures |b| == |s|
  {
    seq<byte>(|s|, i requires 0 <= i < |s| => s[i] as int)
  }

  // ---- UTF-8 ----

  /** One step of a UTF-8 decoder: a character, or an ill-formed run of `len` bytes. */
  datatype Scan = Scan(ok: bool, c: char, len: nat)

  predicate Within(b: bytes, i: nat, lo: int, hi: int) {
    i < |b| && lo <= b[i] <= hi
  }

  /** The payload of the continuation byte at `i`. */
  function Low(b: bytes, i: nat): (n: int)
    requires Within(b, i, 0x80, 0xBF)
    ensures 0 <= n < 0x40
  {
    var v: int := b[i];
    v - 0x80
  }

  function Ill(len: nat): Scan {
    Scan(false, REPLACEMENT, len)
  }

  function ScanUtf8(b: bytes): (r: Scan)
    requires b != []
    ensures 0 < r.len <= |b|
  {
    var b0: int := b[0];
    if b0 < 0x80 then Scan(true, b0 as char, 1)
    else if 0xC2 <= b0 <= 0xDF then
      if Within(b, 1, 0x80, 0xBF) then
        Scan(true, ((b0 - 0xC0) * 0x40 + Low(b, 1)) as char, 2)
      else Ill(1)
    else if 0xE0 <= b0 <= 0xEF then
      var lo := if b0 == 0xE0 then 0xA0 else 0x80;
      var hi := if b0 == 0xED then 0x9F else 0xBF;
      if !Within(b, 1, lo, hi) then Ill(1)
      else if !Within(b, 2, 0x80, 0xBF) then Ill(2)
      else
        Scan(true, ((b0 - 0xE0) * 0x1000 + Low(b, 1) * 0x40 + Low(b, 2)) as char, 3)
    else if 0xF0 <= b0 <= 0xF4 then
      var lo := if b0 == 0xF0 then 0x90 else 0x80;
      var hi := if b0 == 0xF4 then 0x8F else 0xBF;
      if !Within(b, 1, lo, hi) then Ill(1)
      else if !Within(b, 2, 0x80, 0xBF) then Ill(2)
      else if !Within(b, 3, 0x80, 0xBF) then Ill(3)
      else
        Scan(true, ((b0 - 0xF0) * 0x40000 + Low(b, 1) * 0x1000
                    + Low(b, 2) * 0x40 + Low(b, 3)) as char, 4)
    else Ill(1)
  }

  /** `std::str::from_utf8`: every byte must belong to a well-formed character. */
  function FromUtf8(b: bytes): Option<string>
    decreases |b|
  {
    if b == [] then Some("")
    else
      var step := ScanUtf8(b);
      if !step.ok then None
      else match FromUtf8(b[step.len..])
           case None => None
           case Some(rest) => Some([step.c] + rest)
  }

  /** `String::from_utf8_lossy`: an ill-formed run becomes one replacement character. */
  function FromUtf8Lossy(b: bytes): string
    decreases |b|
  {
    if b == [] then ""
    else
      var step := ScanUtf8(b);
      [step.c] + FromUtf8Lossy(b[step.len..])
  }

  lemma {:induction false} AsciiDecodes(s: string)
    requires IsAscii(s)
    ensures FromUtf8(ToBytes(s)) == Some(s)
    decreases |s|
  {
    if s != "" {
      var b := ToBytes(s);
      assert s[0] in s;
      assert b[1..] == ToBytes(s[1..]);
      AsciiDecodes(s[1..]);
      assert [s[0]] + s[1..] == s;
    }
  }

  /** Lossy decoding reads an ASCII prefix as itself, whatever bytes follow. */
  lemma {:induction false} AsciiPrefixDecodes(s: string, tail: bytes)
    requires IsAscii(s)
    ensures FromUtf8Lossy(ToBytes(s) + tail) == s + FromUtf8Lossy(tail)
    decreases |s|
  {
    if s == "" {
      assert ToBytes(s) + tail == tail;
    } else {
      var b := ToBytes(s) + tail;
      assert s[0] in s;
      assert b[1..] == ToBytes(s[1..]) + tail;
      AsciiPrefixDecodes(s[1..], tail);
      assert [s[0]] + (s[1..] + FromUtf8Lossy(tail)) == s + FromUtf8Lossy(tail);
    }
  }

  // ---- Whitespace and case ----

  /** Unicode White_Space, as `char::is_whitespace` has it. */
  predicate IsWhitespace(c: char) {
    var n := c as int;
    || 0x09 <= n <= 0x0D || n == 0x20 || n == 0x85 || n == 0xA0 || n == 0x1680
    || 0x2000 <= n <= 0x200A || n == 0x2028 || n == 0x2029 || n == 0x202F
    || n == 0x205F || n == 0x3000
  }

  /** Spaces and tabs. */
  predicate IsBlank(s: string) {
    forall i | 0 <= i < |s| :: s[i] == ' ' || s[i] == '\t'
  }

  function TrimStart(s: string): string {
    if s != "" && IsWhitespace(s[0]) then TrimStart(s[1..]) else s
  }

  function TrimEnd(s: string): string {
    if s != "" && IsWhitespace(s[|s| - 1]) then TrimEnd(s[..|s| - 1]) else s
  }

  function Trim(s: string): string {
    TrimEnd(TrimStart(s))
  }

  function LowerChar(c: char): char {
    if 'A' <= c <= 'Z' then (c as int + 32) as char else c
  }

  /** `to_ascii_lowercase` */
  function Lower(s: string): (t: string)
    ensures |t| == |s|
    ensures forall i :: 0 <= i < |s| ==> t[i] == LowerChar(s[i])
  {
    seq(|s|, i requires 0 <= i < |s| => LowerChar(s[i]))
  }

  predicate EqIgnoreCase(a: string, b: string) {
    Lower(a) == Lower(b)
  }

  // ---- Lines and words ----

  /** `str::split_once` */
  function SplitOnce(s: string, pat: string): Option<(string, string)> {
    match Position(s, pat)
    case None => None
    case Some(p) => Some((s[..p], s[p + |pat|..]))
  }

  function StripCr(s: string): string {
    if s != "" && s[|s| - 1] == CR then s[..|s| - 1] else s
  }

  /** `str::lines` */
  function Lines(s: string): seq<string>
    decreases |s|
  {
    if s == "" then []
    else match Position(s, [LF])
         case None => [s]
         case Some(p) => [StripCr(s[..p])] + Lines(s[p + 1..])
  }

  /** The length of the longest prefix without white space. */
  function WordLength(s: string): (n: nat)
    ensures n <= |s|
    ensures forall i :: 0 <= i < n ==> !IsWhitespace(s[i])
    ensures n < |s| ==> IsWhitespace(s[n])
  {
    if s == "" || IsWhitespace(s[0]) then 0 else 1 + WordLength(s[1..])
  }

  lemma TrimStartShrinks(s: string)
    ensures |TrimStart(s)| <= |s|
    ensures TrimStart(s) != "" ==> !IsWhitespace(TrimStart(s)[0])
  {
  }

  /** `str::split_whitespace` */
  function Words(s: string): seq<string>
    decreases |s|
  {
    TrimStartShrinks(s);
    var t := TrimStart(s);
    if t == "" then []
    else
      var n := WordLength(t);
      [t[..n]] + Words(t[n..])
  }

  lemma {:induction false} WordLengthIs(s: string, n: nat)
    requires n <= |s|
    requires forall i :: 0 <= i < n ==> !IsWhitespace(s[i])
    requires n < |s| ==> IsWhitespace(s[n])
    ensures WordLength(s) == n
  {
    if n > 0 {
      assert !IsWhitespace(s[0]);
      WordLengthIs(s[1..], n - 1);
    }
  }

  /** The first word of a line that starts with one. */
  lemma FirstWord(word: string, rest: string)
    requires word != "" && forall c | c in word :: !IsWhitespace(c)
    requires rest != "" ==> IsWhitespace(rest[0])
    ensures Words(word + rest) == [word] + Words(rest)
  {
    var s := word + rest;
    assert s[0] == word[0] && word[0] in word;
    assert TrimStart(s) == s;
    forall i | 0 <= i < |word| ensures !IsWhitespace(s[i]) {
      assert s[i] == word[i] && word[i] in word;
    }
    WordLengthIs(s, |word|);
    assert s[..|word|] == word && s[|word|..] == rest;
  }

  /** A string with no white space at either end is its own trimming. */
  lemma TrimIdentity(s: string)
    requires s != "" ==> !IsWhitespace(s[0]) && !IsWhitespace(s[|s| - 1])
    ensures Trim(s) == s
  {
  }

  // ---- Cutting at a separator ----

  function LastIndex(s: string, c: char): Option<nat> {
    if s == "" then None
    else if s[|s| - 1] == c then Some(|s| - 1)
    else LastIndex(s[..|s| - 1], c)
  }

  /** `rsplit_once` */
  function RSplitOnce(s: string, c: char): (r: Option<(string, string)>)
    ensures r.Some? ==> s == r.value.0 + [c] + r.value.1
  {
    LastIndexFinds(s, c);
    match LastIndex(s, c)
    case None => None
    case Some(i) => Some((s[..i], s[i + 1..]))
  }

  lemma {:induction false} LastIndexFinds(s: string, c: char)
    ensures match LastIndex(s, c)
            case None => c !in s
            case Some(i) => i < |s| && s[i] == c && c !in s[i + 1..]
  {
    if s != "" && s[|s| - 1] != c {
      var front := s[..|s| - 1];
      LastIndexFinds(front, c);
      assert s == front + [s[|s| - 1]];
      var r := LastIndex(front, c);
      if r.Some? {
        assert s[r.value + 1..] == front[r.value + 1..] + [s[|s| - 1]];
      }
    }
  }

  lemma {:induction false} LastIndexIs(a: string, c: char, b: string)
    requires c !in b
    ensures LastIndex(a + [c] + b, c) == Some(|a|)
  {
    var s := a + [c] + b;
    if b != "" {
      assert s[..|s| - 1] == a + [c] + b[..|b| - 1];
      LastIndexIs(a, c, b[..|b| - 1]);
    }
  }

  lemma RSplitOnceIs(a: string, c: char, b: string)
    requires c !in b
    ensures RSplitOnce(a + [c] + b, c) == Some((a, b))
  {
    var s := a + [c] + b;
    LastIndexIs(a, c, b);
    assert s[..|a|] == a && s[|a| + 1..] == b;
  }

  function StripSuffix(s: string, suffix: string): Option<string> {
    if |suffix| <= |s| && s[|s| - |suffix|..] == suffix then Some(s[..|s| - |suffix|]) else None
  }

  lemma NotASuffix(s: string, suffix: string, c: char)
    requires c in suffix && c !in s
    ensures StripSuffix(s, suffix) == None
  {
    var k :| 0 <= k < |suffix| && suffix[k] == c;
    if |suffix| <= |s| {
      assert s[|s| - |suffix|..][k] == s[|s| - |suffix| + k];
    }
  }

  lemma BeforeSkips(a: string, b: string, c: char)
    requires c !in a
    ensures Before(a + b, [c]) == a + Before(b, [c])
  {
    var p := Position(b, [c]);
    if p.Some? {
      var front := b[..p.value];
      assert c !in front by {
        if c in front {
          var k :| 0 <= k < |front| && front[k] == c;
          assert b[k..k + 1] == [c];
          assert OccursAt(b, [c], k);
        }
      }
      assert b[p.value..p.value + 1] == [c];
      assert a + b == (a + front) + [c] + b[p.value + 1..];
      PositionOfSeparator(a + front, c, b[p.value + 1..]);
    } else {
      assert c !in b by {
        if c in b {
          var k :| 0 <= k < |b| && b[k] == c;
          assert OccursAt(b, [c], k);
        }
      }
      NoPosition(a + b, c);
    }
  }

  lemma BeforeStops(a: string, c: char, b: string)
    requires c !in a
    ensures Before(a + [c] + b, [c]) == a
    ensures Before(a, [c]) == a
  {
    PositionOfSeparator(a, c, b);
    NoPosition(a, c);
  }

  /** A separator inside the first part hides whatever follows. */
  lemma BeforeHides(a: string, b: string, c: char)
    requires c in a
    ensures Before(a + b, [c]) == Before(a, [c]) && c !in Before(a, [c])
  {
    var k :| 0 <= k < |a| && a[k] == c;
    assert a[k..k + 1] == [c] && OccursAt(a, [c], k);
    PositionInPrefix(a, b, [c]);
    var p := Position(a, [c]).value;
    assert (a + b)[..p] == a[..p];
    if c in a[..p] {
      var j :| 0 <= j < p && a[j] == c;
      assert OccursAt(a, [c], j);
    }
  }

  lemma SplitAtScheme(scheme: string, rest: string)
    requires ':' !in scheme
    ensures SplitOnce(scheme + "://" + rest, "://") == Some((scheme, rest))
  {
    var url := scheme + "://" + rest;
    forall j | 0 <= j < |scheme| ensures !OccursAt(url, "://", j) {
      assert url[j] in scheme;
      NoOccurrence(url, "://", j, 0);
    }
    assert url[|scheme|..|scheme| + 3] == "://";
    PositionIs(url, "://", |scheme|);
    assert url[..|scheme|] == scheme && url[|scheme| + 3..] == rest;
  }

  /** Blanks at either side are what trimming takes off. */
  lemma {:induction false} TrimBlanksBefore(lead: string, s: string)
    requires IsBlank(lead)
    ensures TrimStart(lead + s) == TrimStart(s)
  {
    if lead == "" {
      assert lead + s == s;
    } else {
      assert (lead + s)[1..] == lead[1..] + s && IsWhitespace(lead[0]);
      TrimBlanksBefore(lead[1..], s);
    }
  }

  lemma {:induction false} TrimBlanksAfter(s: string, trail: string)
    requires IsBlank(trail)
    ensures TrimEnd(s + trail) == TrimEnd(s)
  {
    if trail == "" {
      assert s + trail == s;
    } else {
      var t := s + trail;
      assert t[..|t| - 1] == s + trail[..|trail| - 1] && IsWhitespace(t[|t| - 1]);
      TrimBlanksAfter(s, trail[..|trail| - 1]);
    }
  }

  /** A text without white space at its ends is what is left of it between blanks. */
  lemma TrimPadded(lead: string, s: string, trail: string)
    requires IsBlank(lead) && IsBlank(trail)
    requires s != "" ==> !IsWhitespace(s[0]) && !IsWhitespace(s[|s| - 1])
    ensures Trim(lead + s + trail) == s
  {
    assert lead + s + trail == lead + (s + trail);
    TrimBlanksBefore(lead, s + trail);
    if s == "" {
      assert s + trail == trail + "";
      TrimBlanksBefore(trail, "");
    } else {
      assert (s + trail)[0] == s[0];
      TrimBlanksAfter(s, trail);
    }
  }

  // ---- Numbers ----

  function DigitValue(c: char): Option<nat> {
    if '0' <= c <= '9' then Some(c as int - '0' as int)
    else if 'a' <= c <= 'f' then Some(c as int - 'a' as int + 10)
    else if 'A' <= c <= 'F' then Some(c as int - 'A' as int + 10)
    else None
  }

  predicate IsDigit(c: char, radix: nat) {
    DigitValue(c).Some? && DigitValue(c).value < radix
  }

  predicate AllDigits(s: string, radix: nat) {
    forall i | 0 <= i < |s| :: IsDigit(s[i], radix)
  }

  /** The value of a numeral, most significant digit first. */
  function NumeralValue(s: string, radix: nat): (n: nat)
    requires AllDigits(s, radix)
  {
    if s == "" then 0
    else
      NumeralValue(s[..|s| - 1], radix) * radix + DigitValue(s[|s| - 1]).value
  }

  /** `from_str_radix` for an unsigned type: an optional '+', at least one digit, no overflow. */
  function ParseUnsigned(s: string, radix: nat, max: nat): Option<nat> {
    var digits := if |s| > 1 && s[0] == '+' then s[1..] else s;
    if digits == "" || !AllDigits(digits, radix) then None
    else
      var n := NumeralValue(digits, radix);
      if n <= max then Some(n) else None
  }

  const DIGITS: string := "0123456789abcdef"

  lemma DigitsAreDigits(d: nat, radix: nat)
    requires d < radix <= 16
    ensures IsDigit(DIGITS[d], radix) && DigitValue(DIGITS[d]) == Some(d)
    ensures 33 <= DIGITS[d] as int < 127
  {
  }

  lemma Division(n: nat, radix: nat)
    requires 2 <= radix
    ensures n == (n / radix) * radix + n % radix
    ensures 0 <= n % radix < radix && 0 <= n / radix
    ensures n >= radix ==> n / radix < n
  {
    var q := n / radix;
    assert n == radix * q + n % radix;
    TimesTwo(q, radix);
  }

  lemma TimesTwo(q: int, radix: nat)
    requires 2 <= radix
    ensures q <= 0 ==> q * radix <= 0
    ensures q >= 0 ==> q * radix >= q * 2
  {
  }

  /** The shortest numeral of `n`, as `format!` prints it in base 10 or 16. */
  function Numeral(n: nat, radix: nat): (s: string)
    requires 2 <= radix <= 16
    ensures s != ""
    ensures AllDigits(s, radix)
    ensures forall i | 0 <= i < |s| :: 33 <= s[i] as int < 127
    decreases n
  {
    Division(n, radix);
    DigitsAreDigits(n % radix, radix);
    if n < radix then [DIGITS[n]]
    else Numeral(n / radix, radix) + [DIGITS[n % radix]]
  }

  lemma NumeralPush(s: string, c: char, radix: nat)
    requires AllDigits(s, radix) && IsDigit(c, radix)
    ensures AllDigits(s + [c], radix)
    ensures NumeralValue(s + [c], radix) == NumeralValue(s, radix) * radix + DigitValue(c).value
  {
    assert (s + [c])[..|s|] == s;
  }

  lemma OneDigit(d: nat, radix: nat)
    requires d < radix <= 16
    ensures AllDigits([DIGITS[d]], radix) && NumeralValue([DIGITS[d]], radix) == d
  {
    DigitsAreDigits(d, radix);
    NumeralPush("", DIGITS[d], radix);
    assert "" + [DIGITS[d]] == [DIGITS[d]];
  }

  /** Printing a number and reading it back gives the number. */
  lemma {:induction false} NumeralReadsBack(n: nat, radix: nat)
    requires 2 <= radix <= 16
    ensures NumeralValue(Numeral(n, radix), radix) == n
    decreases n
  {
    hide NumeralValue, IsDigit, DigitValue, AllDigits;
    Division(n, radix);
    if n < radix {
      OneDigit(n, radix);
    } else {
      var q, d := n / radix, n % radix;
      DigitsAreDigits(d, radix);
      NumeralReadsBack(q, radix);
      NumeralPush(Numeral(q, radix), DIGITS[d], radix);
    }
  }

  lemma ParsePrinted(n: nat, radix: nat, max: nat)
    requires 2 <= radix <= 16 && n <= max
    ensures ParseUnsigned(Numeral(n, radix), radix, max) == Some(n)
  {
    var s := Numeral(n, radix);
    assert IsDigit(s[0], radix);
    NumeralReadsBack(n, radix);
  }
}
