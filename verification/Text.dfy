/**
 Text as the programs handle it: decimal numerals, UTF-8 lengths and the order Python sorts
 strings by.
 */
module Text {
  import opened Wrappers

  /** The decimal digit with value `d`. */
  function Digit(d: nat): (c: char)
    requires d < 10
    ensures '0' <= c <= '9' && c as int - '0' as int == d
  {
    ('0' as int + d) as char
  }

  /** The decimal numeral of `n`, as `{}` prints it in Rust and in Python. */
  function Decimal(n: nat): (s: string)
    ensures |s| > 0
    ensures forall i :: 0 <= i < |s| ==> '0' <= s[i] <= '9'
  {
    if n < 10 then [Digit(n)] else Decimal(n / 10) + [Digit(n % 10)]
  }

  predicate IsDigit(c: char) {
    '0' <= c <= '9'
  }

  /** The number that decimal digits with single underscores between them stand for. */
  function ParseDigits(s: string): (r: Option<nat>) {
    if s == "" || !IsDigit(s[|s| - 1]) then None
    else
      var d, rest := s[|s| - 1] as int - '0' as int, s[..|s| - 1];
      if rest == "" then Some(d)
      else match ParseDigits(if rest[|rest| - 1] == '_' then rest[..|rest| - 1] else rest)
        case None => None
        case Some(n) => Some(10 * n + d)
  }

  /** Python's `int` on ASCII text: surrounding blanks, a sign, and digits with underscores. */
  function ParseInt(s: string): (r: Option<int>) {
    var t := Strip(s);
    if t != "" && (t[0] == '-' || t[0] == '+') then
      match ParseDigits(t[1..])
      case None => None
      case Some(n) => Some(if t[0] == '-' then -(n as int) else n)
    else match ParseDigits(t)
      case None => None
      case Some(n) => Some(n)
  }

  lemma {:induction false} DigitsRoundTrip(n: nat)
    ensures ParseDigits(Decimal(n)) == Some(n)
  {
    var s := Decimal(n);
    if n >= 10 {
      assert s[..|s| - 1] == Decimal(n / 10);
      DigitsRoundTrip(n / 10);
    }
  }

  /** Reading a printed numeral gives the number. */
  lemma {:induction false} DecimalRoundTrip(n: nat)
    ensures ParseInt(Decimal(n)) == Some(n)
  {
    hide Decimal, ParseDigits, Strip;
    var s := Decimal(n);
    StripLine(s);
    DigitsRoundTrip(n);
  }

  function Pow10(k: nat): (p: nat)
    ensures p >= 1
  {
    if k == 0 then 1 else 10 * Pow10(k - 1)
  }

  /** A numeral has more than `k` digits exactly when the number is at least 10 to the `k`. */
  lemma {:induction false} DecimalLength(n: nat, k: nat)
    requires k >= 1
    ensures |Decimal(n)| > k <==> n >= Pow10(k)
  {
    if n >= 10 {
      if k == 1 {
        assert Pow10(1) == 10 * Pow10(0);
      } else {
        DecimalLength(n / 10, k - 1);
      }
    } else {
      assert Pow10(k) >= 10;
    }
  }

  /** How many bytes UTF-8 spends on a character. */
  function Utf8Width(c: char): (w: nat)
    ensures 1 <= w <= 4
  {
    if c as int < 0x80 then 1 else if c as int < 0x800 then 2 else if c as int < 0x10000 then 3 else 4
  }

  /** The length of a text in UTF-8, as Rust's `len` gives it. */
  function ByteLength(s: string): nat {
    if s == "" then 0 else Utf8Width(s[0]) + ByteLength(s[1..])
  }

  /** A character takes one to four bytes. */
  lemma {:induction false} ByteLengthBetween(s: string)
    ensures |s| <= ByteLength(s) <= 4 * |s|
  {
    if s != "" { ByteLengthBetween(s[1..]); }
  }

  /**
   Rust's `s[..n]` on a `str`: the characters that fill exactly the first `n` bytes. There is no
   such slice, and Rust panics, when the text is shorter than `n` bytes or when byte `n` falls
   inside a character.
   */
  function TakeBytes(s: string, n: nat): (r: Option<string>)
    ensures r.Some? ==> ByteLength(r.value) == n
    decreases |s|
  {
    if n == 0 then Some("")
    else if s == "" || Utf8Width(s[0]) > n then None
    else match TakeBytes(s[1..], n - Utf8Width(s[0]))
      case None => None
      case Some(t) => assert ([s[0]] + t)[1..] == t; Some([s[0]] + t)
  }

  ghost predicate Ascii(s: string) {
    forall i :: 0 <= i < |s| ==> s[i] as int < 0x80
  }

  lemma {:induction false} ByteLengthAscii(s: string)
    requires Ascii(s)
    ensures ByteLength(s) == |s|
  {
    if s != "" { ByteLengthAscii(s[1..]); }
  }

  /** On ASCII text the slice exists exactly when the text is long enough, and is the prefix. */
  lemma {:induction false} TakeBytesAscii(s: string, n: nat)
    requires Ascii(s)
    ensures TakeBytes(s, n) == if |s| >= n then Some(s[..n]) else None
  {
    if n > 0 && s != "" {
      TakeBytesAscii(s[1..], n - 1);
      if |s| >= n {
        assert [s[0]] + s[1..][..n - 1] == s[..n];
      }
    }
  }

  /** A slice that ends behind an ASCII beginning is decided by what follows it. */
  lemma {:induction false} TakeBytesBehind(a: string, b: string, n: nat)
    requires Ascii(a) && |a| <= n
    ensures TakeBytes(a + b, n).Some? <==> TakeBytes(b, n - |a|).Some?
  {
    if a == "" {
      assert a + b == b;
    } else {
      assert (a + b)[0] == a[0] && (a + b)[1..] == a[1..] + b;
      TakeBytesBehind(a[1..], b, n - 1);
    }
  }

  /** A slice that ends within an ASCII beginning exists whatever follows it. */
  lemma {:induction false} TakeBytesWithin(a: string, b: string, n: nat)
    requires Ascii(a) && n <= |a|
    ensures TakeBytes(a + b, n).Some?
  {
    if n > 0 {
      assert (a + b)[0] == a[0] && (a + b)[1..] == a[1..] + b;
      TakeBytesWithin(a[1..], b, n - 1);
    }
  }

  // ----- Debug rendering in Rust -----

  /** The lower-case hexadecimal numeral of `n`. */
  function Hex(n: nat): (s: string)
    ensures forall i :: 0 <= i < |s| ==> '0' <= s[i] <= 'f'
  {
    var d := n % 16;
    var c := if d < 10 then Digit(d) else ('a' as int + d - 10) as char;
    if n < 16 then [c] else Hex(n / 16) + [c]
  }

  /** `{}` on a signed number. */
  function Signed(n: int): (s: string)
    ensures |s| > 0 && Ascii(s)
  {
    if n < 0 then "-" + Decimal(-n) else Decimal(n)
  }

  /**
   What the `{:?}` rendering of a string depends on besides the string: which characters are
   printable, a table of the Unicode standard, and two habits that differ between versions of the
   library, namely escaping the apostrophe and showing NUL in two characters.
   */
  datatype Style = Style(printable: char -> bool, escapesApostrophe: bool, shortNul: bool)

  /** One character inside the `{:?}` rendering of a string. */
  function Shown(style: Style, c: char): string {
    if c == '\t' then "\\t" else if c == '\r' then "\\r" else if c == '\n' then "\\n"
    else if c == '"' || c == '\\' || (c == '\'' && style.escapesApostrophe) then ['\\', c]
    else if c == '\0' && style.shortNul then "\\0"
    else if style.printable(c) then [c]
    else "\\u{" + Hex(c as int) + "}"
  }

  function Escaped(style: Style, s: string): string {
    if s == "" then "" else Shown(style, s[0]) + Escaped(style, s[1..])
  }

  /** `{:?}` on a string. */
  function Quoted(style: Style, s: string): string {
    "\"" + Escaped(style, s) + "\""
  }

  /** Byte `n` of the rendering of `s` falls inside one of the characters of `s` that is shown as it is. */
  ghost predicate FallsInside(style: Style, s: string, n: int) {
    exists k :: 0 <= k < |s| && InsideAt(style, s, n, k)
  }

  predicate InsideAt(style: Style, s: string, n: int, k: nat)
    requires k < |s|
  {
    var before := ByteLength(Escaped(style, s[..k]));
    Shown(style, s[k]) == [s[k]] && before < n < before + Utf8Width(s[k])
  }

  lemma {:induction false} ByteLengthConcat(a: string, b: string)
    ensures ByteLength(a + b) == ByteLength(a) + ByteLength(b)
  {
    if a == "" {
      assert a + b == b;
    } else {
      assert (a + b)[0] == a[0] && (a + b)[1..] == a[1..] + b;
      ByteLengthConcat(a[1..], b);
    }
  }

  /** A character is shown as it is or by ASCII characters. */
  lemma {:induction false} ShownAscii(style: Style, c: char)
    ensures Shown(style, c) != [c] ==> Ascii(Shown(style, c))
    ensures Shown(style, c) == [c] ==> ByteLength(Shown(style, c)) == Utf8Width(c)
  {
    assert [c][1..] == "";
  }

  lemma {:induction false} InsideShift(style: Style, s: string, n: int, k: nat)
    requires 0 < k < |s|
    ensures InsideAt(style, s, n, k)
            <==> InsideAt(style, s[1..], n - ByteLength(Shown(style, s[0])), k - 1)
  {
    hide Shown;
    assert s[..k][0] == s[0] && s[..k][1..] == s[1..][..k - 1];
    ByteLengthConcat(Shown(style, s[0]), Escaped(style, s[..k][1..]));
  }

  lemma {:induction false} FallsInsideRest(style: Style, s: string, n: int)
    requires s != ""
    ensures FallsInside(style, s, n) <==>
            || InsideAt(style, s, n, 0)
            || FallsInside(style, s[1..], n - ByteLength(Shown(style, s[0])))
  {
    hide InsideAt;
    var w := ByteLength(Shown(style, s[0]));
    forall k | 0 < k < |s|
      ensures InsideAt(style, s, n, k) <==> InsideAt(style, s[1..], n - w, k - 1)
    {
      InsideShift(style, s, n, k);
    }
    if FallsInside(style, s[1..], n - w) {
      var k :| 0 <= k < |s[1..]| && InsideAt(style, s[1..], n - w, k);
      assert InsideAt(style, s, n, k + 1);
    }
  }

  /** Slicing a rendering that starts with the character `c`. */
  lemma {:induction false} ShownCut(style: Style, c: char, rest: string, n: nat)
    ensures var e := Shown(style, c); var w := ByteLength(e);
            && (n <= w ==> (TakeBytes(e + rest, n).None? <==> e == [c] && 0 < n < Utf8Width(c)))
            && (n >= w ==> (TakeBytes(e + rest, n).None? <==> TakeBytes(rest, n - w).None?))
  {
    var e := Shown(style, c);
    ShownAscii(style, c);
    hide Shown;
    if e == [c] {
      assert (e + rest)[0] == c && (e + rest)[1..] == rest;
    } else {
      ByteLengthAscii(e);
      if n <= |e| { TakeBytesWithin(e, rest, n); }
      if n >= |e| { TakeBytesBehind(e, rest, n); }
    }
  }

  /** Within a rendered string with enough ASCII behind it, only a character shown as it is can be cut. */
  lemma {:induction false} EscapedCut(style: Style, s: string, tail: string, n: nat)
    requires Ascii(tail) && n <= |tail|
    ensures TakeBytes(Escaped(style, s) + tail, n).None? <==> FallsInside(style, s, n)
  {
    hide Shown, FallsInside, InsideAt, TakeBytes, ByteLength;
    if s == "" {
      assert Escaped(style, s) + tail == tail;
      TakeBytesAscii(tail, n);
      NothingInside(style, s, n);
    } else {
      var e, rest := Shown(style, s[0]), Escaped(style, s[1..]) + tail;
      var w := ByteLength(e);
      assert Escaped(style, s) + tail == e + rest;
      ShownCut(style, s[0], rest, n);
      FallsInsideRest(style, s, n);
      FirstInside(style, s, n);
      ShownAscii(style, s[0]);
      if n <= w {
        NothingInside(style, s[1..], n - w);
      } else {
        EscapedCut(style, s[1..], tail, n - w);
      }
    }
  }

  lemma {:induction false} FirstInside(style: Style, s: string, n: int)
    requires s != ""
    ensures InsideAt(style, s, n, 0) <==> Shown(style, s[0]) == [s[0]] && 0 < n < Utf8Width(s[0])
  {
    hide Shown;
    assert s[..0] == "";
  }

  lemma {:induction false} NothingInside(style: Style, s: string, n: int)
    requires s == "" || n <= 0
    ensures !FallsInside(style, s, n)
  {
  }

  /** ASCII text has no character to fall inside of. */
  lemma {:induction false} AsciiNeverCut(style: Style, s: string, n: int)
    requires Ascii(s)
    ensures !FallsInside(style, s, n)
  {
  }

  // ----- Python strings -----

  /** str.isspace on one character. */
  predicate IsSpace(c: char) {
    var n := c as int;
    || 9 <= n <= 13 || 28 <= n <= 32 || n == 0x85 || n == 0xa0 || n == 0x1680 || 0x2000 <= n <= 0x200a
    || n == 0x2028 || n == 0x2029 || n == 0x202f || n == 0x205f || n == 0x3000
  }

  /** str.rstrip */
  function RStrip(s: string): string {
    if s != "" && IsSpace(s[|s| - 1]) then RStrip(s[..|s| - 1]) else s
  }

  /** str.lstrip */
  function LStrip(s: string): string {
    if s != "" && IsSpace(s[0]) then LStrip(s[1..]) else s
  }

  /** str.strip */
  function Strip(s: string): string {
    LStrip(RStrip(s))
  }

  /** Text that ends, and starts, with something visible loses only the newline after it. */
  lemma {:induction false} StripLine(s: string)
    requires s != "" && !IsSpace(s[0]) && !IsSpace(s[|s| - 1])
    ensures RStrip(s) == s && Strip(s) == s
    ensures RStrip(s + "\n") == s && Strip(s + "\n") == s
  {
    assert (s + "\n")[..|s|] == s;
  }

  /** The position of the first occurrence of a character, as str.index finds it. */
  function Find(s: string, c: char): (r: Option<nat>)
    ensures r.Some? ==> r.value < |s| && s[r.value] == c && c !in s[..r.value]
    ensures r.None? ==> c !in s
  {
    if s == "" then None
    else if s[0] == c then Some(0)
    else match Find(s[1..], c)
      case None => None
      case Some(i) => assert s[..i + 1] == [s[0]] + s[1..][..i]; Some(i + 1)
  }

  lemma {:induction false} FindAfter(a: string, c: char, b: string)
    requires c !in a
    ensures Find(a + [c] + b, c) == Some(|a|)
  {
    var s := a + [c] + b;
    assert s[|a|] == c;
    assert forall i :: 0 <= i < |a| ==> s[i] == a[i];
  }

  /** What reading a file in text mode makes of carriage returns. */
  function Universal(t: string): string {
    if t == "" then ""
    else if t[0] == '\r' then "\n" + Universal(if |t| > 1 && t[1] == '\n' then t[2..] else t[1..])
    else [t[0]] + Universal(t[1..])
  }

  lemma {:induction false} UniversalBehind(a: string, b: string)
    requires '\r' !in a
    ensures Universal(a + b) == a + Universal(b)
  {
    if a == "" {
      assert a + b == b;
    } else {
      assert (a + b)[0] == a[0] && (a + b)[1..] == a[1..] + b;
      UniversalBehind(a[1..], b);
    }
  }

  /** Text without carriage returns is read as it is, and no text is read with one. */
  lemma {:induction false} UniversalPlain(t: string)
    ensures '\r' !in Universal(t)
    ensures '\r' !in t ==> Universal(t) == t
  {
    if t != "" {
      if t[0] == '\r' {
        UniversalPlain(if |t| > 1 && t[1] == '\n' then t[2..] else t[1..]);
      } else {
        UniversalPlain(t[1..]);
      }
    }
  }

  /** Iterating over a text file: lines keep their newline. */
  function Lines(t: string): (ls: seq<string>)
    ensures t != "" ==> ls != []
    decreases |t|
  {
    if t == "" then []
    else match Find(t, '\n')
      case None => [t]
      case Some(i) => [t[..i + 1]] + Lines(t[i + 1..])
  }

  lemma {:induction false} FirstLine(a: string, rest: string)
    requires '\n' !in a
    ensures Lines(a + "\n" + rest) == [a + "\n"] + Lines(rest)
  {
    var t := a + "\n" + rest;
    FindAfter(a, '\n', rest);
    assert t == a + ['\n'] + rest;
    assert t[..|a| + 1] == a + "\n" && t[|a| + 1..] == rest;
  }

  /** str.split on one character. */
  function Split(s: string, c: char): (parts: seq<string>)
    ensures parts != []
    decreases |s|
  {
    match Find(s, c)
    case None => [s]
    case Some(i) => [s[..i]] + Split(s[i + 1..], c)
  }

  /** str.join with one character. */
  function Join(parts: seq<string>, c: char): string {
    if parts == [] then "" else if |parts| == 1 then parts[0] else parts[0] + [c] + Join(parts[1..], c)
  }

  lemma {:induction false} SplitJoin(parts: seq<string>, c: char)
    requires parts != [] && forall i :: 0 <= i < |parts| ==> c !in parts[i]
    ensures Split(Join(parts, c), c) == parts
  {
    if |parts| > 1 {
      var rest := Join(parts[1..], c);
      var s := parts[0] + [c] + rest;
      FindAfter(parts[0], c, rest);
      assert s[..|parts[0]|] == parts[0] && s[|parts[0]| + 1..] == rest;
      SplitJoin(parts[1..], c);
    } else {
      assert parts == [parts[0]];
    }
  }

  lemma {:induction false} SplitPieces(s: string, c: char)
    ensures forall i :: 0 <= i < |Split(s, c)| ==> c !in Split(s, c)[i]
    ensures Join(Split(s, c), c) == s
    decreases |s|
  {
    hide Find;
    match Find(s, c)
    case None =>
    case Some(i) =>
      var rest := Split(s[i + 1..], c);
      SplitPieces(s[i + 1..], c);
      assert Split(s, c) == [s[..i]] + rest && ([s[..i]] + rest)[1..] == rest;
      assert s == s[..i] + [c] + s[i + 1..];
  }

  lemma {:induction false} RStripNewline(s: string)
    ensures RStrip(s + "\n") == RStrip(s)
  {
    assert (s + "\n")[..|s|] == s;
  }

  /** A line of a text file: a newline can only come last. */
  ghost predicate IsLine(line: string) {
    line != "" && forall i :: 0 <= i < |line| - 1 ==> line[i] != '\n'
  }

  lemma {:induction false} LinesAreLines(t: string)
    ensures forall i :: 0 <= i < |Lines(t)| ==> IsLine(Lines(t)[i])
    decreases |t|
  {
    match Find(t, '\n')
    case None =>
    case Some(i) =>
      assert forall j :: 0 <= j < i ==> t[..i][j] != '\n';
      LinesAreLines(t[i + 1..]);
  }

  lemma {:induction false} RStripShape(s: string)
    ensures RStrip(s) <= s && (RStrip(s) != "" ==> !IsSpace(RStrip(s)[|RStrip(s)| - 1]))
            && RStrip(RStrip(s)) == RStrip(s)
  {
    if s != "" && IsSpace(s[|s| - 1]) {
      RStripShape(s[..|s| - 1]);
    }
  }

  /** A stripped piece of a line holds no newline. */
  lemma {:induction false} NoNewline(line: string, s: string)
    requires IsLine(line) && s <= line && (s != "" ==> !IsSpace(s[|s| - 1]))
    ensures '\n' !in s
  {
    assert forall i :: 0 <= i < |s| ==> s[i] == line[i];
  }

  lemma {:induction false} LinesPlain(t: string)
    requires '\r' !in t
    ensures forall i :: 0 <= i < |Lines(t)| ==> '\r' !in Lines(t)[i]
    decreases |t|
  {
    match Find(t, '\n')
    case None =>
    case Some(i) => LinesPlain(t[i + 1..]);
  }

  /** Stripping adds no characters. */
  lemma {:induction false} StripWithin(s: string, c: char)
    requires c in Strip(s)
    ensures c in s && c in RStrip(s)
  {
    RStripShape(s);
    LStripWithin(RStrip(s), c);
  }

  lemma {:induction false} LStripWithin(s: string, c: char)
    requires c in LStrip(s)
    ensures c in s
  {
    if s != "" && IsSpace(s[0]) {
      LStripWithin(s[1..], c);
    }
  }

  /** The parts of a split string have its characters, without the separator. */
  lemma {:induction false} SplitWithin(s: string, sep: char, i: nat, c: char)
    requires i < |Split(s, sep)| && c in Split(s, sep)[i]
    ensures c in s && c != sep
    decreases |s|
  {
    hide Find;
    match Find(s, sep)
    case None =>
    case Some(k) => if i > 0 { SplitWithin(s[k + 1..], sep, i - 1, c); }
  }
}
