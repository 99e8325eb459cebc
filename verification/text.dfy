/**
 * Text shared by the C side and the Python side of vizzy: bytes, the
 * decimal and hexadecimal renderings that printf produces, the integer
 * parsing that Python's int() performs, and Python's str.strip and
 * str.split on one separator character.
 */
module Text {
  import opened Wrappers

  /** An 8-bit byte, as held in a C `uint8_t` or `char` buffer. */
  newtype byte = x: int | 0 <= x < 256

  function Pow(b: nat, k: nat): nat
  {
    if k == 0 then 1 else b * Pow(b, k - 1)
  }

  // ---------------------------------------------------------------------------
  // Rendering numbers
  // ---------------------------------------------------------------------------

  /** The lower-case digit character for d, as printf writes it. */
  function DigitChar(d: nat): (c: char)
    requires d < 16
  {
    if d < 10 then ('0' as int + d) as char else ('a' as int + d - 10) as char
  }

  /** The value of one digit character, either case, as Python's int() reads it. */
  function DigitValue(c: char): (v: Option<nat>)
    ensures v.Some? ==> v.value < 16
  {
    if '0' <= c <= '9' then Some(c as int - '0' as int)
    else if 'a' <= c <= 'f' then Some(c as int - 'a' as int + 10)
    else if 'A' <= c <= 'F' then Some(c as int - 'A' as int + 10)
    else None
  }

  /** printf's lower-case hexadecimal digits of n (`%lx`), most significant first. */
  function Hex(n: nat): (s: string)
    ensures 1 <= |s|
    decreases n
  {
    if n < 16 then [DigitChar(n)] else Hex(n / 16) + [DigitChar(n % 16)]
  }

  /** printf's decimal digits of n (`%lu`, or `%ld` of a non-negative value). */
  function Dec(n: nat): (s: string)
    ensures 1 <= |s|
    decreases n
  {
    if n < 10 then [DigitChar(n)] else Dec(n / 10) + [DigitChar(n % 10)]
  }

  // ---------------------------------------------------------------------------
  // Python's int(s, base) for base 10 and 16
  // ---------------------------------------------------------------------------

  /** The value of a non-empty run of digits, each below base; None otherwise. */
  function DigitsValue(s: string, base: nat): Option<nat>
    decreases |s|
  {
    if |s| == 0 then None
    else
      var d := DigitValue(s[|s| - 1]);
      if d.None? || d.value >= base then None
      else if |s| == 1 then Some(d.value)
      else match DigitsValue(s[..|s| - 1], base)
        case None => None
        case Some(v) => Some(v * base + d.value)
  }

  /** Digits after an optional sign; base 16 also admits a `0x`/`0X` prefix. */
  function ParseUnsigned(s: string, base: nat): Option<nat>
  {
    if base == 16 && |s| >= 2 && s[0] == '0' && (s[1] == 'x' || s[1] == 'X') then
      DigitsValue(s[2..], 16)
    else
      DigitsValue(s, base)
  }

  /**
   * Python's int(s, base) on ASCII digits without underscores: an optional
   * `+` or `-`, then ParseUnsigned; None where Python raises ValueError.
   * Python also accepts `_` between digits and non-ASCII digits; those
   * forms are None here.
   */
  function ParseInt(s: string, base: nat): Option<int>
  {
    if |s| > 0 && (s[0] == '-' || s[0] == '+') then
      match ParseUnsigned(s[1..], base)
      case None => None
      case Some(v) => var r: int := if s[0] == '-' then -(v as int) else v; Some(r)
    else
      match ParseUnsigned(s, base)
      case None => None
      case Some(v) => Some(v)
  }

  // ---------------------------------------------------------------------------
  // str.strip and str.split
  // ---------------------------------------------------------------------------

  /** The ASCII characters Python's str.isspace accepts. */
  predicate IsSpace(c: char)
  {
    c == ' ' || 9 <= c as int <= 13 || 28 <= c as int <= 31
  }

  /** The number of leading whitespace characters. */
  function Lead(s: string): (n: nat)
    ensures n <= |s|
    decreases |s|
  {
    if |s| > 0 && IsSpace(s[0]) then 1 + Lead(s[1..]) else 0
  }

  /** The number of trailing whitespace characters. */
  function Trail(s: string): (n: nat)
    ensures n <= |s|
    decreases |s|
  {
    if |s| > 0 && IsSpace(s[|s| - 1]) then 1 + Trail(s[..|s| - 1]) else 0
  }

  /** Python's str.lstrip(): the string after its leading whitespace. */
  function LStrip(s: string): string
  {
    s[Lead(s)..]
  }

  /** Python's str.rstrip(): the string before its trailing whitespace. */
  function RStrip(s: string): string
  {
    s[..|s| - Trail(s)]
  }

  /** Python's str.strip() with no argument. */
  function Strip(s: string): string
  {
    RStrip(LStrip(s))
  }

  /** Python's s.split(sep) for a one-character separator: never an empty list. */
  function Split(s: string, sep: char): (parts: seq<string>)
    ensures |parts| >= 1
    decreases |s|
  {
    if |s| == 0 then [""]
    else
      var rest := Split(s[1..], sep);
      if s[0] == sep then [""] + rest else [[s[0]] + rest[0]] + rest[1..]
  }

  /** Python's sep.join(parts). */
  function Join(parts: seq<string>, sep: char): string
    requires |parts| >= 1
    decreases |parts|
  {
    if |parts| == 1 then parts[0] else parts[0] + [sep] + Join(parts[1..], sep)
  }

  // ---------------------------------------------------------------------------
  // Lemmas
  // ---------------------------------------------------------------------------

  lemma DigitRoundTrip(d: nat)
    requires d < 16
    ensures DigitValue(DigitChar(d)) == Some(d)
  {
  }

  /** Reading back printf's hexadecimal digits gives the number again. */
  lemma {:induction false} HexDigitsRoundTrip(n: nat)
    ensures DigitsValue(Hex(n), 16) == Some(n)
    decreases n
  {
    if n >= 16 {
      HexDigitsRoundTrip(n / 16);
      DigitRoundTrip(n % 16);
      DigitsValueSnoc(Hex(n / 16), DigitChar(n % 16), 16, n / 16, n % 16);
    } else {
      DigitRoundTrip(n);
    }
  }

  /** Reading back printf's decimal digits gives the number again. */
  lemma {:induction false} DecDigitsRoundTrip(n: nat)
    ensures DigitsValue(Dec(n), 10) == Some(n)
    decreases n
  {
    if n >= 10 {
      DecDigitsRoundTrip(n / 10);
      DigitRoundTrip(n % 10);
      DigitsValueSnoc(Dec(n / 10), DigitChar(n % 10), 10, n / 10, n % 10);
    } else {
      DigitRoundTrip(n);
    }
  }

  /** Appending one digit multiplies the value read so far by the base and adds the digit. */
  lemma DigitsValueSnoc(t: string, c: char, base: nat, v: nat, d: nat)
    requires DigitValue(c) == Some(d) && d < base
    requires DigitsValue(t, base) == Some(v)
    ensures DigitsValue(t + [c], base) == Some(v * base + d)
  {
    assert (t + [c])[..|t + [c]| - 1] == t;
  }

  /** A number below 16^k has at most k hexadecimal digits. */
  lemma {:induction false} HexLength(n: nat, k: nat)
    requires 1 <= k && n < Pow(16, k)
    ensures |Hex(n)| <= k
    decreases k
  {
    if n >= 16 {
      assert k >= 2;
      HexLength(n / 16, k - 1);
    }
  }

  /** A number below 10^k has at most k decimal digits. */
  lemma {:induction false} DecLength(n: nat, k: nat)
    requires 1 <= k && n < Pow(10, k)
    ensures |Dec(n)| <= k
    decreases k
  {
    if n >= 10 {
      assert k >= 2;
      DecLength(n / 10, k - 1);
    }
  }

  lemma {:induction false} PowAdd(b: nat, i: nat, j: nat)
    ensures Pow(b, i + j) == Pow(b, i) * Pow(b, j)
    decreases i
  {
    if i > 0 {
      PowAdd(b, i - 1, j);
      assert Pow(b, i + j) == b * Pow(b, i - 1 + j);
    }
  }

  /** A 64-bit address has at most 16 hexadecimal digits. */
  lemma HexLength64(n: nat)
    requires n < 0x1_0000_0000_0000_0000
    ensures |Hex(n)| <= 16
  {
    PowAdd(16, 1, 1);
    PowAdd(16, 2, 2);
    PowAdd(16, 4, 4);
    PowAdd(16, 8, 8);
    HexLength(n, 16);
  }

  /** The magnitude of a signed 64-bit value has at most 19 decimal digits. */
  lemma DecLength64(n: nat)
    requires n <= 0x8000_0000_0000_0000
    ensures |Dec(n)| <= 19
  {
    PowAdd(10, 1, 1);
    PowAdd(10, 2, 2);
    PowAdd(10, 4, 4);
    PowAdd(10, 8, 8);
    PowAdd(10, 1, 2);
    PowAdd(10, 16, 3);
    DecLength(n, 19);
  }

  /** Every character is a digit: no sign, no whitespace, no comma. */
  predicate IsDigitString(s: string)
  {
    forall i :: 0 <= i < |s| ==> DigitValue(s[i]).Some?
  }

  lemma DigitStringSnoc(t: string, d: nat)
    requires d < 16 && IsDigitString(t)
    ensures IsDigitString(t + [DigitChar(d)])
  {
    DigitRoundTrip(d);
  }

  lemma {:induction false} HexIsDigits(n: nat)
    ensures IsDigitString(Hex(n))
    decreases n
  {
    if n >= 16 {
      HexIsDigits(n / 16);
      DigitStringSnoc(Hex(n / 16), n % 16);
    } else {
      DigitRoundTrip(n);
    }
  }

  lemma {:induction false} DecIsDigits(n: nat)
    ensures IsDigitString(Dec(n))
    decreases n
  {
    if n >= 10 {
      DecIsDigits(n / 10);
      DigitStringSnoc(Dec(n / 10), n % 10);
    } else {
      DigitRoundTrip(n);
    }
  }

  lemma DigitIsPlain(c: char)
    requires DigitValue(c).Some?
    ensures !IsSpace(c) && c != ',' && c != '-' && c != '+' && c != 'x' && c != 'X'
  {
  }

  /** Python reads back a decimal rendering: int(str(n)) == n. */
  lemma DecRoundTrip(n: nat)
    ensures ParseInt(Dec(n), 10) == Some(n)
  {
    DecIsDigits(n);
    DigitIsPlain(Dec(n)[0]);
    DecDigitsRoundTrip(n);
  }

  /** Python reads back printf's `0x` hexadecimal rendering: int("0x" + hex, 16) == n. */
  lemma HexRoundTrip(n: nat)
    ensures ParseInt("0x" + Hex(n), 16) == Some(n)
  {
    var s := "0x" + Hex(n);
    assert s[2..] == Hex(n);
    HexDigitsRoundTrip(n);
  }

  /** Joining the parts of a split restores the string. */
  lemma {:induction false} SplitJoin(s: string, sep: char)
    ensures Join(Split(s, sep), sep) == s
    ensures forall i :: 0 <= i < |Split(s, sep)| ==> sep !in Split(s, sep)[i]
    decreases |s|
  {
    if |s| > 0 {
      var rest := Split(s[1..], sep);
      SplitJoin(s[1..], sep);
      if s[0] == sep {
        assert Split(s, sep)[1..] == rest;
      } else {
        var parts := Split(s, sep);
        assert parts[1..] == rest[1..];
        if |rest| > 1 {
          assert rest[0] + [sep] + Join(rest[1..], sep) == s[1..];
        }
      }
    }
  }

  /** A separator-free word followed by the separator becomes one whole part. */
  lemma {:induction false} SplitWord(w: string, sep: char, rest: string)
    requires sep !in w
    ensures Split(w, sep) == [w]
    ensures Split(w + [sep] + rest, sep) == [w] + Split(rest, sep)
    decreases |w|
  {
    if |w| == 0 {
      assert [sep] + rest == w + [sep] + rest;
      assert ([sep] + rest)[1..] == rest;
    } else {
      SplitWord(w[1..], sep, rest);
      assert (w + [sep] + rest)[1..] == w[1..] + [sep] + rest;
      assert [w[0]] + w[1..] == w;
    }
  }

  /** Splitting parts that do not contain the separator, once joined, gives the parts back. */
  lemma {:induction false} JoinSplit(parts: seq<string>, sep: char)
    requires |parts| >= 1
    requires forall i :: 0 <= i < |parts| ==> sep !in parts[i]
    ensures Split(Join(parts, sep), sep) == parts
    decreases |parts|
  {
    if |parts| == 1 {
      SplitWord(parts[0], sep, "");
    } else {
      JoinSplit(parts[1..], sep);
      SplitWord(parts[0], sep, Join(parts[1..], sep));
      assert [parts[0]] + parts[1..] == parts;
    }
  }

  /** A line whose first character is not whitespace keeps it under strip. */
  lemma LStripKeeps(s: string)
    requires |s| > 0 && !IsSpace(s[0])
    ensures LStrip(s) == s
  {
  }

  /** Stripping trailing whitespace keeps everything up to a non-space character. */
  lemma {:induction false} RStripKeepsPrefix(s: string, k: nat)
    requires 0 < k <= |s| && !IsSpace(s[k - 1])
    ensures k <= |RStrip(s)| && RStrip(s)[..k] == s[..k]
  {
    TrailStops(s, k);
    assert s[..|s| - Trail(s)][..k] == s[..k];
  }

  /** Trailing whitespace never reaches back past a non-space character. */
  lemma {:induction false} TrailStops(s: string, k: nat)
    requires 0 < k <= |s| && !IsSpace(s[k - 1])
    ensures Trail(s) <= |s| - k
    decreases |s|
  {
    if IsSpace(s[|s| - 1]) {
      var t := s[..|s| - 1];
      assert t[k - 1] == s[k - 1];
      TrailStops(t, k);
    }
  }

  /** Stripping a line whose text starts and ends with non-space characters leaves just the text. */
  lemma StripNewline(body: string)
    requires |body| > 0 && !IsSpace(body[0]) && !IsSpace(body[|body| - 1])
    ensures Strip(body + "\n") == body
  {
    var line := body + "\n";
    assert line[0] == body[0];
    LStripKeeps(line);
    assert line[..|line| - 1] == body;
    RStripKeepsAll(body);
  }

  /** Stripping a string with a non-space last character removes nothing at that end. */
  lemma RStripKeepsAll(s: string)
    requires |s| > 0 && !IsSpace(s[|s| - 1])
    ensures RStrip(s) == s
  {
  }
}
