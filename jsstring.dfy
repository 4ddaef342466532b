/**
 * The ECMAScript string built-ins the two programs rely on, with the
 * semantics ECMA-262 gives them: `String.prototype.split` with a one-character
 * separator, `String.prototype.trim`, and the global `parseInt` with no radix
 * argument.
 */
module JsString {

  /** WhiteSpace and LineTerminator code points of ECMA-262 (the set both
      `trim` and `parseInt` skip). */
  predicate IsJsSpace(c: char) {
    c == '\t' || c == '\n' || c == '\U{000B}' || c == '\U{000C}' || c == '\r' || c == ' '
    || c == '\U{00A0}' || c == '\U{1680}' || ('\U{2000}' <= c <= '\U{200A}')
    || c == '\U{2028}' || c == '\U{2029}' || c == '\U{202F}' || c == '\U{205F}'
    || c == '\U{3000}' || c == '\U{FEFF}'
  }

  // ---------------------------------------------------------------- split

  /** `s.split(sep)` for a one-character separator: the pieces between the
      separators, so `"".split(sep)` is `[""]` and a trailing separator gives
      an empty last piece. */
  function Split(s: string, sep: char): (parts: seq<string>)
    ensures |parts| >= 1
    decreases |s|
  {
    if s == [] then [""]
    else
      var rest := Split(s[1..], sep);
      if s[0] == sep then [""] + rest
      else [[s[0]] + rest[0]] + rest[1..]
  }

  /** `parts.join(sep)`. */
  function Join(parts: seq<string>, sep: char): string
    requires |parts| >= 1
    decreases |parts|
  {
    if |parts| == 1 then parts[0] else parts[0] + [sep] + Join(parts[1..], sep)
  }

  /** Joining the pieces gives back the string. */
  lemma {:induction false} JoinSplit(s: string, sep: char)
    ensures Join(Split(s, sep), sep) == s
    decreases |s|
  {
    if s != [] {
      JoinSplit(s[1..], sep);
      var rest := Split(s[1..], sep);
      if s[0] != sep {
        if |rest| == 1 {
          assert Split(s, sep) == [[s[0]] + rest[0]];
        } else {
          var parts := Split(s, sep);
          assert parts[1..] == rest[1..];
          assert Join(parts, sep) == [s[0]] + rest[0] + [sep] + Join(rest[1..], sep);
        }
      }
    }
  }

  /** No piece contains the separator. */
  lemma {:induction false} SplitPiecesFree(s: string, sep: char)
    ensures forall i | 0 <= i < |Split(s, sep)| :: sep !in Split(s, sep)[i]
    decreases |s|
  {
    if s != [] {
      SplitPiecesFree(s[1..], sep);
      var rest := Split(s[1..], sep);
      if s[0] != sep {
        var parts := Split(s, sep);
        forall i | 0 <= i < |parts| ensures sep !in parts[i] {
          if i == 0 { assert parts[0] == [s[0]] + rest[0]; } else { assert parts[i] == rest[i]; }
        }
      }
    }
  }

  /** Splitting a join of separator-free pieces gives back the pieces. */
  lemma {:induction false} SplitJoin(parts: seq<string>, sep: char)
    requires |parts| >= 1
    requires forall i | 0 <= i < |parts| :: sep !in parts[i]
    ensures Split(Join(parts, sep), sep) == parts
    decreases |parts|, |parts[0]|
  {
    if parts[0] == [] {
      if |parts| > 1 {
        SplitJoin(parts[1..], sep);
        assert Join(parts, sep) == [sep] + Join(parts[1..], sep);
        assert Join(parts, sep)[1..] == Join(parts[1..], sep);
        assert parts == [""] + parts[1..];
      }
    } else {
      var p0 := parts[0];
      var shorter := [p0[1..]] + parts[1..];
      assert forall i | 0 <= i < |shorter| :: sep !in shorter[i] by {
        forall i | 0 <= i < |shorter| ensures sep !in shorter[i] {
          if i == 0 { assert forall c | c in p0[1..] :: c in p0; } else { assert shorter[i] == parts[i]; }
        }
      }
      SplitJoin(shorter, sep);
      assert shorter[1..] == parts[1..];
      if |parts| == 1 {
        assert Join(parts, sep) == [p0[0]] + Join(shorter, sep);
      } else {
        assert Join(parts, sep) == [p0[0]] + Join(shorter, sep);
      }
      var s := Join(parts, sep);
      assert s[0] == p0[0] && s[0] != sep;
      assert s[1..] == Join(shorter, sep);
      assert [p0[0]] + p0[1..] == p0;
    }
  }

  /** Number of occurrences of `c` in `s`. */
  function Count(s: string, c: char): nat
    decreases |s|
  {
    if s == [] then 0 else (if s[0] == c then 1 else 0) + Count(s[1..], c)
  }

  /** There is one more piece than separators. */
  lemma {:induction false} SplitLength(s: string, sep: char)
    ensures |Split(s, sep)| == Count(s, sep) + 1
    decreases |s|
  {
    if s != [] { SplitLength(s[1..], sep); }
  }

  // ----------------------------------------------------------------- trim

  function TrimStart(s: string): string
    decreases |s|
  {
    if s != [] && IsJsSpace(s[0]) then TrimStart(s[1..]) else s
  }

  function TrimEnd(s: string): string
    decreases |s|
  {
    if s != [] && IsJsSpace(s[|s| - 1]) then TrimEnd(s[..|s| - 1]) else s
  }

  /** `s.trim()`. */
  function Trim(s: string): string {
    TrimEnd(TrimStart(s))
  }

  /** Trimming removes a leading run of white space and nothing else. */
  lemma {:induction false} TrimStartShape(s: string)
    ensures exists i | 0 <= i <= |s| :: TrimStart(s) == s[i..] && forall j | 0 <= j < i :: IsJsSpace(s[j])
    ensures TrimStart(s) != [] ==> !IsJsSpace(TrimStart(s)[0])
    decreases |s|
  {
    if s != [] && IsJsSpace(s[0]) {
      TrimStartShape(s[1..]);
      var i :| 0 <= i <= |s[1..]| && TrimStart(s[1..]) == s[1..][i..] && forall j | 0 <= j < i :: IsJsSpace(s[1..][j]);
      assert s[1..][i..] == s[i + 1..];
      assert forall j | 0 <= j < i + 1 :: IsJsSpace(s[j]) by {
        forall j | 0 <= j < i + 1 ensures IsJsSpace(s[j]) { if j > 0 { assert s[j] == s[1..][j - 1]; } }
      }
    } else {
      assert TrimStart(s) == s[0..];
    }
  }

  /** Trimming removes a trailing run of white space and nothing else. */
  lemma {:induction false} TrimEndShape(s: string)
    ensures exists i | 0 <= i <= |s| :: TrimEnd(s) == s[..i] && forall j | i <= j < |s| :: IsJsSpace(s[j])
    ensures TrimEnd(s) != [] ==> !IsJsSpace(TrimEnd(s)[|TrimEnd(s)| - 1])
    decreases |s|
  {
    if s != [] && IsJsSpace(s[|s| - 1]) {
      var init := s[..|s| - 1];
      TrimEndShape(init);
      var i :| 0 <= i <= |init| && TrimEnd(init) == init[..i] && forall j | i <= j < |init| :: IsJsSpace(init[j]);
      assert init[..i] == s[..i];
      assert forall j | i <= j < |s| :: IsJsSpace(s[j]) by {
        forall j | i <= j < |s| ensures IsJsSpace(s[j]) { if j < |init| { assert s[j] == init[j]; } }
      }
    } else {
      assert TrimEnd(s) == s[..|s|];
    }
  }

  lemma {:induction false} TrimStartFixed(s: string)
    requires s == [] || !IsJsSpace(s[0])
    ensures TrimStart(s) == s
  {
  }

  /** Trimming the end keeps a first character that is not white space. */
  lemma {:induction false} TrimEndKeepsFirst(s: string)
    requires s != [] && !IsJsSpace(s[0])
    ensures TrimEnd(s) != [] && TrimEnd(s)[0] == s[0]
    decreases |s|
  {
    if IsJsSpace(s[|s| - 1]) {
      TrimEndKeepsFirst(s[..|s| - 1]);
    }
  }

  /** `trim` is idempotent. */
  lemma TrimIdempotent(s: string)
    ensures Trim(Trim(s)) == Trim(s)
  {
    TrimStartShape(s);
    TrimEndShape(TrimStart(s));
    var t := Trim(s);
    if t != [] {
      var u := TrimStart(s);
      var i :| 0 <= i <= |u| && TrimEnd(u) == u[..i] && forall j | i <= j < |u| :: IsJsSpace(u[j]);
      assert t[0] == u[0];
      assert !IsJsSpace(t[0]);
      TrimStartFixed(t);
      assert !IsJsSpace(t[|t| - 1]);
      assert TrimEnd(t) == t;
    }
  }

  // ------------------------------------------------------------- parseInt

  /** A JavaScript number as `parseInt` can produce it. */
  datatype Number = Num(value: int) | NaN

  /** Value of a digit in radix 36 notation, 36 for any other character. */
  function DigitValue(c: char): nat {
    if '0' <= c <= '9' then (c as int - '0' as int)
    else if 'a' <= c <= 'z' then (c as int - 'a' as int) + 10
    else if 'A' <= c <= 'Z' then (c as int - 'A' as int) + 10
    else 36
  }

  /** The longest prefix of `s` made of digits of the radix. */
  function DigitPrefix(s: string, radix: nat): (d: string)
    ensures |d| <= |s| && d == s[..|d|]
    decreases |s|
  {
    if s != [] && DigitValue(s[0]) < radix then [s[0]] + DigitPrefix(s[1..], radix) else []
  }

  /** The mathematical value of a digit string in the radix. */
  function DigitsValue(d: string, radix: nat): nat
    decreases |d|
  {
    if d == [] then 0
    else DigitsValue(d[..|d| - 1], radix) * radix + (if DigitValue(d[|d| - 1]) < radix then DigitValue(d[|d| - 1]) else 0)
  }

  /** `parseInt(s)` without a radix: skip leading white space, take an optional
      sign, then read the magnitude; NaN when there is no digit. */
  function ParseInt(s: string): Number {
    var t := TrimStart(s);
    if t != [] && t[0] == '-' then Negate(ParseMagnitude(t[1..]))
    else if t != [] && t[0] == '+' then ParseMagnitude(t[1..])
    else ParseMagnitude(t)
  }

  function Negate(n: Number): Number {
    match n
    case Num(v) => Num(-v)
    case NaN => NaN
  }

  /** A `0x`/`0X` prefix selects radix 16, anything else radix 10; the value is
      that of the longest prefix of digits of the radix. */
  function ParseMagnitude(u: string): Number {
    if |u| >= 2 && u[0] == '0' && (u[1] == 'x' || u[1] == 'X') then ParseDigits(u[2..], 16)
    else ParseDigits(u, 10)
  }

  function ParseDigits(v: string, radix: nat): Number {
    var d := DigitPrefix(v, radix);
    if d == [] then NaN else Num(DigitsValue(d, radix))
  }

  /** Decimal notation of a natural number, without leading zeros. */
  function NatToString(n: nat): (s: string)
    ensures |s| >= 1
    decreases n
  {
    if n < 10 then [('0' as int + n) as char]
    else NatToString(n / 10) + [('0' as int + n % 10) as char]
  }

  /** Decimal notation of an integer, as JavaScript prints it. */
  function IntToString(n: int): string {
    if n < 0 then "-" + NatToString(-n) else NatToString(n)
  }

  lemma {:induction false} NatToStringDigits(n: nat)
    ensures forall i | 0 <= i < |NatToString(n)| :: '0' <= NatToString(n)[i] <= '9'
    ensures DigitsValue(NatToString(n), 10) == n
    decreases n
  {
    if n >= 10 {
      NatToStringDigits(n / 10);
      var s := NatToString(n);
      assert s[..|s| - 1] == NatToString(n / 10);
    }
  }

  lemma {:induction false} DigitPrefixAll(s: string, radix: nat)
    requires forall i | 0 <= i < |s| :: DigitValue(s[i]) < radix
    ensures DigitPrefix(s, radix) == s
    decreases |s|
  {
    if s != [] {
      DigitPrefixAll(s[1..], radix);
    }
  }

  lemma DecimalMagnitude(d: string)
    requires |d| >= 1 && forall i | 0 <= i < |d| :: '0' <= d[i] <= '9'
    ensures ParseMagnitude(d) == Num(DigitsValue(d, 10))
  {
    assert forall i | 0 <= i < |d| :: DigitValue(d[i]) < 10;
    DigitPrefixAll(d, 10);
  }

  /** `parseInt` of a plain decimal digit string. */
  lemma ParseIntDecimal(d: string)
    requires |d| >= 1 && forall i | 0 <= i < |d| :: '0' <= d[i] <= '9'
    ensures ParseInt(d) == Num(DigitsValue(d, 10))
  {
    DecimalMagnitude(d);
    TrimStartFixed(d);
  }

  /** `parseInt` of a minus sign followed by a decimal digit string. */
  lemma ParseIntNegative(d: string)
    requires |d| >= 1 && forall i | 0 <= i < |d| :: '0' <= d[i] <= '9'
    ensures ParseInt("-" + d) == Num(-(DigitsValue(d, 10) as int))
  {
    DecimalMagnitude(d);
    var s := "-" + d;
    TrimStartFixed(s);
    assert s[1..] == d;
  }

  /** `parseInt` reads back what JavaScript prints for an integer. */
  lemma ParseIntRoundTrip(n: int)
    ensures ParseInt(IntToString(n)) == Num(n)
  {
    var m: nat := if n < 0 then -n else n;
    NatToStringDigits(m);
    if n < 0 { ParseIntNegative(NatToString(m)); } else { ParseIntDecimal(NatToString(m)); }
  }
}
