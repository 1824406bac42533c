/**
 * The two Python text operations the upload and search views apply to request
 * values: `str(v)` on a parsed JSON value and `s.strip()` with no argument.
 */
module PyText {
  import opened Json

  /** `c.isspace()` in Python: the characters `str.strip()` removes. */
  predicate IsSpace(c: char)
  {
    var n := c as int;
    (0x09 <= n <= 0x0D) || (0x1C <= n <= 0x20) || n == 0x85 || n == 0xA0 ||
    n == 0x1680 || (0x2000 <= n <= 0x200A) || n == 0x2028 || n == 0x2029 ||
    n == 0x202F || n == 0x205F || n == 0x3000
  }

  predicate AllSpace(s: string)
  {
    forall i :: 0 <= i < |s| ==> IsSpace(s[i])
  }

  function TrimLeft(s: string): string
  {
    if s != [] && IsSpace(s[0]) then TrimLeft(s[1..]) else s
  }

  function TrimRight(s: string): string
  {
    if s != [] && IsSpace(s[|s| - 1]) then TrimRight(s[..|s| - 1]) else s
  }

  /** `s.strip()`: drop leading and trailing whitespace. */
  function Strip(s: string): string
  {
    TrimRight(TrimLeft(s))
  }

  /** Number of whitespace characters at the start of `s`. */
  function LeadingSpaces(s: string): (n: nat)
    ensures n <= |s|
  {
    if s != [] && IsSpace(s[0]) then 1 + LeadingSpaces(s[1..]) else 0
  }

  /** Number of whitespace characters at the end of `s`. */
  function TrailingSpaces(s: string): (n: nat)
    ensures n <= |s|
  {
    if s != [] && IsSpace(s[|s| - 1]) then 1 + TrailingSpaces(s[..|s| - 1]) else 0
  }

  /** The left trim removes exactly the leading whitespace. */
  lemma {:induction false} TrimLeftDrops(s: string)
    ensures TrimLeft(s) == s[LeadingSpaces(s)..]
    ensures forall k :: 0 <= k < LeadingSpaces(s) ==> IsSpace(s[k])
    ensures TrimLeft(s) == [] || !IsSpace(TrimLeft(s)[0])
  {
    if s != [] && IsSpace(s[0]) {
      TrimLeftDrops(s[1..]);
      assert s[1..][LeadingSpaces(s[1..])..] == s[LeadingSpaces(s)..];
      forall k | 0 < k < LeadingSpaces(s) ensures IsSpace(s[k]) {
        assert s[k] == s[1..][k - 1];
      }
    }
  }

  /** The right trim removes exactly the trailing whitespace. */
  lemma {:induction false} TrimRightDrops(s: string)
    ensures TrimRight(s) == s[..|s| - TrailingSpaces(s)]
    ensures forall k :: |s| - TrailingSpaces(s) <= k < |s| ==> IsSpace(s[k])
    ensures TrimRight(s) == [] || !IsSpace(TrimRight(s)[|TrimRight(s)| - 1])
  {
    if s != [] && IsSpace(s[|s| - 1]) {
      var t := s[..|s| - 1];
      TrimRightDrops(t);
      assert t[..|t| - TrailingSpaces(t)] == s[..|s| - TrailingSpaces(s)];
      forall k | |s| - TrailingSpaces(s) <= k < |s| - 1 ensures IsSpace(s[k]) {
        assert s[k] == t[k];
      }
    }
  }

  /**
   * `s.strip()` is the slice of `s` left after its leading and trailing
   * whitespace, and that slice neither starts nor ends with whitespace.
   */
  lemma StripShape(s: string)
    ensures var i := LeadingSpaces(s);
            var j := |s| - TrailingSpaces(s[i..]);
            i <= j && Strip(s) == s[i..j] &&
            (forall k :: 0 <= k < i ==> IsSpace(s[k])) &&
            (forall k :: j <= k < |s| ==> IsSpace(s[k]))
    ensures Strip(s) != [] ==> !IsSpace(Strip(s)[0]) && !IsSpace(Strip(s)[|Strip(s)| - 1])
  {
    var i := LeadingSpaces(s);
    TrimLeftDrops(s);
    var u := s[i..];
    TrimRightDrops(u);
    var j := |s| - TrailingSpaces(u);
    assert Strip(s) == s[i..j];
    forall k | j <= k < |s| ensures IsSpace(s[k]) {
      assert s[k] == u[k - i];
    }
    if Strip(s) != [] {
      assert Strip(s)[0] == u[0];
    }
  }

  /** A value is blank after `strip()` exactly when every character is whitespace. */
  lemma StripEmptyIffAllSpace(s: string)
    ensures Strip(s) == [] <==> AllSpace(s)
  {
    StripShape(s);
    var i := LeadingSpaces(s);
    var j := |s| - TrailingSpaces(s[i..]);
    if Strip(s) == [] {
      forall k | 0 <= k < |s| ensures IsSpace(s[k]) {
        if k >= i { assert k >= j; }
      }
    } else {
      assert !IsSpace(s[i]);
    }
  }

  /** Stripping twice is stripping once. */
  lemma StripIdempotent(s: string)
    ensures Strip(Strip(s)) == Strip(s)
  {
    StripShape(s);
    var t := Strip(s);
    if t != [] {
      assert TrimLeft(t) == t;
      assert TrimRight(t) == t;
    }
  }

  /** A string that neither starts nor ends with whitespace is left alone by `strip()`. */
  lemma StripKeepsTrimmed(s: string)
    requires s != [] ==> !IsSpace(s[0]) && !IsSpace(s[|s| - 1])
    ensures Strip(s) == s
  {
    if s != [] {
      assert TrimLeft(s) == s;
      assert TrimRight(s) == s;
    }
  }

  function DigitChar(d: nat): char
    requires d < 10
  {
    "0123456789"[d]
  }

  function Digits(n: nat): (r: string)
    ensures r != [] && '0' <= r[0] <= '9'
  {
    if n < 10 then [DigitChar(n)] else Digits(n / 10) + [DigitChar(n % 10)]
  }

  /** `str(i)` for a Python int: optional minus sign, then decimal digits. */
  function IntStr(i: int): string
  {
    if i < 0 then "-" + Digits(-i) else Digits(i)
  }

  function Join(sep: string, parts: seq<string>): string
  {
    if parts == [] then "" else if |parts| == 1 then parts[0] else parts[0] + sep + Join(sep, parts[1..])
  }

  /** The quote character `repr(s)` chooses: double quotes only when the text holds a single quote and no double quote. */
  function QuoteFor(s: string): char
  {
    if '\'' in s && '"' !in s then '"' else '\''
  }

  function Escape(s: string, q: char): string
  {
    if s == [] then ""
    else
      var c := s[0];
      var e := if c == '\\' then "\\\\"
               else if c == q then ['\\', q]
               else if c == '\n' then "\\n"
               else if c == '\r' then "\\r"
               else if c == '\t' then "\\t"
               else [c];
      e + Escape(s[1..], q)
  }

  /** `repr(s)` of a Python str. */
  function StrRepr(s: string): string
  {
    var q := QuoteFor(s);
    [q] + Escape(s, q) + [q]
  }

  /** `repr(v)`: strings are quoted, every other value prints as `str(v)`. */
  function PyRepr(v: Json): string
    decreases v, 1
  {
    if v.JStr? then StrRepr(v.s) else PyStr(v)
  }

  /** `str(v)` of a value produced by Python's JSON parser. */
  function PyStr(v: Json): string
    decreases v, 0
  {
    match v
    case JNull => "None"
    case JBool(b) => if b then "True" else "False"
    case JInt(n) => IntStr(n)
    case JStr(s) => s
    case JArray(xs) =>
      "[" + Join(", ", seq(|xs|, i requires 0 <= i < |xs| => PyRepr(xs[i]))) + "]"
    case JObj(ms) =>
      "{" + Join(", ", seq(|ms|, i requires 0 <= i < |ms| => StrRepr(ms[i].0) + ": " + PyRepr(ms[i].1))) + "}"
  }

  /**
   * `str(v).strip()` is blank only for a string value made of whitespace: every
   * other non-null value prints with a first character that is not whitespace.
   */
  lemma BlankOnlyForBlankStrings(v: Json)
    requires !v.JNull?
    ensures Strip(PyStr(v)) == [] <==> v.JStr? && AllSpace(v.s)
  {
    if v.JStr? {
      StripEmptyIffAllSpace(v.s);
    } else {
      var s := PyStr(v);
      assert s != [] && !IsSpace(s[0]) by {
        match v
        case JBool(b) =>
        case JInt(n) =>
          if n < 0 { assert s[0] == '-'; } else { assert s[0] == Digits(n)[0]; }
        case JArray(xs) => assert s[0] == '[';
        case JObj(ms) => assert s[0] == '{';
      }
      StripEmptyIffAllSpace(s);
    }
  }
}
