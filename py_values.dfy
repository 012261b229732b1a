/**
 * Python-side values of the collector (app.py): parsed JSON values with
 * Python's truthiness, `str()`, `int()` and `str.strip()`.
 */
module PyValues {
  import opened Wrappers

  /**
   * A JSON value after `json.loads`. A float and a container (list or dict
   * nested inside a record) carry the text that Python's `str()` gives them.
   */
  datatype Value =
    | Null
    | Bool(b: bool)
    | Int(i: int)
    | Float(f: real, text: string)
    | Str(s: string)
    | Container(size: nat, text: string)

  /** A JSON object, as a Python dict. */
  type Record = map<string, Value>

  /** What `json.loads` (or `request.get_json(silent=True)`) gives for one document. */
  datatype JsonDoc = Unparseable | NonObject | Object(rec: Record)

  /** The faults a handler can end in: HTTP 400 "invalid json", or an uncaught exception (HTTP 500). */
  datatype Fault = InvalidJson | InternalError

  /** Python truthiness. */
  predicate Truthy(v: Value)
  {
    match v
    case Null => false
    case Bool(b) => b
    case Int(i) => i != 0
    case Float(f, _) => f != 0.0
    case Str(s) => s != ""
    case Container(n, _) => n != 0
  }

  /** `rec.get(k) or default`. */
  function GetOr(rec: Record, k: string, default: Value): (v: Value)
    ensures k in rec && Truthy(rec[k]) ==> v == rec[k]
    ensures !(k in rec && Truthy(rec[k])) ==> v == default
    ensures Truthy(default) ==> Truthy(v)
  {
    if k in rec && Truthy(rec[k]) then rec[k] else default
  }

  // ---------------------------------------------------------------------
  // Whitespace and str.strip()

  /** The ASCII characters for which Python's `str.isspace()` holds. */
  predicate IsSpace(c: char)
  {
    c == ' ' || c == '\t' || c == '\n' || c == '\r' || c == '\U{B}' || c == '\U{C}'
    || ('\U{1C}' <= c <= '\U{1F}')
  }

  /** `s.lstrip()`: drops leading whitespace. */
  function TrimLeft(s: string): (r: string)
    ensures |r| <= |s|
    ensures r == [] || !IsSpace(r[0])
  {
    if s != [] && IsSpace(s[0]) then TrimLeft(s[1..]) else s
  }

  /** `s.rstrip()`: drops trailing whitespace. */
  function TrimRight(s: string): (r: string)
    ensures |r| <= |s|
    ensures r == [] || !IsSpace(r[|r| - 1])
  {
    if s != [] && IsSpace(s[|s| - 1]) then TrimRight(s[..|s| - 1]) else s
  }

  /** Every character is whitespace. */
  predicate Blank(s: string)
  {
    forall k :: 0 <= k < |s| ==> IsSpace(s[k])
  }

  /** `s.strip()`: what is left has no whitespace at either end, and it is empty exactly when `s` is blank. */
  function Strip(s: string): (r: string)
    ensures |r| <= |s|
    ensures r == [] || (!IsSpace(r[0]) && !IsSpace(r[|r| - 1]))
    ensures r == [] <==> Blank(s)
  {
    var l := TrimLeft(s);
    var r := TrimRight(l);
    TrimLeftCutsSpace(s);
    TrimRightCutsSpace(l);
    assert r != [] ==> r[0] == l[0] == s[|s| - |l|];
    BlankWhenTrimmedAway(s);
    r
  }

  /** `lstrip` leaves a suffix of `s` and cuts only whitespace. */
  lemma {:induction false} TrimLeftCutsSpace(s: string)
    ensures TrimLeft(s) == s[|s| - |TrimLeft(s)|..]
    ensures forall k :: 0 <= k < |s| - |TrimLeft(s)| ==> IsSpace(s[k])
  {
    if s != [] && IsSpace(s[0]) {
      TrimLeftCutsSpace(s[1..]);
      assert TrimLeft(s) == TrimLeft(s[1..]);
      assert s[1..][|s| - 1 - |TrimLeft(s)|..] == s[|s| - |TrimLeft(s)|..];
      forall k | 0 <= k < |s| - |TrimLeft(s)| ensures IsSpace(s[k]) {
        if k > 0 {
          assert s[k] == s[1..][k - 1];
        }
      }
    }
  }

  /** When nothing is left of `s` after both trims, all of `s` was whitespace. */
  lemma {:induction false} BlankWhenTrimmedAway(s: string)
    ensures TrimRight(TrimLeft(s)) == [] ==> Blank(s)
  {
    var l := TrimLeft(s);
    if TrimRight(l) == [] {
      TrimLeftCutsSpace(s);
      TrimRightCutsSpace(l);
      assert l == [];
    }
  }

  /** `rstrip` leaves a prefix of `s` and cuts only whitespace. */
  lemma {:induction false} TrimRightCutsSpace(s: string)
    ensures TrimRight(s) == s[..|TrimRight(s)|]
    ensures forall k :: |TrimRight(s)| <= k < |s| ==> IsSpace(s[k])
  {
    if s != [] && IsSpace(s[|s| - 1]) {
      TrimRightCutsSpace(s[..|s| - 1]);
      assert TrimRight(s) == TrimRight(s[..|s| - 1]);
      assert s[..|s| - 1][..|TrimRight(s)|] == s[..|TrimRight(s)|];
      forall k | |TrimRight(s)| <= k < |s| ensures IsSpace(s[k]) {
        if k < |s| - 1 {
          assert s[k] == s[..|s| - 1][k];
        }
      }
    }
  }

  /** A strip is a slice `s[i..j]` of the input that cuts only whitespace. */
  lemma {:induction false} StripIsSlice(s: string) returns (i: nat, j: nat)
    ensures i <= j <= |s| && Strip(s) == s[i..j]
    ensures forall k :: 0 <= k < i ==> IsSpace(s[k])
    ensures forall k :: j <= k < |s| ==> IsSpace(s[k])
  {
    var l := TrimLeft(s);
    TrimLeftCutsSpace(s);
    TrimRightCutsSpace(l);
    i := |s| - |l|;
    j := i + |TrimRight(l)|;
    var r := TrimRight(l);
    assert Strip(s) == r;
    assert l == s[i..];
    assert r == l[..|r|];
    assert s[i..][..|r|] == s[i..j];
    forall k | j <= k < |s| ensures IsSpace(s[k]) {
      assert s[k] == l[k - i];
    }
  }

  /** A string with no whitespace at either end is its own strip. */
  lemma {:induction false} StripNoSpace(s: string)
    requires s == [] || (!IsSpace(s[0]) && !IsSpace(s[|s| - 1]))
    ensures Strip(s) == s
  {
  }

  /** Stripping twice is stripping once. */
  lemma {:induction false} StripIdempotent(s: string)
    ensures Strip(Strip(s)) == Strip(s)
  {
    StripNoSpace(Strip(s));
  }

  // ---------------------------------------------------------------------
  // Decimal digits: int(<str>) and str(<int>)

  predicate IsDigit(c: char) { '0' <= c <= '9' }

  predicate AllDigits(s: string) { forall k :: 0 <= k < |s| ==> IsDigit(s[k]) }

  function DigitValue(c: char): nat requires IsDigit(c) { (c - '0') as nat }

  function DigitChar(d: nat): (c: char)
    requires d < 10
    ensures IsDigit(c) && DigitValue(c) == d
  {
    ('0' as int + d) as char
  }

  /** The number a run of decimal digits denotes (most significant first). */
  function DigitsValue(s: string): nat
    requires AllDigits(s)
  {
    if s == [] then 0 else DigitsValue(s[..|s| - 1]) * 10 + DigitValue(s[|s| - 1])
  }

  /** The shortest decimal digits of `n`. */
  function NatDigits(n: nat): (s: string)
    ensures |s| > 0 && AllDigits(s)
  {
    if n < 10 then [DigitChar(n)] else NatDigits(n / 10) + [DigitChar(n % 10)]
  }

  /** `str(i)` for a Python int. */
  function DecimalString(i: int): (s: string)
  {
    if i < 0 then "-" + NatDigits(-i) else NatDigits(i)
  }

  /**
   * The information separators `\x1c`-`\x1f`: `str.strip()` drops them, but
   * `int()` treats them as ordinary characters.
   */
  predicate IsSeparator(c: char)
  {
    '\U{1C}' <= c <= '\U{1F}'
  }

  /**
   * `int(s)` for a string: optional surrounding whitespace (` \t\n\r\v\f`),
   * an optional sign, then decimal digits; None where Python raises
   * ValueError. A sign and digits contain no separator, so a separator
   * anywhere in `s` is one `int()` would have to skip, and it refuses to.
   */
  function ParseInt(s: string): (r: Option<int>)
    ensures r.Some? ==> forall k :: 0 <= k < |s| ==> !IsSeparator(s[k])
  {
    if exists k :: 0 <= k < |s| && IsSeparator(s[k]) then None
    else ParseSigned(Strip(s))
  }

  /** A separator before the digits makes `int()` raise, where `strip()` would have removed it. */
  lemma {:induction false} SeparatorRefused(s: string)
    requires s == "\U{1C}7"
    ensures ParseInt(s) == None
    ensures Strip(s) == "7"
  {
    assert IsSeparator(s[0]);
    assert TrimLeft(s) == "7";
  }

  /** `int()` skips the whitespace it accepts at both ends. */
  lemma {:induction false} SurroundingSpaceSkipped(s: string)
    requires s == " \t7\r\n"
    ensures ParseInt(s) == Some(7)
  {
    var l := "7\r\n";
    assert TrimLeft(s) == l by {
      assert s[1..] == "\t7\r\n" && s[1..][1..] == l;
      assert TrimLeft(s) == TrimLeft(s[1..]) == TrimLeft(l);
    }
    assert TrimRight(l) == "7" by {
      assert l[..|l| - 1] == "7\r" && l[..|l| - 1][..1] == "7";
      assert TrimRight(l) == TrimRight("7\r") == TrimRight("7");
    }
    assert Strip(s) == "7";
    assert forall k :: 0 <= k < |s| ==> !IsSeparator(s[k]) by {
      forall k | 0 <= k < |s| ensures !IsSeparator(s[k]) {
        assert s[k] in s;
      }
    }
    assert ParseSigned("7") == Some(7) by {
      ParseSignedDigits("7");
    }
  }

  /** An optional sign and then a run of digits. */
  function ParseSigned(t: string): Option<int>
  {
    if t == [] then None
    else if t[0] == '-' then
      match ParseUnsignedDigits(t[1..])
      case None => None
      case Some(n) => Some(-n)
    else if t[0] == '+' then ParseUnsignedDigits(t[1..])
    else ParseUnsignedDigits(t)
  }

  /**
   * The most digits `int()` and `str()` convert between text and an int
   * (CPython's default `sys.int_info.default_max_str_digits`); leading zeros count.
   */
  const MaxStrDigits: nat := 4300

  /** A non-empty run of at most `MaxStrDigits` digits; a longer run makes `int()` raise ValueError. */
  function ParseUnsignedDigits(body: string): Option<int>
  {
    if body == [] || !AllDigits(body) || |body| > MaxStrDigits then None
    else Some(DigitsValue(body) as int)
  }

  /** More than 4300 digits are refused, even where every one of them is a digit. */
  lemma {:induction false} TooManyDigitsRefused(s: string)
    requires AllDigits(s) && |s| > MaxStrDigits
    ensures ParseInt(s) == None
  {
    assert IsDigit(s[0]) && IsDigit(s[|s| - 1]);
    StripNoSpace(s);
    assert forall k :: 0 <= k < |s| ==> !IsSeparator(s[k]);
    assert ParseSigned(s) == ParseUnsignedDigits(s);
  }

  lemma {:induction false} DigitsRoundTrip(n: nat)
    ensures DigitsValue(NatDigits(n)) == n
  {
    if n >= 10 {
      var s := NatDigits(n);
      assert s[..|s| - 1] == NatDigits(n / 10);
      DigitsRoundTrip(n / 10);
    }
  }

  /** A run of digits, with or without a minus sign, has no whitespace at either end. */
  lemma {:induction false} DecimalStringNoSpace(i: int)
    ensures Strip(DecimalString(i)) == DecimalString(i)
  {
    var s := DecimalString(i);
    var d := NatDigits(if i < 0 then -i else i);
    assert IsDigit(d[0]) && IsDigit(d[|d| - 1]);
    assert s[|s| - 1] == d[|d| - 1];
    assert s[0] == '-' || s[0] == d[0];
    StripNoSpace(s);
  }

  /** A run of digits without a sign reads as its value. */
  lemma {:induction false} ParseSignedDigits(d: string)
    requires d != [] && AllDigits(d) && |d| <= MaxStrDigits
    ensures ParseSigned(d) == Some(DigitsValue(d) as int)
  {
    assert IsDigit(d[0]);
  }

  /**
   * `int(str(i)) == i`: the decimal text of an int parses back to it, for every
   * int `str()` converts (at most 4300 digits).
   */
  lemma {:induction false} ParseDecimalRoundTrip(i: int)
    requires |NatDigits(if i < 0 then -i else i)| <= MaxStrDigits
    ensures ParseInt(DecimalString(i)) == Some(i)
  {
    DecimalStringNoSpace(i);
    var s := DecimalString(i);
    var d := NatDigits(if i < 0 then -i else i);
    forall k | 0 <= k < |s| ensures !IsSeparator(s[k]) {
      if i < 0 && k > 0 {
        assert s[k] == d[k - 1];
      }
    }
    if i < 0 {
      var d := NatDigits(-i);
      assert s[1..] == d;
      DigitsRoundTrip(-i);
      assert ParseUnsignedDigits(s[1..]) == Some(-i);
    } else {
      ParseSignedDigits(s);
      DigitsRoundTrip(i);
    }
  }

  /** Python's `int(x)` on a JSON value; None where it raises (None, a container, text that is not an integer). */
  function IntOf(v: Value): (r: Option<int>)
    ensures v.Int? ==> r == Some(v.i)
    ensures v.Null? || v.Container? ==> r == None
  {
    match v
    case Null => None
    case Bool(b) => Some(if b then 1 else 0)
    case Int(i) => Some(i)
    case Float(f, _) => Some(if f >= 0.0 then f.Floor else -((-f).Floor))
    case Str(s) => ParseInt(s)
    case Container(_, _) => None
  }

  /** `int()` of a float truncates toward zero. */
  lemma {:induction false} IntOfFloatTruncates(f: real, text: string)
    ensures IntOf(Float(f, text)).Some?
    ensures var n := IntOf(Float(f, text)).value;
      (n as real) * (if f >= 0.0 then 1.0 else -1.0) <= f * (if f >= 0.0 then 1.0 else -1.0)
      < (n as real) * (if f >= 0.0 then 1.0 else -1.0) + 1.0
  {
  }

  /** Python's `str(x)` on a JSON value. */
  function PyStr(v: Value): (s: string)
    ensures v.Str? ==> s == v.s
  {
    match v
    case Null => "None"
    case Bool(b) => if b then "True" else "False"
    case Int(i) => DecimalString(i)
    case Float(_, text) => text
    case Str(s) => s
    case Container(_, text) => text
  }
}
