/** The JavaScript built-ins the importer leans on, as far as the model needs
    them: option and error values, Array.prototype.join, String.prototype.split
    with a one-character separator, parseInt with no radix, and the decimal
    text of an integer. */
module Js {

  datatype Option<T> = None | Some(value: T)

  /** The outcome of a call that may throw: a thrown Error keeps only its message. */
  datatype Result<T> = Ok(value: T) | Err(message: string)

  /** One key/value entry of a string record, a query string, a form body or a
      header list, in insertion order. */
  datatype Entry = Entry(key: string, value: string)

  function ToSeq<T>(o: Option<T>): (s: seq<T>)
    ensures |s| <= 1
    ensures o.None? ==> s == []
    ensures o.Some? ==> s == [o.value]
  {
    match o
    case None => []
    case Some(v) => [v]
  }

  /** JavaScript truthiness of a value that is either null or a string. */
  predicate TruthyText(v: Option<string>)
  {
    v.Some? && v.value != ""
  }

  /** The text a template literal `${v}` gives for null or a string. */
  function Interpolate(v: Option<string>): string
  {
    match v
    case None => "null"
    case Some(s) => s
  }

  /** Index of the first element that satisfies p, or |s| when there is none. */
  function FirstWhere<T>(s: seq<T>, p: T -> bool): (k: nat)
    ensures k <= |s|
    ensures forall i :: 0 <= i < k ==> !p(s[i])
    ensures k < |s| ==> p(s[k])
  {
    if |s| == 0 || p(s[0]) then 0 else 1 + FirstWhere(s[1..], p)
  }

  /** Extending a sequence past its first hit does not move the first hit. */
  lemma FirstWhereExtend<T>(s: seq<T>, t: seq<T>, p: T -> bool)
    requires FirstWhere(s, p) < |s|
    ensures FirstWhere(s + t, p) == FirstWhere(s, p)
  {
    var k := FirstWhere(s, p);
    assert (s + t)[k] == s[k];
  }

  // ---------------------------------------------------------------------------
  // Array.prototype.join and String.prototype.split

  /** parts.join(sep) */
  function Join(parts: seq<string>, sep: string): string
  {
    if |parts| == 0 then ""
    else if |parts| == 1 then parts[0]
    else parts[0] + sep + Join(parts[1..], sep)
  }

  /** s.split(sep) for a one-character separator: the pieces between the
      separators, so there is always one piece more than separators. */
  function Split(s: string, sep: char): (r: seq<string>)
    ensures |r| >= 1
  {
    if |s| == 0 then [""]
    else
      var rest := Split(s[1..], sep);
      if s[0] == sep then [""] + rest else [[s[0]] + rest[0]] + rest[1..]
  }

  lemma {:induction false} SplitWithoutSeparator(p: string, sep: char)
    requires sep !in p
    ensures Split(p, sep) == [p]
  {
    if |p| > 0 {
      SplitWithoutSeparator(p[1..], sep);
      assert [p[0]] + p[1..] == p;
    }
  }

  lemma {:induction false} SplitAfterPiece(p: string, t: string, sep: char)
    requires sep !in p
    ensures Split(p + [sep] + t, sep) == [p] + Split(t, sep)
  {
    if |p| == 0 {
      assert (p + [sep] + t)[1..] == t;
    } else {
      assert (p + [sep] + t)[1..] == p[1..] + [sep] + t;
      SplitAfterPiece(p[1..], t, sep);
      assert [p[0]] + p[1..] == p;
    }
  }

  /** Splitting a join on the separator's first character gives the pieces
      back, each later one behind the rest of the separator, as long as that
      character occurs neither in a piece nor in the rest of the separator. */
  lemma {:induction false} SplitJoin(parts: seq<string>, sep: char, tail: string)
    requires |parts| >= 1
    requires forall i :: 0 <= i < |parts| ==> sep !in parts[i]
    requires sep !in tail
    ensures Split(Join(parts, [sep] + tail), sep)
         == [parts[0]] + seq(|parts| - 1, i requires 0 <= i < |parts| - 1 => tail + parts[i + 1])
  {
    if |parts| == 1 {
      SplitWithoutSeparator(parts[0], sep);
    } else {
      var rest := parts[1..];
      SplitJoin(rest, sep, tail);
      var j := Join(rest, [sep] + tail);
      assert Join(parts, [sep] + tail) == parts[0] + [sep] + (tail + j);
      SplitAfterPiece(parts[0], tail + j, sep);
      SplitPrefix(tail, j, sep);
    }
  }

  /** A separator-free head only lengthens the first piece. */
  lemma {:induction false} SplitPrefix(h: string, t: string, sep: char)
    requires sep !in h
    ensures Split(h + t, sep) == [h + Split(t, sep)[0]] + Split(t, sep)[1..]
  {
    if |h| > 0 {
      assert (h + t)[1..] == h[1..] + t;
      SplitPrefix(h[1..], t, sep);
      assert [h[0]] + (h[1..] + Split(t, sep)[0]) == h + Split(t, sep)[0];
    } else {
      var r := Split(t, sep);
      assert h + t == t && h + r[0] == r[0];
      assert r == [r[0]] + r[1..];
    }
  }

  // ---------------------------------------------------------------------------
  // parseInt and the decimal text of an integer

  /** StrWhiteSpaceChar of ECMAScript: WhiteSpace, which takes in every
      space separator (category Zs), and LineTerminator. */
  predicate IsStrWhiteSpace(c: char)
  {
    var n := c as int;
    n == 0x09 || n == 0x0A || n == 0x0B || n == 0x0C || n == 0x0D || n == 0x20
    || n == 0xA0 || n == 0x1680 || (0x2000 <= n <= 0x200A) || n == 0x2028
    || n == 0x2029 || n == 0x202F || n == 0x205F || n == 0x3000 || n == 0xFEFF
  }

  /** s without its leading white space. */
  function TrimStart(s: string): (r: string)
    ensures |r| <= |s| && r == s[|s| - |r|..]
    ensures forall i :: 0 <= i < |s| - |r| ==> IsStrWhiteSpace(s[i])
    ensures |r| == 0 || !IsStrWhiteSpace(r[0])
  {
    if |s| > 0 && IsStrWhiteSpace(s[0]) then TrimStart(s[1..]) else s
  }

  /** The value of c as a digit of any radix up to 36; 36 when c is no digit. */
  function DigitValue(c: char): (d: nat)
    ensures d <= 36
    ensures d < 10 <==> '0' <= c <= '9'
  {
    if '0' <= c <= '9' then c as int - '0' as int
    else if 'a' <= c <= 'z' then c as int - 'a' as int + 10
    else if 'A' <= c <= 'Z' then c as int - 'A' as int + 10
    else 36
  }

  /** Length of the longest prefix of s made of digits of the radix. */
  function DigitRun(s: string, radix: nat): (n: nat)
    ensures n <= |s|
    ensures forall i :: 0 <= i < n ==> DigitValue(s[i]) < radix
    ensures n < |s| ==> DigitValue(s[n]) >= radix
  {
    if |s| > 0 && DigitValue(s[0]) < radix then 1 + DigitRun(s[1..], radix) else 0
  }

  /** The number the digits of s denote in the radix, most significant first. */
  function DigitsValue(s: string, radix: nat): nat
  {
    if |s| == 0 then 0 else DigitsValue(s[..|s| - 1], radix) * radix + DigitValue(s[|s| - 1])
  }

  /** parseInt(s) with no radix: skip white space, take an optional sign and an
      optional 0x prefix (which selects radix 16), then the longest run of
      digits. None stands for NaN, the answer when that run is empty. */
  function ParseInt(s: string): Option<int>
  {
    var t := TrimStart(s);
    if |t| > 0 && t[0] == '-' then
      match ParseUnsigned(t[1..])
      case None => None
      case Some(v) => Some(-v)
    else if |t| > 0 && t[0] == '+' then ParseUnsigned(t[1..])
    else ParseUnsigned(t)
  }

  /** The digits after the sign: a 0x or 0X prefix selects radix 16. */
  function ParseUnsigned(u: string): Option<int>
  {
    if |u| >= 2 && u[0] == '0' && (u[1] == 'x' || u[1] == 'X') then ParseDigits(u[2..], 16)
    else ParseDigits(u, 10)
  }

  /** The value of the longest run of radix digits that starts w; None when it is empty. */
  function ParseDigits(w: string, radix: nat): Option<int>
  {
    var n := DigitRun(w, radix);
    if n == 0 then None else Some(DigitsValue(w[..n], radix))
  }

  function DecimalDigit(d: nat): (c: char)
    requires d < 10
    ensures DigitValue(c) == d
  {
    ('0' as int + d) as char
  }

  /** String(n) for a natural number. */
  function NatToString(n: nat): (r: string)
    ensures |r| >= 1
    ensures forall i :: 0 <= i < |r| ==> '0' <= r[i] <= '9'
  {
    if n < 10 then [DecimalDigit(n)] else NatToString(n / 10) + [DecimalDigit(n % 10)]
  }

  /** String(n) for an integer. */
  function IntToString(n: int): (r: string)
    ensures |r| >= 1
  {
    if n < 0 then "-" + NatToString(-n) else NatToString(n)
  }

  lemma {:induction false} NatToStringValue(n: nat)
    ensures DigitsValue(NatToString(n), 10) == n
  {
    if n >= 10 {
      NatToStringValue(n / 10);
      var r := NatToString(n);
      assert r[..|r| - 1] == NatToString(n / 10);
    }
  }

  /** The unsigned part of parseInt on a run of decimal digits. */
  lemma ParseDecimal(d: string)
    requires |d| >= 1 && forall i :: 0 <= i < |d| ==> '0' <= d[i] <= '9'
    ensures ParseUnsigned(d) == Some(DigitsValue(d, 10))
  {
    assert DigitRun(d, 10) == |d|;
    assert d[..|d|] == d;
  }

  /** Text that starts with neither white space nor a sign goes to ParseUnsigned whole. */
  lemma ParseUnsignedText(d: string)
    requires |d| >= 1 && '0' <= d[0] <= '9'
    ensures ParseInt(d) == ParseUnsigned(d)
  {
    assert !IsStrWhiteSpace(d[0]);
    assert TrimStart(d) == d;
  }

  /** A leading minus sign negates what follows. */
  lemma ParseMinus(d: string)
    requires |d| >= 1 && '0' <= d[0] <= '9'
    ensures ParseInt("-" + d) == match ParseUnsigned(d) case None => None case Some(v) => Some(-v)
  {
    var m := "-" + d;
    assert !IsStrWhiteSpace(m[0]);
    assert TrimStart(m) == m;
    assert m[1..] == d;
  }

  /** parseInt reads back the decimal text of every integer. */
  lemma ParseIntToString(n: int)
    ensures ParseInt(IntToString(n)) == Some(n)
  {
    var m := if n < 0 then -n else n;
    var d := NatToString(m);
    NatToStringValue(m);
    ParseDecimal(d);
    if n < 0 {
      ParseMinus(d);
    } else {
      ParseUnsignedText(d);
    }
  }
}
