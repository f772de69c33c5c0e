/** Decimal integer literals as the backup script reads and writes them:
    Python 2 `int(name)` on a directory name and `str(index)` for the name
    of a new backup directory. */
module IntLiteral {
  import opened Wrappers

  /** The characters C's `isspace` accepts, which `int()` skips. */
  predicate IsSpace(c: char) {
    c == ' ' || c == '\t' || c == '\n' || c == '\r' || c == '\U{B}' || c == '\U{C}'
  }

  predicate IsDigit(c: char) {
    '0' <= c <= '9'
  }

  /** A non-empty run of ASCII digits. */
  predicate IsDigits(s: string) {
    |s| > 0 && forall i :: 0 <= i < |s| ==> IsDigit(s[i])
  }

  function TrimLeft(s: string): string {
    if s != [] && IsSpace(s[0]) then TrimLeft(s[1..]) else s
  }

  function TrimRight(s: string): string {
    if s != [] && IsSpace(s[|s| - 1]) then TrimRight(s[..|s| - 1]) else s
  }

  /** Trimming on the left keeps a suffix that starts with no white space. */
  lemma {:induction false} TrimLeftSuffix(s: string)
    ensures |TrimLeft(s)| <= |s| && TrimLeft(s) == s[|s| - |TrimLeft(s)|..]
    ensures TrimLeft(s) == "" || !IsSpace(TrimLeft(s)[0])
  {
    if s != [] && IsSpace(s[0]) {
      TrimLeftSuffix(s[1..]);
    }
  }

  /** Trimming on the right keeps a prefix. */
  lemma {:induction false} TrimRightPrefix(s: string)
    ensures |TrimRight(s)| <= |s| && TrimRight(s) == s[..|TrimRight(s)|]
  {
    if s != [] && IsSpace(s[|s| - 1]) {
      TrimRightPrefix(s[..|s| - 1]);
    }
  }

  function DigitValue(c: char): nat
    requires IsDigit(c)
  {
    c as int - '0' as int
  }

  /** The value of a run of digits, most significant first; leading zeros
      do not count. */
  function Value(s: string): nat
    requires forall i :: 0 <= i < |s| ==> IsDigit(s[i])
  {
    if s == [] then 0 else 10 * Value(s[..|s| - 1]) + DigitValue(s[|s| - 1])
  }

  /** `int(s)` in base 10: surrounding white space, an optional sign that
      white space may follow, then at least one digit. `None` is the
      `ValueError` the interpreter raises for anything else. */
  function ParseInt(s: string): Option<int> {
    var t := TrimRight(TrimLeft(s));
    if |t| > 0 && (t[0] == '-' || t[0] == '+') then
      var d := TrimLeft(t[1..]);
      if IsDigits(d) then
        var v: int := Value(d);
        Some(if t[0] == '-' then -v else v)
      else None
    else if IsDigits(t) then Some(Value(t))
    else None
  }

  function DigitChar(d: nat): (c: char)
    requires d < 10
    ensures IsDigit(c) && DigitValue(c) == d
  {
    ('0' as int + d) as char
  }

  /** The decimal digits of `n`, without leading zeros. */
  function NatStr(n: nat): (s: string)
    ensures IsDigits(s)
  {
    if n < 10 then [DigitChar(n)] else NatStr(n / 10) + [DigitChar(n % 10)]
  }

  /** `str(n)` for an integer. */
  function Str(n: int): (s: string)
    ensures |s| > 0
  {
    if n < 0 then "-" + NatStr(-n) else NatStr(n)
  }

  lemma {:induction false} ValueOfNatStr(n: nat)
    ensures Value(NatStr(n)) == n
  {
    var s := NatStr(n);
    if n >= 10 {
      ValueOfNatStr(n / 10);
      assert s[..|s| - 1] == NatStr(n / 10);
    }
  }

  /** White space trimming leaves a string alone when it neither starts
      nor ends with white space. */
  lemma TrimUnspaced(s: string)
    requires |s| > 0 && !IsSpace(s[0]) && !IsSpace(s[|s| - 1])
    ensures TrimLeft(s) == s && TrimRight(s) == s
  {
  }

  lemma DigitsUnspaced(s: string)
    requires IsDigits(s)
    ensures !IsSpace(s[0]) && !IsSpace(s[|s| - 1]) && s[0] != '-' && s[0] != '+'
  {
    assert IsDigit(s[0]) && IsDigit(s[|s| - 1]);
  }

  /** A plain run of digits reads as its value. */
  lemma {:induction false} ParseDigits(s: string)
    requires IsDigits(s)
    ensures ParseInt(s) == Some(Value(s))
  {
    DigitsUnspaced(s);
    TrimUnspaced(s);
  }

  /** `int(str(n)) == n`: every backup name the script writes reads back
      as its index. */
  lemma {:induction false} ParseStr(n: int)
    ensures ParseInt(Str(n)) == Some(n)
  {
    if n < 0 {
      ParseStrNegative(n);
    } else {
      ParseStrNonNegative(n);
    }
  }

  lemma {:induction false} ParseStrNegative(n: int)
    requires n < 0
    ensures ParseInt(Str(n)) == Some(n)
  {
    ParseNegative(-n);
  }

  lemma {:induction false} ParseStrNonNegative(n: int)
    requires n >= 0
    ensures ParseInt(Str(n)) == Some(n)
  {
    ValueOfNatStr(n);
    ParseDigits(NatStr(n));
  }

  lemma {:induction false} ParseNegative(m: nat)
    requires m > 0
    ensures ParseInt("-" + NatStr(m)) == Some(-(m as int))
  {
    var digits := NatStr(m);
    var s := "-" + digits;
    ValueOfNatStr(m);
    DigitsUnspaced(digits);
    TrimUnspaced(digits);
    assert s[|s| - 1] == digits[|digits| - 1];
    TrimUnspaced(s);
    assert s[1..] == digits;
  }

  /** Distinct indexes have distinct names. */
  lemma StrInjective(a: int, b: int)
    ensures Str(a) == Str(b) <==> a == b
  {
    if Str(a) == Str(b) {
      ParseStr(a);
      ParseStr(b);
    }
  }

  /** A name with no digit at all, such as "lost+found", makes `int()`
      raise. */
  lemma {:induction false} NoDigitNoInt(s: string)
    requires forall i :: 0 <= i < |s| ==> !IsDigit(s[i])
    ensures ParseInt(s) == None
  {
    var l := TrimLeft(s);
    var t := TrimRight(l);
    TrimLeftSuffix(s);
    TrimRightPrefix(l);
    assert forall i :: 0 <= i < |l| ==> l[i] == s[|s| - |l| + i];
    assert forall i :: 0 <= i < |t| ==> t[i] == l[i];
    if |t| > 0 && (t[0] == '-' || t[0] == '+') {
      var d := TrimLeft(t[1..]);
      TrimLeftSuffix(t[1..]);
      if |d| > 0 {
        assert d[0] == t[1..][|t[1..]| - |d|];
        assert !IsDigit(d[0]);
      }
    } else if |t| > 0 {
      assert !IsDigit(t[0]);
    }
  }
}
