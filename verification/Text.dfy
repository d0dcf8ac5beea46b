/** The string operations the modelled code leans on: trimming, decimal numbers, UTF-8. */
module Text {
  import opened Domain
  import opened Sequences

  // ---------------------------------------------------------------- trimming

  /** Unicode `White_Space`, as `char::is_whitespace` tests it. */
  predicate IsWhitespace(c: char) {
    var u := c as int;
    || 0x09 <= u <= 0x0D || u == 0x20 || u == 0x85 || u == 0xA0 || u == 0x1680
    || 0x2000 <= u <= 0x200A || u == 0x2028 || u == 0x2029 || u == 0x202F || u == 0x205F || u == 0x3000
  }

  function TrimStart(s: string): string {
    if s != [] && IsWhitespace(s[0]) then TrimStart(s[1..]) else s
  }

  function TrimEnd(s: string): string {
    if s != [] && IsWhitespace(s[|s| - 1]) then TrimEnd(s[..|s| - 1]) else s
  }

  function Trim(s: string): string {
    TrimEnd(TrimStart(s))
  }

  predicate AllWhitespace(s: string) {
    forall i :: 0 <= i < |s| ==> IsWhitespace(s[i])
  }

  lemma {:induction false} TrimStartSplits(s: string) returns (w: string)
    ensures s == w + TrimStart(s) && AllWhitespace(w)
    ensures TrimStart(s) == [] || !IsWhitespace(TrimStart(s)[0])
  {
    w := "";
    if s != [] && IsWhitespace(s[0]) {
      var v := TrimStartSplits(s[1..]);
      w := [s[0]] + v;
      assert s == [s[0]] + s[1..];
    }
  }

  lemma {:induction false} TrimEndSplits(s: string) returns (w: string)
    ensures s == TrimEnd(s) + w && AllWhitespace(w)
    ensures TrimEnd(s) == [] || !IsWhitespace(TrimEnd(s)[|TrimEnd(s)| - 1])
  {
    w := "";
    var n := |s| - 1;
    if s != [] && IsWhitespace(s[n]) {
      var v := TrimEndSplits(s[..n]);
      w := v + [s[n]];
      assert s == s[..n] + [s[n]];
    }
  }

  /** Trimming cuts a run of whitespace off either end and leaves none there. */
  lemma TrimSplits(s: string) returns (left: string, right: string)
    ensures s == left + Trim(s) + right
    ensures AllWhitespace(left) && AllWhitespace(right)
    ensures Trim(s) != [] ==> !IsWhitespace(Trim(s)[0]) && !IsWhitespace(Trim(s)[|Trim(s)| - 1])
  {
    left := TrimStartSplits(s);
    right := TrimEndSplits(TrimStart(s));
  }

  // ---------------------------------------------------------------- joining and searching

  /** `to_ascii_lowercase` on one character. */
  function LowerAscii(c: char): char {
    if 'A' <= c <= 'Z' then c - 'A' + 'a' else c
  }

  /** `[..].join(sep)`. */
  function Join(xs: seq<string>, sep: string): string {
    if xs == [] then "" else if |xs| == 1 then xs[0] else xs[0] + sep + Join(xs[1..], sep)
  }

  /** `s.contains(needle)`. */
  predicate Contains(s: string, needle: string) {
    exists i :: 0 <= i <= |s| - |needle| && OccursAt(s, needle, i)
  }

  lemma ContainsPart(left: string, needle: string, right: string)
    ensures Contains(left + needle + right, needle)
  {
    var s := left + needle + right;
    assert OccursAt(s, needle, |left|);
  }

  // ---------------------------------------------------------------- decimal numbers

  predicate IsDigit(c: char) { '0' <= c <= '9' }

  predicate AllDigits(s: string) { forall i :: 0 <= i < |s| ==> IsDigit(s[i]) }

  function DigitChar(d: nat): char
    requires d < 10
  {
    '0' + d as char
  }

  /** A number's decimal form, without leading zeros. */
  function Decimal(n: nat): string {
    if n < 10 then [DigitChar(n)] else Decimal(n / 10) + [DigitChar(n % 10)]
  }

  function DigitsValue(s: string): nat
    requires AllDigits(s)
  {
    if s == [] then 0 else 10 * DigitsValue(s[..|s| - 1]) + (s[|s| - 1] - '0') as nat
  }

  lemma {:induction false} DecimalRoundTrip(n: nat)
    ensures Decimal(n) != [] && AllDigits(Decimal(n)) && DigitsValue(Decimal(n)) == n
  {
    if n >= 10 {
      DecimalRoundTrip(n / 10);
      var s := Decimal(n);
      assert s[..|s| - 1] == Decimal(n / 10);
    } else {
      assert Decimal(n)[..0] == [];
    }
  }

  const U32: nat := 0x1_0000_0000
  const U64: nat := 0x1_0000_0000_0000_0000

  /** `str::parse` for an unsigned type holding the values below `bound`. */
  function ParseUnsigned(s: string, bound: nat): Option<nat> {
    var digits := if |s| > 1 && s[0] == '+' then s[1..] else s;
    if digits != [] && AllDigits(digits) && DigitsValue(digits) < bound then Some(DigitsValue(digits)) else None
  }

  lemma {:induction false} ParseDecimal(n: nat, bound: nat)
    requires n < bound
    ensures ParseUnsigned(Decimal(n), bound) == Some(n)
  {
    DecimalRoundTrip(n);
    assert IsDigit(Decimal(n)[0]);
  }

  // ---------------------------------------------------------------- UTF-8

  type Byte = b: int | 0 <= b < 256

  /** The UTF-8 form of one code point. */
  function Utf8(c: char): (r: seq<Byte>)
    ensures r != []
  {
    var n := c as int;
    if n < 0x80 then [n]
    else if n < 0x800 then [0xC0 + n / 64, 0x80 + n % 64]
    else if n < 0x10000 then [0xE0 + n / 4096, 0x80 + n / 64 % 64, 0x80 + n % 64]
    else [0xF0 + n / 262144, 0x80 + n / 4096 % 64, 0x80 + n / 64 % 64, 0x80 + n % 64]
  }

  /** `str::as_bytes`. */
  function Bytes(s: string): seq<Byte> {
    if s == [] then [] else Utf8(s[0]) + Bytes(s[1..])
  }

  /** The code point a UTF-8 sequence starts with. */
  function Lead(b: seq<Byte>): int
    requires b != []
  {
    var x: int := b[0];
    if x < 0x80 || |b| < 2 then x
    else
      var y: int := (b[1] as int) - 0x80;
      if x < 0xE0 || |b| < 3 then (x - 0xC0) * 64 + y
      else
        var z: int := (b[2] as int) - 0x80;
        if x < 0xF0 || |b| < 4 then (x - 0xE0) * 4096 + y * 64 + z
        else
          var w: int := (b[3] as int) - 0x80;
          (x - 0xF0) * 262144 + y * 4096 + z * 64 + w
  }

  lemma LeadOfUtf8(c: char, rest: seq<Byte>)
    ensures Lead(Utf8(c) + rest) == c as int
  {
    var n := c as int;
    assert n / 4096 == n / 64 / 64 && n / 262144 == n / 4096 / 64;
  }

  /** UTF-8 is uniquely decodable. */
  lemma {:induction false} BytesInjective(a: string, b: string)
    requires Bytes(a) == Bytes(b)
    ensures a == b
  {
    if a == [] || b == [] {
    } else {
      LeadOfUtf8(a[0], Bytes(a[1..]));
      LeadOfUtf8(b[0], Bytes(b[1..]));
      assert a[0] == b[0];
      var n := |Utf8(a[0])|;
      assert Bytes(a[1..]) == Bytes(a)[n..] == Bytes(b)[n..] == Bytes(b[1..]);
      BytesInjective(a[1..], b[1..]);
      assert a == [a[0]] + a[1..] && b == [b[0]] + b[1..];
    }
  }
}
