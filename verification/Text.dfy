/**
  Characters and strings as the agent's Rust code sees them: ASCII case folding,
  trimming, UTF-8 lengths, lexicographic order, and decimal numbers.
 */
module Text {
  import opened Prelude

  const CR := '\r'
  const LF := '\n'
  const CRLF: string := "\r\n"

  // ---------- case ----------

  function LowerChar(c: char): char {
    if 'A' <= c <= 'Z' then (c as int + 32) as char else c
  }

  /** `str::to_lowercase` on ASCII text. */
  function Lower(s: string): (r: string)
    ensures |r| == |s|
    ensures forall i | 0 <= i < |s| :: r[i] == LowerChar(s[i])
  {
    seq(|s|, i requires 0 <= i < |s| => LowerChar(s[i]))
  }

  lemma LowerIdempotent(s: string)
    ensures Lower(Lower(s)) == Lower(s)
  {
    assert forall c: char :: LowerChar(LowerChar(c)) == LowerChar(c);
  }

  // ---------- white space ----------

  /** `char::is_whitespace` */
  predicate IsSpace(c: char) {
    var n := c as int;
    || 9 <= n <= 13 || n == 32 || n == 0x85 || n == 0xA0 || n == 0x1680 || 0x2000 <= n <= 0x200A
    || n == 0x2028 || n == 0x2029 || n == 0x202F || n == 0x205F || n == 0x3000
  }

  predicate NoSpace(s: string) {
    forall i | 0 <= i < |s| :: !IsSpace(s[i])
  }

  function TrimStart(s: string): string {
    if s != "" && IsSpace(s[0]) then TrimStart(s[1..]) else s
  }

  function TrimEnd(s: string): string {
    if s != "" && IsSpace(s[|s| - 1]) then TrimEnd(s[..|s| - 1]) else s
  }

  /** `str::trim` */
  function Trim(s: string): string {
    TrimEnd(TrimStart(s))
  }

  /** Neither end of `s` is white space. */
  predicate Trimmed(s: string) {
    s == "" || (!IsSpace(s[0]) && !IsSpace(s[|s| - 1]))
  }

  lemma {:induction false} TrimEndShape(s: string)
    ensures TrimEnd(s) <= s
    ensures TrimEnd(s) == "" || !IsSpace(TrimEnd(s)[|TrimEnd(s)| - 1])
  {
    if s != "" && IsSpace(s[|s| - 1]) { TrimEndShape(s[..|s| - 1]); }
  }

  lemma {:induction false} TrimStartShape(s: string)
    ensures |TrimStart(s)| <= |s|
    ensures TrimStart(s) == "" || !IsSpace(TrimStart(s)[0])
    ensures forall c | c in TrimStart(s) :: c in s
  {
    if s != "" && IsSpace(s[0]) { TrimStartShape(s[1..]); }
  }

  /** Trimming removes the white space at both ends, adds nothing, and trimming again changes nothing. */
  lemma TrimIsTrimmed(s: string)
    ensures Trimmed(Trim(s))
    ensures forall c | c in Trim(s) :: c in s
    ensures Trim(Trim(s)) == Trim(s)
  {
    TrimStartShape(s);
    TrimEndShape(TrimStart(s));
    TrimOfTrimmed(Trim(s));
  }

  lemma TrimOfTrimmed(s: string)
    requires Trimmed(s)
    ensures Trim(s) == s
    ensures Trim(" " + s) == s
  {
    assert (" " + s)[1..] == s;
    assert TrimStart(" " + s) == TrimStart(s);
  }

  // ---------- UTF-8 ----------

  function CharBytes(c: char): nat {
    if c as int < 0x80 then 1 else if c as int < 0x800 then 2 else if c as int < 0x1_0000 then 3 else 4
  }

  /** `str::len`: the number of bytes of the UTF-8 encoding. */
  function ByteLen(s: string): nat {
    if s == "" then 0 else CharBytes(s[0]) + ByteLen(s[1..])
  }

  type Byte = n: int | 0 <= n < 256

  function EncodeChar(c: char): (b: seq<Byte>)
    ensures |b| == CharBytes(c)
  {
    var n := c as int;
    if n < 0x80 then [n]
    else if n < 0x800 then [0xC0 + n / 64, 0x80 + n % 64]
    else if n < 0x1_0000 then [0xE0 + n / 4096, 0x80 + n / 64 % 64, 0x80 + n % 64]
    else [0xF0 + n / 262144, 0x80 + n / 4096 % 64, 0x80 + n / 64 % 64, 0x80 + n % 64]
  }

  /** `str::as_bytes` */
  function Encode(s: string): (b: seq<Byte>)
    ensures |b| == ByteLen(s)
  {
    if s == "" then [] else EncodeChar(s[0]) + Encode(s[1..])
  }

  /** `String::from_utf8`: some text with these bytes, if there is one. */
  ghost function FromUtf8(b: seq<Byte>): (r: Option<string>)
    ensures r.Some? ==> Encode(r.value) == b
    ensures r.None? ==> forall s :: Encode(s) != b
  {
    if s: string :| Encode(s) == b then Some(s) else None
  }

  predicate IsAscii(s: string) {
    forall i | 0 <= i < |s| :: s[i] as int < 0x80
  }

  lemma {:induction false} ByteLenConcat(a: string, b: string)
    ensures ByteLen(a + b) == ByteLen(a) + ByteLen(b)
  {
    if a == "" {
      assert a + b == b;
    } else {
      assert (a + b)[1..] == a[1..] + b;
      ByteLenConcat(a[1..], b);
    }
  }

  /** Byte length and character count agree exactly on ASCII text. */
  lemma {:induction false} ByteLenAscii(s: string)
    ensures |s| <= ByteLen(s)
    ensures ByteLen(s) == |s| <==> IsAscii(s)
  {
    if s != "" {
      ByteLenAscii(s[1..]);
      if IsAscii(s) {
        assert IsAscii(s[1..]);
      } else if s[0] as int < 0x80 {
        var i :| 0 <= i < |s| && s[i] as int >= 0x80;
        assert s[1..][i - 1] == s[i];
      }
    }
  }

  /** Bytes beyond one per character. */
  function Excess(s: string): (n: nat)
    ensures n == 0 <==> IsAscii(s)
  {
    ByteLenAscii(s);
    ByteLen(s) - |s|
  }

  // ---------- searching ----------

  /** Index of the first occurrence of `pat`, or `|s|` when there is none. */
  function FirstAt(s: string, pat: string): (k: nat)
    requires pat != ""
    ensures k <= |s|
    ensures k < |s| ==> pat <= s[k..]
    ensures forall i | 0 <= i < k :: !(pat <= s[i..])
  {
    if s == "" then 0
    else if pat <= s then assert s[0..] == s; 0
    else
      var k := 1 + FirstAt(s[1..], pat);
      assert forall i | 1 <= i <= |s| :: s[i..] == s[1..][i - 1..];
      assert s[0..] == s;
      k
  }

  /** Index of the first `c`, or `|s|` when there is none. */
  function FirstChar(s: string, c: char): (k: nat)
    ensures k <= |s|
    ensures k < |s| ==> s[k] == c
    ensures forall i | 0 <= i < k :: s[i] != c
  {
    if s == "" || s[0] == c then 0 else 1 + FirstChar(s[1..], c)
  }

  /** `str::find`: the *byte* offset of the first occurrence. */
  function Find(s: string, pat: string): Option<nat>
    requires pat != ""
  {
    var k := FirstAt(s, pat);
    if k < |s| then Some(ByteLen(s[..k])) else None
  }

  /** `chars().take(n)` */
  function TakeChars(s: string, n: nat): string {
    if n <= |s| then s[..n] else s
  }

  /** `chars().skip(n)` */
  function SkipChars(s: string, n: nat): string {
    if n <= |s| then s[n..] else ""
  }

  // ---------- lexicographic order ----------

  /** Strict order of `String`; byte order and code point order agree on UTF-8. */
  predicate Before(a: string, b: string) {
    b != "" && (a == "" || a[0] < b[0] || (a[0] == b[0] && Before(a[1..], b[1..])))
  }

  lemma {:induction false} BeforeTransitive(a: string, b: string, c: string)
    requires Before(a, b) && Before(b, c)
    ensures Before(a, c)
  {
    if a != "" && a[0] == b[0] == c[0] { BeforeTransitive(a[1..], b[1..], c[1..]); }
  }

  lemma {:induction false} BeforeTotal(a: string, b: string)
    ensures a == b || Before(a, b) || Before(b, a)
    ensures !(Before(a, b) && Before(b, a))
    ensures !Before(a, a)
  {
    if a != "" {
      if b != "" {
        BeforeTotal(a[1..], b[1..]);
        if a[0] == b[0] && a[1..] == b[1..] {
          assert a == [a[0]] + a[1..];
          assert b == [b[0]] + b[1..];
        }
      }
      BeforeTotal(a[1..], a[1..]);
    }
  }

  /** One text comes before another exactly when it is a proper prefix, or has the lower character where they
      first differ. */
  lemma {:induction false} BeforeExactly(a: string, b: string, k: nat)
    requires k <= |a| && k <= |b| && a[..k] == b[..k] && (k == |a| || k == |b| || a[k] != b[k])
    ensures Before(a, b) <==> k < |b| && (k == |a| || a[k] < b[k])
  {
    if k > 0 {
      assert a[0] == a[..k][0] == b[..k][0] == b[0];
      assert a[1..][..k - 1] == a[..k][1..] && b[1..][..k - 1] == b[..k][1..];
      BeforeExactly(a[1..], b[1..], k - 1);
    }
  }

  predicate Ascending(s: seq<string>) {
    forall i, j | 0 <= i < j < |s| :: Before(s[i], s[j])
  }

  predicate SameElements<T(==)>(a: seq<T>, b: seq<T>) {
    (forall x | x in a :: x in b) && (forall x | x in b :: x in a)
  }

  predicate Distinct<T(==)>(s: seq<T>) {
    forall i, j | 0 <= i < j < |s| :: s[i] != s[j]
  }

  function InsertSorted(x: string, s: seq<string>): seq<string> {
    if s == [] then [x]
    else if Before(x, s[0]) then [x] + s
    else [s[0]] + InsertSorted(x, s[1..])
  }

  /** `keys().sorted()` for keys listed in any order. */
  function Sorted(s: seq<string>): seq<string> {
    if s == [] then [] else InsertSorted(s[0], Sorted(s[1..]))
  }

  lemma {:induction false} InsertSortedShape(x: string, s: seq<string>)
    requires Ascending(s) && x !in s
    ensures Ascending(InsertSorted(x, s))
    ensures SameElements(InsertSorted(x, s), [x] + s)
  {
    if s != [] {
      BeforeTotal(x, s[0]);
      if Before(x, s[0]) {
        forall j | 1 <= j < |s| ensures Before(x, s[j]) { BeforeTransitive(x, s[0], s[j]); }
      } else {
        InsertSortedShape(x, s[1..]);
        var t := InsertSorted(x, s[1..]);
        forall j | 0 <= j < |t| ensures Before(s[0], t[j]) {
          assert t[j] in t;
          assert t[j] == x || t[j] in s[1..];
        }
      }
    }
  }

  lemma {:induction false} SortedShape(s: seq<string>)
    requires Distinct(s)
    ensures Ascending(Sorted(s))
    ensures SameElements(Sorted(s), s)
  {
    if s != [] {
      assert Distinct(s[1..]);
      SortedShape(s[1..]);
      assert s[0] !in s[1..];
      InsertSortedShape(s[0], Sorted(s[1..]));
    }
  }

  lemma AscendingFirst(a: seq<string>, b: seq<string>)
    requires a != [] && Ascending(a) && Ascending(b) && SameElements(a, b)
    ensures b != [] && a[0] == b[0]
  {
    assert a[0] in b;
    assert b[0] in a;
    var i :| 0 <= i < |b| && b[i] == a[0];
    var j :| 0 <= j < |a| && a[j] == b[0];
    BeforeTotal(a[0], b[0]);
  }

  /** A set of strings has only one strictly ascending listing. */
  lemma {:induction false} AscendingUnique(a: seq<string>, b: seq<string>)
    requires Ascending(a) && Ascending(b) && SameElements(a, b)
    ensures a == b
  {
    if a == [] {
      assert b == [] by { if b != [] { AscendingFirst(b, a); } }
    } else {
      AscendingFirst(a, b);
      var x := a[0];
      assert a == [x] + a[1..] && b == [x] + b[1..];
      BeforeTotal(x, x);
      assert x !in a[1..] && x !in b[1..];
      forall y | y in a[1..] ensures y in b[1..] { assert y in a; assert y in b; }
      forall y | y in b[1..] ensures y in a[1..] { assert y in b; assert y in a; }
      AscendingUnique(a[1..], b[1..]);
    }
  }

  /** `keys` lists exactly the keys of `m`, ascending. */
  predicate AscendingKeys<V>(m: map<string, V>, keys: seq<string>) {
    Ascending(keys) && (forall k | k in keys :: k in m) && (forall k | k in m :: k in keys)
  }

  lemma AscendingKeysUnique<V, W>(m: map<string, V>, a: seq<string>, n: map<string, W>, b: seq<string>)
    requires m.Keys == n.Keys && AscendingKeys(m, a) && AscendingKeys(n, b)
    ensures a == b
  {
    forall k | k in a ensures k in b { assert k in m.Keys; assert k in n; }
    forall k | k in b ensures k in a { assert k in n.Keys; assert k in m; }
    AscendingUnique(a, b);
  }

  lemma {:induction false} OrderExists(keys: set<string>) returns (order: seq<string>)
    ensures Distinct(order) && (forall k :: k in order <==> k in keys)
  {
    if keys == {} {
      order := [];
    } else {
      var k :| k in keys;
      var rest := OrderExists(keys - {k});
      order := [k] + rest;
    }
  }

  lemma AscendingKeysExist<V>(m: map<string, V>)
    ensures exists keys :: AscendingKeys(m, keys)
  {
    var order := OrderExists(m.Keys);
    SortedShape(order);
    assert AscendingKeys(m, Sorted(order)) by {
      forall k | k in m ensures k in Sorted(order) { assert k in m.Keys; assert k in order; }
      forall k | k in Sorted(order) ensures k in m { assert k in order; assert k in m.Keys; }
    }
  }

  ghost function KeysInOrder<V>(m: map<string, V>): (keys: seq<string>)
    ensures AscendingKeys(m, keys)
  {
    AscendingKeysExist(m);
    var keys :| AscendingKeys(m, keys);
    keys
  }

  lemma SortedOrderIsAscendingKeys<V>(m: map<string, V>, order: seq<string>)
    requires Distinct(order) && forall k :: k in order <==> k in m
    ensures Sorted(order) == KeysInOrder(m)
  {
    SortedShape(order);
    var keys := Sorted(order);
    forall k | k in m ensures k in keys { assert k in order; }
    forall k | k in keys ensures k in m { assert k in order; }
    AscendingKeysUnique(m, keys, m, KeysInOrder(m));
  }

  /** `keys()`: the keys in some order. */
  method ListKeys<V>(m: map<string, V>) returns (order: seq<string>)
    ensures Distinct(order) && forall k :: k in order <==> k in m
  {
    order := [];
    var rest := m.Keys;
    while rest != {}
      invariant rest <= m.Keys
      invariant Distinct(order) && forall k :: k in order <==> k in m && k !in rest
      decreases |rest|
    {
      var k :| k in rest;
      order := order + [k];
      rest := rest - {k};
    }
  }

  /** `keys().sorted()` */
  method SortedKeys<V>(m: map<string, V>) returns (keys: seq<string>)
    ensures keys == KeysInOrder(m)
  {
    var order := ListKeys(m);
    keys := Sorted(order);
    SortedOrderIsAscendingKeys(m, order);
  }

  // ---------- decimal numbers ----------

  predicate IsDigit(c: char) { '0' <= c <= '9' }

  predicate AllDigits(s: string) {
    forall i | 0 <= i < |s| :: IsDigit(s[i])
  }

  function Digit(n: nat): (c: char)
    requires n < 10
    ensures IsDigit(c) && c as int == '0' as int + n
  {
    ('0' as int + n) as char
  }

  /** `to_string` of an unsigned integer. */
  function Decimal(n: nat): (s: string)
    ensures s != "" && AllDigits(s)
  {
    if n < 10 then [Digit(n)] else Decimal(n / 10) + [Digit(n % 10)]
  }

  /** The value of a digit string. */
  function DigitsValue(s: string): nat
    requires AllDigits(s)
  {
    if s == "" then 0
    else DigitsValue(s[..|s| - 1]) * 10 + (s[|s| - 1] as int - '0' as int)
  }

  lemma {:induction false} DecimalValue(n: nat)
    ensures DigitsValue(Decimal(n)) == n
  {
    if n >= 10 {
      var s := Decimal(n);
      assert s[..|s| - 1] == Decimal(n / 10);
      DecimalValue(n / 10);
    }
  }

  /** `str::parse` into an unsigned type with the given maximum: optional plus sign, then digits. */
  function ParseUnsigned(s: string, max: nat): Option<nat> {
    var digits := if s != "" && s[0] == '+' then s[1..] else s;
    if digits != "" && AllDigits(digits) && DigitsValue(digits) <= max
    then Some(DigitsValue(digits)) else None
  }

  lemma ParseDecimal(n: nat, max: nat)
    requires n <= max
    ensures ParseUnsigned(Decimal(n), max) == Some(n)
  {
    DecimalValue(n);
    assert IsDigit(Decimal(n)[0]);
  }

  function Zeros(n: nat): string {
    seq(n, _ => '0')
  }

  /** A digit string is its value in decimal after some zeros. */
  lemma {:induction false} DigitsAreDecimal(s: string) returns (k: nat)
    requires s != "" && AllDigits(s)
    ensures s == Zeros(k) + Decimal(DigitsValue(s))
  {
    var n := |s| - 1;
    var last := s[n] as int - '0' as int;
    assert s == s[..n] + [s[n]];
    if n == 0 {
      k := 0;
      assert DigitsValue(s[..0]) == 0;
      assert Zeros(0) + [s[0]] == [s[0]];
    } else {
      var j := DigitsAreDecimal(s[..n]);
      var v := DigitsValue(s[..n]);
      assert DigitsValue(s) == v * 10 + last;
      if v == 0 {
        k := j + 1;
        assert Decimal(v) == "0";
        assert Zeros(j) + "0" == Zeros(k);
      } else {
        k := j;
        assert (v * 10 + last) / 10 == v && (v * 10 + last) % 10 == last;
        assert Decimal(v * 10 + last) == Decimal(v) + [Digit(last)];
      }
    }
  }

  /** A number in decimal after some zeros, with or without a plus sign. */
  predicate Spells(s: string, n: nat, k: nat) {
    s == Zeros(k) + Decimal(n) || s == ['+'] + (Zeros(k) + Decimal(n))
  }

  lemma ParsedSpells(s: string, max: nat, n: nat) returns (k: nat)
    requires ParseUnsigned(s, max) == Some(n)
    ensures n <= max && Spells(s, n, k)
  {
    var digits := if s[0] == '+' then s[1..] else s;
    k := DigitsAreDecimal(digits);
    assert s[0] == '+' ==> s == ['+'] + digits;
  }

  lemma SpelledParses(s: string, max: nat, n: nat, k: nat)
    requires n <= max && Spells(s, n, k)
    ensures ParseUnsigned(s, max) == Some(n)
  {
    PaddedValue(k, n);
    DigitsParse(s, Zeros(k) + Decimal(n), max);
  }

  lemma DigitsParse(s: string, digits: string, max: nat)
    requires digits != "" && AllDigits(digits) && DigitsValue(digits) <= max
    requires s == digits || s == ['+'] + digits
    ensures ParseUnsigned(s, max) == Some(DigitsValue(digits))
  {
    assert IsDigit(digits[0]);
    if s == ['+'] + digits {
      assert s[0] == '+' && s[1..] == digits;
    }
  }

  /** `parse`: a text yields a number exactly when it is that number in decimal, after an optional plus sign and any
      zeros, and the number is not too large. */
  lemma ParseExactly(s: string, max: nat, n: nat)
    ensures ParseUnsigned(s, max) == Some(n) <==> n <= max && exists k: nat :: Spells(s, n, k)
  {
    if ParseUnsigned(s, max) == Some(n) {
      var k := ParsedSpells(s, max, n);
    }
    forall k: nat | n <= max && Spells(s, n, k) ensures ParseUnsigned(s, max) == Some(n) {
      SpelledParses(s, max, n, k);
    }
  }

  lemma {:induction false} PaddedValue(k: nat, n: nat)
    ensures var s := Zeros(k) + Decimal(n); AllDigits(s) && s != "" && DigitsValue(s) == n
  {
    var s := Zeros(k) + Decimal(n);
    assert forall i | 0 <= i < |s| :: s[i] == if i < k then '0' else Decimal(n)[i - k];
    if n < 10 {
      assert s[..|s| - 1] == Zeros(k);
      ZerosValue(k);
    } else {
      PaddedValue(k, n / 10);
      assert s[..|s| - 1] == Zeros(k) + Decimal(n / 10);
    }
  }

  lemma {:induction false} ZerosValue(k: nat)
    ensures AllDigits(Zeros(k)) && DigitsValue(Zeros(k)) == 0
  {
    if k > 0 {
      assert Zeros(k)[..k - 1] == Zeros(k - 1);
      ZerosValue(k - 1);
    }
  }
}
