/** Reading the headers of a partial answer (sections 14.4 and 8.6 of RFC 9110). */
module HttpRanges {
  import opened Common

  // ---- Numbers in text ---------------------------------------------------------------------------

  predicate IsDigit(c: char) {
    '0' <= c <= '9'
  }

  function DigitOf(c: char): nat
    requires IsDigit(c)
  {
    (c as int) - ('0' as int)
  }

  /** `int` on digits, with single underscores between them as Python allows. */
  function Digits(s: string): Option<nat> {
    if s == "" then None
    else
      var k := |s| - 1;
      if !IsDigit(s[k]) then None
      else if k == 0 then Some(DigitOf(s[0]))
      else
        var before := Digits(if s[k - 1] == '_' then s[..k - 1] else s[..k]);
        if before.None? then None else Some(10 * before.value + DigitOf(s[k]))
  }

  function Signed(negative: bool, n: int): int {
    if negative then -n else n
  }

  /** `int(text)`; `None` for `ValueError`. */
  function Int(text: string): Option<int> {
    var s := Stripped(text);
    if s != "" && (s[0] == '-' || s[0] == '+') then
      var n := Digits(s[1..]);
      if n.None? then None else Some(Signed(s[0] == '-', n.value))
    else
      var n := Digits(s);
      if n.None? then None else Some(n.value)
  }

  /** `str.isdigit` on ASCII text. */
  predicate AllDigits(s: string) {
    s != "" && forall i :: 0 <= i < |s| ==> IsDigit(s[i])
  }

  // ---- Splitting ---------------------------------------------------------------------------------

  /** Where the character first occurs; the length if it does not. */
  function First(s: string, c: char): (r: nat)
    ensures r <= |s| && (r < |s| ==> s[r] == c) && c !in s[..r]
  {
    if s == "" || s[0] == c then 0
    else
      var r := First(s[1..], c);
      assert s[..r + 1] == [s[0]] + s[1..][..r];
      r + 1
  }

  /** Where the character last occurs. */
  function Last(s: string, c: char): (r: Option<nat>)
    ensures r.None? <==> c !in s
    ensures r.Some? ==> r.value < |s| && s[r.value] == c && c !in s[r.value + 1..]
  {
    if s == "" then None
    else
      var k := |s| - 1;
      assert s == s[..k] + [s[k]];
      if s[k] == c then Some(k)
      else
        var r := Last(s[..k], c);
        if r.Some? then
          assert s[r.value + 1..] == s[..k][r.value + 1..] + [s[k]];
          r
        else None
  }

  // ---- The two headers ---------------------------------------------------------------------------

  /** `_range_start`: the text between the first blank and the next dash. */
  function RangeStart(contentRange: Option<string>): Option<int> {
    if contentRange.None? || contentRange.value == "" then None
    else
      var s := contentRange.value;
      var blank := First(s, ' ');
      if blank == |s| then None
      else
        var rest := s[blank + 1..];
        Int(rest[..First(rest, '-')])
  }

  /** `_total_length`: the text after the last slash, or what the length adds to the offset. */
  function TotalLength(contentRange: Option<string>, contentLength: Option<string>, offset: nat): Option<int> {
    if contentRange.Some? && '/' in contentRange.value then
      var slash := Last(contentRange.value, '/').value;
      var total := contentRange.value[slash + 1..];
      if AllDigits(total) then Int(total) else None
    else if contentLength.Some? && AllDigits(contentLength.value) then
      var n := Int(contentLength.value);
      if n.None? then None else Some(offset + n.value)
    else None
  }

  // ---- What a server writes ----------------------------------------------------------------------

  function Digit(n: nat): char
    requires n < 10
  {
    ('0' as int + n) as char
  }

  function Decimal(n: nat): (r: string)
    ensures AllDigits(r)
  {
    if n < 10 then [Digit(n)] else Decimal(n / 10) + [Digit(n % 10)]
  }

  /** `bytes first-last/complete`, with `*` for a length the server does not know. */
  function ContentRange(first: nat, last: nat, complete: Option<nat>): string {
    "bytes " + Decimal(first) + "-" + Decimal(last) + "/" + if complete.Some? then Decimal(complete.value) else "*"
  }

  lemma {:induction false} DecimalReads(n: nat)
    ensures Digits(Decimal(n)) == Some(n)
  {
    if n >= 10 {
      DecimalReads(n / 10);
      var s := Decimal(n);
      assert s[..|s| - 1] == Decimal(n / 10);
      assert IsDigit(s[|s| - 2]);
    }
  }

  lemma IntReads(n: nat)
    ensures Int(Decimal(n)) == Some(n)
  {
    DecimalReads(n);
    var s := Decimal(n);
    assert IsDigit(s[0]) && IsDigit(s[|s| - 1]);
    assert Stripped(s) == s;
  }

  // ---- What counts as a number -------------------------------------------------------------------

  /** Digits, with single underscores between them. */
  predicate Numeral(s: string) {
    && s != "" && IsDigit(s[0]) && IsDigit(s[|s| - 1])
    && forall i :: 0 < i < |s| ==> NumeralAt(s, i)
  }

  predicate NumeralAt(s: string, i: nat)
    requires 0 < i < |s|
  {
    IsDigit(s[i]) || (s[i] == '_' && s[i - 1] != '_')
  }

  function WithoutBars(s: string): string {
    if s == "" then "" else WithoutBars(s[..|s| - 1]) + if s[|s| - 1] == '_' then "" else [s[|s| - 1]]
  }

  function Zeros(z: nat): string {
    if z == 0 then "" else "0" + Zeros(z - 1)
  }

  /** The text is this number, written with some zeros in front and underscores between. */
  ghost predicate Writes(s: string, n: nat) {
    Numeral(s) && exists z: nat :: WithoutBars(s) == Zeros(z) + Decimal(n)
  }

  lemma {:induction false} ZerosLast(z: nat)
    ensures Zeros(z) + "0" == Zeros(z + 1)
  {
    if z > 0 {
      ZerosLast(z - 1);
      assert Zeros(z) + "0" == "0" + (Zeros(z - 1) + "0");
    }
  }

  /** What is read as a number is exactly what writes one, and it is the number written. */
  lemma {:induction false} DigitsExactly(s: string)
    ensures Digits(s).Some? <==> Numeral(s)
    ensures Digits(s).Some? ==> Writes(s, Digits(s).value)
  {
    if s != "" && IsDigit(s[|s| - 1]) {
      var k := |s| - 1;
      if k == 0 {
        assert WithoutBars(s) == "" + [s[0]];
        assert WithoutBars(s) == Zeros(0) + Decimal(DigitOf(s[0]));
      } else {
        var front := if s[k - 1] == '_' then s[..k - 1] else s[..k];
        DigitsExactly(front);
        NumeralLast(s);
        if Digits(s).Some? {
          BarsLast(s);
          WritesLast(front, Digits(front).value, s[k]);
          var z: nat :| WithoutBars(s) == Zeros(z) + Decimal(Digits(s).value);
        }
      }
    }
  }

  lemma NumeralLast(s: string)
    requires |s| > 1 && IsDigit(s[|s| - 1])
    ensures var k := |s| - 1; Numeral(s) <==> Numeral(if s[k - 1] == '_' then s[..k - 1] else s[..k])
  {
    var k := |s| - 1;
    var front := if s[k - 1] == '_' then s[..k - 1] else s[..k];
    assert forall i :: 0 < i < |front| ==> NumeralAt(front, i) == NumeralAt(s, i);
    assert NumeralAt(s, k);
    if k > 1 {
      assert NumeralAt(s, k - 1) <==> IsDigit(s[k - 1]) || (s[k - 1] == '_' && s[k - 2] != '_');
      if s[k - 1] == '_' && k > 2 {
        assert NumeralAt(s, k - 2) <==> IsDigit(s[k - 2]) || (s[k - 2] == '_' && s[k - 3] != '_');
      }
    }
  }

  lemma BarsLast(s: string)
    requires |s| > 1 && IsDigit(s[|s| - 1])
    ensures var k := |s| - 1;
            WithoutBars(s) == WithoutBars(if s[k - 1] == '_' then s[..k - 1] else s[..k]) + [s[k]]
  {
    var k := |s| - 1;
    assert s[..k][..k - 1] == s[..k - 1];
  }

  lemma WritesLast(front: string, m: nat, d: char)
    requires Writes(front, m) && IsDigit(d)
    ensures exists z: nat :: WithoutBars(front) + [d] == Zeros(z) + Decimal(10 * m + DigitOf(d))
  {
    var z: nat :| WithoutBars(front) == Zeros(z) + Decimal(m);
    var n := 10 * m + DigitOf(d);
    if m == 0 {
      ZerosLast(z);
      assert WithoutBars(front) + [d] == Zeros(z + 1) + Decimal(n);
    } else {
      assert n / 10 == m && n % 10 == DigitOf(d);
      assert WithoutBars(front) + [d] == Zeros(z) + Decimal(n);
    }
  }

  /** With blanks around it and one sign in front, a number is read as it is written, negative just after a minus. */
  lemma IntExactly(text: string)
    ensures var s := Stripped(text);
            var signed := s != "" && (s[0] == '-' || s[0] == '+');
            var number := if signed then s[1..] else s;
            && (Int(text).Some? <==> Numeral(number))
            && (Int(text).Some? ==>
                  Writes(number, if signed && s[0] == '-' then -Int(text).value else Int(text).value))
  {
    var s := Stripped(text);
    DigitsExactly(if s != "" && (s[0] == '-' || s[0] == '+') then s[1..] else s);
  }

  // ---- Reading back ------------------------------------------------------------------------------

  /** The first occurrence in a text made of a part without the character, the character and more. */
  lemma {:induction false} FirstAfter(a: string, c: char, b: string)
    requires c !in a
    ensures First(a + [c] + b, c) == |a|
  {
    var s := a + [c] + b;
    if a == "" {
      assert s[0] == c;
    } else {
      assert s[0] == a[0] && a[0] in a;
      assert s[1..] == a[1..] + [c] + b;
      FirstAfter(a[1..], c, b);
    }
  }

  lemma {:induction false} LastBefore(a: string, c: char, b: string)
    requires c !in b
    ensures Last(a + [c] + b, c) == Some(|a|)
  {
    var s := a + [c] + b;
    if b == "" {
      assert s[|s| - 1] == c;
    } else {
      var k := |b| - 1;
      assert s[|s| - 1] == b[k] && b[k] in b;
      assert s[..|s| - 1] == a + [c] + b[..k];
      LastBefore(a, c, b[..k]);
    }
  }

  lemma DigitsOnly(s: string, c: char)
    requires AllDigits(s) && !IsDigit(c)
    ensures c !in s
  {
  }

  lemma StartReads(first: nat, more: string)
    ensures RangeStart(Some("bytes" + [' '] + Decimal(first) + ['-'] + more)) == Some(first)
  {
    hide Decimal, First, Int;
    var rest := Decimal(first) + ['-'] + more;
    var header := "bytes" + [' '] + Decimal(first) + ['-'] + more;
    assert header == "bytes" + [' '] + rest;
    FirstAfter("bytes", ' ', rest);
    assert header[|"bytes"| + 1..] == rest;
    DigitsOnly(Decimal(first), '-');
    FirstAfter(Decimal(first), '-', more);
    assert rest[..|Decimal(first)|] == Decimal(first);
    IntReads(first);
  }

  lemma TotalReads(front: string, total: string, length: Option<string>, offset: nat)
    requires '/' !in total
    ensures TotalLength(Some(front + ['/'] + total), length, offset) == if AllDigits(total) then Int(total) else None
  {
    hide Last, Int;
    var header := front + ['/'] + total;
    LastBefore(front, '/', total);
    assert header[|front|] == '/';
    assert header[|front| + 1..] == total;
  }

  /** What a server says in `Content-Range` is read back exactly: where the part starts, and the whole length. */
  lemma ContentRangeRoundTrip(first: nat, last: nat, complete: Option<nat>, length: Option<string>, offset: nat)
    ensures var header := ContentRange(first, last, complete);
            && RangeStart(Some(header)) == Some(first)
            && TotalLength(Some(header), length, offset) == if complete.Some? then Some(complete.value) else None
  {
    hide Decimal, RangeStart, TotalLength, Int;
    var header := ContentRange(first, last, complete);
    var total := if complete.Some? then Decimal(complete.value) else "*";
    StartReads(first, Decimal(last) + "/" + total);
    assert header == "bytes" + [' '] + Decimal(first) + ['-'] + (Decimal(last) + "/" + total);
    var front := "bytes " + Decimal(first) + "-" + Decimal(last);
    assert header == front + ['/'] + total;
    if complete.Some? {
      DigitsOnly(total, '/');
      IntReads(complete.value);
    } else {
      assert !IsDigit(total[0]);
    }
    TotalReads(front, total, length, offset);
  }

  /** A full answer's length is read back, on top of what is there already. */
  lemma ContentLengthRoundTrip(length: nat, offset: nat)
    ensures TotalLength(None, Some(Decimal(length)), offset) == Some(offset + length)
  {
    IntReads(length);
  }
}
