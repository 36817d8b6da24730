/**
 * The important-dates list shared by both dates-editing screens: its entries,
 * the delete filter and the `YYYY-MM-DD` shape check of the newer screen.
 */
module ImportantDates {

  /** One `{ id, title, date }` entry; the id is a random string, given from outside. */
  datatype DateEntry = DateEntry(id: string, title: string, date: string)

  /** What a press of the add button did. */
  datatype AddOutcome = MissingInformation | InvalidFormat | Added

  /** `dates.filter(date => date.id !== id)`. */
  function WithoutId(dates: seq<DateEntry>, id: string): (r: seq<DateEntry>)
    ensures |r| <= |dates|
  {
    if dates == [] then []
    else (if dates[0].id == id then [] else [dates[0]]) + WithoutId(dates[1..], id)
  }

  /** The delete filter keeps exactly the entries with another id. */
  lemma {:induction false} WithoutIdMembers(dates: seq<DateEntry>, id: string)
    ensures forall e :: e in WithoutId(dates, id) ==> e in dates && e.id != id
    ensures forall e :: e in dates && e.id != id ==> e in WithoutId(dates, id)
  {
    if dates != [] {
      WithoutIdMembers(dates[1..], id);
      assert dates == [dates[0]] + dates[1..];
    }
  }

  /** The filter on a list with a known first entry. */
  lemma WithoutIdCons(x: DateEntry, rest: seq<DateEntry>, id: string)
    ensures WithoutId([x] + rest, id) == (if x.id == id then [] else [x]) + WithoutId(rest, id)
  {
    assert ([x] + rest)[0] == x && ([x] + rest)[1..] == rest;
  }

  /** The filter distributes over concatenation: the kept entries stay in their order. */
  lemma {:induction false} WithoutIdConcat(a: seq<DateEntry>, b: seq<DateEntry>, id: string)
    ensures WithoutId(a + b, id) == WithoutId(a, id) + WithoutId(b, id)
  {
    if a == [] {
      assert a + b == b;
    } else {
      var x, rest := a[0], a[1..];
      var head := if x.id == id then [] else [x];
      assert a == [x] + rest && a + b == [x] + (rest + b);
      WithoutIdCons(x, rest + b, id);
      WithoutIdCons(x, rest, id);
      WithoutIdConcat(rest, b, id);
      assert head + (WithoutId(rest, id) + WithoutId(b, id)) == (head + WithoutId(rest, id)) + WithoutId(b, id);
    }
  }

  /** Deleting an id no entry has leaves the list as it was. */
  lemma {:induction false} WithoutIdAbsent(dates: seq<DateEntry>, id: string)
    requires forall i :: 0 <= i < |dates| ==> dates[i].id != id
    ensures WithoutId(dates, id) == dates
  {
    if dates != [] {
      WithoutIdAbsent(dates[1..], id);
      assert dates == [dates[0]] + dates[1..];
    }
  }

  /** `\d` of a JavaScript regular expression without the `u` flag: an ASCII digit. */
  predicate IsDigit(c: char) {
    '0' <= c <= '9'
  }

  /**
   * `/^\d{4}-\d{2}-\d{2}$/.test(s)`: ten characters, digits everywhere but
   * positions 4 and 7, which hold '-'. Without the `m` flag `$` matches only
   * at the very end, so no trailing newline is allowed.
   */
  predicate IsDateShape(s: string) {
    && |s| == 10
    && s[4] == '-' && s[7] == '-'
    && forall i :: 0 <= i < 10 && i != 4 && i != 7 ==> IsDigit(s[i])
  }

  /** The shape check tests digits only: a month 13 and a day 99 pass. */
  lemma NoRangeCheck()
    ensures IsDateShape("2025-13-99")
    ensures !IsDateShape("2025-1-9")
    ensures !IsDateShape("2025/11/20")
  {
    var s := "2025-13-99";
    assert s[0] == '2' && s[1] == '0' && s[2] == '2' && s[3] == '5';
    assert s[5] == '1' && s[6] == '3' && s[8] == '9' && s[9] == '9';
  }

  function Pow10(n: nat): (r: nat)
    ensures r >= 1
  {
    if n == 0 then 1 else 10 * Pow10(n - 1)
  }

  function DigitChar(n: nat): (c: char)
    requires n < 10
    ensures IsDigit(c)
  {
    ('0' as int + n) as char
  }

  function DigitValue(c: char): (n: nat)
    requires IsDigit(c)
    ensures n < 10 && DigitChar(n) == c
  {
    (c as int - '0' as int)
  }

  /** `n` written in decimal with exactly `width` digits, leading zeros included. */
  function Digits(n: nat, width: nat): (r: string)
    requires n < Pow10(width)
    ensures |r| == width
    ensures forall i :: 0 <= i < |r| ==> IsDigit(r[i])
  {
    if width == 0 then "" else Digits(n / 10, width - 1) + [DigitChar(n % 10)]
  }

  /** The number a string of decimal digits denotes. */
  function Value(s: string): (n: nat)
    requires forall i :: 0 <= i < |s| ==> IsDigit(s[i])
    ensures n < Pow10(|s|)
  {
    if s == [] then 0 else 10 * Value(s[..|s| - 1]) + DigitValue(s[|s| - 1])
  }

  lemma {:induction false} ValueOfDigits(n: nat, width: nat)
    requires n < Pow10(width)
    ensures Value(Digits(n, width)) == n
  {
    if width > 0 {
      var d := Digits(n, width);
      assert d[..width - 1] == Digits(n / 10, width - 1);
      ValueOfDigits(n / 10, width - 1);
    }
  }

  /** Appending a digit `d` to a number `v`, and splitting it off again. */
  lemma LastDigit(v: nat, d: nat)
    requires d < 10
    ensures (10 * v + d) / 10 == v && (10 * v + d) % 10 == d
  {
  }

  lemma {:induction false} DigitsOfValue(s: string)
    requires forall i :: 0 <= i < |s| ==> IsDigit(s[i])
    ensures Digits(Value(s), |s|) == s
  {
    if s != [] {
      var k := |s| - 1;
      var prefix := s[..k];
      var v := Value(prefix);
      var d := DigitValue(s[k]);
      assert Value(s) == 10 * v + d;
      LastDigit(v, d);
      DigitsOfValue(prefix);
      assert Digits(Value(s), |s|) == Digits(v, k) + [DigitChar(d)];
      assert s == prefix + [s[k]];
    }
  }

  /** A calendar-free date written as `YYYY-MM-DD`: the reference form of the shape check. */
  function FormatDate(y: nat, m: nat, d: nat): (s: string)
    requires y < 10000 && m < 100 && d < 100
  {
    Digits(y, 4) + "-" + Digits(m, 2) + "-" + Digits(d, 2)
  }

  /** The three numbers of a string that passed the shape check. */
  function ParseDate(s: string): (r: (nat, nat, nat))
    requires IsDateShape(s)
    ensures r.0 < 10000 && r.1 < 100 && r.2 < 100
  {
    assert Pow10(4) == 10000 && Pow10(2) == 100;
    (Value(s[0..4]), Value(s[5..7]), Value(s[8..10]))
  }

  /** The three fields of `a-b-c` sit at the positions the shape check names. */
  lemma Fields(a: string, b: string, c: string)
    requires |a| == 4 && |b| == 2 && |c| == 2
    ensures var s := a + "-" + b + "-" + c;
      |s| == 10 && s[4] == '-' && s[7] == '-' && s[0..4] == a && s[5..7] == b && s[8..10] == c
  {
  }

  /** Every formatted date passes the shape check and parses back to its numbers. */
  lemma FormatThenParse(y: nat, m: nat, d: nat)
    requires y < 10000 && m < 100 && d < 100
    ensures IsDateShape(FormatDate(y, m, d))
    ensures ParseDate(FormatDate(y, m, d)) == (y, m, d)
  {
    assert Pow10(4) == 10000 && Pow10(2) == 100;
    var a, b, c := Digits(y, 4), Digits(m, 2), Digits(d, 2);
    Fields(a, b, c);
    var s := a + "-" + b + "-" + c;
    forall i | 0 <= i < 10 && i != 4 && i != 7 ensures IsDigit(s[i]) {
      if i < 4 { assert s[i] == a[i]; }
      else if i < 7 { assert s[i] == b[i - 5]; }
      else { assert s[i] == c[i - 8]; }
    }
    ValueOfDigits(y, 4);
    ValueOfDigits(m, 2);
    ValueOfDigits(d, 2);
  }

  /** Every string that passes the shape check is the formatting of its own numbers. */
  lemma ParseThenFormat(s: string)
    requires IsDateShape(s)
    ensures var (y, m, d) := ParseDate(s); FormatDate(y, m, d) == s
  {
    DigitsOfValue(s[0..4]);
    DigitsOfValue(s[5..7]);
    DigitsOfValue(s[8..10]);
    assert s == s[0..4] + "-" + s[5..7] + "-" + s[8..10];
  }
}
