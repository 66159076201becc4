/** Printed numbers (packages/domain/src/invoice-rules.ts, packages/db/src/sequences.ts, bookings.ts). */
module Serials {
  import opened Wrappers
  import opened Text
  import opened Numbering

  predicate IsDigit(c: char) {
    '0' <= c <= '9'
  }

  predicate AllDigits(s: string) {
    forall i :: 0 <= i < |s| ==> IsDigit(s[i])
  }

  function DigitOf(n: nat): (c: char)
    requires n < 10
    ensures IsDigit(c) && c - '0' == n as char
  {
    '0' + n as char
  }

  /** String(n). */
  function Decimal(n: nat): (s: string)
    ensures s != "" && AllDigits(s)
  {
    if n < 10 then [DigitOf(n)] else Decimal(n / 10) + [DigitOf(n % 10)]
  }

  function Value(s: string): nat
    requires AllDigits(s)
  {
    if s == "" then 0 else 10 * Value(s[..|s| - 1]) + (s[|s| - 1] - '0') as int
  }

  function Zeros(n: nat): (s: string)
    ensures |s| == n && AllDigits(s)
  {
    if n == 0 then "" else Zeros(n - 1) + "0"
  }

  function PadStart(s: string, width: nat): string {
    if |s| >= width then s else Zeros(width - |s|) + s
  }

  /** s.slice(lo, hi), cut to what there is. */
  function Slice(s: string, lo: nat, hi: nat): string {
    if lo >= |s| || lo >= hi then "" else if hi >= |s| then s[lo..] else s[lo..hi]
  }

  /** The characters from lo up to hi that there are. */
  lemma SliceIs(s: string, lo: nat, hi: nat)
    requires lo <= hi
    ensures Slice(s, lo, hi) == if |s| <= lo then "" else s[lo..if |s| <= hi then |s| else hi]
  {
  }

  /** s.slice(-n). */
  function LastOf(s: string, n: nat): string {
    if |s| <= n then s else s[|s| - n..]
  }

  // ---- padded numbers read back ----

  lemma {:induction false} DecimalReadsBack(n: nat)
    ensures Value(Decimal(n)) == n
  {
    if n < 10 {
    } else {
      DecimalReadsBack(n / 10);
      assert Decimal(n)[..|Decimal(n)| - 1] == Decimal(n / 10);
    }
  }

  lemma {:induction false} ZerosAddNothing(k: nat, s: string)
    requires AllDigits(s)
    ensures AllDigits(Zeros(k) + s) && Value(Zeros(k) + s) == Value(s)
  {
    var z := Zeros(k) + s;
    if s == "" {
      assert z == Zeros(k);
      if k == 0 {
      } else {
        ZerosAddNothing(k - 1, "");
        assert Zeros(k - 1) + "" == Zeros(k - 1) && Zeros(k)[..k - 1] == Zeros(k - 1);
      }
    } else {
      ZerosAddNothing(k, s[..|s| - 1]);
      assert z[..|z| - 1] == Zeros(k) + s[..|s| - 1];
    }
  }

  function Padded(n: nat, width: nat): (s: string)
    ensures AllDigits(s) && |s| >= width && |s| >= |Decimal(n)|
  {
    PadStart(Decimal(n), width)
  }

  lemma PaddedReadsBack(n: nat, width: nat)
    ensures Value(Padded(n, width)) == n
  {
    DecimalReadsBack(n);
    if |Decimal(n)| < width { ZerosAddNothing(width - |Decimal(n)|, Decimal(n)); }
  }

  lemma PaddedApart(n: nat, m: nat, width: nat)
    requires Padded(n, width) == Padded(m, width)
    ensures n == m
  {
    PaddedReadsBack(n, width);
    PaddedReadsBack(m, width);
  }

  function Power10(k: nat): nat {
    if k == 0 then 1 else 10 * Power10(k - 1)
  }

  lemma {:induction false} DecimalLength(n: nat, k: nat)
    requires k >= 1
    ensures |Decimal(n)| <= k <==> n < Power10(k)
  {
    if k == 1 {
    } else if n >= 10 {
      DecimalLength(n / 10, k - 1);
    } else {
      PowerAtLeastTen(k);
    }
  }

  lemma {:induction false} PowerAtLeastTen(k: nat)
    requires k >= 1
    ensures Power10(k) >= 10
  {
    if k == 1 {
    } else {
      PowerAtLeastTen(k - 1);
    }
  }

  // ---- India ----

  const IN_SERIAL_MAX := 16

  /** Letters and digits, in capitals. */
  function Plain(s: string): string {
    if s == "" then "" else (if IsDigit(s[0]) || 'A' <= s[0] <= 'Z' then [s[0]] else "") + Plain(s[1..])
  }

  predicate IsFinancialYear(fy: string) {
    |fy| == 7 && AllDigits(fy[..4]) && fy[4] == '-' && AllDigits(fy[5..])
  }

  function Years(fy: string): string {
    if IsFinancialYear(fy) then Slice(fy, 2, 4) + "-" + Slice(fy, 5, 7) else LastOf(fy, 5)
  }

  function Own(prefix: Option<string>): string {
    Plain(Upper(Trimmed(if prefix.Some? then prefix.value else "")))
  }

  /** None where the source raises: a number below 1, or one too long to fit. */
  function InInvoiceSerial(fy: string, n: int, prefix: Option<string>): Option<string> {
    if n < 1 then None
    else
      var digits := Padded(n, 6);
      var room := IN_SERIAL_MAX - |Years(fy)| - |digits| - 2;
      if room < 1 then None
      else
        var head := Slice(if Own(prefix) == "" then "INV" else Own(prefix), 0, room);
        Some(head + "/" + Years(fy) + "/" + digits)
  }

  /** Rule 46(b) of the CGST Rules 2017: at most sixteen characters, whatever the prefix; in a financial
      year every number below a hundred million has a serial, and no other has. */
  lemma InSerialFits(fy: string, n: int, prefix: Option<string>)
    ensures InInvoiceSerial(fy, n, prefix).Some? ==> |InInvoiceSerial(fy, n, prefix).value| <= IN_SERIAL_MAX
    ensures IsFinancialYear(fy) ==> (InInvoiceSerial(fy, n, prefix).Some? <==> 1 <= n < 100_000_000)
  {
    if n >= 1 {
      DecimalLength(n, 8);
      assert Power10(8) == 100_000_000 by { assert Power10(4) == 10_000; }
    }
  }

  function AfterSlash(s: string): string {
    if s == "" || s[|s| - 1] == '/' then "" else AfterSlash(s[..|s| - 1]) + [s[|s| - 1]]
  }

  lemma {:induction false} NumberAfterSlash(a: string, d: string)
    requires AllDigits(d)
    ensures AfterSlash(a + "/" + d) == d
  {
    var s := a + "/" + d;
    if d == "" {
    } else {
      NumberAfterSlash(a, d[..|d| - 1]);
      assert s[..|s| - 1] == a + "/" + d[..|d| - 1] && s[|s| - 1] == d[|d| - 1];
    }
  }

  lemma InSerialEndsInNumber(fy: string, n: int, prefix: Option<string>)
    requires InInvoiceSerial(fy, n, prefix).Some?
    ensures AfterSlash(InInvoiceSerial(fy, n, prefix).value) == Padded(n, 6)
  {
    var digits := Padded(n, 6);
    var room := IN_SERIAL_MAX - |Years(fy)| - |digits| - 2;
    NumberAfterSlash(Slice(if Own(prefix) == "" then "INV" else Own(prefix), 0, room) + "/" + Years(fy), digits);
  }

  lemma InSerialNeverRepeats(fy: string, n: int, m: int, prefix: Option<string>)
    requires InInvoiceSerial(fy, n, prefix).Some? && InInvoiceSerial(fy, n, prefix) == InInvoiceSerial(fy, m, prefix)
    ensures n == m
  {
    InSerialEndsInNumber(fy, n, prefix);
    InSerialEndsInNumber(fy, m, prefix);
    PaddedApart(n, m, 6);
  }

  // ---- Sri Lanka ----

  const LK_SERIAL_MAX := 40
  const MONTHS := ["JAN", "FEB", "MAR", "APR", "MAY", "JUN", "JUL", "AUG", "SEP", "OCT", "NOV", "DEC"]

  function LkBranchCode(branch: Option<string>): (code: string)
    ensures 1 <= |code| <= 12
  {
    var raw := Own(branch);
    if raw == "" then "0001" else if AllDigits(raw) && |raw| < 4 then PadStart(raw, 4) else Slice(raw, 0, 12)
  }

  function MonthOf(date: string): Option<string> {
    var month := Slice(date, 5, 7);
    if month != "" && AllDigits(month) && 1 <= Value(month) <= 12 then Some(MONTHS[Value(month) - 1]) else None
  }

  /** Year, month and branch. */
  function LkPrefix(date: string, branch: Option<string>): string
    requires MonthOf(date).Some?
  {
    Slice(date, 2, 4) + MonthOf(date).value + "-" + LkBranchCode(branch) + "-"
  }

  lemma LkPrefixLength(date: string, branch: Option<string>)
    requires MonthOf(date).Some?
    ensures |LkPrefix(date, branch)| == 7 + |LkBranchCode(branch)|
  {
    var month := Slice(date, 5, 7);
    assert |Slice(date, 2, 4)| == 2;
    assert MONTHS[Value(month) - 1] in MONTHS && forall i :: 0 <= i < |MONTHS| ==> |MONTHS[i]| == 3;
  }

  function LkInvoiceSerial(date: string, branch: Option<string>, n: int): Option<string> {
    if MonthOf(date).None? || n < 1 then None
    else
      var serial := LkPrefix(date, branch) + Decimal(n);
      if |serial| > LK_SERIAL_MAX then None else Some(serial)
  }

  lemma SameStart(a: string, d: string, e: string)
    requires a + d == a + e
    ensures d == e
  {
    assert (a + d)[|a|..] == d && (a + e)[|a|..] == e;
  }

  lemma LkSerialNeverRepeats(date: string, branch: Option<string>, n: int, m: int)
    requires LkInvoiceSerial(date, branch, n).Some?
    requires LkInvoiceSerial(date, branch, n) == LkInvoiceSerial(date, branch, m)
    ensures n == m
  {
    SameStart(LkPrefix(date, branch), Decimal(n), Decimal(m));
    DecimalReadsBack(n);
    DecimalReadsBack(m);
  }

  /** A date with a month has a Sri Lankan serial for exactly the numbers that leave room for the branch: with
      the longest branch code, those of at most twenty-one digits. */
  lemma LkSerialFits(date: string, branch: Option<string>, n: int)
    ensures var month := Slice(date, 5, 7);
            LkInvoiceSerial(date, branch, n).Some? <==>
              month != "" && AllDigits(month) && 1 <= Value(month) <= 12
              && 1 <= n < Power10(LK_SERIAL_MAX - 7 - |LkBranchCode(branch)|)
    ensures LkInvoiceSerial(date, branch, n).Some? ==> |LkInvoiceSerial(date, branch, n).value| <= LK_SERIAL_MAX
  {
    if MonthOf(date).Some? && n >= 1 {
      LkPrefixLength(date, branch);
      DecimalLength(n, LK_SERIAL_MAX - 7 - |LkBranchCode(branch)|);
    }
  }

  // ---- receipts and booking references ----

  function ReceiptNo(year: string, n: nat): string {
    "RC" + Slice(year, 2, |year|) + "-" + Padded(n, 5)
  }

  lemma ReceiptNeverRepeats(year: string, n: nat, m: nat)
    requires ReceiptNo(year, n) == ReceiptNo(year, m)
    ensures n == m
  {
    SameStart("RC" + Slice(year, 2, |year|) + "-", Padded(n, 5), Padded(m, 5));
    PaddedApart(n, m, 5);
  }

  predicate IsDay(day: string) {
    |day| == 10 && AllDigits(day[..4]) && day[4] == '-' && AllDigits(day[5..7]) && day[7] == '-' && AllDigits(day[8..])
  }

  function WithoutDashes(s: string): string {
    if s == "" then "" else (if s[0] == '-' then "" else [s[0]]) + WithoutDashes(s[1..])
  }

  function BookingReference(day: string, counter: nat): string {
    WithoutDashes(Slice(day, 2, |day|)) + Padded(counter, 4)
  }

  lemma {:induction false} WithoutDashesJoins(a: string, b: string)
    ensures WithoutDashes(a + b) == WithoutDashes(a) + WithoutDashes(b)
  {
    if a == "" {
      assert a + b == b;
    } else {
      assert (a + b)[1..] == a[1..] + b;
      WithoutDashesJoins(a[1..], b);
    }
  }

  lemma {:induction false} DigitsKept(s: string)
    requires AllDigits(s)
    ensures WithoutDashes(s) == s
  {
    if s == "" {
    } else {
      DigitsKept(s[1..]);
    }
  }

  lemma DayDigits(day: string)
    requires IsDay(day)
    ensures WithoutDashes(Slice(day, 2, |day|)) == DigitsOf(day)
  {
    var y, m, d := day[2..4], day[5..7], day[8..];
    assert y == day[..4][2..];
    assert day[2..] == y + ("-" + (m + ("-" + d)));
    WithoutTwoDashes(y, m, d);
    DigitsKept(y);
    DigitsKept(m);
    DigitsKept(d);
  }

  lemma WithoutTwoDashes(y: string, m: string, d: string)
    ensures WithoutDashes(y + ("-" + (m + ("-" + d)))) == WithoutDashes(y) + WithoutDashes(m) + WithoutDashes(d)
  {
    WithoutDashesJoins(y, "-" + (m + ("-" + d)));
    DashGone(m + ("-" + d));
    WithoutDashesJoins(m, "-" + d);
    DashGone(d);
  }

  lemma DashGone(s: string)
    ensures WithoutDashes("-" + s) == WithoutDashes(s)
  {
    assert ("-" + s)[1..] == s;
  }

  /** Two references are the same exactly when the bookings were the same number of the same day, or of
      days a whole number of centuries apart: the reference keeps the year's last two digits. */
  lemma ReferencesRepeatIff(day: string, counter: nat, other: string, number: nat)
    requires IsDay(day) && IsDay(other)
    ensures BookingReference(day, counter) == BookingReference(other, number) <==>
              counter == number && day[2..] == other[2..]
  {
    DayDigits(day);
    DayDigits(other);
    DigitsAreDay(day);
    DigitsAreDay(other);
    if BookingReference(day, counter) == BookingReference(other, number) {
      SameLength(DigitsOf(day), Padded(counter, 4), DigitsOf(other), Padded(number, 4));
      PaddedApart(counter, number, 4);
    }
  }

  /** A day's digits without the century. */
  function DigitsOf(day: string): string
    requires |day| == 10
  {
    day[2..4] + day[5..7] + day[8..]
  }

  /** They say which day it is within the century. */
  lemma DigitsAreDay(day: string)
    requires IsDay(day)
    ensures |DigitsOf(day)| == 6
    ensures day[2..] == DigitsOf(day)[..2] + "-" + DigitsOf(day)[2..4] + "-" + DigitsOf(day)[4..]
    ensures DigitsOf(day) == day[2..][..2] + day[2..][3..5] + day[2..][6..]
  {
    assert day[2..][..2] == day[2..4] && day[2..][3..5] == day[5..7] && day[2..][6..] == day[8..];
  }

  lemma SameLength(a: string, d: string, b: string, e: string)
    requires a + d == b + e && |a| == |b|
    ensures a == b && d == e
  {
    assert (a + d)[..|a|] == a && (b + e)[..|b|] == b;
    assert (a + d)[|a|..] == d && (b + e)[|b|..] == e;
  }

  // ---- what each number prints as ----

  predicate IsPlain(c: char) {
    '0' <= c <= '9' || 'A' <= c <= 'Z'
  }

  /** Of the branch or prefix given, the letters and digits are kept, in capitals and in order. */
  lemma {:induction false} PlainJoins(a: string, b: string)
    ensures Plain(a + b) == Plain(a) + Plain(b)
  {
    if a == "" {
      assert a + b == b;
    } else {
      var first := if IsDigit(a[0]) || 'A' <= a[0] <= 'Z' then [a[0]] else "";
      assert (a + b)[0] == a[0] && (a + b)[1..] == a[1..] + b;
      assert Plain(a + b) == first + Plain(a[1..] + b);
      PlainJoins(a[1..], b);
    }
  }

  lemma {:induction false} PlainKeeps(s: string)
    ensures (forall i :: 0 <= i < |s| ==> IsPlain(s[i])) ==> Plain(s) == s
    ensures (forall i :: 0 <= i < |s| ==> !IsPlain(s[i])) ==> Plain(s) == ""
  {
    if s == "" {
    } else {
      PlainKeeps(s[1..]);
    }
  }

  /** The digits of a printed number: they read back to it, and zeros only fill them up to a width. */
  predicate Prints(s: string, n: nat, width: nat) {
    && AllDigits(s) && Value(s) == n && |s| >= width && (|s| > width && |s| > 1 ==> s[0] != '0')
  }

  lemma {:induction false} NoLeadingZero(n: nat)
    ensures n >= 1 ==> Decimal(n)[0] != '0'
    ensures |Decimal(n)| > 1 ==> n >= 10
  {
    if n < 10 {
    } else {
      NoLeadingZero(n / 10);
      assert Decimal(n)[0] == Decimal(n / 10)[0];
    }
  }

  lemma PaddedPrints(n: nat, width: nat)
    ensures Prints(Padded(n, width), n, width) && Prints(Decimal(n), n, 1)
  {
    PaddedReadsBack(n, width);
    DecimalReadsBack(n);
    NoLeadingZero(n);
  }

  /** A financial year shows the last two digits of its years; anything else is cut to its last five characters. */
  lemma YearsPrint(fy: string)
    ensures var isYear := |fy| == 7 && AllDigits(fy[..4]) && fy[4] == '-' && AllDigits(fy[5..7]);
            && (isYear ==> Years(fy) == fy[2..4] + "-" + fy[5..7] && |Years(fy)| == 5)
            && (!isYear ==> Years(fy) == if |fy| <= 5 then fy else fy[|fy| - 5..])
  {
    assert |fy| == 7 ==> fy[5..] == fy[5..7];
  }

  /** As much of a text as there is room for. */
  predicate CutTo(head: string, own: string, room: nat) {
    head <= own && |head| == if |own| <= room then |own| else room
  }

  lemma SliceCuts(own: string, room: nat)
    ensures CutTo(Slice(own, 0, room), own, room)
  {}

  /** INV/26-27/000042: as much of the prefix as fits in sixteen characters, the two years, and the number in six
      digits or more. */
  lemma InSerialPrints(fy: string, n: int, prefix: Option<string>) returns (head: string, digits: string)
    requires |fy| == 7 && AllDigits(fy[..4]) && fy[4] == '-' && AllDigits(fy[5..7]) && 1 <= n < 100_000_000
    ensures InInvoiceSerial(fy, n, prefix) == Some(head + "/" + (fy[2..4] + "-" + fy[5..7]) + "/" + digits)
    ensures Prints(digits, n, 6) && |digits| <= 8
    ensures CutTo(head, if Own(prefix) == "" then "INV" else Own(prefix), 9 - |digits|)
  {
    assert fy[5..] == fy[5..7];
    digits := Padded(n, 6);
    assert Prints(digits, n, 6) by { PaddedPrints(n, 6); }
    assert |digits| <= 8 by { InSerialFits(fy, n, prefix); YearsPrint(fy); }
    YearsPrint(fy);
    head := Slice(if Own(prefix) == "" then "INV" else Own(prefix), 0, 9 - |digits|);
    SliceCuts(if Own(prefix) == "" then "INV" else Own(prefix), 9 - |digits|);
  }

  /** 26SEP-0001-42: the year's two digits, the month, the branch and the number as it is. */
  lemma LkSerialPrints(date: string, branch: Option<string>, n: int) returns (month: int, digits: string)
    requires LkInvoiceSerial(date, branch, n).Some?
    ensures |date| >= 6 && 1 <= month <= 12
    ensures AllDigits(Slice(date, 5, 7)) && Value(Slice(date, 5, 7)) == month
    ensures LkInvoiceSerial(date, branch, n) ==
              Some(date[2..4] + ["JAN", "FEB", "MAR", "APR", "MAY", "JUN", "JUL", "AUG", "SEP", "OCT", "NOV",
                                 "DEC"][month - 1] + "-" + LkBranchCode(branch) + "-" + digits)
    ensures n >= 1 && Prints(digits, n, 1)
  {
    month := Value(Slice(date, 5, 7));
    digits := Decimal(n);
    PaddedPrints(n, 1);
  }

  /** A branch without letters or digits is 0001; one of fewer than four digits is filled up with zeros; any other is
      cut to twelve characters. */
  lemma BranchPrints(branch: Option<string>)
    ensures var own, code := Own(branch), LkBranchCode(branch);
            && (own == "" ==> code == "0001")
            && (own != "" && AllDigits(own) && |own| < 4 ==>
                  |code| == 4 && AllDigits(code) && Value(code) == Value(own))
            && (own != "" && !(AllDigits(own) && |own| < 4) ==> code == if |own| <= 12 then own else own[..12])
  {
    var own := Own(branch);
    if own != "" && AllDigits(own) && |own| < 4 { ZerosAddNothing(4 - |own|, own); }
  }

  /** RC26-00042. */
  lemma ReceiptPrints(year: string, n: nat) returns (digits: string)
    requires |year| == 4
    ensures ReceiptNo(year, n) == "RC" + year[2..4] + "-" + digits && Prints(digits, n, 5)
  {
    digits := Padded(n, 5);
    PaddedPrints(n, 5);
    assert year[2..] == year[2..4];
  }

  /** 2608010001: the day without its century and its dashes, and the number in four digits or more. */
  lemma ReferencePrints(day: string, counter: nat) returns (digits: string)
    requires |day| == 10 && AllDigits(day[..4]) && day[4] == '-' && AllDigits(day[5..7]) && day[7] == '-'
    requires AllDigits(day[8..])
    ensures BookingReference(day, counter) == day[2..4] + day[5..7] + day[8..] + digits && Prints(digits, counter, 4)
  {
    digits := Padded(counter, 4);
    PaddedPrints(counter, 4);
    DayDigits(day);
  }
}
