/** The text of a count file (`write_new_count` and `read_previous_count`): a decimal number, and what is
    read from any text. */
module CountText {

  import opened Wrappers
  import opened Strings
  import opened DeltaGate

  function Digit(d: nat): (c: char)
    requires d < 10
    ensures '0' <= c <= '9' && c as int - '0' as int == d
  {
    (d + '0' as int) as char
  }

  predicate IsDigit(c: char) {
    '0' <= c <= '9'
  }

  predicate AllDigits(s: string) {
    forall i :: 0 <= i < |s| ==> IsDigit(s[i])
  }

  /** `to_string`. */
  function Decimal(n: nat): (s: string)
    ensures s != [] && AllDigits(s)
  {
    if n < 10 then [Digit(n)] else Decimal(n / 10) + [Digit(n % 10)]
  }

  /** The number some digits are, one after the other. */
  function Number(digits: string): nat
    requires AllDigits(digits)
  {
    if digits == [] then 0
    else
      var last := digits[|digits| - 1];
      assert IsDigit(last);
      Number(digits[..|digits| - 1]) * 10 + (last as int - '0' as int)
  }

  /** `parse::<usize>` on 64 bits: one plus sign may stand before the digits. */
  function Parse(text: string): Option<nat> {
    var digits := if text != [] && text[0] == '+' then text[1..] else text;
    if digits == [] || !AllDigits(digits) then None
    else if Number(digits) <= USIZE_MAX then Some(Number(digits)) else None
  }

  /** What `read_previous_count` reads from a text. */
  function ReadCount(text: string): Option<nat> {
    Parse(Trim(text))
  }

  lemma {:induction false} NumberOfDecimal(n: nat)
    ensures Number(Decimal(n)) == n
  {
    if n >= 10 {
      NumberOfDecimal(n / 10);
      Snoc(Decimal(n / 10), Digit(n % 10));
    }
  }

  lemma ParseOfDigits(text: string)
    requires text != [] && AllDigits(text)
    ensures Parse(text) == if Number(text) <= USIZE_MAX then Some(Number(text)) else None
  {
    assert IsDigit(text[0]);
  }

  lemma DigitsStandTrimmed(text: string)
    requires text != [] && IsDigit(text[0]) && IsDigit(text[|text| - 1])
    ensures Trim(text) == text
  {
    TrimIsIdentityOnTrimmed(text);
  }

  /** A count that is written is read back, whole. */
  lemma CountReadsBack(n: nat)
    ensures ReadCount(Decimal(n)) == if n <= USIZE_MAX then Some(n) else None
  {
    DigitsStandTrimmed(Decimal(n));
    ParseOfDigits(Decimal(n));
    NumberOfDecimal(n);
  }

  function LeadingZeros(n: nat): string {
    if n == 0 then "" else LeadingZeros(n - 1) + "0"
  }

  lemma {:induction false} ZerosAreNothing(n: nat)
    ensures AllDigits(LeadingZeros(n)) && Number(LeadingZeros(n)) == 0
  {
    if n > 0 {
      ZerosAreNothing(n - 1);
      Snoc(LeadingZeros(n - 1), '0');
    }
  }

  lemma {:induction false} LeadingZerosAddNothing(n: nat, digits: string)
    requires AllDigits(digits)
    ensures AllDigits(LeadingZeros(n) + digits)
    ensures Number(LeadingZeros(n) + digits) == Number(digits)
    decreases |digits|
  {
    ZerosAreNothing(n);
    if digits == [] {
      NothingAfter(LeadingZeros(n));
    } else {
      var init, last := digits[..|digits| - 1], digits[|digits| - 1];
      assert IsDigit(last);
      LeadingZerosAddNothing(n, init);
      Unsnoc(digits);
      Assoc(LeadingZeros(n), init, [last]);
      Snoc(LeadingZeros(n) + init, last);
    }
  }

  lemma SignedReads(digits: string, text: string)
    requires digits != [] && AllDigits(digits)
    requires text == digits || text == "+" + digits
    ensures IsTrimmed(text) && Parse(text) == if Number(digits) <= USIZE_MAX then Some(Number(digits)) else None
  {
    assert IsDigit(digits[0]) && IsDigit(digits[|digits| - 1]);
    assert ("+" + digits)[1..] == digits;
  }

  /** White space around a count, a plus sign and leading zeros change nothing. */
  lemma PaddedCountReads(text: string, core: string, zeros: nat, n: nat)
    requires IsPaddedIn(text, core)
    requires core == LeadingZeros(zeros) + Decimal(n) || core == "+" + (LeadingZeros(zeros) + Decimal(n))
    ensures ReadCount(text) == if n <= USIZE_MAX then Some(n) else None
  {
    LeadingZerosAddNothing(zeros, Decimal(n));
    NumberOfDecimal(n);
    SignedReads(LeadingZeros(zeros) + Decimal(n), core);
    PaddedTrims(text, core);
  }

  lemma ParsedIs(text: string, digits: string)
    requires Parse(text).Some? && digits == if text != [] && text[0] == '+' then text[1..] else text
    ensures digits != [] && AllDigits(digits)
  {
  }

  /** Nothing else is read as a count: without the white space around it, the text is digits behind at
      most one plus sign. */
  lemma OnlyDigitsRead(text: string)
    requires ReadCount(text).Some?
    ensures var core := Trim(text);
            && core != [] && (core[0] == '+' ==> |core| > 1) && (IsDigit(core[0]) || core[0] == '+')
            && forall i :: 0 < i < |core| ==> IsDigit(core[i])
  {
    var core := Trim(text);
    var digits := if core != [] && core[0] == '+' then core[1..] else core;
    ParsedIs(core, digits);
    assert IsDigit(digits[0]);
    forall i | 0 < i < |core| ensures IsDigit(core[i]) {
      assert core[i] == if core[0] == '+' then digits[i - 1] else digits[i];
    }
  }
}
