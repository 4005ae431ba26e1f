/** Days written the British way, `dd/mm/yyyy`: how `toLocaleDateString('en-GB')`
  * with two-digit day and month renders a day, and how the ledgers'
  * `parseUKDate` reads such a text back. */
module UkDates {
  import opened Seqs
  import opened Text
  import opened Sorting

  /** A number with at least two digits, a leading zero added below ten. */
  function Pad2(n: nat): (r: string)
    ensures |r| >= 2 && '/' !in r
  {
    if n < 10 then ['0', DigitChar(n)] else NatToString(n)
  }

  /** `toLocaleDateString('en-GB', {day: '2-digit', month: '2-digit', year: 'numeric'})`. */
  function FormatUkDate(d: Date): string {
    Pad2(d.day) + "/" + Pad2(d.month) + "/" + NatToString(d.year)
  }

  function DigitValue(c: char): nat
    requires '0' <= c <= '9'
  {
    (c as int - '0' as int) as nat
  }

  predicate AllDigits(s: string) {
    forall i :: 0 <= i < |s| ==> '0' <= s[i] <= '9'
  }

  /** The number a string of decimal digits denotes. */
  function ParseDigits(s: string): nat
    requires AllDigits(s)
    decreases |s|
  {
    if s == [] then 0 else ParseDigits(s[..|s| - 1]) * 10 + DigitValue(s[|s| - 1])
  }

  /** `parseUKDate`: the third, second and first pieces between slashes as the
    * year, month and day; None when the text is not three runs of digits
    * separated that way. */
  function ParseUkDate(s: string): Option<Date> {
    var parts := Split(s, '/');
    if |parts| == 3 && parts[0] != [] && parts[1] != [] && parts[2] != [] &&
       AllDigits(parts[0]) && AllDigits(parts[1]) && AllDigits(parts[2])
    then Some(Date(ParseDigits(parts[2]), ParseDigits(parts[1]), ParseDigits(parts[0])))
    else None
  }

  lemma DigitRoundTrip(d: nat)
    requires d < 10
    ensures DigitValue(DigitChar(d)) == d
  {
  }

  /** Reading back a rendered number gives the number. */
  lemma {:induction false} ParseNatToString(n: nat)
    ensures AllDigits(NatToString(n))
    ensures ParseDigits(NatToString(n)) == n
  {
    var s := NatToString(n);
    if n < 10 {
      DigitRoundTrip(n);
      assert s[..0] == [];
    } else {
      ParseNatToString(n / 10);
      DigitRoundTrip(n % 10);
      assert s[..|s| - 1] == NatToString(n / 10);
    }
  }

  lemma ParsePad2(n: nat)
    ensures AllDigits(Pad2(n)) && ParseDigits(Pad2(n)) == n
  {
    if n < 10 {
      DigitRoundTrip(n);
      var s := Pad2(n);
      assert s[..1][..0] == [];
      assert ParseDigits(s[..1]) == 0;
      assert s[|s| - 1] == DigitChar(n);
    } else {
      ParseNatToString(n);
    }
  }

  /** The pieces of a rendered day are its day, month and year. */
  lemma FormatUkDatePieces(d: Date)
    ensures Split(FormatUkDate(d), '/') == [Pad2(d.day), Pad2(d.month), NatToString(d.year)]
  {
    var dd, mm, yy := Pad2(d.day), Pad2(d.month), NatToString(d.year);
    assert '/' !in yy;
    SplitNoSep(yy, '/');
    SplitAfterPiece(mm, '/', yy);
    assert FormatUkDate(d) == dd + ['/'] + (mm + ['/'] + yy);
    SplitAfterPiece(dd, '/', mm + ['/'] + yy);
  }

  /** Every rendered day reads back as that day. */
  lemma ParseFormatUkDate(d: Date)
    ensures ParseUkDate(FormatUkDate(d)) == Some(d)
  {
    FormatUkDatePieces(d);
    ParsePad2(d.day);
    ParsePad2(d.month);
    ParseNatToString(d.year);
  }
}
