// src/lib/billNumber.ts: EM-<shopCode>-<year>-<seq, at least six digits>.
module BillNumbers {
  import opened Text

  function BillNumber(code: string, year: nat, seq_: nat): string {
    "EM-" + code + "-" + Decimal(year) + "-" + PadStart(Decimal(seq_), 6)
  }

  /** A bill number is EM, the code, the year and at least six digits, dashes between; only padding starts with a zero. */
  lemma {:induction false} NumberReads(code: string, year: nat, seq_: nat) returns (y: string, tail: string)
    ensures BillNumber(code, year, seq_) == "EM-" + code + "-" + y + "-" + tail
    ensures AllDigits(y) && ValueOf(y) == year && y != [] && (|y| > 1 ==> y[0] != '0')
    ensures AllDigits(tail) && ValueOf(tail) == seq_ && |tail| >= 6 && (|tail| > 6 ==> tail[0] != '0')
  {
    y, tail := Decimal(year), PadStart(Decimal(seq_), 6);
    DecimalValue(year);
    PaddedValue(seq_, 6);
  }

  lemma {:induction false} DashInTail(a: string, x: string, b: string, y: string)
    requires a + "-" + x == b + "-" + y && |a| < |b|
    ensures '-' in x
  {
    assert (b + "-" + y)[|b|] == '-';
    assert (a + "-" + x)[|b|] == x[|b| - |a| - 1];
  }

  /** The last dash of a string is where a dash-free tail begins. */
  lemma {:induction false} SplitAtLastDash(a: string, x: string, b: string, y: string)
    requires a + "-" + x == b + "-" + y && '-' !in x && '-' !in y
    ensures a == b && x == y
  {
    if |a| < |b| {
      DashInTail(a, x, b, y);
    } else if |b| < |a| {
      DashInTail(b, y, a, x);
    } else {
      assert a == (a + "-" + x)[..|a|] && b == (b + "-" + y)[..|b|];
      assert x == (a + "-" + x)[|a| + 1..] && y == (b + "-" + y)[|b| + 1..];
    }
  }

  /** A bill number tells its shop code, year and sequence number apart, whatever the code contains. */
  lemma {:induction false} BillNumberInjective(code: string, year: nat, seq_: nat, code': string, year': nat, seq': nat)
    requires BillNumber(code, year, seq_) == BillNumber(code', year', seq')
    ensures code == code' && year == year' && seq_ == seq'
  {
    PaddedValue(seq_, 6);
    PaddedValue(seq', 6);
    DecimalValue(year);
    DecimalValue(year');
    var head, head' := "EM-" + code + "-" + Decimal(year), "EM-" + code' + "-" + Decimal(year');
    SplitAtLastDash(head, PadStart(Decimal(seq_), 6), head', PadStart(Decimal(seq'), 6));
    SplitAtLastDash("EM-" + code, Decimal(year), "EM-" + code', Decimal(year'));
    assert code == ("EM-" + code)[3..] && code' == ("EM-" + code')[3..];
  }
}
