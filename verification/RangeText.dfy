/** Queue members: ranges printed as "start-end" and parsed back. */
module RangeText {
  import opened Options
  import opened Ranges

  predicate IsDigit(c: char) {
    '0' <= c <= '9'
  }

  function DigitValue(c: char): nat
    requires IsDigit(c)
  {
    c as int - '0' as int
  }

  function Digit(d: nat): (c: char)
    requires d < 10
    ensures IsDigit(c) && DigitValue(c) == d
  {
    ('0' as int + d) as char
  }

  predicate AllDigits(s: string) {
    forall i :: 0 <= i < |s| ==> IsDigit(s[i])
  }

  /** Decimal formatting ("%d"). */
  function Print(n: nat): (s: string)
    ensures s != [] && AllDigits(s)
  {
    if n < 10 then [Digit(n)] else Print(n / 10) + [Digit(n % 10)]
  }

  function Value(s: string): nat
    requires AllDigits(s)
  {
    if s == [] then 0 else 10 * Value(s[..|s| - 1]) + DigitValue(s[|s| - 1])
  }

  /** Base ten, 64 bits: digits only, at least one, no overflow. */
  function ParseUint(s: string): Option<nat> {
    if s == [] || !AllDigits(s) then None
    else if Value(s) < TWO64 then Some(Value(s)) else None
  }

  function SplitAtDash(s: string): (parts: seq<string>)
    ensures parts != []
  {
    if s == [] then [[]]
    else
      var rest := SplitAtDash(s[1..]);
      if s[0] == '-' then [[]] + rest else [[s[0]] + rest[0]] + rest[1..]
  }

  function PrintRange(r: Range): string {
    Print(r.start) + "-" + Print(r.end)
  }

  function ParseRangeString(s: string): Option<Range> {
    var parts := SplitAtDash(s);
    if |parts| != 2 then None
    else
      var start, end := ParseUint(parts[0]), ParseUint(parts[1]);
      if start.None? || end.None? || start.value > end.value then None
      else Some(Range(start.value, end.value))
  }

  lemma {:induction false} ValueOfPrint(n: nat)
    ensures Value(Print(n)) == n
  {
    if n >= 10 {
      ValueOfPrint(n / 10);
      var s := Print(n);
      assert s[..|s| - 1] == Print(n / 10);
    } else {
      assert Print(n)[..0] == [];
    }
  }

  lemma {:induction false} PrintLeads(n: nat)
    ensures Print(n)[0] == '0' ==> n == 0
  {
    if n >= 10 {
      PrintLeads(n / 10);
    }
  }

  /** Printing is canonical: of all digit strings with that value it is the one
      without a leading zero. */
  lemma {:induction false} PrintCanonical(s: string, n: nat)
    requires s != [] && AllDigits(s)
    ensures s == Print(n) <==> Value(s) == n && (s[0] == '0' ==> |s| == 1)
  {
    PrintLeads(n);
    ValueOfPrint(n);
    if Value(s) == n && (s[0] == '0' ==> |s| == 1) {
      var init := s[..|s| - 1];
      if init == [] {
        assert s == [s[0]] && Value(init) == 0;
      } else {
        PrintCanonical(init, Value(init));
        LeadCounts(init);
        assert s == init + [s[|s| - 1]];
      }
    }
  }

  lemma {:induction false} LeadCounts(s: string)
    requires s != [] && AllDigits(s) && s[0] != '0'
    ensures Value(s) > 0
  {
    if |s| > 1 {
      LeadCounts(s[..|s| - 1]);
    }
  }

  lemma {:induction false} SplitWord(a: string)
    requires '-' !in a
    ensures SplitAtDash(a) == [a]
  {
    if a != [] {
      SplitWord(a[1..]);
      assert a == [a[0]] + a[1..];
    }
  }

  lemma {:induction false} SplitTwo(a: string, b: string)
    requires '-' !in a
    ensures SplitAtDash(a + "-" + b) == [a] + SplitAtDash(b)
  {
    var s := a + "-" + b;
    if a == [] {
      assert s[1..] == b;
    } else {
      assert s[1..] == a[1..] + "-" + b;
      SplitTwo(a[1..], b);
      assert a == [a[0]] + a[1..];
    }
  }

  /** If the text splits into two parts, it is the two joined by a dash. */
  lemma {:induction false} SplitJoin(s: string)
    ensures var p := SplitAtDash(s);
            && '-' !in p[0]
            && (|p| == 1 ==> s == p[0])
            && (|p| == 2 ==> s == p[0] + "-" + p[1] && '-' !in p[1])
  {
    if s != [] {
      SplitJoin(s[1..]);
      assert s == [s[0]] + s[1..];
      var rest := SplitAtDash(s[1..]);
      assert |rest| == 2 && s[0] != '-' ==> s == [s[0]] + rest[0] + "-" + rest[1];
    }
  }

  /** What the parser accepts, exactly: two digit strings joined by one dash,
      both below 2^64, the first not above the second. */
  lemma ParseExact(s: string, r: Range)
    ensures ParseRangeString(s) == Some(r) <==>
              && Valid(r)
              && exists a, b :: s == a + "-" + b && a != [] && b != [] && AllDigits(a) && AllDigits(b)
                                && Value(a) == r.start && Value(b) == r.end
  {
    SplitJoin(s);
    if ParseRangeString(s) == Some(r) {
      var parts := SplitAtDash(s);
      assert s == parts[0] + "-" + parts[1];
    }
    if Valid(r) {
      forall a, b | s == a + "-" + b && a != [] && b != [] && AllDigits(a) && AllDigits(b)
                    && Value(a) == r.start && Value(b) == r.end
        ensures ParseRangeString(s) == Some(r)
      {
        SplitTwo(a, b);
        SplitWord(b);
      }
    }
  }

  /** Round trip: parsing a printed range gives the range back. */
  lemma PrintParse(r: Range)
    requires r.start < TWO64 && r.end < TWO64
    ensures ParseRangeString(PrintRange(r)) == if r.start <= r.end then Some(r) else None
  {
    SplitTwo(Print(r.start), Print(r.end));
    SplitWord(Print(r.end));
    ValueOfPrint(r.start);
    ValueOfPrint(r.end);
  }

  /** Distinct ranges are distinct members. */
  lemma PrintInjective(a: Range, b: Range)
    requires PrintRange(a) == PrintRange(b)
    ensures a == b
  {
    SplitTwo(Print(a.start), Print(a.end));
    SplitWord(Print(a.end));
    SplitTwo(Print(b.start), Print(b.end));
    SplitWord(Print(b.end));
    assert [Print(a.start)] + [Print(a.end)] == [Print(b.start)] + [Print(b.end)];
    assert Print(a.start) == ([Print(a.start)] + [Print(a.end)])[0];
    assert Print(a.end) == ([Print(a.start)] + [Print(a.end)])[1];
    ValueOfPrint(a.start);
    ValueOfPrint(a.end);
    ValueOfPrint(b.start);
    ValueOfPrint(b.end);
  }
}
