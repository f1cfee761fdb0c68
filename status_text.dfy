/**
 * The status line shown under the progress bar (system_progress.cpp lines 161-166):
 * "Progress:", then " file D of T" when a file total is known, a "," when a module
 * total is known too, then " module D of T" when a module total is known. Counters
 * are printed with `%u`, i.e. in decimal without leading zeros.
 */
module StatusText {
  import opened Wrappers

  predicate IsDigit(c: char) {
    '0' <= c <= '9'
  }

  predicate AllDigits(s: string) {
    forall i :: 0 <= i < |s| ==> IsDigit(s[i])
  }

  function DigitChar(d: nat): (c: char)
    requires d < 10
    ensures IsDigit(c) && c as int - '0' as int == d
  {
    ('0' as int + d) as char
  }

  /** `%u` formatting: the decimal digits of n, most significant first. */
  function Decimal(n: nat): (s: string)
    ensures |s| >= 1 && AllDigits(s)
    ensures s[0] == '0' ==> n == 0 && s == "0"
    decreases n
  {
    if n < 10 then [DigitChar(n)] else Decimal(n / 10) + [DigitChar(n % 10)]
  }

  /** The number a string of decimal digits denotes. */
  function DigitsValue(s: string): nat
    requires AllDigits(s)
  {
    if s == [] then 0 else DigitsValue(s[..|s| - 1]) * 10 + (s[|s| - 1] as int - '0' as int)
  }

  /** Printing then reading back a counter gives the counter. */
  lemma {:induction false} DecimalRoundTrip(n: nat)
    ensures DigitsValue(Decimal(n)) == n
    decreases n
  {
    var s := Decimal(n);
    if n >= 10 {
      DecimalRoundTrip(n / 10);
      assert s[..|s| - 1] == Decimal(n / 10);
    }
  }

  /** The length of the run of digits that starts s. */
  function DigitRun(s: string): (k: nat)
    ensures k <= |s| && AllDigits(s[..k])
    ensures k < |s| ==> !IsDigit(s[k])
  {
    if s == [] || !IsDigit(s[0]) then 0
    else
      var k := 1 + DigitRun(s[1..]);
      assert s[..k] == [s[0]] + s[1..][..k - 1];
      k
  }

  /** A run of digits stops where the digits stop. */
  lemma {:induction false} DigitRunOfDigits(d: string, t: string)
    requires AllDigits(d)
    requires t == [] || !IsDigit(t[0])
    ensures DigitRun(d + t) == |d|
    decreases |d|
  {
    if d != [] {
      assert (d + t)[1..] == d[1..] + t;
      DigitRunOfDigits(d[1..], t);
    }
  }

  /** Reads a decimal number at the head of s; None when s does not start with a digit. */
  function ReadNumber(s: string): Option<(nat, string)>
  {
    var k := DigitRun(s);
    if k == 0 then None else Some((DigitsValue(s[..k]), s[k..]))
  }

  lemma ReadNumberOfDecimal(n: nat, t: string)
    requires t == [] || !IsDigit(t[0])
    ensures ReadNumber(Decimal(n) + t) == Some((n, t))
  {
    var d := Decimal(n);
    DigitRunOfDigits(d, t);
    assert (d + t)[..|d|] == d;
    assert (d + t)[|d|..] == t;
    DecimalRoundTrip(n);
  }

  /** A (done, total) pair as printed by "D of T". */
  datatype Count = Count(done: nat, total: nat)

  /** What a status line says: the file pair if shown, the module pair if shown. */
  datatype StatusView = StatusView(files: Option<Count>, modules: Option<Count>)

  function Clause(keyword: string, done: nat, total: nat): string
  {
    keyword + Decimal(done) + " of " + Decimal(total)
  }

  /** The status line built from a snapshot of the four counters. */
  function Status(ftotal: nat, fdone: nat, ptotal: nat, pdone: nat): (s: string)
    ensures StartsWith("Progress:", s)
    ensures s == "Progress:" <==> ftotal == 0 && ptotal == 0
  {
    var files := if ftotal != 0 then Clause(" file ", fdone, ftotal) + (if ptotal != 0 then "," else "") else "";
    var modules := if ptotal != 0 then Clause(" module ", pdone, ptotal) else "";
    SplitAt("Progress:", files + modules);
    assert "Progress:" + files + modules == "Progress:" + (files + modules);
    "Progress:" + files + modules
  }

  predicate StartsWith(prefix: string, s: string) {
    |s| >= |prefix| && s[..|prefix|] == prefix
  }

  /** Reads `keyword D of T` at the head of s. */
  function ReadClause(keyword: string, s: string): Option<(Count, string)>
  {
    if !StartsWith(keyword, s) then None
    else match ReadNumber(s[|keyword|..])
      case None => None
      case Some((done, r)) =>
        match ReadTotal(r)
        case None => None
        case Some((total, r')) => Some((Count(done, total), r'))
  }

  /** Reads ` of T` at the head of s. */
  function ReadTotal(s: string): Option<(nat, string)>
  {
    if !StartsWith(" of ", s) then None else ReadNumber(s[4..])
  }

  lemma ReadTotalOf(total: nat, t: string)
    requires t == [] || !IsDigit(t[0])
    ensures ReadTotal(" of " + Decimal(total) + t) == Some((total, t))
  {
    assert " of " + Decimal(total) + t == " of " + (Decimal(total) + t);
    SplitAt(" of ", Decimal(total) + t);
    ReadNumberOfDecimal(total, t);
  }

  lemma ReadClauseOfClause(keyword: string, done: nat, total: nat, t: string)
    requires t == [] || !IsDigit(t[0])
    ensures ReadClause(keyword, Clause(keyword, done, total) + t) == Some((Count(done, total), t))
  {
    var r := " of " + Decimal(total) + t;
    var r0 := Decimal(done) + r;
    assert Clause(keyword, done, total) + t == keyword + r0;
    SplitAt(keyword, r0);
    ReadNumberOfDecimal(done, r);
    ReadTotalOf(total, t);
  }

  lemma SplitAt(p: string, rest: string)
    ensures |p + rest| >= |p|
    ensures (p + rest)[..|p|] == p && (p + rest)[|p|..] == rest
  {
  }

  /** Reads a status line back into what it says; None when it is not one. */
  function ReadStatus(s: string): Option<StatusView>
  {
    if !StartsWith("Progress:", s) then None
    else
      var r := s[9..];
      match ReadClause(" file ", r)
      case Some((files, r1)) =>
        if r1 == [] then Some(StatusView(Some(files), None))
        else if r1[0] != ',' then None
        else ReadModulesOnly(Some(files), r1[1..])
      case None =>
        if r == [] then Some(StatusView(None, None))
        else ReadModulesOnly(None, r)
  }

  function ReadModulesOnly(files: Option<Count>, s: string): Option<StatusView>
  {
    match ReadClause(" module ", s)
    case Some((modules, rest)) => if rest == [] then Some(StatusView(files, Some(modules))) else None
    case None => None
  }

  /** What the status line of a snapshot should say: each pair exactly when its total is known. */
  function Expected(ftotal: nat, fdone: nat, ptotal: nat, pdone: nat): StatusView
  {
    StatusView(if ftotal != 0 then Some(Count(fdone, ftotal)) else None,
               if ptotal != 0 then Some(Count(pdone, ptotal)) else None)
  }

  /**
   * The status line shows the file pair iff ftotal != 0 and the module pair iff
   * ptotal != 0, with the counters printed faithfully; reading it back succeeds,
   * which needs the comma exactly when both pairs are there.
   */
  lemma StatusRoundTrip(ftotal: nat, fdone: nat, ptotal: nat, pdone: nat)
    ensures ReadStatus(Status(ftotal, fdone, ptotal, pdone)) == Some(Expected(ftotal, fdone, ptotal, pdone))
  {
    var s := Status(ftotal, fdone, ptotal, pdone);
    if ftotal != 0 && ptotal != 0 {
      assert s == "Progress:" + Clause(" file ", fdone, ftotal) + "," + Clause(" module ", pdone, ptotal);
      ReadBoth(fdone, ftotal, pdone, ptotal);
    } else if ftotal != 0 {
      assert s == "Progress:" + Clause(" file ", fdone, ftotal);
      ReadFilesOnly(fdone, ftotal);
    } else if ptotal != 0 {
      assert s == "Progress:" + Clause(" module ", pdone, ptotal);
      ReadModulesAlone(pdone, ptotal);
    } else {
      assert s == "Progress:";
    }
  }

  lemma ReadBoth(fdone: nat, ftotal: nat, pdone: nat, ptotal: nat)
    ensures ReadStatus("Progress:" + Clause(" file ", fdone, ftotal) + "," + Clause(" module ", pdone, ptotal))
            == Some(StatusView(Some(Count(fdone, ftotal)), Some(Count(pdone, ptotal))))
  {
    var mods := Clause(" module ", pdone, ptotal);
    var s := "Progress:" + Clause(" file ", fdone, ftotal) + "," + mods;
    assert s[..9] == "Progress:";
    assert s[9..] == Clause(" file ", fdone, ftotal) + ("," + mods);
    ReadClauseOfClause(" file ", fdone, ftotal, "," + mods);
    assert ("," + mods)[1..] == mods + [];
    ReadClauseOfClause(" module ", pdone, ptotal, []);
  }

  lemma ReadFilesOnly(fdone: nat, ftotal: nat)
    ensures ReadStatus("Progress:" + Clause(" file ", fdone, ftotal))
            == Some(StatusView(Some(Count(fdone, ftotal)), None))
  {
    var s := "Progress:" + Clause(" file ", fdone, ftotal);
    assert s[..9] == "Progress:";
    assert s[9..] == Clause(" file ", fdone, ftotal) + [];
    ReadClauseOfClause(" file ", fdone, ftotal, []);
  }

  lemma ReadModulesAlone(pdone: nat, ptotal: nat)
    ensures ReadStatus("Progress:" + Clause(" module ", pdone, ptotal))
            == Some(StatusView(None, Some(Count(pdone, ptotal))))
  {
    var mods := Clause(" module ", pdone, ptotal);
    var s := "Progress:" + mods;
    assert s[..9] == "Progress:";
    assert s[9..] == mods + [];
    assert mods[..6] == " modul";
    assert ReadClause(" file ", mods) == None;
    ReadClauseOfClause(" module ", pdone, ptotal, []);
  }

  /** The status line always begins with "Progress:" and is only that when no total is known. */
  lemma StatusShape(ftotal: nat, fdone: nat, ptotal: nat, pdone: nat)
    ensures |Status(ftotal, fdone, ptotal, pdone)| >= 9
    ensures Status(ftotal, fdone, ptotal, pdone)[..9] == "Progress:"
    ensures Status(ftotal, fdone, ptotal, pdone) == "Progress:" <==> ftotal == 0 && ptotal == 0
  {
  }

  /** Worked value with both totals known. */
  lemma ExampleBoth()
    ensures Status(3, 1, 2, 0) == "Progress: file 1 of 3, module 0 of 2"
  {
    assert Decimal(1) == "1" && Decimal(3) == "3" && Decimal(0) == "0" && Decimal(2) == "2";
    assert Clause(" file ", 1, 3) == " file 1 of 3";
    assert Clause(" module ", 0, 2) == " module 0 of 2";
    assert Status(3, 1, 2, 0) == "Progress:" + " file 1 of 3" + "," + " module 0 of 2";
  }

  /** Worked value with only the file total known. */
  lemma ExampleFilesOnly()
    ensures Status(3, 1, 0, 0) == "Progress: file 1 of 3"
  {
    assert Decimal(1) == "1" && Decimal(3) == "3";
  }

  /** Worked value with only the module total known. */
  lemma ExampleModulesOnly()
    ensures Status(0, 0, 4, 2) == "Progress: module 2 of 4"
  {
    assert Decimal(2) == "2" && Decimal(4) == "4";
  }
}
