/**
 * The albums table as a value: a sequence of records, the uniqueness
 * constraint the external schema places on it, and what each of the
 * program's three statements (insert, delete, exact-match select) does to
 * the rows and which report the program prints for it.
 */
module Table {
  import opened Wrappers
  import opened Reports

  /** One row of the albums table. */
  datatype Record = Record(artist: string, album: string, mediatype: string)

  /** The "<artist> - <album> (<mediatype>)" part every outcome message starts with. */
  function Describe(t: Record): string
  {
    t.artist + " - " + t.album + " (" + t.mediatype + ")"
  }

  const AddedSuffix := " added."
  const DuplicateSuffix := " Already in Database."
  const RemovedSuffix := " removed."
  const NotFoundSuffix := " not found."
  const PresentSuffix := " present in database."

  function AddedText(t: Record): string { Describe(t) + AddedSuffix }
  function DuplicateText(t: Record): string { Describe(t) + DuplicateSuffix }
  function RemovedText(t: Record): string { Describe(t) + RemovedSuffix }
  function NotFoundText(t: Record): string { Describe(t) + NotFoundSuffix }
  function PresentText(t: Record): string { Describe(t) + PresentSuffix }

  /**
   * For one record, the messages of different outcomes are different texts
   * (a missed delete and a missed search share "not found.").
   */
  lemma OutcomeTextsDistinct(t: Record)
    ensures AddedText(t) != DuplicateText(t) && AddedText(t) != RemovedText(t)
    ensures AddedText(t) != NotFoundText(t) && AddedText(t) != PresentText(t)
    ensures DuplicateText(t) != RemovedText(t) && DuplicateText(t) != NotFoundText(t)
    ensures DuplicateText(t) != PresentText(t) && RemovedText(t) != NotFoundText(t)
    ensures RemovedText(t) != PresentText(t) && NotFoundText(t) != PresentText(t)
  {
    var d := Describe(t);
    // the suffixes differ in length, except these two, which differ in their second letter
    assert DuplicateSuffix[1] != PresentSuffix[1];
    Distinguish(d, DuplicateSuffix, PresentSuffix);
    Distinguish(d, AddedSuffix, DuplicateSuffix);
    Distinguish(d, AddedSuffix, RemovedSuffix);
    Distinguish(d, AddedSuffix, NotFoundSuffix);
    Distinguish(d, AddedSuffix, PresentSuffix);
    Distinguish(d, DuplicateSuffix, RemovedSuffix);
    Distinguish(d, DuplicateSuffix, NotFoundSuffix);
    Distinguish(d, RemovedSuffix, NotFoundSuffix);
    Distinguish(d, RemovedSuffix, PresentSuffix);
    Distinguish(d, NotFoundSuffix, PresentSuffix);
  }

  lemma Distinguish(d: string, a: string, b: string)
    requires a != b
    ensures d + a != d + b
  {
    assert (d + a)[|d|..] == a && (d + b)[|d|..] == b;
  }

  /** How many rows equal x on all three fields. */
  function Count(rows: seq<Record>, x: Record): (n: nat)
    ensures n <= |rows|
    ensures n == 0 <==> x !in rows
  {
    if rows == [] then 0
    else (if rows[0] == x then 1 else 0) + Count(rows[1..], x)
  }

  /** The schema's UNIQUE constraint over (artist, album, mediatype): no record occurs twice. */
  ghost predicate Unique(rows: seq<Record>)
  {
    forall x :: Count(rows, x) <= 1
  }

  lemma {:induction false} CountAppend(rows: seq<Record>, t: Record)
    ensures forall x :: Count(rows + [t], x) == Count(rows, x) + (if x == t then 1 else 0)
  {
    if rows == [] {
      assert [t][1..] == [];
    } else {
      assert (rows + [t])[1..] == rows[1..] + [t];
      CountAppend(rows[1..], t);
    }
  }

  /** DELETE ... WHERE artist=? AND album=? AND mediatype=?: every row equal to t goes, the rest stay in order. */
  function Without(rows: seq<Record>, t: Record): (r: seq<Record>)
    ensures forall x :: Count(r, x) == if x == t then 0 else Count(rows, x)
    ensures |r| == |rows| - Count(rows, t)
  {
    if rows == [] then []
    else if rows[0] == t then Without(rows[1..], t)
    else
      var w := Without(rows[1..], t);
      assert ([rows[0]] + w)[1..] == w;
      [rows[0]] + w
  }

  lemma {:induction false} WithoutAbsent(rows: seq<Record>, t: Record)
    requires t !in rows
    ensures Without(rows, t) == rows
  {
    if rows != [] {
      assert t !in rows[1..];
      WithoutAbsent(rows[1..], t);
    }
  }

  lemma {:induction false} WithoutAppended(rows: seq<Record>, t: Record)
    ensures Without(rows + [t], t) == Without(rows, t)
  {
    if rows == [] {
      assert [t][1..] == [];
    } else {
      assert (rows + [t])[1..] == rows[1..] + [t];
      WithoutAppended(rows[1..], t);
    }
  }

  /** The rows after a statement, and the report the program prints for it. */
  datatype Step = Step(rows: seq<Record>, report: Report)

  /**
   * addToDatabase. `fault` is an integrity error other than the UNIQUE one,
   * raised by the engine with that text, and printed as an error line;
   * without one, a present record violates the UNIQUE constraint.
   */
  function Insert(rows: seq<Record>, t: Record, fault: Option<string>): (s: Step)
    ensures fault.Some? ==> s == Step(rows, FaultReport(fault.value))
    ensures fault.None? && t in rows ==> s == Step(rows, Report(Warning, DuplicateText(t)))
    ensures fault.None? && t !in rows ==> s.report == Report(Success, AddedText(t))
    ensures forall x :: Count(s.rows, x) == Count(rows, x) + (if x == t && s.report.severity == Success then 1 else 0)
    ensures |s.rows| >= |rows| && s.rows[..|rows|] == rows
    ensures Unique(rows) ==> Unique(s.rows)
  {
    if fault.Some? then Step(rows, FaultReport(fault.value))
    else if t in rows then Step(rows, Report(Warning, DuplicateText(t)))
    else
      CountAppend(rows, t);
      Step(rows + [t], Report(Success, AddedText(t)))
  }

  /** removeFromDatabase: the delete, then success iff the statement changed a row. */
  function Delete(rows: seq<Record>, t: Record, fault: Option<string>): (s: Step)
    ensures fault.Some? ==> s == Step(rows, FaultReport(fault.value))
    ensures fault.None? ==> forall x :: Count(s.rows, x) == if x == t then 0 else Count(rows, x)
    ensures fault.None? ==> s.report == if t in rows then Report(Success, RemovedText(t)) else Report(Warning, NotFoundText(t))
    ensures Unique(rows) ==> Unique(s.rows)
  {
    if fault.Some? then Step(rows, FaultReport(fault.value))
    else
      var kept := Without(rows, t);
      var changes := |rows| - |kept|;
      Step(kept, if changes > 0 then Report(Success, RemovedText(t)) else Report(Warning, NotFoundText(t)))
  }

  /** searchInDatabase: success iff the exact-match select returns a row. */
  function Find(rows: seq<Record>, t: Record, fault: Option<string>): (r: Report)
    ensures fault.Some? ==> r == FaultReport(fault.value)
    ensures fault.None? ==> r == if t in rows then Report(Success, PresentText(t)) else Report(Warning, NotFoundText(t))
  {
    if fault.Some? then FaultReport(fault.value)
    else if Count(rows, t) > 0 then Report(Success, PresentText(t))
    else Report(Warning, NotFoundText(t))
  }

  /** An added record is then found. */
  lemma InsertThenFind(rows: seq<Record>, t: Record)
    ensures Find(Insert(rows, t, None).rows, t, None) == Report(Success, PresentText(t))
  {
  }

  /** Adding the same record twice: success, then a duplicate warning, and the table holds it once. */
  lemma InsertTwice(rows: seq<Record>, t: Record)
    requires t !in rows
    ensures Insert(rows, t, None).report == Report(Success, AddedText(t))
    ensures Insert(Insert(rows, t, None).rows, t, None).report == Report(Warning, DuplicateText(t))
    ensures Insert(Insert(rows, t, None).rows, t, None).rows == Insert(rows, t, None).rows
    ensures Count(Insert(Insert(rows, t, None).rows, t, None).rows, t) == 1
  {
  }

  /** Removing a present record succeeds; removing or searching it again reports it not found. */
  lemma DeleteTwice(rows: seq<Record>, t: Record)
    requires t in rows
    ensures Delete(rows, t, None).report == Report(Success, RemovedText(t))
    ensures Delete(Delete(rows, t, None).rows, t, None).report == Report(Warning, NotFoundText(t))
    ensures Find(Delete(rows, t, None).rows, t, None) == Report(Warning, NotFoundText(t))
  {
  }

  /** On a table that keeps the uniqueness constraint, removing a present record deletes exactly one row. */
  lemma DeleteUniqueRemovesOne(rows: seq<Record>, t: Record)
    requires Unique(rows) && t in rows
    ensures |Delete(rows, t, None).rows| == |rows| - 1
  {
  }

  /** Removing a record just added to a table without it gives back the table as it was. */
  lemma InsertThenDelete(rows: seq<Record>, t: Record)
    requires t !in rows
    ensures Delete(Insert(rows, t, None).rows, t, None).rows == rows
  {
    WithoutAppended(rows, t);
    WithoutAbsent(rows, t);
  }
}
