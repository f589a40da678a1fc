/**
 * The record store gateway: the persistent albums table as an object whose
 * rows the four gateway operations read and change. The SQLite connection,
 * cursor, commit and close are not modelled; each method does what its
 * statement does to the rows and returns the line the program prints.
 */
module Database {
  import opened Wrappers
  import opened Reports
  import opened Decimal
  import opened Table

  /** The columns the listing may be ordered by. */
  const SortKeys: set<string> := {"artist", "album", "mediatype"}

  const SortKeyWarning := "Table only sortable by \"artist\", \"album\" or \"mediatype\""

  /** One listing line: the 1-based counter, then artist, album and the media type in parentheses. */
  function RowLine(i: nat, t: Record): string
  {
    DecimalString(i) + ": " + t.artist + " - " + t.album + " (" + t.mediatype + ")"
  }

  /** The counter can be read back from a listing line, so no two lines carry the same number. */
  lemma RowLineNumbered(i: nat, j: nat, t: Record, u: Record)
    requires RowLine(i, t) == RowLine(j, u)
    ensures i == j
  {
    var a, b := DecimalString(i), DecimalString(j);
    var line := RowLine(i, t);
    assert line == a + (": " + t.artist + " - " + t.album + " (" + t.mediatype + ")");
    assert line == b + (": " + u.artist + " - " + u.album + " (" + u.mediatype + ")");
    // a numeral is all digits and ':' is not a digit, so both numerals end where the first ':' is
    assert line[|a|] == ':' && line[|b|] == ':';
    assert forall k :: 0 <= k < |a| ==> line[k] == a[k] && line[k] != ':';
    assert forall k :: 0 <= k < |b| ==> line[k] == b[k] && line[k] != ':';
    assert |a| == |b|;
    assert a == line[..|a|] == b;
    DecimalInjective(i, j);
  }

  /** The listing lines for the rows of a scan, numbered consecutively from `first`. */
  function Numbered(scan: seq<Record>, first: nat): (lines: seq<Report>)
    ensures |lines| == |scan|
    ensures forall k :: 0 <= k < |scan| ==> lines[k] == Report(Plain, RowLine(first + k, scan[k]))
    decreases |scan|
  {
    if scan == [] then []
    else [Report(Plain, RowLine(first, scan[0]))] + Numbered(scan[1..], first + 1)
  }

  /** No two lines of a listing carry the same number. */
  lemma NumberedDistinct(scan: seq<Record>, first: nat, j: nat, k: nat)
    requires j < k < |scan|
    ensures Numbered(scan, first)[j] != Numbered(scan, first)[k]
  {
    var lines := Numbered(scan, first);
    if lines[j] == lines[k] {
      RowLineNumbered(first + j, first + k, scan[j], scan[k]);
      assert false;
    }
  }

  class AlbumTable {
    var rows: seq<Record>

    /** The table satisfies the schema's uniqueness constraint. */
    ghost predicate Valid()
      reads this
    {
      Unique(rows)
    }

    /** The pre-provisioned table, with whatever rows it already holds. */
    constructor (initial: seq<Record>)
      requires Unique(initial)
      ensures Valid() && rows == initial
    {
      rows := initial;
    }

    /** addToDatabase: insert, reporting success, a duplicate, or the engine's other integrity error as an error line. */
    method AddToDatabase(artist: string, album: string, mediatype: string, fault: Option<string>) returns (r: Report)
      requires Valid()
      modifies this
      ensures Valid()
      ensures rows == Insert(old(rows), Record(artist, album, mediatype), fault).rows
      ensures r == Insert(old(rows), Record(artist, album, mediatype), fault).report
    {
      var t := Record(artist, album, mediatype);
      if fault.Some? {
        r := FaultReport(fault.value);
      } else if t in rows {
        r := LabelPrint(DuplicateText(t), "warning");
      } else {
        CountAppend(rows, t);
        rows := rows + [t];
        r := LabelPrint(AddedText(t), "success");
      }
    }

    /** removeFromDatabase: delete every equal row; success iff the statement changed something. */
    method RemoveFromDatabase(artist: string, album: string, mediatype: string, fault: Option<string>) returns (r: Report)
      requires Valid()
      modifies this
      ensures Valid()
      ensures rows == Delete(old(rows), Record(artist, album, mediatype), fault).rows
      ensures r == Delete(old(rows), Record(artist, album, mediatype), fault).report
      ensures fault.None? && Record(artist, album, mediatype) in old(rows) ==> |rows| == |old(rows)| - 1
    {
      var t := Record(artist, album, mediatype);
      if fault.Some? {
        r := FaultReport(fault.value);
      } else {
        var before := |rows|;
        rows := Without(rows, t);
        var totalChanges := before - |rows|;
        if totalChanges > 0 {
          r := LabelPrint(RemovedText(t), "success");
        } else {
          r := LabelPrint(NotFoundText(t), "warning");
        }
      }
    }

    /** searchInDatabase: the table is only read; success iff some row equals the record. */
    method SearchInDatabase(artist: string, album: string, mediatype: string, fault: Option<string>) returns (r: Report)
      ensures fault.None? ==> (r.severity == Success <==> Record(artist, album, mediatype) in rows)
      ensures r == Find(rows, Record(artist, album, mediatype), fault)
    {
      var t := Record(artist, album, mediatype);
      if fault.Some? {
        r := FaultReport(fault.value);
      } else {
        var fetched := Count(rows, t);
        if fetched > 0 {
          r := LabelPrint(PresentText(t), "success");
        } else {
          r := LabelPrint(NotFoundText(t), "warning");
        }
      }
    }

    /**
     * printDatabase. `scan` is what the engine's ordered full scan returns:
     * the table's rows in the order the collation gives them.
     */
    method PrintDatabase(orderBy: string, scan: seq<Record>) returns (out: seq<Report>)
      requires multiset(scan) == multiset(rows)
      ensures orderBy !in SortKeys ==> out == [Report(Warning, SortKeyWarning)]
      ensures orderBy in SortKeys ==> out == Numbered(scan, 1) && |out| == |rows|
      ensures forall k :: 0 <= k < |scan| ==> scan[k] in rows
    {
      forall j | 0 <= j < |scan|
        ensures scan[j] in rows
      {
        assert scan[j] in multiset(scan);
      }
      if orderBy !in SortKeys {
        out := [LabelPrint(SortKeyWarning, "warning")];
        return;
      }
      assert |scan| == |multiset(scan)| == |rows|;
      out := [];
      var i := 1;
      var k := 0;
      while k < |scan|
        invariant 0 <= k <= |scan|
        invariant i == k + 1
        invariant |out| == k
        invariant forall j :: 0 <= j < k ==> out[j] == Report(Plain, RowLine(j + 1, scan[j]))
      {
        var row := scan[k];
        out := out + [Report(Plain, RowLine(i, row))];
        i := i + 1;
        k := k + 1;
      }
    }
  }
}
