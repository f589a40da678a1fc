/**
 * The program's entry point: the parsed arguments, the media-type check, the
 * choice of exactly one store operation, and the optional listing after it.
 */
module Cli {
  import opened Wrappers
  import opened Reports
  import opened MediaTypes
  import opened Table
  import opened Database

  /** The parsed command line; the media type as typed, before case folding. */
  datatype Args = Args(artist: string, album: string, mediatype: string, verbose: bool, remove: bool, search: bool)

  datatype Mode = Add | Remove | Search

  /** The dispatch: remove if asked, else search if asked, else add. */
  function ModeOf(remove: bool, search: bool): (m: Mode)
    ensures m == Remove <==> remove
    ensures m == Search <==> !remove && search
    ensures m == Add <==> !remove && !search
  {
    if remove then Remove else if search then Search else Add
  }

  const UnknownSuffix := "\" is an unknown media type."

  function UnknownText(value: string): string
  {
    "\"" + value + UnknownSuffix
  }

  /** What a run does before touching the store: reject the media type, or call one operation. */
  datatype Plan = Reject(report: Report) | Call(mode: Mode, record: Record)

  function PlanOf(args: Args): (p: Plan)
    ensures p.Reject? <==> Lower(args.mediatype) !in Canonical && Lower(args.mediatype) !in Synonyms
    ensures p.Reject? ==> p.report == Report(Error, UnknownText(Lower(args.mediatype)))
    ensures p.Call? ==> p.record.artist == args.artist && p.record.album == args.album
    ensures p.Call? ==> p.record.mediatype in Canonical
    ensures p.Call? ==> p.record.mediatype == if Lower(args.mediatype) in Synonyms then Synonyms[Lower(args.mediatype)] else Lower(args.mediatype)
    ensures p.Call? ==> p.mode == ModeOf(args.remove, args.search)
  {
    match Resolve(args.mediatype)
    case Unknown(v) => Reject(Report(Error, UnknownText(v)))
    case Known(m) => Call(ModeOf(args.remove, args.search), Record(args.artist, args.album, m))
  }

  /** The one store operation a mode selects, on the rows before it. */
  function Execute(rows: seq<Record>, mode: Mode, t: Record, fault: Option<string>): (s: Step)
    ensures mode == Search ==> s.rows == rows
    ensures fault.Some? ==> s == Step(rows, FaultReport(fault.value))
    ensures Unique(rows) ==> Unique(s.rows)
  {
    match mode
    case Add => Insert(rows, t, fault)
    case Remove => Delete(rows, t, fault)
    case Search => Step(rows, Find(rows, t, fault))
  }

  /** The `if args.remove ... elif args.search ... else` block: exactly one store operation runs. */
  method Dispatch(db: AlbumTable, remove: bool, search: bool, t: Record, fault: Option<string>) returns (r: Report)
    requires db.Valid()
    modifies db
    ensures db.Valid()
    ensures db.rows == Execute(old(db.rows), ModeOf(remove, search), t, fault).rows
    ensures r == Execute(old(db.rows), ModeOf(remove, search), t, fault).report
  {
    if remove {
      r := db.RemoveFromDatabase(t.artist, t.album, t.mediatype, fault);
    } else if search {
      r := db.SearchInDatabase(t.artist, t.album, t.mediatype, fault);
    } else {
      r := db.AddToDatabase(t.artist, t.album, t.mediatype, fault);
    }
  }

  /**
   * One invocation of the program against the table `db`. `fault` is an
   * integrity error the engine raises for the statement, if any;
   * `byArtist` is the engine's ordered full scan by artist, which returns
   * the rows of the table it is given in some order.
   */
  method Run(db: AlbumTable, args: Args, fault: Option<string>, byArtist: seq<Record> -> seq<Record>)
    returns (out: seq<Report>)
    requires db.Valid()
    requires forall rs :: multiset(byArtist(rs)) == multiset(rs)
    modifies db
    ensures db.Valid()
    ensures PlanOf(args).Reject? ==> db.rows == old(db.rows) && out == [PlanOf(args).report]
    ensures PlanOf(args).Call? ==>
      var s := Execute(old(db.rows), PlanOf(args).mode, PlanOf(args).record, fault);
      db.rows == s.rows &&
      out == [s.report] + if args.verbose then [Report(Plain, "")] + Numbered(byArtist(db.rows), 1) else []
  {
    ghost var plan := PlanOf(args);
    var mediatype := Lower(args.mediatype);
    mediatype := Normalise(mediatype);
    if mediatype !in Canonical {
      out := [LabelPrint(UnknownText(mediatype), "error")];
      return;
    }
    assert plan == Call(ModeOf(args.remove, args.search), Record(args.artist, args.album, mediatype));
    var r := Dispatch(db, args.remove, args.search, Record(args.artist, args.album, mediatype), fault);
    out := [r];
    if args.verbose {
      var scan := byArtist(db.rows);
      assert multiset(scan) == multiset(db.rows);
      var listing := db.PrintDatabase("artist", scan);
      assert listing == Numbered(scan, 1);
      out := out + ([Report(Plain, "")] + listing);
    }
  }

  /** The invocations of the worked session all resolve "cd" and pick the operation their flag names. */
  lemma GeogaddiPlans(add: Args, t: Record)
    requires t == Record("Boards of Canada", "Geogaddi", "cd")
    requires add == Args(t.artist, t.album, t.mediatype, false, false, false)
    ensures PlanOf(add) == Call(Add, t)
    ensures PlanOf(add.(remove := true)) == Call(Remove, t)
    ensures PlanOf(add.(search := true)) == Call(Search, t)
  {
  }

  /** What the statements of the worked session do and report. */
  lemma GeogaddiSteps(t: Record)
    ensures Execute([], Add, t, None) == Step([t], Report(Success, AddedText(t)))
    ensures Execute([t], Add, t, None) == Step([t], Report(Warning, DuplicateText(t)))
    ensures Execute([t], Remove, t, None) == Step([], Report(Success, RemovedText(t)))
    ensures Execute([], Search, t, None) == Step([], Report(Warning, NotFoundText(t)))
  {
  }

  /** The messages of the worked session, written out. */
  lemma GeogaddiTexts(t: Record)
    requires t == Record("Boards of Canada", "Geogaddi", "cd")
    ensures AddedText(t) == "Boards of Canada - Geogaddi (cd) added."
    ensures DuplicateText(t) == "Boards of Canada - Geogaddi (cd) Already in Database."
    ensures RemovedText(t) == "Boards of Canada - Geogaddi (cd) removed."
    ensures NotFoundText(t) == "Boards of Canada - Geogaddi (cd) not found."
  {
    var d := "Boards of Canada - Geogaddi (cd)";
    assert Describe(t) == d;
    assert d + AddedSuffix == "Boards of Canada - Geogaddi (cd) added.";
    assert d + DuplicateSuffix == "Boards of Canada - Geogaddi (cd) Already in Database.";
    assert d + RemovedSuffix == "Boards of Canada - Geogaddi (cd) removed.";
    assert d + NotFoundSuffix == "Boards of Canada - Geogaddi (cd) not found.";
  }

  /**
   * The worked session: add a record, add it again, remove it, search for it,
   * each as a separate invocation on the same table.
   */
  method GeogaddiSession() returns (first: Report, second: Report, removed: Report, searched: Report)
    ensures first == Report(Success, "Boards of Canada - Geogaddi (cd) added.")
    ensures second == Report(Warning, "Boards of Canada - Geogaddi (cd) Already in Database.")
    ensures removed == Report(Success, "Boards of Canada - Geogaddi (cd) removed.")
    ensures searched == Report(Warning, "Boards of Canada - Geogaddi (cd) not found.")
  {
    var db := new AlbumTable([]);
    var scan := (rs: seq<Record>) => rs;
    var t := Record("Boards of Canada", "Geogaddi", "cd");
    var add := Args(t.artist, t.album, t.mediatype, false, false, false);
    GeogaddiPlans(add, t);
    GeogaddiSteps(t);
    GeogaddiTexts(t);

    var out := Run(db, add, None, scan);
    first := out[0];
    out := Run(db, add, None, scan);
    second := out[0];
    out := Run(db, add.(remove := true), None, scan);
    removed := out[0];
    out := Run(db, add.(search := true), None, scan);
    searched := out[0];
  }
}
