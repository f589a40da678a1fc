# AlbumList-CLI, modelled in Dafny

AlbumList-CLI is a command-line tool for a personal album catalogue. Its
albums table holds rows of (artist, album, mediatype), and the UNIQUE
constraint in the table's schema covers all three columns. One run of the
program does four things in order. It lowercases the media-type argument and
maps its shortcuts to one of `cd`, `vinyl`, `digital` or `cassette`. It
rejects any other value. It runs exactly one of insert, delete or
exact-match search. With `-v` it then lists the whole table, numbering the
rows from 1. Each outcome is printed as a line with a severity: success,
warning, error or plain.

The model has these modules:

- `Reports`: the severities and `labelPrint`'s choice of style from its string tag.
- `Decimal`: the decimal numeral `str(i)` used for the row counter, with its inverse.
- `MediaTypes`: case folding, the shortcut table as a map, and the four
  reassignments as the program runs them (`Normalise`, a method). It proves
  that the chain equals a single table lookup, and states the accepted set.
- `Table`: the table as a value (`seq<Record>`). `Unique` is the schema's
  constraint: no record occurs twice. `Insert`, `Delete` and `Find` give what
  the three statements do to the rows and which report the program prints.
  Lemmas cover the sequences of operations (add then find, add twice, remove
  twice, add then remove).
- `Database`: the albums table as an object (`AlbumTable`). Its field `rows`
  is reassigned by `AddToDatabase` and `RemoveFromDatabase`. `SearchInDatabase`
  and `PrintDatabase` only read it. Each method is proved against the `Table`
  functions, and `PrintDatabase`'s counter loop against `Numbered`.
- `Cli`: the parsed arguments, the dispatch, and one whole invocation (`Run`).
  It also holds an example session of four runs on one table: add, add
  again, remove, then search for "Boards of Canada - Geogaddi (cd)".

The store's behaviour that the code only reacts to is passed in as parameters:

- `fault: Option<string>` is an integrity error other than the UNIQUE
  violation, raised by the engine with that text. The table is left
  unchanged. The model prints the text as an error line, which is what the
  error branches evidently intend. As written, they hand the exception object
  itself to `labelPrint`, which raises a TypeError instead (see Findings).
  For an insert, the model lets such an error win over the UNIQUE check.
- `scan` (in `PrintDatabase`) and `byArtist` (in `Run`) stand for the
  engine's ordered full scan. They are required to return the table's rows
  in some order, that is, the same multiset.

The error message for an unknown media type quotes only the value
(`"tape2" is an unknown media type.`), as albumlist-cli.py:101 builds it.

## Model

| member | source | states |
|---|---|---|
| `Reports.LabelPrint` | albumlist-cli.py:7-15 | a printed line carries the text unchanged; it is a warning, success or error line iff the tag is "warning", "success" or "error", and plain for every other tag, the default '' included |
| `Reports.TagRoundTrip` | albumlist-cli.py:7-15 | every severity is selected by some tag, so the string dispatch can produce each of them |
| `Reports.LabelPrintAsWritten` | albumlist-cli.py:7-15 | labelPrint on any value: a string prints as LabelPrint does; an exception object raises (no line) under the three styled tags and prints its text plain otherwise |
| `Reports.IntegrityErrorLabelRaises` | albumlist-cli.py:41 | labelPrint(e, 'error') with an IntegrityError object prints nothing: the styled concatenation raises |
| `Reports.FaultReport` | albumlist-cli.py:41 | the intended error line, labelPrint(str(e), 'error'), is printed and is an error line showing the exception's text |
| `Decimal.DecimalString` | albumlist-cli.py:25 | the row counter prints as a non-empty string of decimal digits with no leading zero |
| `Decimal.DecimalRoundTrip` | albumlist-cli.py:25 | reading the printed counter back as a decimal number gives the counter |
| `MediaTypes.Lower` | albumlist-cli.py:82 | no character of the result folds further (no ASCII capital, KELVIN SIGN or dotted capital I remains), and a string with none of them is unchanged |
| `MediaTypes.LowerIdempotent` | albumlist-cli.py:82 | lowercasing an already lowercased argument changes nothing |
| `MediaTypes.Canonicalise` | albumlist-cli.py:90-97 | the result is canonical or the input unchanged; canonical inputs are fixed points; the result is canonical iff the input is canonical or a listed shortcut |
| `MediaTypes.Normalise` | albumlist-cli.py:90-97 | the four reassignments in sequence equal one lookup in the shortcut table, and any value that is not a shortcut passes through unchanged |
| `MediaTypes.CanonicaliseIdempotent` | albumlist-cli.py:90-97 | applying the shortcut table a second time changes nothing |
| `MediaTypes.Resolve` | albumlist-cli.py:82-100 | the raw argument is accepted iff its lowercased form is canonical or a shortcut; a canonical form yields itself, a shortcut the media type the table names for it, a rejected argument its lowercased value |
| `MediaTypes.ResolveIgnoresCase` | albumlist-cli.py:82 | the outcome for an argument is the same as for its lowercased form |
| `MediaTypes.MixedCaseShortcuts` | albumlist-cli.py:82-97 | "Vin", "DIG", "Cas" and "DISK" resolve to vinyl, digital, cassette and cd |
| `MediaTypes.NonAsciiCapitals` | albumlist-cli.py:82-102 | "DIS" followed by KELVIN SIGN lowercases to "disk" and resolves to cd; "D", dotted capital I, "G" lowercases to four characters and is rejected |
| `Table.OutcomeTextsDistinct` | albumlist-cli.py:36-68 | for one record, the added, already-in-database, removed, not-found and present messages are pairwise different texts |
| `Table.Count` | albumlist-cli.py:65 | the number of rows equal to a record on all three fields is zero iff the record is absent |
| `Table.Without` | albumlist-cli.py:49 | the delete removes every row equal to the record and keeps every other record with its multiplicity; the table shrinks by the number of matches |
| `Table.Insert` | albumlist-cli.py:33-41 | an absent record is added once and reported as added (success); a present one leaves the table unchanged and is reported already in the database (warning); another integrity error leaves it unchanged and gives the intended error line (Findings); earlier rows stay in place; uniqueness is preserved |
| `Table.Delete` | albumlist-cli.py:49-56 | an engine error leaves the table unchanged with the intended error line (Findings); without one, the rows equal to the record are gone and no other row count changes; the report is removed (success) iff the record was present, else not found (warning); uniqueness is preserved |
| `Table.Find` | albumlist-cli.py:64-70 | the report is present (success) iff some row equals the record, else not found (warning); an engine error gives the intended error line (Findings) |
| `Table.InsertThenFind` | albumlist-cli.py:30-72 | after a record is added, a search for it reports it present |
| `Table.InsertTwice` | albumlist-cli.py:34-39 | adding a new record twice reports added, then already in the database; the second insert changes nothing and the table holds the record exactly once |
| `Table.DeleteTwice` | albumlist-cli.py:49-68 | removing a present record reports removed; removing it again, or searching for it, reports not found |
| `Table.DeleteUniqueRemovesOne` | albumlist-cli.py:49-52 | on a table that keeps the uniqueness constraint, removing a present record deletes exactly one row |
| `Table.InsertThenDelete` | albumlist-cli.py:34-54 | removing a record just added to a table that lacked it gives back the original rows exactly |
| `Database.RowLineNumbered` | albumlist-cli.py:23-27 | two equal listing lines carry the same counter: the number is recoverable from the line |
| `Database.Numbered` | albumlist-cli.py:23-27 | a listing has one line per scanned row, and line k shows row k numbered first + k |
| `Database.NumberedDistinct` | albumlist-cli.py:23-27 | no two lines of a listing are equal |
| `Database.AlbumTable.AddToDatabase` | albumlist-cli.py:30-43 | the new rows and the report are those of `Table.Insert` on the old rows; the uniqueness constraint still holds |
| `Database.AlbumTable.RemoveFromDatabase` | albumlist-cli.py:45-58 | the new rows and the report are those of `Table.Delete`, with success decided by the change count as in the code; uniqueness still holds, so a present record costs exactly one row |
| `Database.AlbumTable.SearchInDatabase` | albumlist-cli.py:60-72 | the table is not modified (no modifies clause); without an engine error, the report is a success iff the record is in the table |
| `Database.AlbumTable.PrintDatabase` | albumlist-cli.py:17-28 | a sort key outside artist, album and mediatype gives just the warning; otherwise the output is the scan numbered consecutively from 1, with one line per table row, each for a row of the table |
| `Cli.ModeOf` | albumlist-cli.py:104-109 | exactly one operation is chosen: remove iff -r, search iff -s without -r, add iff neither |
| `Cli.PlanOf` | albumlist-cli.py:82-109 | a run is rejected iff the lowercased media type is neither canonical nor a shortcut, with the error showing that value in quotes; otherwise one call runs with the given artist and album, the mode ModeOf picks, and the canonical media type itself or the one the shortcut table names |
| `Cli.Execute` | albumlist-cli.py:104-109 | a search leaves the rows unchanged; an engine error leaves them unchanged with the intended error line (Findings); no operation breaks uniqueness |
| `Cli.Dispatch` | albumlist-cli.py:104-109 | the if/elif/else runs the one operation ModeOf picks, and the table and report are that operation's |
| `Cli.Run` | albumlist-cli.py:74-113 | a rejected media type prints only the error and leaves the table alone, with no listing; otherwise the table and the first line are those of the chosen operation, and with -v a blank line follows, then the numbered listing of the new table |
| `Cli.GeogaddiPlans` | albumlist-cli.py:82-109 | the session's invocations, with no flag, -r and -s, resolve "cd" and pick add, remove and search |
| `Cli.GeogaddiSteps` | albumlist-cli.py:30-72 | on an empty table: add succeeds; add again warns with the table unchanged; remove succeeds and empties it; search then reports not found |
| `Cli.GeogaddiTexts` | albumlist-cli.py:36-54 | the session's messages written out character for character |
| `Cli.GeogaddiSession` | albumlist-cli.py:74-113 | four runs on one table print "... added." (success), "... Already in Database." (warning), "... removed." (success) and "... not found." (warning) |

## Left out

- The SQLite engine itself is not modelled: connections, cursors, commit and close. The table is the `rows` field of `AlbumTable`.
- The ORDER BY ... COLLATE NOCASE ordering of the listing is not modelled. The engine's scan is a parameter required to be a rearrangement of the table, so listings are not proved to be sorted.
- Database.AlbumTable.PrintDatabase: does not promise that the listing is sorted by the key or that repeated listings are identical. Both rest on the engine's collation, which is not modelled.
- The exception texts are not modelled. The "UNIQUE constraint failed" test is the record's presence in the table, and every other integrity error is the `fault` parameter. Which error the engine would raise first when both apply is an assumption: the model lets `fault` win.
- MediaTypes.Lower: folds the ASCII capitals, U+212A KELVIN SIGN (to k) and U+0130 (to i and U+0307), the characters whose lower-case form holds an ASCII letter. Every other non-ASCII character is kept, where Python's str.lower may map it to another non-ASCII character. Shortcuts and canonical names are all ASCII, so acceptance is the same either way. Only the rejected value shown in the error message could differ.
- Argument parsing is not modelled, so neither is its rejection of -r together with -s. `ModeOf` follows the dispatch as written, where -r wins.
- Colours, glyphs, `print` and the blank line's terminal effect are not modelled. An output line is a severity and a text.
- The process exit status is not modelled: `exit(0)` at albumlist-cli.py:102 and 113, argparse's own exit on a bad command line, and the non-zero exit of an uncaught exception. Neither is the hard-coded database path.
- Insert: on an engine integrity error it gives the intended error line (Findings), not the TypeError the code as written raises.
- Delete: on an engine integrity error it gives the intended error line (Findings), not the TypeError the code as written raises.
- Find: on an engine integrity error it gives the intended error line (Findings), not the TypeError the code as written raises.
- AddToDatabase: on an engine integrity error it returns the intended error line (Findings), not the TypeError the code as written raises.
- RemoveFromDatabase: on an engine integrity error it returns the intended error line (Findings), not the TypeError the code as written raises.
- SearchInDatabase: on an engine integrity error it returns the intended error line (Findings), not the TypeError the code as written raises.
- Execute: on an engine integrity error it gives the intended error line (Findings), not the TypeError the code as written raises.
- Run: on an engine integrity error it prints the intended error line and then the -v listing. As written, the TypeError ends the run before both (Findings).
- The schema and the table's creation are external. The constructor takes the table's existing rows, which are assumed to satisfy the uniqueness constraint.

## Findings

| source | as written | input that shows it | evidently intended | confidence | as-written member | corrected member |
|---|---|---|---|---|---|---|
| albumlist-cli.py:41 | `labelPrint(e, 'error')` passes the IntegrityError object; `Fore.RED + '❌ ' + str` at line 13 then raises TypeError, so nothing is printed, the -v listing is skipped and the run exits non-zero | an insert that the schema rejects through a constraint other than UNIQUE (a CHECK or NOT NULL), with -v | print the exception's text as an error line: `labelPrint(str(e), 'error')` | high that the branch raises when reached; not executed | `Reports.IntegrityErrorLabelRaises` | `Reports.FaultReport` |
| albumlist-cli.py:56 | the same call in removeFromDatabase's IntegrityError branch raises TypeError | a delete for which the engine raises an IntegrityError | print the exception's text as an error line | high that the branch raises when reached, though a delete rarely gets there; not executed | `Reports.IntegrityErrorLabelRaises` | `Reports.FaultReport` |
| albumlist-cli.py:70 | the same call in searchInDatabase's IntegrityError branch raises TypeError | a select for which the engine raises an IntegrityError | print the exception's text as an error line | high that the branch raises when reached, though a select rarely gets there; not executed | `Reports.IntegrityErrorLabelRaises` | `Reports.FaultReport` |
