/**
 * The media-type argument: case folding on input, the table of shortcuts,
 * and the check against the four canonical media types.
 */
module MediaTypes {

  /** The media types a stored album may carry. */
  const Canonical: set<string> := {"cd", "vinyl", "digital", "cassette"}

  /** The shortcuts the command line accepts for a canonical media type. */
  const Synonyms: map<string, string> :=
    map["disk" := "cd",
        "vin" := "vinyl",
        "dig" := "digital", "digi" := "digital",
        "cas" := "cassette", "cass" := "cassette", "tape" := "cassette", "mc" := "cassette"]

  /** A character that case folding leaves as it is. */
  predicate Folded(c: char)
  {
    !('A' <= c <= 'Z') && c != '\U{212A}' && c != '\U{0130}'
  }

  /**
   * str.lower of one character, for the ASCII capitals and for the two
   * other characters whose lower-case form holds an ASCII letter: KELVIN
   * SIGN becomes k, and capital I with dot above becomes i and a combining
   * dot above.
   */
  function LowerChar(c: char): (r: string)
    ensures forall i :: 0 <= i < |r| ==> Folded(r[i])
    ensures Folded(c) ==> r == [c]
    ensures 'A' <= c <= 'Z' ==> r == [(c as int + 32) as char]
  {
    if 'A' <= c <= 'Z' then [(c as int + 32) as char]
    else if c == '\U{212A}' then "k"
    else if c == '\U{0130}' then "i\U{0307}"
    else [c]
  }

  /** str.lower, applied by the argument parser to the media type. */
  function Lower(s: string): (r: string)
    ensures forall i :: 0 <= i < |r| ==> Folded(r[i])
    ensures (forall i :: 0 <= i < |s| ==> Folded(s[i])) ==> r == s
  {
    if s == [] then [] else LowerChar(s[0]) + Lower(s[1..])
  }

  lemma LowerIdempotent(s: string)
    ensures Lower(Lower(s)) == Lower(s)
  {
  }

  /** The shortcut table read as a single lookup: a synonym maps to its media type, anything else to itself. */
  function Canonicalise(s: string): (r: string)
    ensures r in Canonical || r == s
    ensures s in Canonical ==> r == s
    ensures r in Canonical <==> s in Canonical || s in Synonyms
  {
    if s in Synonyms then Synonyms[s] else s
  }

  /**
   * The four shortcut statements as the program runs them, each one
   * reassigning the argument after the one before.
   */
  method Normalise(arg: string) returns (m: string)
    ensures m == Canonicalise(arg)
    ensures arg !in Synonyms ==> m == arg
  {
    m := arg;
    if m in {"cd", "disk"} {
      m := "cd";
    }
    if m in {"vin"} {
      m := "vinyl";
    }
    if m in {"dig", "digi"} {
      m := "digital";
    }
    if m in {"cas", "cass", "tape", "mc"} {
      m := "cassette";
    }
  }

  /** A second pass of the shortcut table changes nothing. */
  lemma CanonicaliseIdempotent(s: string)
    ensures Canonicalise(Canonicalise(s)) == Canonicalise(s)
  {
  }

  /** The outcome of the media-type argument: a canonical media type or the rejected value. */
  datatype Resolution = Known(name: string) | Unknown(value: string)

  /** Lowering, the shortcut table and the check against the canonical set, applied to the raw argument. */
  function Resolve(raw: string): (r: Resolution)
    ensures r.Known? <==> Lower(raw) in Canonical || Lower(raw) in Synonyms
    ensures r.Known? ==> r.name in Canonical
    ensures r.Known? && Lower(raw) in Canonical ==> r.name == Lower(raw)
    ensures Lower(raw) in Synonyms ==> r == Known(Synonyms[Lower(raw)])
    ensures r.Unknown? ==> r.value == Lower(raw)
  {
    var m := Canonicalise(Lower(raw));
    if m in Canonical then Known(m) else Unknown(m)
  }

  /** The argument is read regardless of letter case. */
  lemma ResolveIgnoresCase(raw: string)
    ensures Resolve(Lower(raw)) == Resolve(raw)
  {
  }

  /** Shortcuts typed in mixed case resolve like their lower-case forms. */
  lemma MixedCaseShortcuts()
    ensures Resolve("Vin") == Known("vinyl")
    ensures Resolve("DIG") == Known("digital")
    ensures Resolve("Cas") == Known("cassette")
    ensures Resolve("DISK") == Known("cd")
  {
    assert Lower("Vin") == "vin";
    assert Lower("DIG") == "dig";
    assert Lower("Cas") == "cas";
    assert Lower("DISK") == "disk";
  }

  /** Outside ASCII, KELVIN SIGN folds into a shortcut, while a dotted capital I folds to two characters. */
  lemma NonAsciiCapitals()
    ensures Resolve("DIS\U{212A}") == Known("cd")
    ensures Resolve("D\U{0130}G") == Unknown("di\U{0307}g")
  {
    assert Lower("DIS\U{212A}") == "disk";
    assert Lower("D\U{0130}G") == "di\U{0307}g";
  }
}
