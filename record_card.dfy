/** The health-record card of the frontend: an icon and a colour chosen by
    the record's type, the type rendered as words, and a download badge. */
module RecordCard {
  import opened Common
  import opened Text
  import opened HealthRecords

  /** The icon name for a record type. */
  function Icon(kind: string): string {
    if kind == "prescription" then "medical"
    else if kind == "lab_report" then "flask"
    else if kind == "visit_summary" then "document-text"
    else "document"
  }

  /** The secondary text colour of the app's palette. */
  const TextSecondary: string := "#6b7280"

  /** The accent colour for a record type. */
  function Color(kind: string): string {
    if kind == "prescription" then "#2563eb"
    else if kind == "lab_report" then "#10b981"
    else if kind == "visit_summary" then "#f59e0b"
    else TextSecondary
  }

  /** The types with an icon and a colour of their own. */
  predicate Featured(kind: string) {
    kind in {"prescription", "lab_report", "visit_summary"}
  }

  /** Icon and colour single out the same three types, and give each of
      them its own; every other type, scans and "other" among them, gets the
      plain document icon in the secondary colour. */
  lemma IconAndColorAgree(kind: string, other: string)
    ensures Icon(kind) == "document" <==> !Featured(kind)
    ensures Color(kind) == TextSecondary <==> !Featured(kind)
    ensures Featured(kind) && Featured(other) && kind != other ==> Icon(kind) != Icon(other) && Color(kind) != Color(other)
  {
  }

  /** Of the stored record types, scans and "other" fall to the default. */
  lemma StoredTypesIcons(t: RecordType)
    ensures Featured(TypeName(t)) <==> t in {PrescriptionRecord, LabReport, VisitSummary}
  {
  }

  // ---------------------------------------------------------------- formatType

  /** `word.charAt(0).toUpperCase() + word.slice(1)`, for ASCII letters. */
  function Capitalize(word: string): (r: string)
    ensures |r| == |word|
  {
    if word == [] then [] else [UpperChar(word[0])] + word[1..]
  }

  function CapitalizeAll(words: seq<string>): (r: seq<string>)
    ensures |r| == |words|
    ensures forall k :: 0 <= k < |words| ==> r[k] == Capitalize(words[k])
  {
    if words == [] then [] else [Capitalize(words[0])] + CapitalizeAll(words[1..])
  }

  /** `type.split("_").map(capitalize).join(" ")`. */
  function FormatType(kind: string): string {
    Join(CapitalizeAll(Split(kind, '_')), " ")
  }

  /** What `formatType` puts at position `i`: a space for an underscore, the
      upper-case letter at the start of a word, and the character itself
      elsewhere. */
  function FormattedChar(kind: string, i: nat): char
    requires i < |kind|
  {
    if kind[i] == '_' then ' '
    else if i == 0 || kind[i - 1] == '_' then UpperChar(kind[i])
    else kind[i]
  }

  lemma JoinCons(x: string, rest: seq<string>, sep: string)
    ensures Join([x] + rest, sep) == if rest == [] then x else x + sep + Join(rest, sep)
  {
    if rest != [] {
      assert ([x] + rest)[1..] == rest;
    }
  }

  /** A leading underscore is an empty first word: a space, then the rest formatted. */
  lemma FormatAfterUnderscore(tail: string)
    ensures FormatType(['_'] + tail) == " " + FormatType(tail)
  {
    var pieces := Split(tail, '_');
    assert (['_'] + tail)[1..] == tail;
    assert Split(['_'] + tail, '_') == [""] + pieces;
    assert CapitalizeAll([""] + pieces) == [""] + CapitalizeAll(pieces);
    JoinCons("", CapitalizeAll(pieces), " ");
  }

  /** Any other leading character is upper-cased and joins the first word of
      the rest, which then keeps its own first character as it is. */
  lemma FormatAfterLetter(c: char, tail: string)
    requires c != '_'
    ensures var r, t := FormatType([c] + tail), FormatType(tail);
      |r| == |t| + 1 && r[0] == UpperChar(c)
      && forall i :: 1 <= i < |r| ==> r[i] == (if i == 1 && tail != [] && tail[0] != '_' then tail[0] else t[i - 1])
  {
    var pieces := Split(tail, '_');
    var after := FirstWordJoined(c, tail);
    var r, t := FormatType([c] + tail), FormatType(tail);
    assert r == [UpperChar(c)] + pieces[0] + after;
    assert t == Capitalize(pieces[0]) + after;
    if pieces[0] != [] {
      assert tail != [] && tail[0] != '_' && pieces[0][0] == tail[0];
    } else if tail != [] {
      assert tail[0] == '_';
    }
  }

  /** The two formatted texts share everything after the first word of `tail`. */
  lemma FirstWordJoined(c: char, tail: string) returns (after: string)
    requires c != '_'
    ensures FormatType([c] + tail) == [UpperChar(c)] + Split(tail, '_')[0] + after
    ensures FormatType(tail) == Capitalize(Split(tail, '_')[0]) + after
  {
    var kind := [c] + tail;
    assert kind[1..] == tail;
    var pieces := Split(tail, '_');
    var rest := CapitalizeAll(pieces[1..]);
    after := if rest == [] then "" else " " + Join(rest, " ");
    assert CapitalizeAll(pieces) == [Capitalize(pieces[0])] + rest;
    JoinCons(Capitalize(pieces[0]), rest, " ");
    var head := [c] + pieces[0];
    assert Split(kind, '_') == [head] + pieces[1..];
    assert CapitalizeAll([head] + pieces[1..]) == [Capitalize(head)] + rest;
    JoinCons(Capitalize(head), rest, " ");
  }

  /** `formatType` character by character: the same length as the type, and
      each position as `FormattedChar` says. */
  lemma {:induction false} FormatTypePointwise(kind: string)
    ensures |FormatType(kind)| == |kind|
    ensures forall i :: 0 <= i < |kind| ==> FormatType(kind)[i] == FormattedChar(kind, i)
    decreases |kind|
  {
    if kind != [] {
      var tail := kind[1..];
      assert kind == [kind[0]] + tail;
      FormatTypePointwise(tail);
      if kind[0] == '_' {
        FormatAfterUnderscore(tail);
      } else {
        FormatAfterLetter(kind[0], tail);
      }
      forall i | 1 <= i < |kind|
        ensures FormatType(kind)[i] == FormattedChar(kind, i)
      {
        assert kind[i] == tail[i - 1];
        if i >= 2 {
          assert kind[i - 1] == tail[i - 2];
        }
      }
    }
  }

  /** Upper-casing keeps the letter: it is the same one ignoring case, and
      no other character becomes an underscore. */
  lemma UpperKeepsLetter(c: char)
    ensures LowerChar(UpperChar(c)) == LowerChar(c)
    ensures UpperChar(c) == '_' <==> c == '_'
  {
  }

  /** Underscores become spaces, every other character stays the same
      ignoring case, and no underscore is left. */
  lemma FormatTypeShape(kind: string)
    ensures |FormatType(kind)| == |kind| && '_' !in FormatType(kind)
    ensures forall i :: 0 <= i < |kind| ==>
      if kind[i] == '_' then FormatType(kind)[i] == ' ' else LowerChar(FormatType(kind)[i]) == LowerChar(kind[i])
  {
    FormatTypePointwise(kind);
    var r := FormatType(kind);
    forall i | 0 <= i < |kind|
      ensures r[i] != '_'
      ensures kind[i] != '_' ==> LowerChar(r[i]) == LowerChar(kind[i])
    {
      UpperKeepsLetter(kind[i]);
    }
  }

  /** "lab_report" reads "Lab Report". */
  lemma LabReportLabel()
    ensures FormatType("lab_report") == "Lab Report"
  {
    TwoWords("lab", "report");
    LabReportWords();
  }

  lemma LabReportWords()
    ensures "lab" + ['_'] + "report" == "lab_report"
    ensures Capitalize("lab") + " " + Capitalize("report") == "Lab Report"
  {
    assert Capitalize("lab") == "Lab";
    assert Capitalize("report") == "Report";
  }

  /** Two words joined by one underscore are capitalised and joined by a space. */
  lemma TwoWords(a: string, b: string)
    requires '_' !in a && '_' !in b
    ensures FormatType(a + ['_'] + b) == Capitalize(a) + " " + Capitalize(b)
  {
    SplitAfterPrefix(a, b, '_');
    SplitOfSeparatorFree(b, '_');
    assert CapitalizeAll([a, b]) == [Capitalize(a), Capitalize(b)];
    JoinCons(Capitalize(a), [Capitalize(b)], " ");
  }

  /** Empty words stay empty: "a__b" becomes "A  B". */
  lemma EmptyWordsKept()
    ensures FormatType("a__b") == "A  B"
  {
    FormatTypePointwise("a__b");
  }

  // ---------------------------------------------------------------- the card

  /** What the card shows for a record. */
  datatype Card = Card(title: string, icon: string, color: string, typeLabel: string, downloadBadge: bool)

  function ShowCard(title: string, kind: string, fileUrl: Option<string>): (c: Card)
    ensures c.downloadBadge <==> fileUrl.Some? && fileUrl.value != ""
    ensures |c.typeLabel| == |kind|
  {
    FormatTypePointwise(kind);
    Card(title, Icon(kind), Color(kind), FormatType(kind), Truthy(fileUrl))
  }

  /** The card of a stored record: the badge appears exactly when the record
      has a file link, and a scan gets the default icon and colour. */
  lemma StoredRecordCard(r: HealthRecord)
    ensures var c := ShowCard(r.title, TypeName(r.kind), r.fileUrl);
      (c.downloadBadge <==> Truthy(r.fileUrl))
      && (r.kind == Scan ==> c.icon == "document" && c.color == TextSecondary && c.typeLabel == "Scan")
  {
    if r.kind == Scan {
      FormatTypePointwise("scan");
    }
  }
}
