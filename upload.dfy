/** The upload file filter: a file is let through when its lowercased
    extension and its mimetype, as given, each contain one of the allowed
    type names anywhere (the pattern `/jpeg|jpg|png|pdf|doc|docx/` is not
    anchored). */
module Upload {
  import opened Common
  import opened Text

  /** The alternatives of the pattern, in its order. */
  const AllowedTypes: seq<string> := ["jpeg", "jpg", "png", "pdf", "doc", "docx"]

  /** `allowedTypes.test(s)`. */
  predicate MatchesAllowed(s: string) {
    exists t :: t in AllowedTypes && Contains(s, t)
  }

  /** The position of the last dot. */
  function LastDot(b: string): (r: Option<nat>)
    ensures r.Some? ==> r.value < |b| && b[r.value] == '.' && '.' !in b[r.value + 1..]
    ensures r.None? ==> '.' !in b
  {
    if b == [] then None
    else if b[|b| - 1] == '.' then Some(|b| - 1)
    else
      var r := LastDot(b[..|b| - 1]);
      assert b == b[..|b| - 1] + [b[|b| - 1]];
      r
  }

  /** `path.extname(name)` for a name without a trailing slash: from the last
      dot of the last segment, unless that dot begins the segment or the
      segment is `..`. */
  function Extname(name: string): (r: string)
    ensures r != "" ==> r[0] == '.' && '/' !in r
  {
    var base := LastPiece(name, '/');
    var dot := LastDot(base);
    if dot.None? || dot.value == 0 || base == ".." then "" else base[dot.value..]
  }

  /** The multer `fileFilter`: true is `cb(null, true)`, false is the
      callback with an Error and false. */
  predicate Accepts(originalName: string, mimetype: string) {
    MatchesAllowed(Lower(Extname(originalName))) && MatchesAllowed(mimetype)
  }

  // ---------------------------------------------------------------- properties

  /** "docx" adds nothing: every text containing it contains "doc". */
  lemma DocxRedundant(s: string)
    ensures MatchesAllowed(s) <==> exists t :: t in AllowedTypes[..5] && Contains(s, t)
  {
    assert AllowedTypes[..5] == ["jpeg", "jpg", "png", "pdf", "doc"];
    if Contains(s, "docx") {
      var i := ContainsImpliesOccurs(s, "docx");
      assert s[i..i + 3] == s[i..i + 4][..3] == "doc";
      OccursImpliesContains(s, "doc", i);
    }
    if MatchesAllowed(s) {
      var t :| t in AllowedTypes && Contains(s, t);
      if t == "docx" {
        assert "doc" in AllowedTypes[..5];
      } else {
        assert t in AllowedTypes[..5];
      }
    }
  }

  /** A text that contains none of the letters j, g and d matches no alternative. */
  lemma NoAllowedLetters(s: string)
    requires 'j' !in s && 'g' !in s && 'd' !in s
    ensures !MatchesAllowed(s)
  {
    MissingCharNotContained(s, "jpeg", 'j');
    MissingCharNotContained(s, "jpg", 'j');
    MissingCharNotContained(s, "png", 'g');
    MissingCharNotContained(s, "pdf", 'd');
    MissingCharNotContained(s, "doc", 'd');
    MissingCharNotContained(s, "docx", 'd');
  }

  /** The last dot of `a.b`, when `b` has none, is the one after `a`. */
  lemma {:induction false} LastDotOf(a: string, b: string)
    requires '.' !in b
    ensures LastDot(a + "." + b) == Some(|a|)
    decreases |b|
  {
    var s := a + "." + b;
    if b != [] {
      assert s[..|s| - 1] == a + "." + b[..|b| - 1];
      assert s[|s| - 1] == b[|b| - 1];
      LastDotOf(a, b[..|b| - 1]);
    }
  }

  /** The last segment `stem.ext`, where `ext` has no dot, has extension `.ext`. */
  lemma ExtnameOf(stem: string, ext: string)
    requires '/' !in stem && '/' !in ext && '.' !in ext
    requires stem != "" && stem != "."
    ensures Extname(stem + "." + ext) == "." + ext
  {
    var name := stem + "." + ext;
    assert LastPiece(name, '/') == name by {
      assert '/' !in name;
      SplitOfSeparatorFree(name, '/');
    }
    assert LastDot(name) == Some(|stem|) by {
      LastDotOf(stem, ext);
    }
    assert name != ".." by {
      if |name| == 2 {
        assert |stem| == 1 && ext == [];
        assert stem == [name[0]] && name[1] == '.';
      }
    }
    assert name[|stem|..] == "." + ext;
  }

  /** A name whose last segment has no dot has no extension and is refused. */
  lemma NoExtensionRefused(name: string, mimetype: string)
    requires '.' !in LastPiece(name, '/')
    ensures Extname(name) == "" && !Accepts(name, mimetype)
  {
    assert Lower("") == "";
    NoAllowedLetters("");
  }

  /** An accepted file has a non-empty extension and one of the names in its mimetype. */
  lemma AcceptedHasExtension(name: string, mimetype: string)
    requires Accepts(name, mimetype)
    ensures Extname(name) != "" && '.' in LastPiece(name, '/')
    ensures exists t :: t in AllowedTypes && Contains(mimetype, t)
  {
    if Extname(name) == "" {
      assert Lower("") == "";
      NoAllowedLetters("");
    }
  }

  /** `t` occurs at offset `i`, so the text matches. */
  lemma MatchesAt(s: string, t: string, i: nat)
    requires t in AllowedTypes && OccursAt(s, t, i)
    ensures MatchesAllowed(s)
  {
    OccursImpliesContains(s, t, i);
  }

  /** The extension is lowercased: a ".PDF" file sent as "application/pdf" is accepted. */
  lemma UppercaseExtensionAccepted(stem: string)
    requires '/' !in stem && stem != "" && stem != "."
    ensures Accepts(stem + ".PDF", "application/pdf")
  {
    PdfExtension(stem);
    PdfMatches();
  }

  lemma PdfExtension(stem: string)
    requires '/' !in stem && stem != "" && stem != "."
    ensures Lower(Extname(stem + ".PDF")) == ".pdf"
  {
    assert stem + ".PDF" == stem + "." + "PDF";
    ExtnameOf(stem, "PDF");
    assert "." + "PDF" == ".PDF";
    LowerOfPdf();
  }

  lemma LowerOfPdf()
    ensures Lower(".PDF") == ".pdf"
  {
    var r := Lower(".PDF");
    assert r[0] == '.' && r[1] == 'p' && r[2] == 'd' && r[3] == 'f';
  }

  lemma PdfMatches()
    ensures MatchesAllowed(".pdf") && MatchesAllowed("application/pdf")
  {
    MatchesAt(".pdf", "pdf", 1);
    var mime := "application/pdf";
    assert mime[12..15] == "pdf";
    MatchesAt(mime, "pdf", 12);
  }

  /** The test is unanchored: a ".jpgx" file sent as "image/jpeg" passes. */
  lemma UnanchoredExtensionAccepted(stem: string)
    requires '/' !in stem && stem != "" && stem != "."
    ensures Accepts(stem + ".jpgx", "image/jpeg")
  {
    JpgxExtension(stem);
    JpgxMatches();
  }

  lemma JpgxExtension(stem: string)
    requires '/' !in stem && stem != "" && stem != "."
    ensures Lower(Extname(stem + ".jpgx")) == ".jpgx"
  {
    assert stem + ".jpgx" == stem + "." + "jpgx";
    ExtnameOf(stem, "jpgx");
    assert "." + "jpgx" == ".jpgx";
    LowerOfJpgx();
  }

  lemma LowerOfJpgx()
    ensures Lower(".jpgx") == ".jpgx"
  {
    var r := Lower(".jpgx");
    assert r[0] == '.' && r[1] == 'j' && r[2] == 'p' && r[3] == 'g' && r[4] == 'x';
  }

  lemma JpgxMatches()
    ensures MatchesAllowed(".jpgx") && MatchesAllowed("image/jpeg")
  {
    var ext := ".jpgx";
    assert ext[1..4] == "jpg";
    MatchesAt(ext, "jpg", 1);
    var mime := "image/jpeg";
    assert mime[6..10] == "jpeg";
    MatchesAt(mime, "jpeg", 6);
  }

  /** The mimetype is not lowercased: "IMAGE/PNG" is refused whatever the name. */
  lemma UppercaseMimetypeRefused(name: string)
    ensures !Accepts(name, "IMAGE/PNG")
  {
    NoAllowedLetters("IMAGE/PNG");
  }

  /** A text with none of j, g, f and x, and a "d" only as its last
      character, matches no alternative. */
  lemma NoAllowedNamesBeforeFinalD(a: string)
    requires 'j' !in a && 'g' !in a && 'f' !in a && 'x' !in a && 'd' !in a
    ensures !MatchesAllowed(a + "d")
  {
    var s := a + "d";
    assert 'j' !in s && 'g' !in s && 'f' !in s && 'x' !in s;
    MissingCharNotContained(s, "jpeg", 'j');
    MissingCharNotContained(s, "jpg", 'j');
    MissingCharNotContained(s, "png", 'g');
    MissingCharNotContained(s, "pdf", 'f');
    MissingCharNotContained(s, "docx", 'x');
    ContainsPastPrefix(a, "d", "doc");
    LongerNotContained("d", "doc");
  }

  /** The letters of the Word mimetype. */
  lemma WordMimetypeLetters()
    ensures "application/msword" == "application/mswor" + "d"
    ensures var a := "application/mswor"; 'j' !in a && 'g' !in a && 'f' !in a && 'x' !in a && 'd' !in a
  {
  }

  /** The Word mimetype contains none of the alternatives, so a ".doc" file
      sent as "application/msword" is refused, as is any other. */
  lemma WordMimetypeRefused(name: string)
    ensures !Accepts(name, "application/msword")
  {
    WordMimetypeLetters();
    NoAllowedNamesBeforeFinalD("application/mswor");
  }
}
