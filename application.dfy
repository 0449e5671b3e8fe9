/** Applications: status labels and colours, the language list of an
  * application form, and the reshaping of nested records into ids before
  * an edit form is filled (src/lib/api/application.ts). */
module Application {
  import opened Wrappers
  import opened Seqs
  import opened Text
  import opened Records
  import opened Labels

  const ApplicationStatusLabels: Table := map[
    "pending" := "En attente", "validated" := "Validée", "rejected" := "Rejetée", "reoriented" := "Réorientée"]

  const ApplicationStatusTypographyTypes: Table := map[
    "pending" := "warning", "validated" := "success", "rejected" := "danger", "reoriented" := "secondary"]

  const ApplicationStatusAlertTypes: Table := map[
    "pending" := "warning", "validated" := "success", "rejected" := "error", "reoriented" := "info"]

  function ApplicationStatusName(status: string): (r: string)
    ensures r == Label(ApplicationStatusLabels, status, Unknown)
  {
    if status == "pending" then "En attente"
    else if status == "validated" then "Validée"
    else if status == "rejected" then "Rejetée"
    else if status == "reoriented" then "Réorientée"
    else "Inconnu"
  }

  /** The typography colour; `undefined` (the `break` of the default
    * branch) for any other string. */
  function ApplicationStatusTypographyType(status: string): (r: Option<string>)
    ensures r == Lookup(ApplicationStatusTypographyTypes, status)
  {
    if status == "pending" then Some("warning")
    else if status == "validated" then Some("success")
    else if status == "rejected" then Some("danger")
    else if status == "reoriented" then Some("secondary")
    else None
  }

  /** The alert colour; `undefined` for any other string. */
  function ApplicationStatusAlertType(status: string): (r: Option<string>)
    ensures r == Lookup(ApplicationStatusAlertTypes, status)
  {
    if status == "pending" then Some("warning")
    else if status == "validated" then Some("success")
    else if status == "rejected" then Some("error")
    else if status == "reoriented" then Some("info")
    else None
  }

  /** The status choices of an application form; only "reoriented" is
    * disabled, the others carry no `disabled` key. */
  const ApplicationStatusAsOptions: seq<ToggleOption<string>> := [
    ToggleOption("pending", "En attente", None),
    ToggleOption("rejected", "Rejetée", None),
    ToggleOption("validated", "Validée", None),
    ToggleOption("reoriented", "Réorientée", Some(true))]

  /** Every option is labelled as the labeler labels its value, each of the
    * four statuses appears once, and only "reoriented" is disabled. */
  lemma ApplicationStatusOptionsAgree()
    ensures |ApplicationStatusAsOptions| == 4
    ensures forall i :: 0 <= i < 4 ==>
              ApplicationStatusAsOptions[i].text == ApplicationStatusName(ApplicationStatusAsOptions[i].value) &&
              ApplicationStatusAsOptions[i].value in ApplicationStatusLabels
    ensures forall code :: code in ApplicationStatusLabels ==> exists i :: 0 <= i < 4 && ApplicationStatusAsOptions[i].value == code
    ensures forall i :: 0 <= i < 4 ==>
              (ApplicationStatusAsOptions[i].disabled == Some(true) <==> ApplicationStatusAsOptions[i].value == "reoriented")
  {
    var o := ApplicationStatusAsOptions;
    assert o[0].value == "pending" && o[1].value == "rejected" && o[2].value == "validated" && o[3].value == "reoriented";
  }

  /** `{ language }`. */
  datatype Language = Language(language: string)

  function LanguageName(l: Language): string { l.language }

  /** The languages in order, separated by ", ". */
  function FormatLanguages(languages: seq<Language>): (r: string)
    ensures languages == [] ==> r == ""
    ensures |languages| == 1 ==> r == languages[0].language
  {
    Join(Map(languages, LanguageName), ", ")
  }

  /** What the parser can produce, and what formatting keeps intact: a
    * non-empty entry with no comma and no whitespace at either end. */
  predicate IsCleanEntry(l: string)
  {
    l != "" && ',' !in l && IsTrimmed(l)
  }

  predicate NonEmpty(l: string) { l != "" }

  function ToLanguage(l: string): Language { Language(l) }

  /** Split at commas, trim every piece, drop the empty ones. */
  function ParseLanguages(languagesString: string): (r: seq<Language>)
    ensures forall i :: 0 <= i < |r| ==> IsCleanEntry(r[i].language)
    ensures languagesString == "" ==> r == []
  {
    var kept := Filter(Map(Split(languagesString, ','), Trim), NonEmpty);
    KeptPiecesClean(languagesString);
    EmptyStringKeepsNothing();
    Map(kept, ToLanguage)
  }

  lemma EmptyStringKeepsNothing()
    ensures Filter(Map(Split("", ','), Trim), NonEmpty) == []
  {
    assert Split("", ',') == [""];
    assert Map([""], Trim) == [""];
  }

  /** Every trimmed piece is free of commas and of surrounding whitespace. */
  lemma TrimmedPiecesClean(s: string)
    ensures forall k :: 0 <= k < |Map(Split(s, ','), Trim)| ==>
              ',' !in Map(Split(s, ','), Trim)[k] && IsTrimmed(Map(Split(s, ','), Trim)[k])
  {
    var pieces := Split(s, ',');
    forall k | 0 <= k < |pieces| ensures ',' !in Trim(pieces[k]) {
      TrimKeepsAbsent(pieces[k], ',');
    }
  }

  /** The pieces the parser keeps are clean entries. */
  lemma KeptPiecesClean(s: string)
    ensures forall i :: 0 <= i < |Filter(Map(Split(s, ','), Trim), NonEmpty)| ==>
              IsCleanEntry(Filter(Map(Split(s, ','), Trim), NonEmpty)[i])
  {
    TrimmedPiecesClean(s);
    FilterCarries(Map(Split(s, ','), Trim), NonEmpty, IsCleanEntry);
  }

  /** Trimming removes characters, never adds one. */
  lemma TrimKeepsAbsent(s: string, c: char)
    requires c !in s
    ensures c !in Trim(s)
  {
    var i, j :| 0 <= i <= j <= |s| && Trim(s) == s[i..j] && AllWhitespace(s[..i]) && AllWhitespace(s[j..]);
    InfixKeepsAbsent(s, i, j, c);
  }

  /** A slice holds no character its string does not. */
  lemma InfixKeepsAbsent(s: string, i: int, j: int, c: char)
    requires 0 <= i <= j <= |s| && c !in s
    ensures c !in s[i..j]
  {
    forall k | 0 <= k < j - i ensures s[i..j][k] != c {
      assert s[i..j][k] == s[i + k];
    }
  }

  /** The last comma of `a + "," + b`, when `b` holds none, is the one added. */
  lemma LastCommaIsSeparator(a: string, b: string)
    requires ',' !in b
    ensures LastIndexOf(a + [','] + b, ',') == Some(|a|)
  {
    var s := a + [','] + b;
    var r := LastIndexOf(s, ',');
    assert s[|a|] == ',';
    assert r.Some?;
  }

  /** Splitting at a comma followed only by comma-free text splits off
    * that text as the last piece. */
  lemma SplitAfterLastComma(a: string, b: string)
    requires ',' !in b
    ensures Split(a + [','] + b, ',') == Split(a, ',') + [b]
  {
    LastCommaIsSeparator(a, b);
    var s := a + [','] + b;
    assert s[..|a|] == a && s[|a| + 1..] == b;
  }

  /** Splitting a ", "-joined list of comma-free names at commas gives the
    * first name, then each further name behind one space. */
  lemma {:induction false} SplitJoined(names: seq<string>)
    requires |names| >= 1
    requires forall i :: 0 <= i < |names| ==> ',' !in names[i]
    ensures |Split(Join(names, ", "), ',')| == |names|
    ensures Split(Join(names, ", "), ',')[0] == names[0]
    ensures forall i :: 1 <= i < |names| ==> Split(Join(names, ", "), ',')[i] == " " + names[i]
  {
    if |names| == 1 {
      assert Join(names, ", ") == names[0];
    } else {
      var init, last := names[..|names| - 1], names[|names| - 1];
      var j := Join(init, ", ");
      assert Join(names, ", ") == j + [','] + (" " + last);
      assert ',' !in " " + last;
      SplitAfterLastComma(j, " " + last);
      SplitJoined(init);
    }
  }

  /** A clean name, bare or behind one space, trims to itself. */
  lemma TrimPiece(piece: string, name: string, first: bool)
    requires IsTrimmed(name)
    requires piece == if first then name else " " + name
    ensures Trim(piece) == name
  {
    if first {
      TrimOfTrimmed(name);
    } else {
      assert AllWhitespace(" ");
      TrimPadded(" ", name);
    }
  }

  /** Trimming the first name and every further name behind one space gives
    * back the clean names. */
  lemma TrimPieces(pieces: seq<string>, names: seq<string>)
    requires |pieces| == |names| >= 1
    requires pieces[0] == names[0]
    requires forall i :: 1 <= i < |names| ==> pieces[i] == " " + names[i]
    requires forall i :: 0 <= i < |names| ==> IsTrimmed(names[i])
    ensures Map(pieces, Trim) == names
  {
    forall i | 0 <= i < |names| ensures Trim(pieces[i]) == names[i] {
      TrimPiece(pieces[i], names[i], i == 0);
    }
    MapPointwise(pieces, Trim, names);
  }

  /** Trimming the comma-separated pieces of a ", "-joined list of clean
    * names gives back the names. */
  lemma TrimmedPiecesOfJoin(names: seq<string>)
    requires |names| >= 1
    requires forall i :: 0 <= i < |names| ==> IsCleanEntry(names[i])
    ensures Map(Split(Join(names, ", "), ','), Trim) == names
  {
    SplitJoined(names);
    TrimPieces(Split(Join(names, ", "), ','), names);
  }

  /** Parsing a ", "-joined list of clean names gives one language per name. */
  lemma ParseOfJoin(names: seq<string>)
    requires |names| >= 1
    requires forall i :: 0 <= i < |names| ==> IsCleanEntry(names[i])
    ensures ParseLanguages(Join(names, ", ")) == Map(names, ToLanguage)
  {
    TrimmedPiecesOfJoin(names);
    FilterAll(names, NonEmpty);
  }

  /** Formatting then parsing gives back every list of clean entries. */
  lemma ParseFormatRoundTrip(ls: seq<Language>)
    requires forall i :: 0 <= i < |ls| ==> IsCleanEntry(ls[i].language)
    ensures ParseLanguages(FormatLanguages(ls)) == ls
  {
    if ls == [] {
      EmptyStringKeepsNothing();
    } else {
      var names := Map(ls, LanguageName);
      ParseOfJoin(names);
      assert Map(names, ToLanguage) == ls;
    }
  }

  /** Parsing, formatting and parsing again gives what the first parse gave. */
  lemma ParseFormatParse(s: string)
    ensures ParseLanguages(FormatLanguages(ParseLanguages(s))) == ParseLanguages(s)
  {
    ParseFormatRoundTrip(ParseLanguages(s));
  }

  /** `x?.id || null`: the id of the nested object, or null when the
    * object is null or its id is 0 (falsy). */
  function IdOrNull(id: Option<int>): (r: Option<int>)
    ensures r.Some? <==> id.Some? && id.value != 0
    ensures r.Some? ==> r == id
  {
    if id.Some? && id.value != 0 then id else None
  }

  datatype RequiredDocument = RequiredDocument(id: int, title: string)

  datatype ApplicationDocument = ApplicationDocument(
    id: int, exist: bool, status: string, fileUrl: Option<string>, requiredDocument: Option<RequiredDocument>)

  /** The same document with its required document replaced by an id. */
  datatype ApplicationDocumentForEdition = ApplicationDocumentForEdition(
    id: int, exist: bool, status: string, fileUrl: Option<string>, requiredDocument: Option<int>)

  function DocumentForEdition(doc: ApplicationDocument): ApplicationDocumentForEdition
  {
    ApplicationDocumentForEdition(doc.id, doc.exist, doc.status, doc.fileUrl,
      IdOrNull(if doc.requiredDocument.Some? then Some(doc.requiredDocument.value.id) else None))
  }

  function FormatApplicationDocumentsForEdition(docs: seq<ApplicationDocument>): (r: seq<ApplicationDocumentForEdition>)
    ensures |r| == |docs|
    ensures forall i :: 0 <= i < |docs| ==>
              r[i].id == docs[i].id && r[i].exist == docs[i].exist && r[i].status == docs[i].status && r[i].fileUrl == docs[i].fileUrl
    ensures forall i :: 0 <= i < |docs| ==>
              (r[i].requiredDocument.Some? <==> docs[i].requiredDocument.Some? && docs[i].requiredDocument.value.id != 0)
    ensures forall i :: 0 <= i < |docs| && r[i].requiredDocument.Some? ==> r[i].requiredDocument.value == docs[i].requiredDocument.value.id
  {
    Map(docs, DocumentForEdition)
  }

  datatype EnrollmentQuestion = EnrollmentQuestion(id: int, question: string, enabled: bool)

  datatype EnrollmentQA = EnrollmentQA(id: int, registeredEnrollmentQuestion: Option<EnrollmentQuestion>, response: string)

  datatype EnrollmentQAForEdition = EnrollmentQAForEdition(id: int, registeredEnrollmentQuestion: Option<int>, response: string)

  function QAForEdition(qa: EnrollmentQA): EnrollmentQAForEdition
  {
    EnrollmentQAForEdition(qa.id,
      IdOrNull(if qa.registeredEnrollmentQuestion.Some? then Some(qa.registeredEnrollmentQuestion.value.id) else None),
      qa.response)
  }

  function FormatEnrollmentQuestionResponseForEdition(questionsResponses: seq<EnrollmentQA>): (r: seq<EnrollmentQAForEdition>)
    ensures |r| == |questionsResponses|
    ensures forall i :: 0 <= i < |r| ==>
              r[i].id == questionsResponses[i].id && r[i].response == questionsResponses[i].response
    ensures forall i :: 0 <= i < |r| ==>
              (r[i].registeredEnrollmentQuestion.Some? <==>
                 questionsResponses[i].registeredEnrollmentQuestion.Some? && questionsResponses[i].registeredEnrollmentQuestion.value.id != 0)
    ensures forall i :: 0 <= i < |r| && r[i].registeredEnrollmentQuestion.Some? ==>
              r[i].registeredEnrollmentQuestion.value == questionsResponses[i].registeredEnrollmentQuestion.value.id
  {
    Map(questionsResponses, QAForEdition)
  }

  /** An admission test result; the result may be null. */
  datatype TestResult = TestResult(id: int, courseTest: Option<TestCourse>, result: Option<real>)

  datatype TestResultForEdition = TestResultForEdition(id: int, courseTest: Option<int>, result: Option<real>)

  function ResultForEdition(res: TestResult): TestResultForEdition
  {
    TestResultForEdition(res.id,
      IdOrNull(if res.courseTest.Some? then Some(res.courseTest.value.id) else None),
      if res.result.Some? && res.result.value != 0.0 then res.result else None)
  }

  /** As the two above, and a result of 0 (falsy) becomes null as well. */
  function FormatAdmissionTestResultsForEdition(results: seq<TestResult>): (r: seq<TestResultForEdition>)
    ensures |r| == |results|
    ensures forall i :: 0 <= i < |r| ==> r[i].id == results[i].id
    ensures forall i :: 0 <= i < |r| ==>
              (r[i].courseTest.Some? <==> results[i].courseTest.Some? && results[i].courseTest.value.id != 0)
    ensures forall i :: 0 <= i < |r| && r[i].courseTest.Some? ==> r[i].courseTest.value == results[i].courseTest.value.id
    ensures forall i :: 0 <= i < |r| ==>
              (r[i].result.Some? <==> results[i].result.Some? && results[i].result.value != 0.0)
    ensures forall i :: 0 <= i < |r| && r[i].result.Some? ==> r[i].result == results[i].result
  {
    Map(results, ResultForEdition)
  }
}
