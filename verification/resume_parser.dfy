/**
 * The résumé processor: choose a reader by file extension, flatten the document to lower-case
 * text, recognise skills from a fixed keyword taxonomy, and infer years of experience from the
 * first experience pattern that matches.
 */
module ResumeParser {
  import opened Wrappers
  import opened Strings
  import opened StringOrder
  import opened Choices
  import opened ExperiencePatterns

  // The keyword taxonomy, in the order the processor scans it.

  const ProgrammingLanguages: seq<string> := [
    "python", "javascript", "java", "c++", "c#", "php", "ruby", "go", "rust", "swift", "kotlin",
    "typescript", "scala", "r", "matlab", "perl", "bash", "powershell"]

  const Frameworks: seq<string> := [
    "react", "angular", "vue", "node.js", "django", "flask", "express", "spring", "laravel",
    "asp.net", "rails", "fastapi", "tornado", "bootstrap", "tailwind", "material-ui"]

  /** Listed with the frameworks when scanning, but absent from the category table. */
  const FrontEndLibraries: seq<string> := ["jquery", "axios", "lodash", "moment", "chart.js", "d3.js"]

  const Databases: seq<string> := [
    "mysql", "postgresql", "mongodb", "redis", "sqlite", "oracle", "sql server", "mariadb",
    "elasticsearch", "cassandra", "dynamodb", "firebase"]

  const CloudDevOps: seq<string> := [
    "aws", "azure", "gcp", "docker", "kubernetes", "jenkins", "gitlab", "github actions",
    "terraform", "ansible", "nginx", "apache", "linux", "ubuntu", "centos"]

  const DataScience: seq<string> := [
    "tensorflow", "pytorch", "scikit-learn", "pandas", "numpy", "matplotlib", "seaborn",
    "jupyter", "spark", "hadoop", "kafka", "airflow", "tableau", "power bi"]

  /** Scanned, but absent from the category table. */
  const ToolsPlatforms: seq<string> := [
    "git", "svn", "jira", "confluence", "slack", "teams", "zoom", "figma", "sketch",
    "postman", "swagger", "graphql", "rest api", "soap", "microservices"]

  const SoftSkills: seq<string> := [
    "leadership", "communication", "teamwork", "problem solving", "project management",
    "agile", "scrum", "kanban", "lean", "six sigma", "customer service", "mentoring"]

  /** `skill_keywords`. */
  const Keywords: seq<string> :=
    ProgrammingLanguages + Frameworks + FrontEndLibraries + Databases + CloudDevOps + DataScience
    + ToolsPlatforms + SoftSkills

  /** Every keyword is written in lower case, which is what makes title-casing lose nothing. */
  lemma KeywordsLowerCase()
    ensures forall k | k in Keywords :: NoUpper(k)
  {
    ProgrammingLanguagesLowerCase();
    FrameworksLowerCase();
    FrontEndLibrariesLowerCase();
    DatabasesLowerCase();
    CloudDevOpsLowerCase();
    DataScienceLowerCase();
    ToolsPlatformsLowerCase();
    SoftSkillsLowerCase();
  }

  lemma ProgrammingLanguagesLowerCase()
    ensures forall i | 0 <= i < |ProgrammingLanguages| :: NoUpper(ProgrammingLanguages[i])
  {
  }

  lemma FrameworksLowerCase()
    ensures forall i | 0 <= i < |Frameworks| :: NoUpper(Frameworks[i])
  {
  }

  lemma FrontEndLibrariesLowerCase()
    ensures forall i | 0 <= i < |FrontEndLibraries| :: NoUpper(FrontEndLibraries[i])
  {
  }

  lemma DatabasesLowerCase()
    ensures forall i | 0 <= i < |Databases| :: NoUpper(Databases[i])
  {
  }

  lemma CloudDevOpsLowerCase()
    ensures forall i | 0 <= i < |CloudDevOps| :: NoUpper(CloudDevOps[i])
  {
  }

  lemma DataScienceLowerCase()
    ensures forall i | 0 <= i < |DataScience| :: NoUpper(DataScience[i])
  {
  }

  lemma ToolsPlatformsLowerCase()
    ensures forall i | 0 <= i < |ToolsPlatforms| :: NoUpper(ToolsPlatforms[i])
  {
  }

  lemma SoftSkillsLowerCase()
    ensures forall i | 0 <= i < |SoftSkills| :: NoUpper(SoftSkills[i])
  {
  }

  /** The title-cased form of each keyword of `ks` that occurs in `text`, in scanning order. */
  function MatchedTitles(text: string, ks: seq<string>): (r: seq<string>)
    ensures forall x :: x in r <==> exists k :: k in ks && Contains(text, k) && x == Title(k)
  {
    if ks == [] then []
    else
      var rest := MatchedTitles(text, ks[1..]);
      assert forall k :: k in ks <==> k == ks[0] || k in ks[1..] by {
        assert ks == [ks[0]] + ks[1..];
      }
      if Contains(text, ks[0]) then [Title(ks[0])] + rest else rest
  }

  /**
   * Skill recognition against the taxonomy `ks`: each keyword occurring in the text, title-cased,
   * duplicates removed, in code-point order.
   */
  function SkillsFor(text: string, ks: seq<string>): (r: seq<string>)
    ensures StrictlySorted(r)
    ensures forall x :: x in r <==> exists k :: k in ks && Contains(text, k) && x == Title(k)
  {
    var found := MatchedTitles(text, ks);
    var r := SortedDistinct(found);
    assert forall x :: x in r <==> x in Elems(r);
    r
  }

  /** `_extract_skills`: skill recognition against `skill_keywords`. */
  function ExtractSkills(text: string): (r: seq<string>)
    ensures StrictlySorted(r)
    ensures forall x :: x in r <==> exists k :: k in Keywords && Contains(text, k) && x == Title(k)
  {
    SkillsFor(text, Keywords)
  }

  /**
   * For a lower-case taxonomy, a keyword's title-cased form is reported exactly when the keyword
   * occurs in the text: no other keyword title-cases to the same name.
   */
  lemma ReportedIffPresent(text: string, ks: seq<string>, k: string)
    requires forall i | 0 <= i < |ks| :: NoUpper(ks[i])
    requires k in ks
    ensures Title(k) in SkillsFor(text, ks) <==> Contains(text, k)
  {
    if Title(k) in SkillsFor(text, ks) {
      var k' :| k' in ks && Contains(text, k') && Title(k) == Title(k');
      TitleInjective(k, k');
    }
  }

  /** A keyword's title-cased form is reported exactly when the keyword occurs in the text. */
  lemma KeywordReportedIffPresent(text: string, k: string)
    requires k in Keywords
    ensures Title(k) in ExtractSkills(text) <==> Contains(text, k)
  {
    KeywordsLowerCase();
    ReportedIffPresent(text, Keywords, k);
  }

  /** Matching is by substring: a résumé that mentions JavaScript is also credited with Java. */
  lemma JavaScriptYieldsJava(text: string)
    requires Contains(text, "javascript")
    ensures "Java" in ExtractSkills(text)
  {
    assert IsPrefixOf("java", "javascript"[0..]);
    ContainsTransitive(text, "javascript", "java");
    JavaIsKeyword();
    KeywordReportedIffPresent(text, "java");
  }

  lemma JavaIsKeyword()
    ensures "java" in Keywords && Title("java") == "Java"
  {
    assert ProgrammingLanguages[2] == "java";
  }

  /** The one-letter keyword `r` makes any text containing the letter r report the skill R. */
  lemma LetterRYieldsR(text: string)
    requires 'r' in text
    ensures "R" in ExtractSkills(text)
  {
    ContainsChar(text, 'r');
    RIsKeyword();
    KeywordReportedIffPresent(text, "r");
  }

  lemma RIsKeyword()
    ensures "r" in Keywords && Title("r") == "R"
  {
    assert ProgrammingLanguages[13] == "r";
  }

  /** A text that contains another is credited with at least the other's skills, for any taxonomy. */
  lemma SkillsMonotone(text: string, part: string, ks: seq<string>)
    requires Contains(text, part)
    ensures forall x :: x in SkillsFor(part, ks) ==> x in SkillsFor(text, ks)
  {
    forall x | x in SkillsFor(part, ks)
      ensures x in SkillsFor(text, ks)
    {
      var k :| k in ks && Contains(part, k) && x == Title(k);
      ContainsTransitive(text, part, k);
    }
  }

  /** The result of `_extract_experience`. */
  datatype Experience = Experience(totalYears: nat, level: Level, foundPatterns: seq<string>)

  /** The fewest years that earn each level. */
  function MinYears(l: Level): nat {
    match l
    case Entry => 0
    case Mid => 3
    case Senior => 6
    case Expert => 10
  }

  /** The level for a number of years: the highest level whose threshold the years reach. */
  function Bucket(years: nat): (r: Level)
    ensures forall l: Level :: l.Rank() <= r.Rank() <==> MinYears(l) <= years
  {
    if years >= 10 then Expert
    else if years >= 6 then Senior
    else if years >= 3 then Mid
    else Entry
  }

  /** The four bands of the bucketing. */
  lemma BucketBands(years: nat)
    ensures Bucket(years) == Expert <==> years >= 10
    ensures Bucket(years) == Senior <==> 6 <= years < 10
    ensures Bucket(years) == Mid <==> 3 <= years < 6
    ensures Bucket(years) == Entry <==> years < 3
  {
    var b := Bucket(years);
    assert Expert.Rank() <= b.Rank() <==> 10 <= years;
    assert Senior.Rank() <= b.Rank() <==> 6 <= years;
    assert Mid.Rank() <= b.Rank() <==> 3 <= years;
  }

  /** More years never give a lower level. */
  lemma BucketMonotone(a: nat, b: nat)
    requires a <= b
    ensures Bucket(a).Rank() <= Bucket(b).Rank()
  {
    var la := Bucket(a);
    assert la.Rank() <= la.Rank();
    assert MinYears(la) <= a;
  }

  /** `max(xs)` for a non-empty list. */
  function MaxOf(xs: seq<nat>): (m: nat)
    requires xs != []
    ensures m in xs
    ensures forall x :: x in xs ==> x <= m
  {
    if |xs| == 1 then xs[0]
    else
      var rest := MaxOf(xs[1..]);
      assert forall x :: x in xs <==> x == xs[0] || x in xs[1..] by {
        assert xs == [xs[0]] + xs[1..];
      }
      if xs[0] >= rest then xs[0] else rest
  }

  /** The message recorded for the winning pattern. */
  function FoundMessage(years: nat): string {
    "Found " + NatToString(years) + " years of experience"
  }

  /** No pattern of `patterns` matches anywhere in `text`. */
  predicate NoneMatch(text: string, patterns: seq<Matcher>) {
    forall i :: 0 <= i < |patterns| ==> patterns[i](text) == []
  }

  /**
   * `_extract_experience` with the patterns as parameters: the first pattern that finds anything
   * decides, its largest number is the total, and the total is bucketed into a level.
   */
  function ExtractExperience(text: string, patterns: seq<Matcher>): (r: Experience)
    ensures r.level == Bucket(r.totalYears)
    ensures |r.foundPatterns| <= 1
    ensures r.foundPatterns == [] <==> NoneMatch(text, patterns)
    ensures r.foundPatterns == [] ==> r.totalYears == 0
  {
    if patterns == [] then Experience(0, Entry, [])
    else
      var found := patterns[0](text);
      if found != [] then
        var years := MaxOf(found);
        Experience(years, Bucket(years), [FoundMessage(years)])
      else
        var r := ExtractExperience(text, patterns[1..]);
        assert NoneMatch(text, patterns) <==> NoneMatch(text, patterns[1..]) by {
          assert forall i :: 0 < i < |patterns| ==> patterns[1..][i - 1] == patterns[i];
        }
        r
  }

  /**
   * The first pattern with a match wins: its maximum is the total, later patterns are never
   * consulted, and exactly one message is recorded.
   */
  lemma {:induction false} FirstMatchWins(text: string, patterns: seq<Matcher>, i: nat)
    requires i < |patterns|
    requires forall j :: 0 <= j < i ==> patterns[j](text) == []
    requires patterns[i](text) != []
    ensures ExtractExperience(text, patterns).totalYears == MaxOf(patterns[i](text))
    ensures ExtractExperience(text, patterns).foundPatterns == [FoundMessage(MaxOf(patterns[i](text)))]
  {
    if i > 0 {
      assert patterns[0](text) == [];
      assert patterns[1..][i - 1] == patterns[i];
      FirstMatchWins(text, patterns[1..], i - 1);
    }
  }

  /** Patterns after the first one that matches have no influence on the result. */
  lemma {:induction false} LaterPatternsIgnored(text: string, ps: seq<Matcher>, qs: seq<Matcher>, qs': seq<Matcher>)
    requires !NoneMatch(text, ps)
    ensures ExtractExperience(text, ps + qs) == ExtractExperience(text, ps + qs')
    decreases |ps|
  {
    assert (ps + qs)[0] == ps[0] && (ps + qs')[0] == ps[0];
    if ps[0](text) == [] {
      assert (ps + qs)[1..] == ps[1..] + qs;
      assert (ps + qs')[1..] == ps[1..] + qs';
      assert !NoneMatch(text, ps[1..]) by {
        var i :| 0 <= i < |ps| && ps[i](text) != [];
        assert ps[1..][i - 1] == ps[i];
      }
      LaterPatternsIgnored(text, ps[1..], qs, qs');
    }
  }

  /**
   * Text that opens with `<n> years of experience` is settled by the first pattern alone: the
   * total is the largest number that pattern reports, at least `n`, whatever `worked for` phrases
   * follow.
   */
  lemma LeadingYearsOfExperienceDecides(d: string, w1: string, u: string, w2: string, o: string, e: string, t: string)
    requires d != [] && AllDigits(d) && AllSpaces(w1) && IsUnit(u) && AllSpaces(w2)
    requires OptionalPart(o, "of") && Spells(e, "experience")
    ensures var text := d + w1 + u + w2 + o + e + t;
      && YearsOfExperience(text) != []
      && ExtractExperience(text, Patterns).totalYears == MaxOf(YearsOfExperience(text))
      && DecimalValue(d) <= ExtractExperience(text, Patterns).totalYears
  {
    var text := d + w1 + u + w2 + o + e + t;
    YearsOfExperienceOf(d, w1, u, w2, o, e, t);
    FindAllFront(YearsOfExperienceAt, text);
    FirstMatchWins(text, Patterns, 0);
  }

  /** Without any match the defaults stand: no years, entry level, nothing found. */
  lemma NoMatchDefaults(text: string, patterns: seq<Matcher>)
    requires NoneMatch(text, patterns)
    ensures ExtractExperience(text, patterns) == Experience(0, Entry, [])
  {
  }

  /** The formats the processor can read. */
  datatype Format = Pdf | Docx

  /** Dispatch on the lower-cased file name: `.pdf`, then `.doc` or `.docx`, else unsupported. */
  function FormatOf(name: string): (r: Option<Format>)
    ensures r == Some(Pdf) <==> EndsWith(Lower(name), ".pdf")
    ensures r == Some(Docx) <==>
      !EndsWith(Lower(name), ".pdf") && (EndsWith(Lower(name), ".doc") || EndsWith(Lower(name), ".docx"))
  {
    var lowered := Lower(name);
    if EndsWith(lowered, ".pdf") then Some(Pdf)
    else if EndsWith(lowered, ".doc") || EndsWith(lowered, ".docx") then Some(Docx)
    else None
  }

  /** The extension test ignores case: a name and its lower-cased form go to the same reader. */
  lemma FormatIgnoresCase(name: string)
    ensures FormatOf(Lower(name)) == FormatOf(name)
  {
    LowerIdempotent(name);
  }

  /**
   * An uploaded file. The name is what the processor inspects; what PyPDF2 and python-docx would
   * make of the contents is given as the list of page or paragraph texts, or the reader's error.
   */
  datatype ResumeFile = ResumeFile(
    name: string,
    pdfPages: Result<seq<string>, string>,
    docxParagraphs: Result<seq<string>, string>)

  /** Each piece followed by a newline, concatenated. */
  function JoinPieces(pieces: seq<string>): string {
    if pieces == [] then "" else pieces[0] + "\n" + JoinPieces(pieces[1..])
  }

  function TotalLength(pieces: seq<string>): nat {
    if pieces == [] then 0 else |pieces[0]| + TotalLength(pieces[1..])
  }

  /** The joined text is one character longer per piece than the pieces together. */
  lemma {:induction false} JoinPiecesLength(pieces: seq<string>)
    ensures |JoinPieces(pieces)| == TotalLength(pieces) + |pieces|
  {
    if pieces != [] {
      JoinPiecesLength(pieces[1..]);
    }
  }

  /** Splitting the joined text at newlines recovers the pieces, plus the empty tail after the last newline. */
  lemma {:induction false} SplitJoinPieces(pieces: seq<string>)
    requires forall k :: 0 <= k < |pieces| ==> '\n' !in pieces[k]
    ensures SplitOn(JoinPieces(pieces), '\n') == pieces + [""]
  {
    if pieces != [] {
      SplitAtSeparator(pieces[0], '\n', JoinPieces(pieces[1..]));
      SplitJoinPieces(pieces[1..]);
      assert [pieces[0]] + (pieces[1..] + [""]) == pieces + [""];
    }
  }

  const UnsupportedFormat := "Unsupported file format. Please upload PDF or DOC/DOCX files."
  const PdfFailure := "Failed to extract text from PDF: "
  const DocxFailure := "Failed to extract text from DOCX: "

  /** `_extract_text` together with the two readers. */
  function ExtractText(file: ResumeFile): (r: Result<string, string>)
    ensures r.Ok? ==> NoUpper(r.value)
    ensures FormatOf(file.name) == None ==> r == Err(UnsupportedFormat)
    ensures FormatOf(file.name) == Some(Pdf) ==> (r.Err? <==> file.pdfPages.Err?)
    ensures FormatOf(file.name) == Some(Docx) ==> (r.Err? <==> file.docxParagraphs.Err?)
    ensures FormatOf(file.name) == Some(Pdf) && file.pdfPages.Ok? ==>
      r == Ok(Lower(JoinPieces(file.pdfPages.value)))
    ensures FormatOf(file.name) == Some(Pdf) && file.pdfPages.Err? ==>
      r == Err(PdfFailure + file.pdfPages.error)
    ensures FormatOf(file.name) == Some(Docx) && file.docxParagraphs.Ok? ==>
      r == Ok(Lower(JoinPieces(file.docxParagraphs.value)))
    ensures FormatOf(file.name) == Some(Docx) && file.docxParagraphs.Err? ==>
      r == Err(DocxFailure + file.docxParagraphs.error)
  {
    match FormatOf(file.name)
    case None => Err(UnsupportedFormat)
    case Some(Pdf) =>
      (match file.pdfPages
       case Ok(pages) => LowerIdempotent(JoinPieces(pages)); Ok(Lower(JoinPieces(pages)))
       case Err(e) => Err(PdfFailure + e))
    case Some(Docx) =>
      (match file.docxParagraphs
       case Ok(paragraphs) => LowerIdempotent(JoinPieces(paragraphs)); Ok(Lower(JoinPieces(paragraphs)))
       case Err(e) => Err(DocxFailure + e))
  }

  /** What `process_resume` returns. */
  datatype Processed = Processed(skills: seq<string>, experience: Experience, textLength: nat)

  const FailurePrefix := "Failed to process resume: "

  /** `process_resume`: every failure, including an unsupported format, comes back prefixed. */
  function ProcessResume(file: ResumeFile): (r: Result<Processed, string>)
    ensures r.Err? <==> ExtractText(file).Err?
    ensures r.Err? ==> r.error == FailurePrefix + ExtractText(file).error
    ensures r.Ok? ==> r.value.textLength == |ExtractText(file).value|
    ensures r.Ok? ==> r.value.skills == ExtractSkills(ExtractText(file).value)
    ensures r.Ok? ==> r.value.experience == ExtractExperience(ExtractText(file).value, Patterns)
  {
    match ExtractText(file)
    case Err(e) => Err(FailurePrefix + e)
    case Ok(text) => Ok(Processed(ExtractSkills(text), ExtractExperience(text, Patterns), |text|))
  }

  /** The reported text length counts every character of every piece plus one newline per piece. */
  lemma ProcessedTextLength(file: ResumeFile)
    requires ExtractText(file).Ok?
    ensures FormatOf(file.name) == Some(Pdf) ==>
      ProcessResume(file).value.textLength == TotalLength(file.pdfPages.value) + |file.pdfPages.value|
    ensures FormatOf(file.name) == Some(Docx) ==>
      ProcessResume(file).value.textLength == TotalLength(file.docxParagraphs.value) + |file.docxParagraphs.value|
  {
    if FormatOf(file.name) == Some(Pdf) {
      JoinPiecesLength(file.pdfPages.value);
    } else if FormatOf(file.name) == Some(Docx) {
      JoinPiecesLength(file.docxParagraphs.value);
    }
  }

  /** A named group of keywords from `get_skill_categories`. */
  datatype Category = Category(name: string, skills: seq<string>)

  /** `get_skill_categories`: every categorised skill is one the extractor scans for. */
  function SkillCategories(): (r: seq<Category>)
    ensures |r| == 6
    ensures forall c, k :: c in r && k in c.skills ==> k in Keywords
  {
    [Category("programming_languages", ProgrammingLanguages),
     Category("frameworks_libraries", Frameworks),
     Category("databases", Databases),
     Category("cloud_devops", CloudDevOps),
     Category("data_science_ml", DataScience),
     Category("soft_skills", SoftSkills)]
  }
}
