/** Two sample records given to `Generate` with documentation and
    `Display` off and on. */
module Scenarios {
  import opened Results
  import opened Text
  import opened Identifier
  import opened Records
  import opened Docs
  import opened Emitter
  import opened Pipeline

  function SampleRecords(): seq<RawRecord> {
    [RawRecord("1", ["First Win"], "http://x/1"), RawRecord("2", ["second try"], "http://x/2")]
  }

  /** The page of record "1" holds one paragraph with two runs; the page of
      record "2" holds nothing. */
  function SampleChildren(id: string): seq<Block> {
    if id == "1" then [Paragraph(["Hello", " world"])] else []
  }

  function SampleOptions(docs: bool, display: bool): Options {
    Options("db", Some("Sample Achievements"), ["Debug", "Clone"], None, display, false, docs)
  }

  lemma SampleIdentifiers()
    ensures DeriveIdentifier(SampleRecords()[0].title[0]) == "FirstWin"
    ensures DeriveIdentifier(SampleRecords()[1].title[0]) == "SecondTry"
  {
    DeriveExamples();
  }

  /** Without documentation: variants `FirstWin` and `SecondTry`, in that
      order, undocumented, and no `Display` implementation. */
  lemma ScenarioPlain()
    ensures var r := Generate(SampleOptions(false, false), [], SampleRecords(), SampleChildren, "t");
      && r.Success?
      && r.value.enumDecl.variants == [Variant("FirstWin", None), Variant("SecondTry", None)]
      && r.value.display.None?
  {
    var opts := SampleOptions(false, false);
    var records := SampleRecords();
    SampleSucceeds(opts);
    GenerateVariants(opts, [], records, SampleChildren, "t");
    DocsOffNoAnnotations(opts, [], records, SampleChildren, "t");
    DisplayMatchesEnum(opts, [], records, SampleChildren, "t");
    SampleIdentifiers();
    TwoPlainVariants(Generate(opts, [], records, SampleChildren, "t").value.enumDecl.variants);
  }

  lemma TwoPlainVariants(vs: seq<Variant>)
    requires |vs| == 2
    requires vs[0].name == "FirstWin" && vs[1].name == "SecondTry"
    requires vs[0].annotation.None? && vs[1].annotation.None?
    ensures vs == [Variant("FirstWin", None), Variant("SecondTry", None)]
  {
  }

  /** The documentation of `FirstWin`, line by line. */
  function SampleDocLines(): seq<string> {
    ["/// ## First Win", "///", "/// Hello", "///", "///  world", "///",
     "/// [Link to Notion record](http://x/1)"]
  }

  /** With documentation: only `FirstWin` is documented, its two runs as two
      doc paragraphs followed by the link to its page. */
  lemma ScenarioDocs()
    ensures var r := Generate(SampleOptions(true, false), [], SampleRecords(), SampleChildren, "t");
      && r.Success?
      && |r.value.enumDecl.variants| == 2
      && r.value.enumDecl.variants[0].annotation.Some?
      && r.value.enumDecl.variants[0].annotation.value == Join(SampleDocLines(), "\n")
      && SplitOn(r.value.enumDecl.variants[0].annotation.value, '\n') == SampleDocLines()
      && r.value.enumDecl.variants[1].annotation == None
  {
    var opts := SampleOptions(true, false);
    var records := SampleRecords();
    SampleSucceeds(opts);
    GenerateVariants(opts, [], records, SampleChildren, "t");
    DocsOnAnnotations(opts, [], records, SampleChildren, "t");
    SampleDescriptions();
    SampleDocText(DocText("First Win", ["Hello", " world"], "http://x/1"),
      "First Win", ["Hello", " world"], "http://x/1");
  }

  lemma SampleSucceeds(opts: Options)
    requires opts.name.Some?
    ensures Generate(opts, [], SampleRecords(), SampleChildren, "t").Success?
  {
    var records := SampleRecords();
    assert forall i :: 0 <= i < |records| ==> records[i].title != [];
  }

  lemma SampleDescriptions()
    ensures RunCount(SampleChildren("1")) == 2
    ensures Description(SampleChildren("1")) == ["Hello", " world"]
    ensures RunCount(SampleChildren("2")) == 0
  {
    DescriptionCons(Paragraph(["Hello", " world"]), []);
    assert [Paragraph(["Hello", " world"])] + [] == SampleChildren("1");
  }

  lemma SampleDocText(d: string, name: string, ds: seq<string>, url: string)
    requires name == "First Win" && ds == ["Hello", " world"] && url == "http://x/1"
    requires d == DocText(name, ds, url)
    ensures d == Join(SampleDocLines(), "\n")
    ensures SplitOn(d, '\n') == SampleDocLines()
  {
    SampleOneLines(name, ds, url);
    DocTextIsDocComment(name, ds, url);
    DocLinesJoin(name, ds, url);
    SampleLineList(DocLines(name, ds, url), name, ds, url);
  }

  lemma SampleOneLines(name: string, ds: seq<string>, url: string)
    requires name == "First Win" && ds == ["Hello", " world"] && url == "http://x/1"
    ensures OneLine(name) && OneLine(url)
    ensures forall k :: 0 <= k < |ds| ==> OneLine(ds[k])
  {
  }

  lemma SampleLineList(ls: seq<string>, name: string, ds: seq<string>, url: string)
    requires name == "First Win" && ds == ["Hello", " world"] && url == "http://x/1"
    requires ls == DocLines(name, ds, url)
    ensures ls == SampleDocLines()
  {
    var body := DescLines(ds);
    assert body[0] == "/// " + ds[0] && body[1] == "///" && body[2] == "/// " + ds[1];
    SampleLineTexts("/// ## ", name, "/// ", ds[0], ds[1], "/// [Link to Notion record](", url, ")");
    SevenLines(ls, "/// ## First Win", "///", "/// Hello", "///", "///  world", "///",
      "/// [Link to Notion record](http://x/1)");
  }

  lemma SampleLineTexts(h: string, name: string, p: string, d0: string, d1: string,
                        lk: string, url: string, close: string)
    requires h == "/// ## " && name == "First Win" && p == "/// "
    requires d0 == "Hello" && d1 == " world"
    requires lk == "/// [Link to Notion record](" && url == "http://x/1" && close == ")"
    ensures h + name == "/// ## First Win"
    ensures p + d0 == "/// Hello" && p + d1 == "///  world"
    ensures lk + url + close == "/// [Link to Notion record](http://x/1)"
  {
  }

  lemma SevenLines(ls: seq<string>, l0: string, l1: string, l2: string, l3: string,
                   l4: string, l5: string, l6: string)
    requires |ls| == 7
    requires ls[0] == l0 && ls[1] == l1 && ls[2] == l2 && ls[3] == l3
    requires ls[4] == l4 && ls[5] == l5 && ls[6] == l6
    ensures ls == [l0, l1, l2, l3, l4, l5, l6]
  {
  }

  /** With `Display`: the implementation is for `SampleAchievements` and its
      body matches both variants, in order, writing the record titles. */
  lemma ScenarioDisplay()
    ensures var r := Generate(SampleOptions(false, true), [], SampleRecords(), SampleChildren, "t");
      && r.Success?
      && r.value.display.Some?
      && r.value.display.value.selfType == "SampleAchievements"
      && r.value.display.value.body == [
           "use SampleAchievements::*;",
           "match self {",
           "    FirstWin => write!(f, \"First Win\"),",
           "    SecondTry => write!(f, \"second try\"),",
           "}"]
  {
    var opts := SampleOptions(false, true);
    var records := SampleRecords();
    SampleSucceeds(opts);
    GenerateParts(opts, [], records, SampleChildren, "t");
    var achs := Achievements(opts, records, SampleChildren);
    SampleAchievements(opts);
    SampleTypeName("Sample Achievements");
    SampleBody(DisplayBody("SampleAchievements", achs), achs, "SampleAchievements");
  }

  /** Without documentation the sample achievements carry the record titles
      and their identifiers. */
  lemma SampleAchievements(opts: Options)
    requires !opts.generateDocs
    ensures var achs := Achievements(opts, SampleRecords(), SampleChildren);
      && achs[0].enumName == "FirstWin" && achs[0].name == "First Win"
      && achs[1].enumName == "SecondTry" && achs[1].name == "second try"
  {
    SampleIdentifiers();
  }

  lemma SampleBody(body: seq<string>, achs: seq<Achievement>, typeName: string)
    requires typeName == "SampleAchievements"
    requires |achs| == 2
    requires achs[0].enumName == "FirstWin" && achs[0].name == "First Win"
    requires achs[1].enumName == "SecondTry" && achs[1].name == "second try"
    requires body == DisplayBody(typeName, achs)
    ensures body == [
      "use SampleAchievements::*;",
      "match self {",
      "    FirstWin => write!(f, \"First Win\"),",
      "    SecondTry => write!(f, \"second try\"),",
      "}"]
  {
    SampleArms(body, achs, typeName);
    SampleUseLine(body[0], typeName);
    FiveLines(body, "use SampleAchievements::*;", "match self {",
      "    FirstWin => write!(f, \"First Win\"),",
      "    SecondTry => write!(f, \"second try\"),", "}");
  }

  lemma SampleArms(body: seq<string>, achs: seq<Achievement>, typeName: string)
    requires |achs| == 2
    requires achs[0].enumName == "FirstWin" && achs[0].name == "First Win"
    requires achs[1].enumName == "SecondTry" && achs[1].name == "second try"
    requires body == DisplayBody(typeName, achs)
    ensures |body| == 5
    ensures body[0] == "use " + typeName + "::*;"
    ensures body[1] == "match self {"
    ensures body[2] == "    FirstWin => write!(f, \"First Win\"),"
    ensures body[3] == "    SecondTry => write!(f, \"second try\"),"
    ensures body[4] == "}"
  {
    TwoArms(body, achs, typeName);
    ArmFirstWin(achs[0]);
    ArmSecondTry(achs[1]);
  }

  lemma TwoArms(body: seq<string>, achs: seq<Achievement>, typeName: string)
    requires |achs| == 2
    requires body == DisplayBody(typeName, achs)
    ensures |body| == 5
    ensures body[2] == MatchArm(achs[0])
    ensures body[3] == MatchArm(achs[1])
  {
  }

  lemma ArmFirstWin(a: Achievement)
    requires a.enumName == "FirstWin" && a.name == "First Win"
    ensures MatchArm(a) == "    FirstWin => write!(f, \"First Win\"),"
  {
    FirstWinArmText("    ", a.enumName, " => write!(f, \"", a.name, "\"),",
      "    FirstWin => write!(f, \"", "First Win\"),");
  }

  /** The arm for FirstWin, assembled two pieces at a time. */
  lemma FirstWinArmText(p: string, e: string, q: string, n: string, r: string,
                        lead: string, tail: string)
    requires p == "    " && e == "FirstWin" && q == " => write!(f, \""
    requires n == "First Win" && r == "\"),"
    requires lead == "    FirstWin => write!(f, \"" && tail == "First Win\"),"
    ensures p + e + q == lead && n + r == tail
    ensures lead + tail == "    FirstWin => write!(f, \"First Win\"),"
  {
  }

  lemma ArmSecondTry(a: Achievement)
    requires a.enumName == "SecondTry" && a.name == "second try"
    ensures MatchArm(a) == "    SecondTry => write!(f, \"second try\"),"
  {
    SecondTryArmText("    ", a.enumName, " => write!(f, \"", a.name, "\"),",
      "    SecondTry => write!(f, \"", "second try\"),");
  }

  /** The arm for SecondTry, assembled two pieces at a time. */
  lemma SecondTryArmText(p: string, e: string, q: string, n: string, r: string,
                         lead: string, tail: string)
    requires p == "    " && e == "SecondTry" && q == " => write!(f, \""
    requires n == "second try" && r == "\"),"
    requires lead == "    SecondTry => write!(f, \"" && tail == "second try\"),"
    ensures p + e + q == lead && n + r == tail
    ensures lead + tail == "    SecondTry => write!(f, \"second try\"),"
  {
  }

  lemma SampleUseLine(l: string, typeName: string)
    requires typeName == "SampleAchievements"
    requires l == "use " + typeName + "::*;"
    ensures l == "use SampleAchievements::*;"
  {
  }

  lemma FiveLines(body: seq<string>, l0: string, l1: string, l2: string, l3: string, l4: string)
    requires |body| == 5
    requires body[0] == l0 && body[1] == l1 && body[2] == l2 && body[3] == l3 && body[4] == l4
    ensures body == [l0, l1, l2, l3, l4]
  {
  }

  lemma SampleTypeName(n: string)
    requires n == "Sample Achievements"
    ensures TypeName(n) == "SampleAchievements"
  {
    SampleNameParts(n, "Sample", "Achievements", "SampleAchievements");
    SpaceSeparated("Sample", "Achievements");
  }

  lemma SampleNameParts(n: string, a: string, b: string, ab: string)
    requires n == "Sample Achievements" && a == "Sample" && b == "Achievements"
    requires ab == "SampleAchievements"
    ensures n == a + " " + b && ab == a + b && ' ' !in a && ' ' !in b
  {
  }

  /** Two space-free words separated by one space lose only the space. */
  lemma SpaceSeparated(a: string, b: string)
    requires ' ' !in a && ' ' !in b
    ensures TypeName(a + " " + b) == a + b
  {
    TypeNameAppend(a + " ", b);
    TypeNameAppend(a, " ");
    TypeNameIdempotent(a);
    TypeNameIdempotent(b);
    assert TypeName(" ") == [];
  }

  /** Without an explicit name the database title is used: stripped of spaces
      for the type, lower-cased with underscores for the default file. */
  lemma ScenarioDatabaseTitle()
    ensures var opts := Options("db", None, [], None, false, false, false);
      var r := Generate(opts, ["Steam Trophies"], SampleRecords(), SampleChildren, "t");
      && r.Success?
      && r.value.enumDecl.name == "SteamTrophies"
      && r.value.destination == File("steam_trophies.rs")
  {
    var opts := Options("db", None, [], None, false, false, false);
    var records := SampleRecords();
    assert forall i :: 0 <= i < |records| ==> records[i].title != [];
    GenerateVariants(opts, ["Steam Trophies"], records, SampleChildren, "t");
    GenerateDestination(opts, ["Steam Trophies"], records, SampleChildren, "t");
    SampleFileName("Steam Trophies");
  }

  lemma SampleFileName(n: string)
    requires n == "Steam Trophies"
    ensures TypeName(n) == "SteamTrophies"
    ensures DefaultFileName(n) == "steam_trophies.rs"
  {
    SteamName(n, "Steam", "Trophies", "SteamTrophies");
    SteamFile("Steam", "Trophies", "steam", "trophies", "steam_trophies.rs");
    SpaceSeparated("Steam", "Trophies");
    FileStemTwoWords("Steam", "Trophies");
  }

  /** The words of "Steam Trophies" and its type name. */
  lemma SteamName(n: string, a: string, b: string, ab: string)
    requires n == "Steam Trophies" && a == "Steam" && b == "Trophies" && ab == "SteamTrophies"
    ensures n == a + " " + b && ab == a + b && ' ' !in a && ' ' !in b
  {
  }

  /** The lower-cased words of "Steam Trophies" and its file name. */
  lemma SteamFile(a: string, b: string, la: string, lb: string, f: string)
    requires a == "Steam" && b == "Trophies"
    requires la == "steam" && lb == "trophies" && f == "steam_trophies.rs"
    ensures LowerAll(a) == la && LowerAll(b) == lb
    ensures la + "_" + lb + ".rs" == f
  {
  }
}
