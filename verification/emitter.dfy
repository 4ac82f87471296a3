/** The generated code, as structure: the enum declaration with its derives
    and documented variants, the `Display` implementation, the type name and
    the default output file name. */
module Emitter {
  import opened Results
  import opened Text
  import opened Words
  import opened Records
  import opened Docs

  /** One enum variant and, when the record has a description, the
      documentation text placed before it. */
  datatype Variant = Variant(name: string, annotation: Option<string>)

  /** The enum declaration: type name, derive traits, variants. */
  datatype EnumDecl = EnumDecl(name: string, derives: seq<string>, variants: seq<Variant>)

  /** `impl <traitName> for <selfType>` with one method `fnName`: its
      parameters as written (`&self` first), its return type, and its body
      lines. */
  datatype DisplayImpl = DisplayImpl(
    selfType: string,
    traitName: string,
    fnName: string,
    params: seq<string>,
    resultType: string,
    body: seq<string>)

  /** The type name: the enum name with every space removed. */
  function TypeName(name: string): (t: string)
    ensures ' ' !in t
    ensures forall c :: c != ' ' ==> multiset(t)[c] == multiset(name)[c]
  {
    Without(name, ' ')
  }

  /** Stripping keeps the other characters in their order: the type name of a
      concatenation is the concatenation of the type names. */
  lemma TypeNameAppend(a: string, b: string)
    ensures TypeName(a + b) == TypeName(a) + TypeName(b)
  {
    WithoutAppend(a, b, ' ');
  }

  /** A name without spaces is its own type name; so stripping twice is
      stripping once. */
  lemma TypeNameIdempotent(name: string)
    ensures ' ' !in name ==> TypeName(name) == name
    ensures TypeName(TypeName(name)) == TypeName(name)
  {
    WithoutAbsent(TypeName(name), ' ');
    if ' ' !in name {
      WithoutAbsent(name, ' ');
    }
  }

  /** The documentation placed before an achievement's variant. */
  function DocAnnotation(a: Achievement): string {
    DocText(a.name, a.description, a.url)
  }

  /** The variant for an achievement: named by its identifier, documented
      exactly when its description is non-empty. */
  function VariantOf(a: Achievement): (v: Variant)
    ensures v.name == a.enumName
    ensures v.annotation.Some? <==> a.description != []
    ensures v.annotation.Some? ==> v.annotation.value == DocAnnotation(a)
  {
    Variant(a.enumName, if a.description != [] then Some(DocAnnotation(a)) else None)
  }

  /** The enum for the achievements: named by the space-stripped enum name,
      with the derives as given and one variant per achievement, in order. */
  function BuildEnum(enumName: string, derives: seq<string>, achs: seq<Achievement>)
    : (e: EnumDecl)
    ensures e.name == TypeName(enumName)
    ensures e.derives == derives
    ensures |e.variants| == |achs|
    ensures forall i :: 0 <= i < |achs| ==>
      && e.variants[i].name == achs[i].enumName
      && (e.variants[i].annotation.Some? <==> achs[i].description != [])
      && (e.variants[i].annotation.Some? ==>
            e.variants[i].annotation.value == DocAnnotation(achs[i]))
  {
    EnumDecl(TypeName(enumName), derives,
      seq(|achs|, i requires 0 <= i < |achs| => VariantOf(achs[i])))
  }

  /** The match arm writing an achievement's display name. */
  function MatchArm(a: Achievement): string {
    "    " + a.enumName + " => write!(f, \"" + a.name + "\"),"
  }

  /** The body of `fmt`: bring the variants into scope, then match every
      variant in achievement order, then close the match. */
  function DisplayBody(typeName: string, achs: seq<Achievement>): (lines: seq<string>)
    ensures |lines| == |achs| + 3
    ensures lines[0] == "use " + typeName + "::*;"
    ensures lines[1] == "match self {"
    ensures lines[|lines| - 1] == "}"
    ensures forall i :: 0 <= i < |achs| ==> lines[i + 2] == MatchArm(achs[i])
  {
    ["use " + typeName + "::*;", "match self {"]
      + seq(|achs|, i requires 0 <= i < |achs| => MatchArm(achs[i]))
      + ["}"]
  }

  function BuildDisplay(enumName: string, achs: seq<Achievement>): (d: DisplayImpl)
    ensures d.selfType == TypeName(enumName)
    ensures d.traitName == "std::fmt::Display"
    ensures d.fnName == "fmt"
    ensures d.params == ["&self", "f: &mut std::fmt::Formatter"]
    ensures d.resultType == "std::fmt::Result"
    ensures d.body == DisplayBody(TypeName(enumName), achs)
  {
    DisplayImpl(TypeName(enumName), "std::fmt::Display", "fmt",
      ["&self", "f: &mut std::fmt::Formatter"], "std::fmt::Result",
      DisplayBody(TypeName(enumName), achs))
  }

  /** The variant a match arm matches: the text after the indentation, up to
      the first whitespace. */
  function ArmVariant(line: string): string {
    if |line| < 4 then [] else TakeWord(line[4..])
  }

  /** The string literal a match arm writes: what lies between
      `=> write!(f, "` and the closing `"),`. */
  function ArmLiteral(line: string): string {
    var start := 4 + |ArmVariant(line)| + 15;
    if start <= |line| - 3 then line[start..|line| - 3] else []
  }

  /** Reading an arm back gives the variant and the display name it was
      written from, whenever the identifier holds no whitespace. */
  lemma ArmRoundTrip(a: Achievement)
    requires NoWhitespace(a.enumName)
    ensures ArmVariant(MatchArm(a)) == a.enumName
    ensures ArmLiteral(MatchArm(a)) == a.name
  {
    var line := MatchArm(a);
    var tail := " => write!(f, \"" + a.name + "\"),";
    assert line == "    " + (a.enumName + tail);
    assert line[4..] == a.enumName + tail;
    TakeWordOfWord(a.enumName, tail);
    assert |" => write!(f, \""| == 15;
    assert line[4 + |a.enumName| + 15..|line| - 3] == a.name;
  }

  /** The default output file: the enum name lower-cased, spaces turned into
      underscores, with the `.rs` extension. */
  function DefaultFileName(enumName: string): (f: string)
    ensures |f| == |enumName| + 3
    ensures f[|enumName|..] == ".rs"
    ensures forall i :: 0 <= i < |enumName| ==> f[i] != ' ' && !IsAsciiUpper(f[i])
    ensures forall i :: 0 <= i < |enumName| ==>
      f[i] == (if enumName[i] == ' ' then '_' else ToLower(enumName[i]))
  {
    FileStem(enumName) + ".rs"
  }

  function FileStem(enumName: string): (s: string)
    ensures |s| == |enumName|
  {
    Replace(LowerAll(enumName), ' ', '_')
  }

  lemma FileStemCons(name: string)
    requires name != []
    ensures FileStem(name)
         == [if name[0] == ' ' then '_' else ToLower(name[0])] + FileStem(name[1..])
  {
  }

  /** The default file name and the type name come from the same enum name:
      when the name has no underscore, dropping the underscores from the file
      stem gives the lower-cased type name. */
  lemma {:induction false} FileStemMatchesTypeName(name: string)
    requires '_' !in name
    ensures Without(FileStem(name), '_') == LowerAll(TypeName(name))
    decreases |name|
  {
    if name != [] {
      FileStemCons(name);
      var c := if name[0] == ' ' then '_' else ToLower(name[0]);
      WithoutAppend([c], FileStem(name[1..]), '_');
      FileStemMatchesTypeName(name[1..]);
      assert name == [name[0]] + name[1..];
      WithoutAppend([name[0]], name[1..], ' ');
      LowerAllAppend(Without([name[0]], ' '), TypeName(name[1..]));
    }
  }

  /** Two space-free words separated by one space: the file stem joins their
      lower-cased forms with an underscore. */
  lemma FileStemTwoWords(a: string, b: string)
    requires ' ' !in a && ' ' !in b
    ensures FileStem(a + " " + b) == LowerAll(a) + "_" + LowerAll(b)
  {
    var s := a + " " + b;
    var r := LowerAll(a) + "_" + LowerAll(b);
    forall i | 0 <= i < |s|
      ensures FileStem(s)[i] == r[i]
    {
      if i < |a| {
        assert s[i] == a[i];
      } else if i == |a| {
        assert s[i] == ' ';
      } else {
        assert s[i] == b[i - |a| - 1];
      }
    }
  }

  lemma LowerAllAppend(a: string, b: string)
    ensures LowerAll(a + b) == LowerAll(a) + LowerAll(b)
  {
  }

  /** The `Display` implementation is for the enum's own type and matches
      every variant exactly once, in variant order: reading the arms back
      gives the variant names in order and each record's display name. */
  lemma DisplayCoversEnum(enumName: string, derives: seq<string>, achs: seq<Achievement>)
    requires forall i :: 0 <= i < |achs| ==> NoWhitespace(achs[i].enumName)
    ensures var e := BuildEnum(enumName, derives, achs);
      var d := BuildDisplay(enumName, achs);
      && d.selfType == e.name
      && |d.body| == |e.variants| + 3
      && (forall i :: 0 <= i < |e.variants| ==>
            ArmVariant(d.body[i + 2]) == e.variants[i].name
            && ArmLiteral(d.body[i + 2]) == achs[i].name)
  {
    var d := BuildDisplay(enumName, achs);
    forall i | 0 <= i < |achs|
      ensures ArmVariant(d.body[i + 2]) == achs[i].enumName
      ensures ArmLiteral(d.body[i + 2]) == achs[i].name
    {
      ArmRoundTrip(achs[i]);
    }
  }
}
