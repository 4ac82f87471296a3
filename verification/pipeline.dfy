/** One generation run over already-fetched data: resolve the enum name,
    build the achievements, attach descriptions when documentation is asked
    for, then assemble the enum, the optional `Display` implementation and
    the output destination. */
module Pipeline {
  import opened Results
  import opened Text
  import opened Identifier
  import opened Records
  import opened Docs
  import opened Emitter

  /** The command-line options the run consumes. */
  datatype Options = Options(
    databaseId: string,
    name: Option<string>,
    derives: seq<string>,
    outputFile: Option<string>,
    generateDisplay: bool,
    stdout: bool,
    generateDocs: bool)

  /** Why a run aborts: the database title or a record title has no run to
      read a name from. */
  datatype Error = UntitledDatabase | UntitledRecord(index: nat)

  /** Where the generated text goes. */
  datatype Destination = Stdout | File(path: string)

  /** The generated unit: the timestamp for its header comment, the enum, the
      `Display` implementation when asked for, and the destination. */
  datatype Generated = Generated(
    timestamp: string,
    enumDecl: EnumDecl,
    display: Option<DisplayImpl>,
    destination: Destination)

  /** The enum name: the one given, else the first run of the database title. */
  function EnumName(name: Option<string>, databaseTitle: seq<string>): (r: Result<string, Error>)
    ensures r.Failure? <==> name.None? && databaseTitle == []
    ensures r.Failure? ==> r.error == UntitledDatabase
    ensures r.Success? ==> r.value == (if name.Some? then name.value else databaseTitle[0])
  {
    match name
    case Some(n) => Success(n)
    case None => if databaseTitle == [] then Failure(UntitledDatabase) else Success(databaseTitle[0])
  }

  /** Standard output when asked for; otherwise the given file, defaulting to
      the file name derived from the (unstripped) enum name. */
  function ChooseDestination(stdout: bool, outputFile: Option<string>, enumName: string)
    : (d: Destination)
    ensures d.Stdout? <==> stdout
    ensures d.File? && outputFile.Some? ==> d.path == outputFile.value
    ensures d.File? && outputFile.None? ==> d.path == DefaultFileName(enumName)
  {
    if stdout then Stdout else File(outputFile.GetOr(DefaultFileName(enumName)))
  }

  /** A whole run. `databaseTitle` is the title of the database (consulted
      only when no name is given), `records` the result of the query,
      `children` the child blocks of a record's page by record id (consulted
      only when documentation is asked for) and `timestamp` the generation
      time. */
  function Generate(
    opts: Options,
    databaseTitle: seq<string>,
    records: seq<RawRecord>,
    children: string -> seq<Block>,
    timestamp: string): (r: Result<Generated, Error>)
    ensures r.Failure? <==>
      || (opts.name.None? && databaseTitle == [])
      || exists i :: 0 <= i < |records| && records[i].title == []
  {
    match EnumName(opts.name, databaseTitle)
    case Failure(e) => Failure(e)
    case Success(enumName) =>
      match Transform(records)
      case Failure(k) => Failure(UntitledRecord(k))
      case Success(built) =>
        var achs := if opts.generateDocs then AttachDescriptions(built, children) else built;
        Success(Generated(
          timestamp,
          BuildEnum(enumName, opts.derives, achs),
          if opts.generateDisplay then Some(BuildDisplay(enumName, achs)) else None,
          ChooseDestination(opts.stdout, opts.outputFile, enumName)))
  }

  /** The name problem is reported before any record problem, and a record
      problem names the first untitled record. */
  lemma GenerateErrors(
    opts: Options, databaseTitle: seq<string>, records: seq<RawRecord>,
    children: string -> seq<Block>, timestamp: string)
    ensures var r := Generate(opts, databaseTitle, records, children, timestamp);
      r.Failure? ==>
        if opts.name.None? && databaseTitle == [] then r.error == UntitledDatabase
        else
          && r.error.UntitledRecord?
          && r.error.index < |records|
          && records[r.error.index].title == []
          && forall j :: 0 <= j < r.error.index ==> records[j].title != []
  {
  }

  /** The achievements a successful run works on. */
  function Achievements(opts: Options, records: seq<RawRecord>, children: string -> seq<Block>)
    : (achs: seq<Achievement>)
    requires forall i :: 0 <= i < |records| ==> records[i].title != []
    ensures |achs| == |records|
  {
    var built := Transform(records).value;
    if opts.generateDocs then AttachDescriptions(built, children) else built
  }

  /** A successful run, spelled out in terms of its parts. */
  lemma GenerateParts(
    opts: Options, databaseTitle: seq<string>, records: seq<RawRecord>,
    children: string -> seq<Block>, timestamp: string)
    requires Generate(opts, databaseTitle, records, children, timestamp).Success?
    ensures var g := Generate(opts, databaseTitle, records, children, timestamp).value;
      var enumName := EnumName(opts.name, databaseTitle).value;
      var achs := Achievements(opts, records, children);
      && g.enumDecl == BuildEnum(enumName, opts.derives, achs)
      && g.display == (if opts.generateDisplay then Some(BuildDisplay(enumName, achs)) else None)
  {
  }

  /** A successful run has one variant per record, in record order, each
      named by the identifier derived from the record's title; the enum is
      named by the space-stripped enum name and carries the derives as
      given. */
  lemma GenerateVariants(
    opts: Options, databaseTitle: seq<string>, records: seq<RawRecord>,
    children: string -> seq<Block>, timestamp: string)
    requires Generate(opts, databaseTitle, records, children, timestamp).Success?
    ensures var g := Generate(opts, databaseTitle, records, children, timestamp).value;
      && g.enumDecl.name
           == TypeName(if opts.name.Some? then opts.name.value else databaseTitle[0])
      && g.enumDecl.derives == opts.derives
      && |g.enumDecl.variants| == |records|
      && forall i :: 0 <= i < |records| ==>
           g.enumDecl.variants[i].name == DeriveIdentifier(records[i].title[0])
  {
  }

  /** Without documentation no variant is documented. */
  lemma DocsOffNoAnnotations(
    opts: Options, databaseTitle: seq<string>, records: seq<RawRecord>,
    children: string -> seq<Block>, timestamp: string)
    requires !opts.generateDocs
    requires Generate(opts, databaseTitle, records, children, timestamp).Success?
    ensures var g := Generate(opts, databaseTitle, records, children, timestamp).value;
      forall i :: 0 <= i < |g.enumDecl.variants| ==> g.enumDecl.variants[i].annotation.None?
  {
  }

  /** With documentation a variant is documented exactly when its record's
      page has at least one paragraph run, and the documentation carries the
      record's title, the runs and the record's URL. */
  lemma DocsOnAnnotations(
    opts: Options, databaseTitle: seq<string>, records: seq<RawRecord>,
    children: string -> seq<Block>, timestamp: string)
    requires opts.generateDocs
    requires Generate(opts, databaseTitle, records, children, timestamp).Success?
    ensures var g := Generate(opts, databaseTitle, records, children, timestamp).value;
      forall i :: 0 <= i < |records| ==>
        var desc := Description(children(records[i].id));
        && (g.enumDecl.variants[i].annotation.Some? <==> RunCount(children(records[i].id)) > 0)
        && (g.enumDecl.variants[i].annotation.Some? ==>
              g.enumDecl.variants[i].annotation.value
                == DocText(records[i].title[0], desc, records[i].url))
  {
    forall i | 0 <= i < |records|
      ensures |Description(children(records[i].id))| == RunCount(children(records[i].id))
    {
      DescriptionLength(children(records[i].id));
    }
  }

  /** The `Display` implementation exists exactly when asked for; it is for
      the enum's type and has one arm per variant, in order, writing the
      record's title. */
  lemma DisplayMatchesEnum(
    opts: Options, databaseTitle: seq<string>, records: seq<RawRecord>,
    children: string -> seq<Block>, timestamp: string)
    requires Generate(opts, databaseTitle, records, children, timestamp).Success?
    ensures var g := Generate(opts, databaseTitle, records, children, timestamp).value;
      && (g.display.Some? <==> opts.generateDisplay)
      && (g.display.Some? ==>
            && g.display.value.selfType == g.enumDecl.name
            && |g.display.value.body| == |records| + 3
            && forall i :: 0 <= i < |records| ==>
                 && ArmVariant(g.display.value.body[i + 2]) == g.enumDecl.variants[i].name
                 && ArmLiteral(g.display.value.body[i + 2]) == records[i].title[0])
  {
    var enumName := EnumName(opts.name, databaseTitle).value;
    var achs := Achievements(opts, records, children);
    DisplayCoversEnum(enumName, opts.derives, achs);
  }

  /** The output goes to standard output when asked for, else to the given
      file, else to the file named after the unstripped enum name. */
  lemma GenerateDestination(
    opts: Options, databaseTitle: seq<string>, records: seq<RawRecord>,
    children: string -> seq<Block>, timestamp: string)
    requires Generate(opts, databaseTitle, records, children, timestamp).Success?
    ensures var g := Generate(opts, databaseTitle, records, children, timestamp).value;
      var enumName := if opts.name.Some? then opts.name.value else databaseTitle[0];
      g.destination
        == if opts.stdout then Stdout
           else if opts.outputFile.Some? then File(opts.outputFile.value)
           else File(DefaultFileName(enumName))
  {
  }
}
