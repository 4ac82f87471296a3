# typenotion: record-to-enum transformation

`typenotion` reads the records of a Notion database and writes a Rust source
file with one `enum` variant per record. Optionally it also writes doc comments
built from each record's page and a `Display` implementation. This project
models the part of `main` that turns already-fetched data into the generated
code:

- the identifier derived from a record title (split on whitespace, upper-case
  the first letter of each word, concatenate);
- the description of a record: the text runs of the paragraph blocks of its
  page, flattened;
- the enum declaration: the type name with spaces removed, the derives as
  given, one variant per record, and a documentation annotation exactly when
  the description is non-empty;
- the body of the `Display` implementation;
- the choice of output destination and the default file name.

The run itself is `Pipeline.Generate`. Its inputs are the options, the title
runs of the database, the query results and the child blocks of each page, so
the HTTP requests become inputs. Reading `title[0]` of an empty title list
panics in the program. The model turns that into a `Failure` naming the
database, or the first untitled record.

Modules, in dependency order:

- `Results`: `Option` and `Result`.
- `Text`: character classes (Rust's `char::is_whitespace`, ASCII case), plus
  `Concat`, `Join`, `SplitOn`, `Without`, `LowerAll` and `Replace`.
- `Words`: `str::split_whitespace`.
- `Identifier`: the identifier, with an independent single-pass reference
  definition `CapScan`.
- `Records`: raw records, blocks, achievements, description flattening and
  building achievements.
- `Docs`: the doc annotation text, both as the format string writes it and
  line by line.
- `Emitter`: the enum declaration, the `Display` implementation, the type name
  and the default file name.
- `Pipeline`: a whole run.
- `Scenarios`: two sample records given to `Generate`.

Three behaviours of the program that are easy to misread:

- The annotation ends with the line `/// [Link to Notion record](<url>)`.
- Description fragments are joined with `"\n///\n/// "`. The runs `"Hello"`
  and `" world"` therefore become two separate doc paragraphs, each on its own
  `///` line, not one line `Hello world` (see `Scenarios.ScenarioDocs`).
- A non-empty title made only of whitespace gives the empty identifier.

## Model

| member | source | states |
|---|---|---|
| Words.SplitWhitespace | src/main.rs:183 | every word yielded is non-empty and holds no whitespace |
| Words.SplitJoin | src/main.rs:183 | splitting the single-space join of whitespace-free words gives back exactly those words, in order |
| Words.SplitConcat | src/main.rs:183 | the words, concatenated, are exactly the non-whitespace characters of the title, in order |
| Words.SplitEmpty | src/main.rs:183 | a title has no words if and only if it is empty or all whitespace |
| Identifier.Capitalize | src/main.rs:184-190 | the first character of a word is upper-cased and every other character is kept at its position; a word stays a word and does not start with a lower-case ASCII letter |
| Identifier.DeriveIdentifier | src/main.rs:180-192 | the identifier never contains whitespace |
| Identifier.DeriveMatchesScan | src/main.rs:180-192 | the identifier equals a one-pass scan that drops whitespace and upper-cases exactly the first character after a whitespace run or at the start |
| Identifier.IdentifierLength | src/main.rs:180-192 | the identifier has one character per non-whitespace character of the title, and it is empty if and only if the title is empty or all whitespace |
| Identifier.IdentifierStartsUpper | src/main.rs:184-190 | a non-empty identifier does not start with a lower-case ASCII letter |
| Identifier.DeriveIdempotent | src/main.rs:180-192 | deriving an identifier from an identifier returns it unchanged |
| Identifier.DeriveOfWords | src/main.rs:180-192 | for space-separated words, the identifier is the in-order concatenation of the capitalised words |
| Identifier.TitlesShareIdentifier | src/main.rs:180-192 | identifiers need not be unique: a two-word title and the concatenation of its capitalised words give the same identifier |
| Identifier.IdentifierCollision | src/main.rs:180-192 | the different titles "first win" and "FirstWin" both give FirstWin |
| Identifier.DeriveExamples | src/main.rs:180-192 | "First Win" gives FirstWin, "second try" gives SecondTry, and "" and " \t " give the empty identifier |
| Records.DescriptionLength | src/main.rs:224-230 | the flattened description has exactly as many fragments as the paragraph blocks have runs in total |
| Records.DescriptionAppend | src/main.rs:224-230 | flattening keeps block order: the description of consecutive block lists is the concatenation of their descriptions |
| Records.DescriptionMembership | src/main.rs:224-230 | a fragment is in the description if and only if some paragraph block has it among its runs |
| Records.NonParagraphsIgnored | src/main.rs:227 | blocks without a paragraph contribute nothing |
| Records.FromRecord | src/main.rs:177-195 | the achievement built from a record copies its id and URL, takes the first title run as its name and that name's identifier as its enum name, and starts with an empty description |
| Records.Transform | src/main.rs:174-196 | succeeds if and only if every record has a title run; on success there is one achievement per record, in order; on failure the index is the first untitled record |
| Records.AttachDescriptions | src/main.rs:211-232 | each achievement gets the flattened description of its own page; id, name, identifier and URL are unchanged |
| Emitter.TypeName | src/main.rs:201 | the type name has no space and keeps every other character as many times as the name has it |
| Emitter.TypeNameAppend | src/main.rs:201 | removing spaces keeps the other characters in order: the type name of a concatenation is the concatenation of the type names |
| Emitter.TypeNameIdempotent | src/main.rs:201 | a name without spaces is its own type name, and stripping twice equals stripping once |
| Emitter.VariantOf | src/main.rs:234-244 | the variant is named by the identifier; it is annotated if and only if the description is non-empty, and the annotation is the doc text of the achievement's name, description and URL |
| Emitter.BuildEnum | src/main.rs:201-245 | the enum has the space-stripped name, the derives in the given order, and one variant per achievement in order; a variant is annotated with the doc text if and only if its description is non-empty |
| Docs.DescLines | src/main.rs:239-241 | the description part, line by line: fragment k is line 2k, with an empty `///` line between neighbours |
| Docs.DocLinesJoin | src/main.rs:238-243 | the annotation text is its doc lines joined by line breaks |
| Docs.DocTextIsDocComment | src/main.rs:238-243 | for single-line inputs, the annotation splits at line breaks into exactly its lines: the `## name` heading, each fragment on its own line with an empty `///` line between, and the link to the record last; every line starts with `///` |
| Emitter.DisplayBody | src/main.rs:256-264 | the body is the `use` line for the type, `match self {`, one arm per achievement in order, then `}` |
| Emitter.BuildDisplay | src/main.rs:247-265 | the implementation is of `std::fmt::Display` for the space-stripped type name, with method `fmt(&self, f: &mut std::fmt::Formatter) -> std::fmt::Result` and that body |
| Emitter.ArmRoundTrip | src/main.rs:259-262 | reading a match arm back gives the variant name and the display string it was written from |
| Emitter.DisplayCoversEnum | src/main.rs:234-264 | the `Display` implementation is for the enum's own type and matches each variant exactly once, in variant order, writing its record's title |
| Emitter.DefaultFileName | src/main.rs:280 | the default file name is the name with each space turned into `_` and every other character lower-cased, position by position, followed by `.rs` |
| Emitter.FileStemTwoWords | src/main.rs:280 | two space-free words separated by a space give the lower-cased words joined by an underscore |
| Emitter.FileStemMatchesTypeName | src/main.rs:201-280 | for a name without underscores, dropping the underscores from the file stem gives the lower-cased type name |
| Pipeline.EnumName | src/main.rs:146-160 | the given name is used if there is one, otherwise the first run of the database title; fails if and only if there is neither |
| Pipeline.ChooseDestination | src/main.rs:275-281 | output goes to standard output if and only if that is asked for; otherwise to the given file, or else to the default file name of the unstripped enum name |
| Pipeline.Generate | src/main.rs:146-196 | a run fails if and only if no name is given and the database title is empty, or some record title is empty |
| Pipeline.GenerateErrors | src/main.rs:146-196 | a missing database title is reported before any record problem; a record problem names the first record with an empty title |
| Pipeline.GenerateVariants | src/main.rs:177-245 | a successful run has the space-stripped enum name, the derives as given, and one variant per record, in order, named by the identifier of the record's first title run |
| Pipeline.DocsOffNoAnnotations | src/main.rs:194-245 | without documentation no variant is annotated |
| Pipeline.DocsOnAnnotations | src/main.rs:211-244 | with documentation a variant is annotated if and only if its page has at least one paragraph run; the annotation is the doc text of the record's title, runs and URL |
| Pipeline.DisplayMatchesEnum | src/main.rs:247-264 | the `Display` implementation exists if and only if it is asked for; it is for the enum's type and has one arm per variant, in order, writing the record's title |
| Pipeline.GenerateDestination | src/main.rs:273-281 | the destination is standard output, else the given file, else the default file name of the unstripped enum name |
| Scenarios.ScenarioPlain | src/main.rs:177-245 | records "First Win" and "second try" give variants FirstWin and SecondTry, in order and unannotated, with no `Display` implementation |
| Scenarios.ScenarioDocs | src/main.rs:211-244 | with documentation only FirstWin is annotated, with lines `/// ## First Win`, `///`, `/// Hello`, `///`, `///  world`, `///`, `/// [Link to Notion record](http://x/1)` |
| Scenarios.ScenarioDisplay | src/main.rs:247-264 | the `Display` body for "Sample Achievements" is `use SampleAchievements::*;`, `match self {`, the two arms writing "First Win" and "second try", then `}` |
| Scenarios.ScenarioDatabaseTitle | src/main.rs:146-281 | with no name, the database title "Steam Trophies" gives the type SteamTrophies and the file steam_trophies.rs |

## Left out

- HTTP and environment: the API-key lookup, the client headers and the three
  Notion requests (src/main.rs:122-171, 211-222). Their results are inputs to
  `Pipeline.Generate`: the database title runs, the records, and a function
  from record id to child blocks. A failing request, or a response that does
  not parse, panics in the program and is not modelled.
- JSON deserialisation and command-line parsing (src/main.rs:7-111). These are
  foreign libraries. The model starts from the parsed `RawRecord`, `Block` and
  `Options` values.
- Rendering by `codegen::Scope` (src/main.rs:198, 270). The enum and the
  implementation are kept as structured values (`EnumDecl`, `DisplayImpl`),
  not as the final Rust text.
- The timestamp header (src/main.rs:267-269). The wall-clock time is an opaque
  string parameter, carried in `Generated.timestamp`.
- Writing to standard output or to the file (src/main.rs:275-281). Only the
  chosen `Destination` is modelled.
- Unicode case mapping: `to_uppercase` can turn one character into several,
  and `to_lowercase` is Unicode-aware. `Text.ToUpper` and `Text.ToLower` map
  ASCII letters only and leave every other character unchanged.
- Emitter.DefaultFileName: lower-cases ASCII only, because of the case mapping
  above.
- Identifier uniqueness: the program has no guard against two records with the
  same identifier, and the model asserts none.
  `Identifier.IdentifierCollision` shows that "first win" and "FirstWin" both
  give FirstWin.
- Records.FromRecord: requires a non-empty title. Its caller `Transform` checks
  that first and reports the first untitled record instead of panicking.
- Escaping: titles containing `"` or a backslash go into the `Display` arms
  unescaped, and names with line breaks break the doc comment. The model
  copies the text as the program does and states the line structure of the
  annotation only for single-line inputs (`Docs.DocTextIsDocComment`).
