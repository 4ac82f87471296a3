/** The documentation text placed before a variant, as the format string of
    the generator writes it, and the same text seen line by line. */
module Docs {
  import opened Text

  const DocSeparator: string := "\n///\n/// "

  /** A heading with the display name, the description fragments as separate
      doc paragraphs, and a link to the record's page. */
  function DocText(name: string, description: seq<string>, url: string): string {
    "/// ## " + name + DocSeparator + Join(description, DocSeparator)
      + DocSeparator + "[Link to Notion record](" + url + ")"
  }

  /** `ls` is the description part of `ds`, line by line: each fragment as
      a `/// ` line, neighbouring fragments separated by an empty `///` line. */
  predicate IsDescLines(ds: seq<string>, ls: seq<string>) {
    && |ds| > 0
    && |ls| == 2 * |ds| - 1
    && forall j :: 0 <= j < |ls| ==>
      ls[j] == (if j % 2 == 0 then "/// " + ds[j / 2] else "///")
  }

  function DescLines(ds: seq<string>): (ls: seq<string>)
    requires |ds| > 0
    ensures IsDescLines(ds, ls)
    decreases |ds|
  {
    if |ds| == 1 then ["/// " + ds[0]]
    else
      var rest := DescLines(ds[1..]);
      DescLinesStep(ds, rest);
      ["/// " + ds[0], "///"] + rest
  }

  lemma DescLinesStep(ds: seq<string>, rest: seq<string>)
    requires |ds| > 1 && IsDescLines(ds[1..], rest)
    ensures IsDescLines(ds, ["/// " + ds[0], "///"] + rest)
  {
    var ls := ["/// " + ds[0], "///"] + rest;
    forall j | 2 <= j < |ls|
      ensures ls[j] == (if j % 2 == 0 then "/// " + ds[j / 2] else "///")
    {
      Parity(j);
      assert ls[j] == rest[j - 2];
    }
  }

  lemma Parity(j: int)
    requires j >= 2
    ensures (j - 2) % 2 == j % 2 && (j - 2) / 2 == j / 2 - 1
  {
  }

  /** The whole documentation, line by line. */
  function DocLines(name: string, description: seq<string>, url: string): (ls: seq<string>)
    requires description != []
    ensures |ls| == 2 * |description| + 3
  {
    ["/// ## " + name, "///"] + DescLines(description)
      + ["///", "/// [Link to Notion record](" + url + ")"]
  }

  lemma {:induction false} DescLinesJoin(ds: seq<string>)
    requires |ds| > 0
    ensures Join(DescLines(ds), "\n") == "/// " + Join(ds, DocSeparator)
    decreases |ds|
  {
    if |ds| > 1 {
      DescLinesJoin(ds[1..]);
      DescLinesJoinStep(ds);
    }
  }

  lemma DescLinesJoinStep(ds: seq<string>)
    requires |ds| > 1
    requires Join(DescLines(ds[1..]), "\n") == "/// " + Join(ds[1..], DocSeparator)
    ensures Join(DescLines(ds), "\n") == "/// " + Join(ds, DocSeparator)
  {
    DescLinesJoinUnfold(ds);
    JoinUnfold(ds, DocSeparator);
    SeparatorShape(ds[0], Join(ds[1..], DocSeparator));
  }

  lemma DescLinesJoinUnfold(ds: seq<string>)
    requires |ds| > 1
    ensures Join(DescLines(ds), "\n")
         == "/// " + ds[0] + "\n" + "///" + "\n" + Join(DescLines(ds[1..]), "\n")
  {
    DescLinesCons(ds);
    JoinTwoThen("/// " + ds[0], "///", DescLines(ds[1..]), "\n");
  }

  lemma DescLinesCons(ds: seq<string>)
    requires |ds| > 1
    ensures DescLines(ds) == ["/// " + ds[0], "///"] + DescLines(ds[1..])
  {
  }

  lemma JoinTwoThen(x: string, y: string, rest: seq<string>, sep: string)
    requires |rest| > 0
    ensures Join([x, y] + rest, sep) == x + sep + y + sep + Join(rest, sep)
  {
    assert [x, y] + rest == [x] + ([y] + rest);
    JoinCons(x, [y] + rest, sep);
    JoinCons(y, rest, sep);
  }

  lemma SeparatorShape(d: string, j: string)
    ensures "/// " + d + "\n" + "///" + "\n" + ("/// " + j) == "/// " + (d + DocSeparator + j)
  {
  }

  /** The documentation text is its lines joined by line breaks. */
  lemma DocLinesJoin(name: string, description: seq<string>, url: string)
    requires description != []
    ensures Join(DocLines(name, description, url), "\n") == DocText(name, description, url)
  {
    var nl := "\n";
    var body := DescLines(description);
    var link := "/// [Link to Notion record](" + url + ")";
    var heading := "/// ## " + name;
    assert DocLines(name, description, url) == [heading] + (["///"] + (body + ["///", link]));
    JoinCons(heading, ["///"] + (body + ["///", link]), nl);
    JoinCons("///", body + ["///", link], nl);
    JoinAppend(body, ["///", link], nl);
    JoinCons("///", [link], nl);
    DescLinesJoin(description);
    DocTextShape(name, Join(description, DocSeparator), url);
  }

  lemma DocTextShape(name: string, j: string, url: string)
    ensures "/// ## " + name + DocSeparator + j
      + DocSeparator + "[Link to Notion record](" + url + ")"
         == "/// ## " + name + "\n" + ("///" + "\n" + ("/// " + j
              + "\n" + ("///" + "\n" + "/// [Link to Notion record](" + url + ")")))
  {
    SeparatorParts();
    LinkParts();
    Regroup("/// ## ", name, "\n", "///", "/// ", j, "[Link to Notion record](", url, ")");
  }

  lemma SeparatorParts()
    ensures DocSeparator == "\n" + "///" + "\n" + "/// "
  {
  }

  lemma LinkParts()
    ensures "/// [Link to Notion record](" == "/// " + "[Link to Notion record]("
  {
  }

  /** The concatenation regrouped line by line. */
  lemma Regroup(h: string, name: string, nl: string, t: string, p: string,
                j: string, lk: string, url: string, close: string)
    ensures h + name + (nl + t + nl + p) + j + (nl + t + nl + p) + lk + url + close
         == h + name + nl + (t + nl + (p + j + nl + (t + nl + ((p + lk) + url + close))))
  {
  }

  predicate OneLine(s: string) {
    '\n' !in s
  }

  /** When the name, the fragments and the URL are single lines, the
      documentation splits into exactly its doc-comment lines: the heading,
      each fragment on its own line with an empty `///` line between
      fragments, and the link last; every line starts with `///`. */
  lemma DocTextIsDocComment(name: string, description: seq<string>, url: string)
    requires description != []
    requires OneLine(name) && OneLine(url)
    requires forall k :: 0 <= k < |description| ==> OneLine(description[k])
    ensures SplitOn(DocText(name, description, url), '\n') == DocLines(name, description, url)
    ensures var ls := DocLines(name, description, url);
      && ls[0] == "/// ## " + name
      && (forall k :: 0 <= k < |description| ==> ls[2 * k + 2] == "/// " + description[k])
      && ls[|ls| - 1] == "/// [Link to Notion record](" + url + ")"
      && (forall i :: 0 <= i < |ls| ==> "///" <= ls[i])
  {
    DocLinesShape(name, description, url);
    DocLinesJoin(name, description, url);
    SplitOnJoin(DocLines(name, description, url), '\n');
  }

  /** A single line that starts with `///`. */
  predicate DocLine(l: string) {
    OneLine(l) && "///" <= l
  }

  lemma PrefixedLine(p: string, x: string)
    requires DocLine(p) && OneLine(x)
    ensures DocLine(p + x)
  {
    assert (p + x)[..3] == p[..3];
  }

  lemma LiteralLines()
    ensures DocLine("/// ## ") && DocLine("///") && DocLine("/// ")
    ensures DocLine("/// [Link to Notion record](") && OneLine(")")
  {
  }

  /** Every line of the description part is a single `///` line. */
  lemma DescLinesAreDocLines(ds: seq<string>)
    requires |ds| > 0
    requires forall k :: 0 <= k < |ds| ==> OneLine(ds[k])
    ensures forall j :: 0 <= j < |DescLines(ds)| ==> DocLine(DescLines(ds)[j])
  {
    var ls := DescLines(ds);
    LiteralLines();
    forall j | 0 <= j < |ls|
      ensures DocLine(ls[j])
    {
      if j % 2 == 0 {
        PrefixedLine("/// ", ds[j / 2]);
      }
    }
  }

  /** Line by line: every line is a single `///` line, and the fragments sit
      at the even positions after the heading. */
  lemma DocLinesShape(name: string, description: seq<string>, url: string)
    requires description != []
    requires OneLine(name) && OneLine(url)
    requires forall k :: 0 <= k < |description| ==> OneLine(description[k])
    ensures var ls := DocLines(name, description, url);
      && (forall k :: 0 <= k < |description| ==> ls[2 * k + 2] == "/// " + description[k])
      && (forall i :: 0 <= i < |ls| ==> OneLine(ls[i]) && "///" <= ls[i])
  {
    var ls := DocLines(name, description, url);
    var body := DescLines(description);
    var heading := "/// ## " + name;
    var link := "/// [Link to Notion record](" + url + ")";
    LiteralLines();
    PrefixedLine("/// ## ", name);
    PrefixedLine("/// [Link to Notion record](", url);
    PrefixedLine("/// [Link to Notion record](" + url, ")");
    DescLinesAreDocLines(description);
    assert ls == [heading, "///"] + body + ["///", link];
    assert forall i :: 2 <= i < |ls| - 2 ==> ls[i] == body[i - 2];
    forall i | 0 <= i < |ls|
      ensures DocLine(ls[i])
    {
      if 2 <= i < |ls| - 2 {
        assert ls[i] == body[i - 2];
      }
    }
  }
}
