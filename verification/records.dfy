/** The data the generator reads (database records and the child blocks of a
    record's page) and the canonical `Achievement` built from each record. */
module Records {
  import opened Results
  import opened Text
  import opened Identifier

  /** One record of the database query: its id, the text contents of the runs
      of its `Name` title property, and its page URL. */
  datatype RawRecord = RawRecord(id: string, title: seq<string>, url: string)

  /** A child block of a record's page. Only paragraph blocks carry text: the
      contents of their rich-text runs, in order. */
  datatype Block = Paragraph(runs: seq<string>) | Other

  /** One enum variant to be: the record id, its display name (the first title
      run), the derived identifier, the description fragments and the URL. */
  datatype Achievement = Achievement(
    id: string,
    name: string,
    enumName: string,
    description: seq<string>,
    url: string)

  /** The runs of every paragraph block, in block order; other blocks dropped. */
  function ParagraphRuns(blocks: seq<Block>): (ps: seq<seq<string>>)
    ensures |ps| <= |blocks|
    decreases |blocks|
  {
    if blocks == [] then []
    else match blocks[0]
      case Paragraph(runs) => [runs] + ParagraphRuns(blocks[1..])
      case Other => ParagraphRuns(blocks[1..])
  }

  /** The description of a record: all rich-text contents of all paragraph
      blocks, first in block order, then in run order. */
  function Description(blocks: seq<Block>): seq<string> {
    Concat(ParagraphRuns(blocks))
  }

  /** Number of rich-text runs over all paragraph blocks. */
  function RunCount(blocks: seq<Block>): nat
    decreases |blocks|
  {
    if blocks == [] then 0
    else (if blocks[0].Paragraph? then |blocks[0].runs| else 0) + RunCount(blocks[1..])
  }

  lemma DescriptionCons(b: Block, bs: seq<Block>)
    ensures Description([b] + bs)
         == (if b.Paragraph? then b.runs else []) + Description(bs)
  {
    assert ([b] + bs)[1..] == bs;
    if b.Paragraph? {
      ConcatCons(b.runs, ParagraphRuns(bs));
    } else {
      assert [] + Description(bs) == Description(bs);
    }
  }

  /** The description has one entry per run of every paragraph block. */
  lemma {:induction false} DescriptionLength(blocks: seq<Block>)
    ensures |Description(blocks)| == RunCount(blocks)
    decreases |blocks|
  {
    if blocks != [] {
      DescriptionCons(blocks[0], blocks[1..]);
      assert [blocks[0]] + blocks[1..] == blocks;
      DescriptionLength(blocks[1..]);
    }
  }

  /** Descriptions of consecutive block lists are concatenated in order. */
  lemma {:induction false} DescriptionAppend(a: seq<Block>, b: seq<Block>)
    ensures Description(a + b) == Description(a) + Description(b)
    decreases |a|
  {
    if a == [] {
      assert a + b == b;
    } else {
      assert a + b == [a[0]] + (a[1..] + b);
      assert a == [a[0]] + a[1..];
      DescriptionCons(a[0], a[1..] + b);
      DescriptionCons(a[0], a[1..]);
      DescriptionAppend(a[1..], b);
    }
  }

  /** A fragment is in the description exactly when some paragraph block has
      it among its runs. */
  lemma {:induction false} DescriptionMembership(blocks: seq<Block>, x: string)
    ensures x in Description(blocks)
        <==> exists i :: 0 <= i < |blocks| && blocks[i].Paragraph? && x in blocks[i].runs
    decreases |blocks|
  {
    if blocks != [] {
      DescriptionCons(blocks[0], blocks[1..]);
      assert [blocks[0]] + blocks[1..] == blocks;
      DescriptionMembership(blocks[1..], x);
      if exists i :: 1 <= i < |blocks| && blocks[i].Paragraph? && x in blocks[i].runs {
        var i :| 1 <= i < |blocks| && blocks[i].Paragraph? && x in blocks[i].runs;
        assert blocks[1..][i - 1] == blocks[i];
      }
    }
  }

  /** Blocks that are not paragraphs contribute nothing. */
  lemma NonParagraphsIgnored(blocks: seq<Block>)
    requires forall i :: 0 <= i < |blocks| ==> blocks[i].Other?
    ensures Description(blocks) == []
  {
    DescriptionLength(blocks);
    NoRuns(blocks);
  }

  lemma {:induction false} NoRuns(blocks: seq<Block>)
    requires forall i :: 0 <= i < |blocks| ==> blocks[i].Other?
    ensures RunCount(blocks) == 0
    decreases |blocks|
  {
    if blocks != [] {
      NoRuns(blocks[1..]);
    }
  }

  /** The achievement built from a titled record: named after the first title
      run, identified by the identifier derived from that name, with an empty
      description. */
  function FromRecord(r: RawRecord): (a: Achievement)
    requires |r.title| > 0
    ensures a.id == r.id && a.url == r.url
    ensures a.name == r.title[0]
    ensures a.enumName == DeriveIdentifier(r.title[0])
    ensures NoWhitespace(a.enumName)
    ensures a.description == []
  {
    Achievement(r.id, r.title[0], DeriveIdentifier(r.title[0]), [], r.url)
  }

  predicate Titled(r: RawRecord) {
    |r.title| > 0
  }

  /** The position of the first record whose title has no run. */
  function FirstUntitled(records: seq<RawRecord>): (k: nat)
    requires exists i :: 0 <= i < |records| && !Titled(records[i])
    ensures k < |records| && !Titled(records[k])
    ensures forall j :: 0 <= j < k ==> Titled(records[j])
    decreases |records|
  {
    if !Titled(records[0]) then 0
    else
      var i :| 0 <= i < |records| && !Titled(records[i]);
      assert records[1..][i - 1] == records[i];
      var k := FirstUntitled(records[1..]);
      assert forall j :: 1 <= j <= k ==> records[j] == records[1..][j - 1];
      k + 1
  }

  /** The achievements of all records, in order, or the index of the first
      record whose title has no run: building records in order reads that
      title's first run, which aborts the whole run. */
  function Transform(records: seq<RawRecord>): (r: Result<seq<Achievement>, nat>)
    ensures r.Success? <==> forall i :: 0 <= i < |records| ==> |records[i].title| > 0
    ensures r.Success? ==>
      && |r.value| == |records|
      && forall i :: 0 <= i < |records| ==> r.value[i] == FromRecord(records[i])
    ensures r.Failure? ==>
      && r.error < |records|
      && records[r.error].title == []
      && forall j :: 0 <= j < r.error ==> |records[j].title| > 0
  {
    if forall i :: 0 <= i < |records| ==> Titled(records[i]) then
      Success(seq(|records|, i requires 0 <= i < |records| && Titled(records[i]) =>
        FromRecord(records[i])))
    else
      Failure(FirstUntitled(records))
  }

  /** The achievements with their descriptions filled from the child blocks
      of each record's page; nothing else changes. */
  function AttachDescriptions(achs: seq<Achievement>, children: string -> seq<Block>)
    : (r: seq<Achievement>)
    ensures |r| == |achs|
    ensures forall i :: 0 <= i < |achs| ==>
      && r[i].id == achs[i].id
      && r[i].name == achs[i].name
      && r[i].enumName == achs[i].enumName
      && r[i].url == achs[i].url
      && r[i].description == Description(children(achs[i].id))
  {
    seq(|achs|, i requires 0 <= i < |achs| =>
      achs[i].(description := Description(children(achs[i].id))))
  }
}
