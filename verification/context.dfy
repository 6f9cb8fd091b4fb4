/** The context formatter: turns the (chunk, score) pairs a similarity search
    returned into the CONTEXTO block of the prompt, one part per chunk, each
    with a provenance header `[Trecho i | score=… | page=… | src=…]`. */
module Context {
  import opened Wrappers
  import opened Text
  import opened Metadata

  /** A retrieved document; `metadata` is `None` when the store gave none. */
  datatype Chunk = Chunk(content: string, metadata: Option<Meta>)

  /** A chunk with its similarity score, held in ten-thousandths (the value
      `{score:.4f}` prints). */
  datatype ScoredChunk = ScoredChunk(chunk: Chunk, score: int)

  /** `doc.metadata or {}`. */
  function MetaOf(c: Chunk): Meta {
    c.metadata.GetOr(map[])
  }

  /** `" | page=…"` when `meta.get("page") is not None`, else nothing. */
  function PageSegment(meta: Meta): string {
    var page := Get(meta, "page");
    if page != Null then " | page=" + Render(page) else ""
  }

  /** `meta.get("source") or meta.get("file_path") or ""`. */
  function SourceOf(meta: Meta): Value {
    Or(Or(Get(meta, "source"), Get(meta, "file_path")), Str(""))
  }

  /** `" | src=…"` when the source chosen above is truthy, else nothing. */
  function SrcSegment(meta: Meta): string {
    var source := SourceOf(meta);
    if Truthy(source) then " | src=" + Render(source) else ""
  }

  /** Header of the chunk at 1-based position `i`. */
  function Header(i: nat, sc: ScoredChunk): string {
    var meta := MetaOf(sc.chunk);
    "[Trecho " + NatToString(i) + " | score=" + Fixed4(sc.score)
      + PageSegment(meta) + SrcSegment(meta) + "]"
  }

  /** `f"{header}\n{doc.page_content.strip()}\n"`. */
  function Part(i: nat, sc: ScoredChunk): string {
    Header(i, sc) + "\n" + Strip(sc.chunk.content) + "\n"
  }

  /** The parts in input order, numbered from 1. */
  function Parts(xs: seq<ScoredChunk>): seq<string>
  {
    seq(|xs|, j requires 0 <= j < |xs| => Part(j + 1, xs[j]))
  }

  /** `"\n".join(parts)`. */
  function Join(parts: seq<string>): string {
    if |parts| == 0 then ""
    else if |parts| == 1 then parts[0]
    else parts[0] + "\n" + Join(parts[1..])
  }

  /** Where part `j` starts inside `Join(parts)`: every earlier part plus its
      separator. */
  function Offset(parts: seq<string>, j: nat): nat
    requires j <= |parts|
  {
    if j == 0 then 0 else |parts[0]| + 1 + Offset(parts[1..], j - 1)
  }

  /** `_format_context`. */
  function FormatContext(xs: seq<ScoredChunk>): string {
    if |xs| == 0 then "" else Join(Parts(xs))
  }

  // ---------------------------------------------------------------------------
  // Properties of the join

  /** Each part sits, unchanged, at its offset, and is followed by the
      separator unless it is the last. */
  lemma {:induction false} JoinAt(parts: seq<string>, j: nat)
    requires j < |parts|
    ensures Offset(parts, j) + |parts[j]| <= |Join(parts)|
    ensures Join(parts)[Offset(parts, j)..Offset(parts, j) + |parts[j]|] == parts[j]
    ensures j + 1 < |parts| ==> Offset(parts, j) + |parts[j]| < |Join(parts)|
    ensures j + 1 < |parts| ==> Join(parts)[Offset(parts, j) + |parts[j]|] == '\n'
  {
    if |parts| == 1 {
    } else {
      var rest := parts[1..];
      assert Join(parts) == parts[0] + "\n" + Join(rest);
      if j == 0 {
        assert (parts[0] + "\n" + Join(rest))[..|parts[0]|] == parts[0];
      } else {
        JoinAt(rest, j - 1);
        assert rest[j - 1] == parts[j];
        var o := Offset(rest, j - 1);
        var pre := parts[0] + "\n";
        assert Join(parts) == pre + Join(rest);
        assert Offset(parts, j) == |pre| + o;
        assert (pre + Join(rest))[|pre| + o..|pre| + o + |parts[j]|]
            == Join(rest)[o..o + |parts[j]|];
      }
    }
  }

  /** The joined text is exactly the parts and the separators between them. */
  lemma {:induction false} JoinLength(parts: seq<string>)
    requires 0 < |parts|
    ensures |Join(parts)| + 1 == Offset(parts, |parts|)
  {
    if |parts| > 1 {
      JoinLength(parts[1..]);
    }
  }

  lemma JoinStartsWithFirst(parts: seq<string>)
    requires 0 < |parts|
    ensures |parts[0]| <= |Join(parts)|
    ensures Join(parts)[..|parts[0]|] == parts[0]
  {
    JoinAt(parts, 0);
  }

  // ---------------------------------------------------------------------------
  // Properties of the formatter

  /** A part begins with its header, and the header with its number and score. */
  lemma PartStart(i: nat, sc: ScoredChunk)
    ensures
      var lead := "[Trecho " + NatToString(i) + " | score=" + Fixed4(sc.score);
      && |lead| <= |Header(i, sc)| <= |Part(i, sc)|
      && Part(i, sc)[..|lead|] == lead
      && Part(i, sc)[..|Header(i, sc)|] == Header(i, sc)
  {
    var meta := MetaOf(sc.chunk);
    var lead := "[Trecho " + NatToString(i) + " | score=" + Fixed4(sc.score);
    var h := Header(i, sc);
    var rest := "\n" + Strip(sc.chunk.content) + "\n";
    assert h == lead + (PageSegment(meta) + SrcSegment(meta) + "]");
    assert Part(i, sc) == h + rest;
    assert (h + rest)[..|h|] == h;
    assert h[..|lead|] == lead;
  }

  /** A prefix of a prefix is a prefix. */
  lemma PrefixOfPrefix(s: string, p: string, lead: string)
    requires |p| <= |s| && s[..|p|] == p
    requires |lead| <= |p| && p[..|lead|] == lead
    ensures |lead| <= |s| && s[..|lead|] == lead
  {
    assert s[..|lead|] == s[..|p|][..|lead|];
  }

  /** A non-empty block begins with its first part. */
  lemma FormatContextFirstPart(xs: seq<ScoredChunk>)
    requires 0 < |xs|
    ensures |Part(1, xs[0])| <= |FormatContext(xs)|
    ensures FormatContext(xs)[..|Part(1, xs[0])|] == Part(1, xs[0])
  {
    var ps := Parts(xs);
    assert ps[0] == Part(1, xs[0]);
    JoinStartsWithFirst(ps);
  }

  lemma FirstHeaderLead()
    ensures "[Trecho " + NatToString(1) + " | score=" == "[Trecho 1 | score="
  {
    assert NatToString(1) == "1";
    assert "[Trecho " + "1" == "[Trecho 1";
  }

  /** No results give the empty block; any result gives a block that begins
      with the first header, `[Trecho 1 | score=`. */
  lemma FormatContextStart(xs: seq<ScoredChunk>)
    ensures |xs| == 0 <==> FormatContext(xs) == ""
    ensures 0 < |xs| ==>
      var lead := "[Trecho 1 | score=" + Fixed4(xs[0].score);
      |lead| <= |FormatContext(xs)| && FormatContext(xs)[..|lead|] == lead
  {
    if 0 < |xs| {
      FormatContextFirstPart(xs);
      PartStart(1, xs[0]);
      FirstHeaderLead();
      PrefixOfPrefix(FormatContext(xs), Part(1, xs[0]), "[Trecho 1 | score=" + Fixed4(xs[0].score));
    }
  }

  /** The block is blank (what the answer function tests) exactly when the
      search returned nothing. */
  lemma BlankIffNoResults(xs: seq<ScoredChunk>)
    ensures IsBlank(FormatContext(xs)) <==> |xs| == 0
  {
    FormatContextStart(xs);
    if 0 < |xs| {
      var s := FormatContext(xs);
      assert s[0] == '[';
      NotBlankWhenStartsSolid(s);
    }
  }

  /** `s` holds, from offset `o`, the text `h + "\n" + body + "\n"`, and when
      `more` holds a further newline follows it. */
  predicate LaidOut(s: string, o: nat, h: string, body: string, more: bool) {
    && o + |h| + |body| + 2 <= |s|
    && s[o..o + |h|] == h
    && s[o + |h|] == '\n'
    && s[o + |h| + 1..o + |h| + 1 + |body|] == body
    && s[o + |h| + 1 + |body|] == '\n'
    && (more ==> o + |h| + |body| + 2 < |s| && s[o + |h| + |body| + 2] == '\n')
  }

  /** Positions inside a text that holds `h + "\n" + body + "\n"` at offset `o`. */
  lemma LayoutAt(s: string, o: nat, h: string, body: string, more: bool)
    requires o + |h| + |body| + 2 <= |s|
    requires s[o..o + |h| + |body| + 2] == h + "\n" + body + "\n"
    requires more ==> o + |h| + |body| + 2 < |s| && s[o + |h| + |body| + 2] == '\n'
    ensures LaidOut(s, o, h, body, more)
  {
    var p := h + "\n" + body + "\n";
    var w := s[o..o + |p|];
    assert p[..|h|] == h;
    assert s[o..o + |h|] == w[..|h|];
    assert s[o + |h|] == w[|h|];
    assert s[o + |h| + 1 + |body|] == w[|h| + 1 + |body|];
    forall t | 0 <= t < |body|
      ensures s[o + |h| + 1 + t] == body[t]
    {
      assert w[|h| + 1 + t] == body[t];
    }
  }

  /** A part of the shape `h + "\n" + body + "\n"` is laid out at its offset
      in the joined text, followed by a separator unless it is the last. */
  lemma JoinEntry(parts: seq<string>, j: nat, h: string, body: string)
    requires j < |parts|
    requires parts[j] == h + "\n" + body + "\n"
    ensures LaidOut(Join(parts), Offset(parts, j), h, body, j + 1 < |parts|)
  {
    JoinAt(parts, j);
    LayoutAt(Join(parts), Offset(parts, j), h, body, j + 1 < |parts|);
  }

  /** The block holds one part per result, in input order with no sorting or
      deduplication: at the offset of entry `j` come its header (numbered
      `j + 1`), a newline, its stripped content and a newline, and a further
      newline separates it from the next part, leaving a blank line. */
  lemma FormatContextEntry(xs: seq<ScoredChunk>, j: nat)
    requires j < |xs|
    ensures LaidOut(FormatContext(xs), Offset(Parts(xs), j), Header(j + 1, xs[j]),
                    Strip(xs[j].chunk.content), j + 1 < |xs|)
  {
    var ps := Parts(xs);
    assert FormatContext(xs) == Join(ps);
    JoinEntry(ps, j, Header(j + 1, xs[j]), Strip(xs[j].chunk.content));
  }

  /** The block's length is the parts' lengths plus one separator between
      each pair of consecutive parts. */
  lemma FormatContextLength(xs: seq<ScoredChunk>)
    requires 0 < |xs|
    ensures |FormatContext(xs)| + 1 == Offset(Parts(xs), |xs|)
  {
    JoinLength(Parts(xs));
  }

  /** The `page=` segment appears exactly when the metadata holds a non-`None`
      page; a page of 0 is therefore still shown. */
  lemma PageSegmentShown(meta: Meta)
    ensures PageSegment(meta) != "" <==> ("page" in meta && meta["page"] != Null)
    ensures PageSegment(meta) != "" ==> PageSegment(meta) == " | page=" + Render(meta["page"])
  {
  }

  /** The `src=` segment names `source` when it is truthy, otherwise `file_path`
      when that is truthy, and is absent when neither is. */
  lemma SrcSegmentChoice(meta: Meta)
    ensures "source" in meta && Truthy(meta["source"]) ==>
      SrcSegment(meta) == " | src=" + Render(meta["source"])
    ensures !("source" in meta && Truthy(meta["source"])) && "file_path" in meta && Truthy(meta["file_path"]) ==>
      SrcSegment(meta) == " | src=" + Render(meta["file_path"])
    ensures !("source" in meta && Truthy(meta["source"])) && !("file_path" in meta && Truthy(meta["file_path"])) ==>
      SrcSegment(meta) == ""
  {
  }

  /** A chunk whose metadata is `None` is formatted as one with no metadata. */
  lemma MissingMetadataIsEmpty(i: nat, content: string, score: int)
    ensures Header(i, ScoredChunk(Chunk(content, None), score))
         == Header(i, ScoredChunk(Chunk(content, Some(map[])), score))
    ensures Header(i, ScoredChunk(Chunk(content, None), score))
         == "[Trecho " + NatToString(i) + " | score=" + Fixed4(score) + "]"
  {
  }

  lemma ExampleScore()
    ensures Fixed4(8123) == "0.8123"
  {
    assert NatToString(0) == "0";
    assert PadDigits(8123, 4) == "8123";
  }

  lemma ExampleSegments()
    ensures PageSegment(map["page" := Int(3), "source" := Str("relatorio.pdf")]) == " | page=3"
    ensures SrcSegment(map["page" := Int(3), "source" := Str("relatorio.pdf")]) == " | src=relatorio.pdf"
  {
    var meta := map["page" := Int(3), "source" := Str("relatorio.pdf")];
    assert IntToString(3) == "3";
    assert "page" != "source" && "file_path" !in meta;
  }

  /** The literal pieces of the documented header join into the header text. */
  lemma ExampleText()
    ensures "[Trecho " + "1" + " | score=" + "0.8123" + " | page=3" + " | src=relatorio.pdf" + "]"
         == "[Trecho 1 | score=0.8123 | page=3 | src=relatorio.pdf]"
  {
    assert "[Trecho " + "1" == "[Trecho 1";
    assert "[Trecho 1" + " | score=" == "[Trecho 1 | score=";
    assert "[Trecho 1 | score=" + "0.8123" == "[Trecho 1 | score=0.8123";
    assert "[Trecho 1 | score=0.8123" + " | page=3" == "[Trecho 1 | score=0.8123 | page=3";
    assert "[Trecho 1 | score=0.8123 | page=3" + " | src=relatorio.pdf"
        == "[Trecho 1 | score=0.8123 | page=3 | src=relatorio.pdf";
  }

  /** The documented example: one chunk with score 0.8123, page 3 and source
      `relatorio.pdf`. */
  lemma ExampleHeader()
    ensures Header(1, ScoredChunk(Chunk("O relatório indica receita de R$10M em 2024.",
                                        Some(map["page" := Int(3), "source" := Str("relatorio.pdf")])), 8123))
         == "[Trecho 1 | score=0.8123 | page=3 | src=relatorio.pdf]"
  {
    ExampleScore();
    ExampleSegments();
    ExampleText();
    assert NatToString(1) == "1";
  }
}
