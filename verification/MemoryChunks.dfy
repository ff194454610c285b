/**
  buildMemoryChunks (memory/index.ts): the index entries of a memory. Its summary and its content are
  cut into sections, every section into chunks of at most 1800 code units; a chunk whose content
  was seen before is dropped, and at most 80 chunks are kept. The sha256 of a content is the
  content itself here: the hash is taken to be injective.
 */
module MemoryChunks {

  import opened TextChunks

  const MAX_CHUNK := 1800
  const MAX_CHUNKS := 80
  const MAX_FIELDS := 80
  const MAX_TITLE := 240

  /** The title of the summary section. */
  const SUMMARY_TITLE: Text := [0x8BB0, 0x5FC6, 0x6458, 0x8981]

  /** One entry of a content object: its key, and its value as a string or rendered as JSON. */
  datatype Field = Field(key: Text, rendered: Text)

  /** The content of a memory, by the cases the builder tells apart. */
  datatype Content =
    | NoContent
    | TextContent(text: Text)
    | Fields(fields: seq<Field>)
    | OtherContent(rendered: Text)

  datatype Section = Section(title: Text, content: Text)

  datatype Part = Part(title: Text, content: Text)

  datatype Chunk = Chunk(index: nat, title: Text, content: Text)

  function Take<T>(s: seq<T>, n: nat): (r: seq<T>)
    ensures |r| <= n && r <= s
  {
    if |s| <= n then s else s[..n]
  }

  /** A rendered value that is not indexed: empty text, null, [] or {}. */
  predicate IsBlank(rendered: Text) {
    rendered == [] || rendered == [110, 117, 108, 108] || rendered == [91, 93] || rendered == [123, 125]
  }

  function FieldSections(fields: seq<Field>): seq<Section>
    decreases |fields|
  {
    if fields == [] then []
    else
      var n := |fields| - 1;
      FieldSections(fields[..n]) + (if IsBlank(fields[n].rendered) then []
                                    else [Section(fields[n].key, fields[n].rendered)])
  }

  function Sections(title: Text, summary: Text, content: Content): seq<Section> {
    (if Trim(summary) != [] then [Section(SUMMARY_TITLE, Trim(summary))] else [])
    + (match content
       case NoContent => []
       case TextContent(text) => [Section(title, text)]
       case Fields(fields) => FieldSections(Take(fields, MAX_FIELDS))
       case OtherContent(rendered) => [Section(title, rendered)])
  }

  function Decimal(n: nat): Text {
    if n < 10 then [(48 + n) as CodeUnit] else Decimal(n / 10) + [(48 + n % 10) as CodeUnit]
  }

  /** The title of part k of a section: numbered from the second part on. */
  function PartTitle(title: Text, k: nat): Text {
    Take(if k == 0 then title else title + [32, 0xB7, 32] + Decimal(k + 1), MAX_TITLE)
  }

  /** The first n parts of a section. */
  function PartsOf(section: Section, n: nat): (parts: seq<Part>)
    requires n <= |Chunks(section.content, MAX_CHUNK)|
    ensures |parts| == n
    ensures forall k: nat :: k < n ==>
              parts[k] == Part(PartTitle(section.title, k), Chunks(section.content, MAX_CHUNK)[k])
  {
    if n == 0 then []
    else PartsOf(section, n - 1) + [Part(PartTitle(section.title, n - 1), Chunks(section.content, MAX_CHUNK)[n - 1])]
  }

  function AllParts(sections: seq<Section>): seq<Part>
    decreases |sections|
  {
    if sections == [] then []
    else
      var last := sections[|sections| - 1];
      AllParts(sections[..|sections| - 1]) + PartsOf(last, |Chunks(last.content, MAX_CHUNK)|)
  }

  function Contents(parts: seq<Part>): set<Text> {
    set p | p in parts :: p.content
  }

  /** The parts whose content did not occur before them. */
  function FirstOccurrences(parts: seq<Part>): (r: seq<Part>)
    ensures |r| <= |parts|
    decreases |parts|
  {
    if parts == [] then []
    else
      var before, last := FirstOccurrences(parts[..|parts| - 1]), parts[|parts| - 1];
      if last.content in Contents(before) then before else before + [last]
  }

  function Numbered(parts: seq<Part>): (chunks: seq<Chunk>)
    ensures |chunks| == |parts|
    ensures forall k: nat :: k < |parts| ==> chunks[k] == Chunk(k, parts[k].title, parts[k].content)
  {
    seq(|parts|, i requires 0 <= i < |parts| => Chunk(i, parts[i].title, parts[i].content))
  }

  /** The index of a memory: the first 80 distinct parts of its sections, numbered in order. */
  function Build(title: Text, summary: Text, content: Content): seq<Chunk> {
    Numbered(Take(FirstOccurrences(AllParts(Sections(title, summary, content))), MAX_CHUNKS))
  }

  // ---------------------------------------------------------------- what the index is

  lemma {:induction false} FirstOccurrencesKeep(parts: seq<Part>)
    ensures Contents(FirstOccurrences(parts)) == Contents(parts)
    ensures forall i: nat, j: nat :: i < j < |FirstOccurrences(parts)| ==>
      FirstOccurrences(parts)[i].content != FirstOccurrences(parts)[j].content
    ensures forall p :: p in FirstOccurrences(parts) ==> p in parts
    decreases |parts|
  {
    if parts != [] {
      var n := |parts| - 1;
      var rest := parts[..n];
      FirstOccurrencesKeep(rest);
      assert parts == rest + [parts[n]];
      assert Contents(parts) == Contents(rest) + {parts[n].content};
      var before := FirstOccurrences(rest);
      if parts[n].content !in Contents(before) {
        assert Contents(before + [parts[n]]) == Contents(before) + {parts[n].content};
        forall i: nat | i < |before| ensures before[i].content != parts[n].content {
          assert before[i] in before;
        }
      }
    }
  }

  /** More parts only append to the distinct ones. */
  lemma {:induction false} FirstOccurrencesGrow(parts: seq<Part>, more: seq<Part>)
    requires parts <= more
    ensures FirstOccurrences(parts) <= FirstOccurrences(more)
    decreases |more|
  {
    if |parts| < |more| {
      FirstOccurrencesGrow(parts, more[..|more| - 1]);
    } else {
      assert parts == more;
    }
  }

  lemma {:induction false} PartsFit(sections: seq<Section>, p: Part)
    requires p in AllParts(sections)
    ensures 0 < |p.content| <= MAX_CHUNK && |p.title| <= MAX_TITLE
    ensures InSection(p.content, sections)
    decreases |sections|
  {
    if sections != [] {
      var n := |sections| - 1;
      if p in AllParts(sections[..n]) {
        PartsFit(sections[..n], p);
        var i: nat :| i < n && p.content in Chunks(sections[..n][i].content, MAX_CHUNK);
        assert sections[..n][i] == sections[i];
      } else {
        var last := sections[n];
        var texts := Chunks(last.content, MAX_CHUNK);
        assert p in PartsOf(last, |texts|);
        ChunksFit(last.content, MAX_CHUNK);
        assert p.content in Chunks(sections[n].content, MAX_CHUNK);
      }
    }
  }

  /** The index is numbered from 0, has distinct, non-empty contents of at most 1800 code units, and is at
      most 80 entries long. If it is shorter, every part of every section is in it. */
  lemma {:induction false} IndexIsSound(title: Text, summary: Text, content: Content)
    ensures var chunks := Build(title, summary, content);
            && |chunks| <= MAX_CHUNKS
            && (forall k: nat :: k < |chunks| ==> chunks[k].index == k)
            && (forall k: nat :: k < |chunks| ==> 0 < |chunks[k].content| <= MAX_CHUNK)
            && (forall k: nat :: k < |chunks| ==> |chunks[k].title| <= MAX_TITLE)
            && (forall i: nat, j: nat :: i < j < |chunks| ==> chunks[i].content != chunks[j].content)
  {
    var parts := AllParts(Sections(title, summary, content));
    FirstOccurrencesKeep(parts);
    forall p | p in FirstOccurrences(parts) ensures 0 < |p.content| <= MAX_CHUNK && |p.title| <= MAX_TITLE {
      PartsFit(Sections(title, summary, content), p);
    }
  }

  predicate Indexed(text: Text, chunks: seq<Chunk>) {
    exists k: nat :: k < |chunks| && chunks[k].content == text
  }

  /** Some section has the text among its chunks. */
  predicate InSection(text: Text, sections: seq<Section>) {
    exists i: nat :: i < |sections| && text in Chunks(sections[i].content, MAX_CHUNK)
  }

  lemma {:induction false} ContentsAreSections(sections: seq<Section>, text: Text)
    ensures text in Contents(AllParts(sections)) <==> InSection(text, sections)
  {
    if text in Contents(AllParts(sections)) {
      var p :| p in AllParts(sections) && p.content == text;
      PartsFit(sections, p);
    }
    if InSection(text, sections) {
      var i: nat :| i < |sections| && text in Chunks(sections[i].content, MAX_CHUNK);
      var p := SectionPart(sections[i], text);
      SectionsAreParts(sections, i, p);
    }
  }

  lemma NumberedContents(parts: seq<Part>, text: Text)
    ensures Indexed(text, Numbered(parts)) <==> text in Contents(parts)
  {
    if Indexed(text, Numbered(parts)) {
      var k: nat :| k < |parts| && Numbered(parts)[k].content == text;
      assert parts[k] in parts;
    }
    if text in Contents(parts) {
      var p :| p in parts && p.content == text;
      var k: nat :| k < |parts| && parts[k] == p;
      assert Numbered(parts)[k].content == text;
    }
  }

  /** Nothing is lost below the limit: a text is indexed exactly if it is a chunk of a section. */
  lemma {:induction false} IndexIsComplete(title: Text, summary: Text, content: Content, text: Text)
    requires |Build(title, summary, content)| < MAX_CHUNKS
    ensures Indexed(text, Build(title, summary, content)) <==> InSection(text, Sections(title, summary, content))
  {
    var parts := AllParts(Sections(title, summary, content));
    assert Take(FirstOccurrences(parts), MAX_CHUNKS) == FirstOccurrences(parts);
    FirstOccurrencesKeep(parts);
    NumberedContents(FirstOccurrences(parts), text);
    ContentsAreSections(Sections(title, summary, content), text);
  }

  lemma SectionPart(section: Section, text: Text) returns (p: Part)
    requires text in Chunks(section.content, MAX_CHUNK)
    ensures p in PartsOf(section, |Chunks(section.content, MAX_CHUNK)|) && p.content == text
  {
    var texts := Chunks(section.content, MAX_CHUNK);
    var k: nat :| k < |texts| && texts[k] == text;
    p := PartsOf(section, |texts|)[k];
  }

  lemma {:induction false} SectionsAreParts(sections: seq<Section>, i: nat, p: Part)
    requires i < |sections| && p in PartsOf(sections[i], |Chunks(sections[i].content, MAX_CHUNK)|)
    ensures p in AllParts(sections)
    decreases |sections|
  {
    if i < |sections| - 1 {
      SectionsAreParts(sections[..|sections| - 1], i, p);
    }
  }

  /** A memory whose texts are erased has no index. */
  lemma {:induction false} NothingToIndex(title: Text)
    ensures Build(title, [], NoContent) == []
  {
    assert Trim([]) == [];
  }

  // ---------------------------------------------------------------- the loops of the source

  method CollectSections(title: Text, summary: Text, content: Content) returns (sections: seq<Section>)
    ensures sections == Sections(title, summary, content)
  {
    sections := [];
    if Trim(summary) != [] {
      sections := sections + [Section(SUMMARY_TITLE, Trim(summary))];
    }
    match content
    case NoContent =>
    case TextContent(text) =>
      sections := sections + [Section(title, text)];
    case Fields(all) =>
      var fields := Take(all, MAX_FIELDS);
      ghost var head := sections;
      for i := 0 to |fields|
        invariant sections == head + FieldSections(fields[..i])
      {
        assert fields[..i + 1][..i] == fields[..i];
        if !IsBlank(fields[i].rendered) {
          sections := sections + [Section(fields[i].key, fields[i].rendered)];
        }
      }
      assert fields[..|fields|] == fields;
    case OtherContent(rendered) =>
      sections := sections + [Section(title, rendered)];
  }

  /** The chunks kept and the contents seen, after the given parts. */
  predicate Kept(chunks: seq<Chunk>, dedupe: set<Text>, parts: seq<Part>) {
    chunks == Numbered(FirstOccurrences(parts)) && dedupe == Contents(FirstOccurrences(parts))
  }

  /** One part: the body of the inner loop. */
  method AddPart(chunks: seq<Chunk>, dedupe: set<Text>, title: Text, content: Text, ghost parts: seq<Part>)
    returns (chunks': seq<Chunk>, dedupe': set<Text>)
    requires Kept(chunks, dedupe, parts)
    ensures Kept(chunks', dedupe', parts + [Part(title, content)])
    ensures |chunks'| <= |chunks| + 1
  {
    ghost var part, before := Part(title, content), FirstOccurrences(parts);
    assert (parts + [part])[..|parts|] == parts;
    chunks', dedupe' := chunks, dedupe;
    if content !in dedupe {
      assert Contents(before + [part]) == Contents(before) + {content};
      NumberedGrows(before, part);
      dedupe' := dedupe + {content};
      chunks' := chunks + [Chunk(|chunks|, title, content)];
    }
  }

  /** The parts of one section, up to the one that fills the index. */
  method AddSection(chunks: seq<Chunk>, dedupe: set<Text>, section: Section, ghost parts: seq<Part>)
    returns (chunks': seq<Chunk>, dedupe': set<Text>, full: bool, ghost n: nat)
    requires |chunks| < MAX_CHUNKS && Kept(chunks, dedupe, parts)
    ensures n <= |Chunks(section.content, MAX_CHUNK)|
    ensures Kept(chunks', dedupe', parts + PartsOf(section, n))
    ensures full ==> |chunks'| == MAX_CHUNKS
    ensures !full ==> |chunks'| < MAX_CHUNKS && n == |Chunks(section.content, MAX_CHUNK)|
  {
    var texts := SplitText(section.content, MAX_CHUNK);
    chunks', dedupe', full := chunks, dedupe, false;
    n := 0;
    assert parts + PartsOf(section, 0) == parts;
    for partIndex := 0 to |texts|
      invariant n == partIndex && |chunks'| < MAX_CHUNKS
      invariant Kept(chunks', dedupe', parts + PartsOf(section, n))
    {
      var title := PartTitle(section.title, partIndex);
      chunks', dedupe' := AddPart(chunks', dedupe', title, texts[partIndex], parts + PartsOf(section, n));
      NextPart(section, partIndex, parts);
      n := n + 1;
      if |chunks'| >= MAX_CHUNKS {
        full := true;
        return;
      }
    }
  }

  /** buildMemoryChunks. */
  method BuildChunks(title: Text, summary: Text, content: Content) returns (chunks: seq<Chunk>)
    ensures chunks == Build(title, summary, content)
  {
    var sections := CollectSections(title, summary, content);
    var dedupe: set<Text> := {};
    chunks := [];
    for i := 0 to |sections|
      invariant |chunks| < MAX_CHUNKS
      invariant Kept(chunks, dedupe, AllParts(sections[..i]))
    {
      var full: bool;
      ghost var n: nat;
      chunks, dedupe, full, n := AddSection(chunks, dedupe, sections[i], AllParts(sections[..i]));
      PrefixOfParts(sections, i, n);
      if full {
        FullIndex(AllParts(sections[..i]) + PartsOf(sections[i], n), AllParts(sections));
        return;
      }
    }
    WholeIndex(sections);
  }

  lemma WholeIndex(sections: seq<Section>)
    ensures AllParts(sections[..|sections|]) == AllParts(sections)
  {
    assert sections[..|sections|] == sections;
  }

  lemma NumberedGrows(parts: seq<Part>, part: Part)
    ensures Numbered(parts + [part]) == Numbered(parts) + [Chunk(|parts|, part.title, part.content)]
  {}

  lemma NextPart(section: Section, k: nat, start: seq<Part>)
    requires k < |Chunks(section.content, MAX_CHUNK)|
    ensures start + PartsOf(section, k + 1) ==
            start + PartsOf(section, k) + [Part(PartTitle(section.title, k), Chunks(section.content, MAX_CHUNK)[k])]
  {}

  lemma FullIndex(done: seq<Part>, all: seq<Part>)
    requires done <= all && |FirstOccurrences(done)| == MAX_CHUNKS
    ensures Take(FirstOccurrences(all), MAX_CHUNKS) == FirstOccurrences(done)
  {
    FirstOccurrencesGrow(done, all);
  }

  lemma {:induction false} AllPartsGrow(sections: seq<Section>, i: nat)
    requires i <= |sections|
    ensures AllParts(sections[..i]) <= AllParts(sections)
    decreases |sections|
  {
    if i == |sections| {
      assert sections[..i] == sections;
    } else {
      var n := |sections| - 1;
      assert sections[..n][..i] == sections[..i];
      AllPartsGrow(sections[..n], i);
    }
  }

  /** What the loops have seen so far is a prefix of all parts. */
  lemma {:induction false} PrefixOfParts(sections: seq<Section>, i: nat, n: nat)
    requires i < |sections| && n <= |Chunks(sections[i].content, MAX_CHUNK)|
    ensures AllParts(sections[..i]) + PartsOf(sections[i], n) <= AllParts(sections)
    ensures n == |Chunks(sections[i].content, MAX_CHUNK)| ==>
      AllParts(sections[..i]) + PartsOf(sections[i], n) == AllParts(sections[..i + 1])
  {
    assert sections[..i + 1][..i] == sections[..i];
    AllPartsGrow(sections, i + 1);
    assert PartsOf(sections[i], n) <= PartsOf(sections[i], |Chunks(sections[i].content, MAX_CHUNK)|);
  }
}
