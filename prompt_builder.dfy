/**
  `build_prompt(persona, task, chunks)`: the text handed to the language
  model. An opening f-string carrying the role, the task and the JSON schema
  the answer must follow, one block per retrieved chunk, an end marker and a
  closing instruction, and finally Python's `strip()` over the whole.

  The fixed texts `build_prompt` writes are gathered in a `Wording` value,
  and `SourceWording` holds them exactly as written. The construction and
  most lemmas are stated for any wording, so they hold for this one in
  particular; the facts that depend on the literal texts themselves (the
  first and last characters, the lengths) are stated for `SourceWording`.
 */
module PromptBuilder {
  import opened Text
  import opened Chunks
  import Decimal
  import AnswerSchema

  /** The fixed texts of the prompt template. The schema description is cut
      at the two top-level keys it names. */
  datatype Wording = Wording(
    greeting: string,
    roleLabel: string,
    taskLabel: string,
    schemaLead: string,
    extractedKey: string,
    schemaMiddle: string,
    subsectionKey: string,
    schemaTail: string,
    startMarker: string,
    endMarker: string,
    closing: string,
    documentLabel: string,
    pageLabel: string,
    headingLabel: string,
    contentLabel: string)

  const Greeting: string := "You are a helpful assistant."
  const RoleLabel: string := "Your role is: "
  const TaskLabel: string := "Your task is: \""

  /** The two member names of the answer, each between double quotes. */
  const ExtractedKey: string := "\"" + AnswerSchema.ExtractedSections + "\""
  const SubsectionKey: string := "\"" + AnswerSchema.SubsectionAnalysis + "\""

  const SchemaLead: string :=
    "Based on the following document chunks, generate a response in this exact JSON format:\n\n"
    + "{\n"
    + "  "
  const SchemaMiddle: string :=
    ": [\n"
    + "    {\n"
    + "      \"document\": \"<PDF filename>\",\n"
    + "      \"section_title\": \"<Section title (heading)>\",\n"
    + "      \"importance_rank\": <integer>,\n"
    + "      \"page_number\": <integer>\n"
    + "    },\n"
    + "    ...\n"
    + "  ],\n"
    + "  "
  const SchemaTail: string :=
    ": [\n"
    + "    {\n"
    + "      \"document\": \"<PDF filename>\",\n"
    + "      \"refined_text\": \"<Detailed analysis based on that chunk>\",\n"
    + "      \"page_number\": <integer>\n"
    + "    },\n"
    + "    ...\n"
    + "  ]\n"
    + "}\n\n"
    + "Only return valid JSON \U{2014} no explanation, no notes, no headings like 'Conclusion'."

  const StartMarker: string := "== Document Chunks Start =="
  const EndMarker: string := "== Document Chunks End =="
  const Closing: string := "Return only the JSON object below."

  /** The texts `build_prompt` writes. */
  const SourceWording: Wording := Wording(
    Greeting, RoleLabel, TaskLabel,
    SchemaLead, ExtractedKey, SchemaMiddle, SubsectionKey, SchemaTail,
    StartMarker, EndMarker, Closing,
    "[Document: ", "[Page: ", "[Heading: ", "[Content]: ")

  /** The whole schema description. */
  function Schema(w: Wording): string {
    w.schemaLead + w.extractedKey + w.schemaMiddle + w.subsectionKey + w.schemaTail
  }

  /** Line 5 of the opening f-string and the blank line after it: `persona`
      is substituted as it is. */
  function RoleLine(w: Wording, persona: string): string {
    w.roleLabel + persona + "\n\n"
  }

  /** Line 7 and the blank line after it: `task` is substituted between
      double quotes with nothing escaped, not even a double quote inside it. */
  function TaskLine(w: Wording, task: string): string {
    w.taskLabel + task + "\"\n\n"
  }

  /** The opening f-string up to the start marker, without the newline it
      begins with. */
  function OpeningBody(w: Wording, persona: string, task: string): string {
    w.greeting + "\n\n" + RoleLine(w, persona) + TaskLine(w, task) + Schema(w) + "\n\n"
  }

  /** The opening f-string without the newline it begins with. */
  function Opening(w: Wording, persona: string, task: string): string {
    OpeningBody(w, persona, task) + (w.startMarker + "\n")
  }

  /** The opening f-string as written, starting with a newline. */
  function Header(w: Wording, persona: string, task: string): string {
    "\n" + Opening(w, persona, task)
  }

  /** The two strings appended after the chunk loop. */
  function EndLine(w: Wording): string {
    "\n" + w.endMarker + "\n"
  }
  function ClosingLine(w: Wording): string {
    "\n\n" + w.closing + "\n"
  }

  /** What follows the chunk region in the returned prompt: the two appended
      strings without the final newline. */
  function Ending(w: Wording): string {
    EndLine(w) + ("\n\n" + w.closing)
  }

  /** How the f-string renders `page_number`. */
  function PageText(page: int): string {
    Decimal.IntToDecimal(page)
  }

  /** A label, a value, and the closing bracket. */
  function Labelled(tag: string, value: string): string {
    tag + value + "]"
  }

  /** The text one chunk contributes. */
  function Block(w: Wording, c: Chunk): string {
    "\n" + Labelled(w.documentLabel, c.pdfName) + "\n"
    + Labelled(w.pageLabel, PageText(c.pageNumber)) + "\n"
    + Labelled(w.headingLabel, c.heading) + "\n"
    + (w.contentLabel + c.content) + "\n"
  }

  /** The chunk region: the blocks of `cs`, in order. */
  function Blocks(w: Wording, cs: seq<Chunk>): string {
    if cs == [] then "" else Block(w, cs[0]) + Blocks(w, cs[1..])
  }

  /** The text accumulated in `prompt` just before the final `strip()`. */
  function RawPrompt(w: Wording, persona: string, task: string, chunks: seq<Chunk>): string {
    Header(w, persona, task) + Blocks(w, chunks) + EndLine(w) + ClosingLine(w)
  }

  /** The prompt built from a wording: the raw text without its first and
      last newline. */
  function PromptWith(w: Wording, persona: string, task: string, chunks: seq<Chunk>): string {
    Opening(w, persona, task) + Blocks(w, chunks) + Ending(w)
  }

  /** The prompt `build_prompt` returns. */
  function PromptText(persona: string, task: string, chunks: seq<Chunk>): string {
    PromptWith(SourceWording, persona, task, chunks)
  }

  /** The greeting starts, and the closing instruction ends, with a
      character `strip()` keeps. */
  predicate Framed(w: Wording) {
    && w.greeting != [] && !IsSpace(w.greeting[0])
    && w.closing != [] && !IsSpace(w.closing[|w.closing| - 1])
  }

  /** The summed lengths of the four fields of every chunk, with the page
      number as rendered. */
  function FieldsLength(cs: seq<Chunk>): nat {
    if cs == [] then 0
    else |cs[0].pdfName| + |PageText(cs[0].pageNumber)| + |cs[0].heading| + |cs[0].content|
         + FieldsLength(cs[1..])
  }

  /** The characters a block adds around its chunk's fields. */
  function BlockFraming(w: Wording): nat {
    |w.documentLabel| + |w.pageLabel| + |w.headingLabel| + |w.contentLabel| + 8
  }

  // ---------------------------------------------------------------------
  // The method

  /** `build_prompt`: the opening text, one block per chunk appended in a
      loop, the two closing strings, then `strip()`. */
  method BuildPrompt(persona: string, task: string, chunks: seq<Chunk>) returns (prompt: string)
    ensures prompt == PromptText(persona, task, chunks)
  {
    SourceFramed();
    prompt := BuildPromptWith(SourceWording, persona, task, chunks);
  }

  /** The loop of `build_prompt`, for a given wording. */
  method BuildPromptWith(w: Wording, persona: string, task: string, chunks: seq<Chunk>) returns (prompt: string)
    requires Framed(w)
    ensures prompt == PromptWith(w, persona, task, chunks)
  {
    prompt := Header(w, persona, task);
    for i := 0 to |chunks|
      invariant prompt == Header(w, persona, task) + Blocks(w, chunks[..i])
    {
      BlocksAppend(w, chunks[..i], [chunks[i]]);
      BlocksCons(w, chunks[i], []);
      assert chunks[..i + 1] == chunks[..i] + [chunks[i]];
      assert [chunks[i]] + [] == [chunks[i]];
      assert Block(w, chunks[i]) + "" == Block(w, chunks[i]);
      Assoc(Header(w, persona, task), Blocks(w, chunks[..i]), Block(w, chunks[i]));
      prompt := prompt + Block(w, chunks[i]);
    }
    assert chunks[..|chunks|] == chunks;
    prompt := prompt + EndLine(w);
    prompt := prompt + ClosingLine(w);
    StripRemovesOuterNewlines(w, persona, task, chunks);
    prompt := Strip(prompt);
  }

  // ---------------------------------------------------------------------
  // The chunk region

  /** The chunk region of a list is its first chunk's block followed by the
      region of the rest. */
  lemma BlocksCons(w: Wording, c: Chunk, r: seq<Chunk>)
    ensures Blocks(w, [c] + r) == Block(w, c) + Blocks(w, r)
  {
  }

  /** The chunk region of a concatenation is the region of each part, one
      after the other. */
  lemma {:induction false} BlocksAppend(w: Wording, a: seq<Chunk>, b: seq<Chunk>)
    ensures Blocks(w, a + b) == Blocks(w, a) + Blocks(w, b)
  {
    if a == [] {
      assert a + b == b;
    } else {
      assert (a + b)[1..] == a[1..] + b;
      BlocksAppend(w, a[1..], b);
      Assoc(Block(w, a[0]), Blocks(w, a[1..]), Blocks(w, b));
    }
  }

  /** Every chunk's block sits between the blocks of the chunks before it and
      the blocks of the chunks after it: none is dropped, repeated or moved. */
  lemma BlockAt(w: Wording, before: seq<Chunk>, c: Chunk, after: seq<Chunk>)
    ensures Blocks(w, before + [c] + after) == Blocks(w, before) + Block(w, c) + Blocks(w, after)
  {
    assert before + [c] + after == before + ([c] + after);
    BlocksCons(w, c, after);
    BlocksAppend(w, before, [c] + after);
    Assoc(Blocks(w, before), Block(w, c), Blocks(w, after));
  }

  /** A block names the document, the page, the heading and the full content
      of its chunk, each behind its label and in that order, and holds
      nothing else but the brackets and newlines. */
  lemma BlockFields(w: Wording, c: Chunk)
    ensures var b := Block(w, c);
      var page := 1 + |Labelled(w.documentLabel, c.pdfName)| + 1;
      var heading := page + |Labelled(w.pageLabel, PageText(c.pageNumber))| + 1;
      var content := heading + |Labelled(w.headingLabel, c.heading)| + 1;
      && Occurs(w.documentLabel + c.pdfName + "]", b, 1)
      && Occurs(w.pageLabel + PageText(c.pageNumber) + "]", b, page)
      && Occurs(w.headingLabel + c.heading + "]", b, heading)
      && Occurs(w.contentLabel + c.content, b, content)
      && |b| == content + |w.contentLabel + c.content| + 1
  {
  }

  /** A block is its chunk's fields plus a fixed number of characters. */
  lemma {:induction false} BlocksLength(w: Wording, cs: seq<Chunk>)
    ensures |Blocks(w, cs)| == BlockFraming(w) * |cs| + FieldsLength(cs)
  {
    if cs != [] {
      var c, k, n := cs[0], BlockFraming(w), |cs| - 1;
      assert |Block(w, c)| == k + |c.pdfName| + |PageText(c.pageNumber)| + |c.heading| + |c.content|;
      assert k * |cs| == k * n + k;
      BlocksLength(w, cs[1..]);
    }
  }

  // ---------------------------------------------------------------------
  // The frame around the chunk region

  /** Re-associating the raw prompt's six pieces. */
  lemma Regroup(n: string, o: string, b: string, e: string, c: string, m: string)
    ensures (n + o) + b + e + (c + m) == (n + ((o + b) + (e + c))) + m
  {
  }

  /** What the final `strip()` removes: the newline the opening f-string
      starts with and the newline the closing line ends with, whatever the
      persona, task and chunks are. */
  lemma StripRemovesOuterNewlines(w: Wording, persona: string, task: string, chunks: seq<Chunk>)
    requires Framed(w)
    ensures RawPrompt(w, persona, task, chunks) == "\n" + PromptWith(w, persona, task, chunks) + "\n"
    ensures Strip(RawPrompt(w, persona, task, chunks)) == PromptWith(w, persona, task, chunks)
  {
    var p := PromptWith(w, persona, task, chunks);
    assert RawPrompt(w, persona, task, chunks) == "\n" + p + "\n" by {
      Regroup("\n", Opening(w, persona, task), Blocks(w, chunks), EndLine(w), "\n\n" + w.closing, "\n");
    }
    assert Trimmed(p) by {
      EndCharacters(w, persona, task, chunks);
    }
    assert IsBlank("\n");
    StripFramed("\n", p, "\n");
  }

  /** What occurs in the opening text occurs at the same place in the
      prompt. */
  lemma OpeningInPrompt(s: string, w: Wording, persona: string, task: string, chunks: seq<Chunk>, i: nat)
    requires Occurs(s, OpeningBody(w, persona, task), i)
    ensures Occurs(s, PromptWith(w, persona, task, chunks), i)
  {
  }

  /** Every prompt opens with the greeting and ends with the closing
      instruction. */
  lemma PromptFrame(w: Wording, persona: string, task: string, chunks: seq<Chunk>)
    ensures var p := PromptWith(w, persona, task, chunks);
      && Occurs(w.greeting, p, 0)
      && |w.closing| <= |p| && Occurs(w.closing, p, |p| - |w.closing|)
  {
  }

  /** The prompt's first character is the greeting's, its last the closing
      instruction's. */
  lemma EndCharacters(w: Wording, persona: string, task: string, chunks: seq<Chunk>)
    requires w.greeting != [] && w.closing != []
    ensures var p := PromptWith(w, persona, task, chunks);
      && |p| > 0
      && p[0] == w.greeting[0]
      && p[|p| - 1] == w.closing[|w.closing| - 1]
  {
  }

  /** `persona` follows the role label verbatim right after the greeting and
      a blank line; `task` follows the task label verbatim, unescaped and
      closed by a double quote, right after the role line and a blank line. */
  lemma PersonaAndTaskVerbatim(w: Wording, persona: string, task: string, chunks: seq<Chunk>)
    ensures var p := PromptWith(w, persona, task, chunks);
      var role := |w.greeting| + 2;
      var taskAt := role + |w.roleLabel| + |persona| + 2;
      && Occurs(w.roleLabel + persona, p, role)
      && Occurs(w.taskLabel + task + "\"", p, taskAt)
  {
  }

  /** The prompt is the opening text, exactly the chunk region, and the
      ending text, one after the other. */
  lemma ChunkRegion(w: Wording, persona: string, task: string, chunks: seq<Chunk>)
    ensures var p := PromptWith(w, persona, task, chunks);
      var h := |Opening(w, persona, task)|;
      && |p| == h + |Blocks(w, chunks)| + |Ending(w)|
      && Occurs(Opening(w, persona, task), p, 0)
      && Occurs(Blocks(w, chunks), p, h)
      && Occurs(Ending(w), p, h + |Blocks(w, chunks)|)
  {
  }

  /** Both key names of the answer schema are spelled out before the chunk
      region begins, `extracted_sections` first. */
  lemma SchemaBeforeChunks(w: Wording, persona: string, task: string, chunks: seq<Chunk>)
    ensures var p := PromptWith(w, persona, task, chunks);
      exists i: nat, j: nat ::
        && Occurs(w.extractedKey, p, i)
        && Occurs(w.subsectionKey, p, j)
        && i + |w.extractedKey| <= j
        && j + |w.subsectionKey| <= |Opening(w, persona, task)|
  {
    var p := PromptWith(w, persona, task, chunks);
    var front := w.greeting + "\n\n" + RoleLine(w, persona) + TaskLine(w, task);
    var i := |w.schemaLead|;
    var j := |w.schemaLead| + |w.extractedKey| + |w.schemaMiddle|;
    KeysInSchema(w);
    SchemaInPrompt(w.extractedKey, w, persona, task, chunks, i);
    SchemaInPrompt(w.subsectionKey, w, persona, task, chunks, j);
    assert Occurs(w.extractedKey, p, |front| + i) && Occurs(w.subsectionKey, p, |front| + j);
  }

  /** Where the two key names sit in the schema text. */
  lemma KeysInSchema(w: Wording)
    ensures Occurs(w.extractedKey, Schema(w), |w.schemaLead|)
    ensures Occurs(w.subsectionKey, Schema(w), |w.schemaLead| + |w.extractedKey| + |w.schemaMiddle|)
  {
  }

  /** What occurs in the schema text occurs in the prompt, behind the
      greeting, role and task lines. */
  lemma SchemaInPrompt(s: string, w: Wording, persona: string, task: string, chunks: seq<Chunk>, i: nat)
    requires Occurs(s, Schema(w), i)
    ensures Occurs(s, PromptWith(w, persona, task, chunks), |w.greeting + "\n\n" + RoleLine(w, persona) + TaskLine(w, task)| + i)
  {
  }

  /** With no chunks the prompt is the framing text alone, and the start
      marker is followed at once by one blank line and the end marker. */
  lemma NoChunks(w: Wording, persona: string, task: string)
    ensures var p := PromptWith(w, persona, task, []);
      && p == Opening(w, persona, task) + Ending(w)
      && Occurs(w.startMarker + "\n\n" + w.endMarker, p, |OpeningBody(w, persona, task)|)
  {
  }

  // ---------------------------------------------------------------------
  // Facts about the texts `build_prompt` writes

  /** The prompt starts with `Y` and ends with `.`, so `strip()` takes
      nothing from the text itself. */
  lemma SourceFramed()
    ensures Framed(SourceWording)
    ensures SourceWording.greeting[0] == 'Y'
    ensures SourceWording.closing[|SourceWording.closing| - 1] == '.'
  {
  }

  /** Every prompt is non-empty, starts with `Y` and ends with `.`. */
  lemma PromptEnds(persona: string, task: string, chunks: seq<Chunk>)
    ensures var p := PromptText(persona, task, chunks);
      |p| > 0 && p[0] == 'Y' && p[|p| - 1] == '.'
  {
    SourceFramed();
    EndCharacters(SourceWording, persona, task, chunks);
  }

  /** The lengths of the fixed parts of the prompt. */
  lemma FramingLengths(persona: string, task: string)
    ensures |Opening(SourceWording, persona, task)| == 659 + |persona| + |task|
    ensures |Ending(SourceWording)| == 63
    ensures BlockFraming(SourceWording) == 47
  {
  }

  /** The prompt's length is a constant plus the lengths of `persona`, `task`
      and every chunk's fields: nothing is truncated or padded. */
  lemma PromptLength(persona: string, task: string, chunks: seq<Chunk>)
    ensures |PromptText(persona, task, chunks)| == 722 + |persona| + |task| + 47 * |chunks| + FieldsLength(chunks)
  {
    FramingLengths(persona, task);
    BlocksLength(SourceWording, chunks);
  }
}
