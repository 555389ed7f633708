# Persona-driven document retrieval: prompt, embedding and LLM-answer model

The repository runs a small retrieval pipeline. PDF pages are cut into
chunks. The chunks are embedded with a MiniLM sentence encoder and indexed.
The chunks closest to the task are rendered into a prompt. A local LLM
answers that prompt, and its answer is parsed as JSON. This project models
the three pieces of that pipeline whose behaviour is the repository's own
logic. It proves what each one does for every input.

- **`build_prompt`** (module `PromptBuilder`). It builds the prompt text
  from a persona, a task and a list of chunks. The method `BuildPrompt`
  runs `BuildPromptWith` on the texts `build_prompt` writes, which keeps the
  source's shape: a header literal, a loop that appends one block per chunk,
  two appends for the footer, and a final `strip()`. It is proved equal to
  the specification function `PromptText`, which is
  `Opening + Blocks(chunks) + Ending`. The lemmas about `PromptText` cover:
  - the greeting and closing line;
  - `persona` and `task` appearing verbatim;
  - the chunk region in input order;
  - the fields of each block;
  - the schema's key names appearing before the chunks;
  - the empty-chunk case;
  - compositionality over `chunks`;
  - the exact length.

  The fixed texts `build_prompt` writes (greeting, labels, schema, markers,
  closing instruction) are gathered in a `Wording` value; `SourceWording`
  holds them exactly as written. The loop and most lemmas are stated for any
  wording, hence for this one; the facts that depend on the literal texts
  (the first and last characters, the lengths) are stated for
  `SourceWording`, and `PromptText` is the prompt built from it.

  `page_number` is an integer, rendered as Python's `str(int)` renders it
  (module `Decimal`, with a round-trip lemma).
- **`MiniLMEmbedder.embed_chunks`** (module `Embedder`). The embedder is a
  value holding the model name and its encoder. The encoder is a function
  parameter from a batch of texts to a batch of opaque vectors. A call
  returns the records and the list of batches handed to the encoder.
  `EmbedChunks` models the code as written: it zips the unfiltered chunks
  with the vectors of the filtered texts, then filters again. The lemmas
  give the exact shape of the result in general, and concrete inputs where
  chunks lose their vector or are dropped (see Findings).
- **`run_llm`** (module `LlmRunner`). The LLM is a function parameter from
  a request to a completion. The JSON decoder is a function parameter that
  returns `None` where `json.loads` raises `JSONDecodeError`. `RunLlm`
  records the requests it made and how the call ended.

Whitespace is modelled once, in module `Text`. `IsSpace` is exactly the
character set of Python's `str.isspace()`, and `Strip` is `str.strip()`
with no argument. Both `embed_chunks` (blank content) and `run_llm`
(trimming the completion) use it. A chunk is a `Chunks.Chunk` value with
`content`, `heading`, `pdfName` and `pageNumber`.

The names of the two members of the answer, `extracted_sections` and
`subsection_analysis`, are defined once, in module `AnswerSchema`. The
prompt's schema quotes them, and the LLM runner's fallback answer is built
from them.

The code and the design differ on two points, and the model follows the
code in both:

- The design describes the answer as always carrying the two schema
  members. The code returns whatever `json.loads` produced, with no check
  against the schema. So a JSON array, a number, or an object without
  those members reaches the caller (`LlmRunner.DecodedValuePassesThrough`,
  `LlmRunner.NonObjectReachesCaller`).
- The design says each chunk with text gets one record carrying its own
  vector, so the number of records equals the number of chunks with text.
  The code pairs the unfiltered chunks with the vectors of the filtered
  texts, so after a blank chunk vectors go to the wrong chunks and chunks
  are dropped (`Embedder.EmbedShape`, `Embedder.EmbedKeepsAllIff`). The
  "## Findings" row records this; `Embedder.EmbedChunksAligned` is the
  corrected pairing.

## Model

| member | source | states |
|---|---|---|
| PromptBuilder.BuildPrompt | src/retrieval/prompt_builder.py:1-44 | the returned prompt is exactly `Opening + Blocks(chunks) + Ending` for the texts `build_prompt` writes |
| PromptBuilder.BuildPromptWith | src/retrieval/prompt_builder.py:2-44 | the loop's accumulated text is always the header followed by the blocks of the chunks seen so far, in input order; after the two appends and `strip()` the result is the opening, the blocks and the ending |
| PromptBuilder.StripRemovesOuterNewlines | src/retrieval/prompt_builder.py:2-44 | the text before `strip()` is the final prompt with one newline added on each side, and `strip()` removes just those two, whatever the persona, task and chunks |
| PromptBuilder.SourceFramed | src/retrieval/prompt_builder.py:3-43 | the greeting starts with `Y` and the closing instruction ends with `.`, neither of them whitespace |
| PromptBuilder.EndCharacters | src/retrieval/prompt_builder.py:3-43 | the prompt is non-empty; its first character is the greeting's first and its last is the closing instruction's last |
| PromptBuilder.PromptEnds | src/retrieval/prompt_builder.py:3-44 | the prompt is never empty, starts with `Y` and ends with `.`, so nothing inside it is trimmed away |
| PromptBuilder.PromptFrame | src/retrieval/prompt_builder.py:3-43 | every prompt starts with the greeting "You are a helpful assistant." and ends with "Return only the JSON object below." |
| PromptBuilder.PersonaAndTaskVerbatim | src/retrieval/prompt_builder.py:3-7 | `persona` follows "Your role is: " unchanged right after the greeting and a blank line; `task` follows "Your task is: \"" unchanged and unescaped right after the role line and a blank line, and is followed by a double quote |
| PromptBuilder.OpeningInPrompt | src/retrieval/prompt_builder.py:2-33 | anything found in the opening text is found at the same position in the final prompt |
| PromptBuilder.ChunkRegion | src/retrieval/prompt_builder.py:2-44 | the prompt is the opening, then exactly the concatenated blocks, then the ending, at the positions their lengths fix; nothing is dropped, reordered or duplicated |
| PromptBuilder.BlockFields | src/retrieval/prompt_builder.py:37-40 | a chunk's block holds its document name, page, heading and full content, each behind its label and in that order, and nothing else but the brackets and newlines |
| PromptBuilder.BlocksCons | src/retrieval/prompt_builder.py:35-41 | the region for one chunk followed by a list is that chunk's block followed by the region for the list |
| PromptBuilder.BlocksAppend | src/retrieval/prompt_builder.py:35-41 | the chunk region of `a + b` is the region of `a` followed by the region of `b` |
| PromptBuilder.BlockAt | src/retrieval/prompt_builder.py:35-41 | a chunk's block sits between the region of the chunks before it and the region of the chunks after it |
| PromptBuilder.SchemaBeforeChunks | src/retrieval/prompt_builder.py:11-33 | the key names `"extracted_sections"` and `"subsection_analysis"` both appear in the prompt, in that order, before the chunk region begins |
| PromptBuilder.KeysInSchema | src/retrieval/prompt_builder.py:11-29 | the schema text names `"extracted_sections"` before `"subsection_analysis"`, at the offsets fixed by the text around them |
| PromptBuilder.SchemaInPrompt | src/retrieval/prompt_builder.py:9-31 | anything in the schema text appears in the prompt, shifted by the length of the greeting, role and task lines before it |
| PromptBuilder.NoChunks | src/retrieval/prompt_builder.py:33-42 | with no chunks the prompt is the opening followed by the ending, and the start marker is followed by one blank line and then the end marker |
| PromptBuilder.FramingLengths | src/retrieval/prompt_builder.py:2-43 | the opening is 659 characters plus the lengths of persona and task; the ending is 63 characters; a block adds 47 characters to its chunk's fields |
| PromptBuilder.BlocksLength | src/retrieval/prompt_builder.py:35-41 | the chunk region is a fixed number of characters per chunk plus the lengths of the four rendered fields |
| PromptBuilder.PromptLength | src/retrieval/prompt_builder.py:1-44 | the prompt's length is 722 + the length of persona + the length of task + 47 per chunk + the lengths of the chunk fields |
| Decimal.NatToDecimal | src/retrieval/prompt_builder.py:38 | a non-negative page number renders as a non-empty string of digits with no leading zero |
| Decimal.IntToDecimal | src/retrieval/prompt_builder.py:38 | a page number renders as a non-empty string that starts with `-` exactly when the number is negative |
| Decimal.NatToDecimalRoundTrip | src/retrieval/prompt_builder.py:38 | reading the digits back gives the number rendered |
| Decimal.IntToDecimalRoundTrip | src/retrieval/prompt_builder.py:38 | the rendered page number is a well-formed decimal and reads back as the same integer, so distinct pages render differently |
| Text.TrimStart | src/embed/embedder.py:13 | `lstrip` returns a suffix; what it removed is all whitespace; the rest does not start with whitespace |
| Text.TrimEnd | src/llm/llm_runner.py:14 | `rstrip` returns a prefix; what it removed is all whitespace; the rest does not end with whitespace |
| Text.TrimStartEmpty | src/embed/embedder.py:13 | `lstrip` leaves nothing exactly when the string is all whitespace |
| Text.TrimEndEmpty | src/embed/embedder.py:13 | `rstrip` leaves nothing exactly when the string is all whitespace |
| Text.Strip | src/embed/embedder.py:13 | `strip()` never lengthens its input, is empty exactly when the input is all whitespace, and its result has no whitespace at either end |
| Text.TrimStartSkipsBlank | src/llm/llm_runner.py:14 | leading whitespace in front of text that starts with a non-space is exactly what `lstrip` removes |
| Text.TrimEndSkipsBlank | src/llm/llm_runner.py:14 | trailing whitespace behind text that ends with a non-space is exactly what `rstrip` removes |
| Text.StripFramed | src/llm/llm_runner.py:14 | `strip()` removes exactly the whitespace framing a trimmed string and nothing of the string itself |
| Text.StripSplit | src/llm/llm_runner.py:14 | every string is its stripped core framed by two all-whitespace strings |
| Text.StripPadded | src/llm/llm_runner.py:14 | adding whitespace on either side does not change what `strip()` returns |
| Text.StripTrimmed | src/llm/llm_runner.py:14 | `strip()` leaves a string with no whitespace at either end unchanged |
| Text.StripIdempotent | src/llm/llm_runner.py:14 | stripping twice is stripping once |
| Text.BlankConcat | src/embed/embedder.py:13 | two all-whitespace strings joined are all whitespace |
| Embedder.HasTextIsStripTest | src/embed/embedder.py:13-27 | a chunk has text exactly when `content.strip()` is non-empty, the test the code applies twice |
| Embedder.WithText | src/embed/embedder.py:13 | the kept chunks are no more than the input, and every one has text |
| Embedder.WithTextFrom | src/embed/embedder.py:13 | every kept chunk is a chunk of the input |
| Embedder.Texts | src/embed/embedder.py:13 | the encoded texts are, position by position, the contents of the chunks with text |
| Embedder.Pair | src/embed/embedder.py:18-28 | the zip-then-filter yields no more records than chunks or vectors, and every record's chunk has text and comes from the input |
| Embedder.EmbedChunks | src/embed/embedder.py:9-28 | empty input gives no records and no encoder call; input with no text gives the same; otherwise the encoder is called exactly once, with the non-blank contents in input order; every record has text and copies an input chunk unchanged |
| Embedder.WithTextAppend | src/embed/embedder.py:13 | the filter distributes over concatenation, so the kept chunks keep their input order |
| Embedder.WithTextSnoc | src/embed/embedder.py:13 | appending one chunk appends it to the kept chunks exactly when it has text |
| Embedder.WithTextAll | src/embed/embedder.py:13 | the filter keeps everything exactly when every chunk has text, and then returns its input |
| Embedder.WithTextKeeps | src/embed/embedder.py:13 | when every chunk has text the filter returns its input unchanged |
| Embedder.WithTextDrops | src/embed/embedder.py:13 | a blank chunk anywhere makes the filter's result strictly shorter than its input |
| Embedder.WithTextNone | src/embed/embedder.py:13-15 | the filter keeps nothing exactly when no chunk has text |
| Embedder.WithTextAt | src/embed/embedder.py:13 | a chunk with text at input position `i` is the kept chunk, and its content the text, at the position given by the number of chunks with text before it |
| Embedder.PrefixTail | src/embed/embedder.py:13 | the filter of a prefix is the head's contribution followed by the filter of the rest of that prefix |
| Embedder.PairAt | src/embed/embedder.py:26-27 | a chunk with text at position `i`, where a vector exists, appears in the output paired with vector `i`, at the position counted by the chunks with text before it |
| Embedder.PairLength | src/embed/embedder.py:26-27 | the number of records is the number of chunks with text among the first min(chunks, vectors) inputs |
| Embedder.PairSource | src/embed/embedder.py:26-27 | each record is some input chunk `i` with text, paired with vector `i`, and its position counts the chunks with text before `i` |
| Embedder.WithTextPrefixGrows | src/embed/embedder.py:13 | a longer prefix of the input keeps at least as many chunks with text |
| Embedder.PairInOrder | src/embed/embedder.py:26-27 | for any encoder, a later record comes from a later input position than an earlier record, so the records are a subsequence of the input in input order |
| Embedder.PairFrom | src/embed/embedder.py:26-27 | every record comes from an input position with text and carries the vector at that same position |
| Embedder.EmbedShape | src/embed/embedder.py:13-27 | with m texts and one vector per text, the output is the chunks with text among the first m inputs; chunk `i` carries vector `i`, which is the vector of the `i`-th text and not always of its own content |
| Embedder.TrailingFromPrefix | src/embed/embedder.py:13 | with m chunks with text, if the first m inputs all have text then every blank chunk comes after every chunk with text |
| Embedder.BlankBounds | src/embed/embedder.py:13 | when blank chunks only trail, a blank chunk at position k leaves at most k chunks with text |
| Embedder.EmbedKeepsAllIff | src/embed/embedder.py:13-27 | every chunk with text gets a record exactly when no blank chunk comes before a chunk with text |
| Embedder.EmbedNoBlank | src/embed/embedder.py:13-27 | with no blank chunk, record `i` is chunk `i` with vector `i` and nothing is dropped |
| Embedder.BlankThenText | src/embed/embedder.py:13-27 | a blank chunk followed by a chunk with text: the text is encoded, but no record is returned |
| Embedder.TrailingTextDropped | src/embed/embedder.py:13-27 | chunks `a`, blank, `b`: only `a` is returned; `b` was encoded and is dropped |
| Embedder.BlankFirstExample | src/embed/embedder.py:13-27 | the concrete input ("  ", "Intro") returns no records |
| Embedder.EmbedChunksAligned | src/embed/embedder.py:9-28 | the corrected pairing keeps every contract of `EmbedChunks`: no encoder call on empty or blank input, one call with the texts otherwise, and records with text copied from the input |
| Embedder.AlignedOneRecordPerText | src/embed/embedder.py:13-27 | the corrected pairing returns one record per chunk with text, in input order, each carrying the vector of its own content |
| LlmRunner.Keys | src/llm/llm_runner.py:20-23 | an object's keys are its member names, one per member and in order; other values have none |
| LlmRunner.Lookup | src/llm/llm_runner.py:20-23 | a key is missing exactly when no member has that name; a found value belongs to the first member with that name |
| LlmRunner.RunLlm | src/llm/llm_runner.py:12-23 | exactly one LLM request, with max_tokens 1024 and stop ["</s>"]; the call raises only when there is no choice, so a decode failure never escapes; a returned value is either the fallback after a failed decode or what the decoder produced from the stripped first choice |
| LlmRunner.FallbackShape | src/llm/llm_runner.py:20-23 | the fallback is an object with exactly the members `extracted_sections` and `subsection_analysis`, in that order, both empty lists |
| LlmRunner.DecodedValuePassesThrough | src/llm/llm_runner.py:16-17 | a successful decode is returned unchanged, whatever its shape |
| LlmRunner.DecodeFailureFallsBack | src/llm/llm_runner.py:18-23 | a decode failure returns the fallback |
| LlmRunner.OnlyFirstChoiceMatters | src/llm/llm_runner.py:14 | two completions with the same first-choice text give the same run, whatever else they hold |
| LlmRunner.SurroundingWhitespaceIgnored | src/llm/llm_runner.py:14 | whitespace added around the completion's text does not change the run |
| LlmRunner.ParserSeesTrimmedText | src/llm/llm_runner.py:14-17 | two decoders that agree on every string with no surrounding whitespace give the same run |
| LlmRunner.NonObjectReachesCaller | src/llm/llm_runner.py:16-17 | the completion "  []\n" decoded as an empty list reaches the caller as that list, with neither schema member |

## Left out

- The retriever, FAISS index construction and nearest-neighbour search (`src/retrieval/retriever.py`): the ranking is floating-point arithmetic inside FAISS, not code of the repository.
- `src/run_pipeline.py` and `src/utils/file_utils.py`: orchestration, the filesystem, logging and timestamps.
- The encoder's vectors: SentenceTransformer internals and `emb.tolist()` are floating-point, so vectors are an opaque type parameter. The lemmas that describe the pairing assume that the encoder, when it is called, returns one vector per text.
- `MiniLMEmbedder.__init__`: model loading is foreign. The handle is the value `MiniLMEmbedder(modelName, encode)`, with `DefaultModelName` as the default name.
- Model loading for the LLM (`Llama(...)` with `n_ctx`, `n_threads`) and llama.cpp inference are foreign. The LLM is a function parameter, so generation limits such as the context window are not modelled.
- `json.loads` is foreign. The decoder is a function parameter that returns `None` exactly where `JSONDecodeError` is raised. The model has no JSON parser of its own.
- Embedder.EmbedChunks: the encoder call is assumed to return. An exception raised inside `self.model.encode`, which `embed_chunks` does not catch and which propagates to its caller, is not modelled, because the encoder is a total function parameter.
- LlmRunner.RunLlm: exceptions other than a missing first choice and a decode failure are not modelled. Examples are a response without a `"choices"` key and a `RecursionError` from deeply nested input; the response is typed, so these cannot arise.
- The `print` of the undecodable output and the encoder's progress bar: they are diagnostics with no effect on results.
- `chunk['…']` on a dictionary without that key: chunks are typed records, so a `KeyError` cannot arise.
- Embedder.HasText: it tests that the content is not all whitespace. This is equivalent to `strip()` being non-empty (`HasTextIsStripTest`), and it is stated without `Strip` only to keep proofs small.

## Findings

| source | as written | input that shows it | evidently intended | confidence | as-written member | corrected member |
|---|---|---|---|---|---|---|
| src/embed/embedder.py:26-27 | `zip(chunks, embeddings)` pairs the unfiltered chunks with the vectors of the filtered texts, then filters blank chunks | chunks [blank, "Intro"]: "Intro" is encoded, but the blank chunk takes its vector and is filtered out, so no record is returned; chunks [a, blank, b] return `a` only | zip the non-blank chunks with the vectors, so each chunk with text gets the vector of its own content | not executed | Embedder.BlankThenText | Embedder.AlignedOneRecordPerText |
