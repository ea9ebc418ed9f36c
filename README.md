# NyayaAI legal research console — a verified model of its core

NyayaAI is a browser console for Indian legal research. This project models its core in
Dafny and proves properties of that model. The console has five parts covered here:

- **The chat** (`ChatInterface`). The advocate types or dictates a query. The answer streams
  in, with its citations. The citation badges drop duplicate addresses and mark official
  government records (`.gov.in`, `.nic.in`) and Indian Kanoon judgments. The whole
  conversation can be exported as a PDF "legal research memorandum". On export, every
  message is scrubbed of its Markdown by a chain of regular-expression replacements. It is
  then laid out block by block, with a running header, a footer and page breaks.
- **The exam repository** (`ExamRepository`). It lists AIBE and state-qualifying papers and
  filters them by a case-insensitive search. A download shows a progress estimate while the
  paper is generated. The generated text is sanitised to ASCII. The paper is then laid out
  line by line, with bold question headers, and every page gets an "of n" footer. The file
  is named after the exam.
- **The mock test** (`MockTestModal`). It is a state machine: intro, loading, active,
  result. It records answers and scores them. The analysis is per subject, in the order
  JavaScript's `Object.entries` lists the subjects.
- **The Markdown renderer** (`MarkdownRenderer`). It classifies each line as blank, bullet,
  numbered item, heading, quote or paragraph. It splits each line into bold, italic, code
  and plain runs.
- **The shared entities** (`types.ts`): roles, citations and messages.

## How the model is organised

- `Wrappers`, `Types`: `Option`, and the message and citation records.
- `Strings`: the JavaScript string operations the components rely on, with their contracts:
  - `trim` and its white-space classes;
  - `includes` and `indexOf`;
  - `replace` with a string pattern;
  - ASCII case mapping;
  - the lazy `.*?` closers of the regular expressions.
- `InsertionMap`: a dictionary that keeps its keys in insertion order, as a `Map` or the
  string keys of an object do.
- `Pdf`: the slice of jsPDF that is used.
  - A document `State` is a list of pages of drawn `Item`s, a current page and a font
    weight.
  - `Pdf.Doc` is the mutable document. Its methods are tied to the `State` functions.
- `Chat`: the chat component.
  - `ChatInterface` is a class whose fields are the component's state. Its methods are the
    handlers.
  - A method is proved against specification functions on the message list.
  - Sending is one method per event (`BeginSend`, `Receive` for each chunk, `FinishSend`),
    and `Send` is those events run without interruption. Typing (`OnChange`) and dictation
    (`OnResult`) can come between them, since the input and the microphone stay enabled
    while the answer streams.
  - The citation de-duplication is modelled here.
- `ChatExport`: the memorandum export.
  - The cleaning chain is modelled as one generic left-to-right global replacement over a
    `Pattern`.
  - The layout is modelled as a fold over the messages with a page/line cursor.
  - `ExportMemorandum` is the imperative loop, proved equal to that fold.
- `ReplaceSteps`: generic facts about the global replacement: one step at a time, a text
  scanned in step with one of its tails, and a text whose scan stays inside a prefix.
- `CleanLines`: the cleaning chain on a message of several lines. Each replacement is
  applied line by line, under conditions on how a line ends, since `\s` can take a line
  break.
- `CleanShapes`: what each replacement does to a markdown shape anywhere on a line: bold
  and italic pairs, `###` and `##` markers, and `-` and `*` list markers.
- `ExamRepository`: filtering, progress, sanitising, the layout and footer loops, the file
  name, and the download handler. The handler is also one method per event
  (`StartDownload`, `ReportProgress`, `ContentArrived`, `FinishDownload`), since another
  exam's download can start while one runs.
- `MockTest`: scoring, the per-subject tally, `Object.entries` order, and the modal's state
  machine as a class.
- `Markdown`: line splitting, line classification, the inline tokenizer, and rendering.

Behaviour worth knowing:

- The code's `trim()` tests look at the trimmed line, but headings and quotes cut their
  marker off the untrimmed line (`MarkdownRenderer.tsx:46-57`). So `"  ### T"` renders as a
  level-3 heading reading `# T`. This is stated in `Markdown.IndentedHeadingKeepsMarker`.
- The badge tests and the `www.` removal are substring operations:
  - `.gov.in` anywhere in the address marks it official;
  - only the first `www.` of a host name is removed.
- The bullet the memorandum writes for a list marker is the literal in the source
  (`ChatInterface.tsx:216`): the three characters U+0E42 U+0080 U+0E02, then two spaces.
  It is not `•`.
- `[^\x00-\x7F]` and `[^a-z0-9]` in the source work per UTF-16 code unit. A character
  outside the Basic Multilingual Plane therefore becomes two spaces in the sanitised paper,
  and two underscores in the file name. The model counts code units explicitly (`Units`,
  `Utf16Len`).

## Model

| member | source | states |
|---|---|---|
| Strings.Trim | components/MarkdownRenderer.tsx:19 | the trimmed string is the slice of the input after its leading white space; what follows it is all white space; it starts and ends with non-space; it is empty exactly when the input is all white space |
| Strings.LeadOfSpaces | components/MarkdownRenderer.tsx:19 | `n` white-space characters followed by a non-space make a leading run of exactly `n` |
| Strings.IndexOf | components/ChatInterface.tsx:354 | the result is an occurrence at or after `from` with none before it, or there is no occurrence at all |
| Strings.ReplaceFirst | components/ChatInterface.tsx:354 | a string pattern replaces only its first occurrence; with no occurrence the string is unchanged |
| Strings.RemoveDoubleStars | components/ExamRepository.tsx:194 | every `**` is removed: the characters other than asterisks are those of the input, in order, no pair of adjacent asterisks remains, the result is no longer, a string without pairs is unchanged, and a first character that is not an asterisk is kept |
| Strings.RemoveDoubleStarsAppend | components/ExamRepository.tsx:194 | the removal works piece by piece after a piece that does not end in an asterisk |
| Strings.RemoveDoubleStarsRun | components/ExamRepository.tsx:194 | a run of `k` asterisks loses its pairs: one asterisk is left exactly when `k` is odd |
| Strings.ToLower | components/ExamRepository.tsx:91-92 | same length, every character lowered (ASCII letters only) |
| Strings.ToUpper | components/ExamRepository.tsx:148 | same length, every character raised (ASCII letters only) |
| Strings.NatToString | components/ExamRepository.tsx:205 | a non-empty run of decimal digits whose decimal value is the number, with no leading zero except for 0 itself, one digit exactly for numbers below ten |
| Strings.Count | components/MarkdownRenderer.tsx:13 | the number of occurrences of a character is its multiplicity in the string |
| Strings.CloseSingle | components/MarkdownRenderer.tsx:71 | lazy `.*?c`: the first `c` reachable without crossing a line terminator, or none can be reached |
| Strings.CloseDouble | components/ChatInterface.tsx:207 | lazy `.*?\*\*`: the first pair of asterisks reachable without crossing a line terminator, or every later pair lies past a line terminator |
| InsertionMap.FindKey | components/ChatInterface.tsx:324 | the first position at or after `from` holding the key, or no position holds it |
| InsertionMap.Get | components/ChatInterface.tsx:324 | the value found is stored under the key; absence means no entry has the key |
| InsertionMap.Put | components/ChatInterface.tsx:324 | an existing key keeps the length; a new key is appended at the end |
| InsertionMap.PutInPlace | components/ChatInterface.tsx:324 | storing under an existing key replaces the entry at the key's first position with the new value and leaves every other entry in place |
| InsertionMap.KeysOf | components/ChatInterface.tsx:324 | the keys of the entries, in order |
| InsertionMap.PutEntries | components/MockTestModal.tsx:63-66 | storing keeps keys distinct, appends a new key, sets the key's value and leaves other entries alone |
| InsertionMap.GetDistinct | components/MockTestModal.tsx:63-66 | with distinct keys each entry is found by its key |
| InsertionMap.FindKeyFirst | components/ChatInterface.tsx:324 | the search stops at the first entry with the key |
| InsertionMap.PutGet | components/ChatInterface.tsx:324 | reading back a key just stored gives the value stored |
| InsertionMap.PutPut | components/ChatInterface.tsx:324 | storing twice under a key is storing the second value |
| Pdf.Blank | components/ChatInterface.tsx:151 | a new document: one empty page, current, normal weight |
| Pdf.NewPage | components/ChatInterface.tsx:226 | an empty page is appended and becomes current; earlier pages are kept |
| Pdf.GoToPage | components/ExamRepository.tsx:201 | the page numbered from 1 becomes current; nothing is drawn |
| Pdf.WithFont | components/ChatInterface.tsx:233 | only the weight changes |
| Pdf.Put | components/ChatInterface.tsx:237 | drawing appends to the current page only |
| Pdf.PutText | components/ExamRepository.tsx:194 | `doc.text(s, x, y)`: a text in the current weight drawn on the current page; stated by `Pdf.Put` and `Pdf.Doc.Text` |
| Pdf.Flatten | components/ChatInterface.tsx:244 | the document read page by page, every item in page order; its behaviour under drawing and page breaks is `FlattenPut` and `FlattenNewPage` |
| Pdf.FlattenPut | components/ChatInterface.tsx:244 | drawing on the last page extends the document, read page by page, by that item |
| Pdf.FlattenNewPage | components/ChatInterface.tsx:226 | a new page adds nothing to the document read page by page |
| Pdf.Doc.constructor | components/ExamRepository.tsx:140 | the document starts blank |
| Pdf.Doc.AddPage | components/ExamRepository.tsx:177 | the new state is the old one with an empty page appended and made current |
| Pdf.Doc.SetPage | components/ExamRepository.tsx:201 | the new state has page `n` current |
| Pdf.Doc.SetBold | components/ExamRepository.tsx:189-191 | the new state has the given weight |
| Pdf.Doc.Text | components/ExamRepository.tsx:194 | the new state has the text appended to the current page in the current weight |
| Pdf.Doc.TextLines | components/ChatInterface.tsx:244 | the new state has the block of wrapped lines appended to the current page |
| Pdf.Doc.Line | components/ChatInterface.tsx:252 | the new state has a rule appended to the current page |
| Chat.ConcatTexts | components/ChatInterface.tsx:114 | `fullText += chunk.text` over a stream: all chunk texts in order; `ConcatTextsAppend` |
| Chat.CollectChunks | components/ChatInterface.tsx:115-118 | the citation lists gathered over a stream, undefined until a chunk carries one; `CollectChunksMeaning`, `AllListsNone` |
| Chat.Streamed | components/ChatInterface.tsx:113-126 | the message list after every chunk of a stream was folded into the placeholder; `SetStreamedTwice`, `ChatInterface.ReadStream` |
| Chat.ConcatTextsAppend | components/ChatInterface.tsx:114 | the text gathered from two stretches of stream is their texts joined: the answer only grows |
| Chat.CollectChunksMeaning | components/ChatInterface.tsx:115-118 | the citations stay undefined exactly when no chunk carried any; otherwise they are all carried lists joined in order |
| Chat.AllListsNone | components/ChatInterface.tsx:115-118 | a stream that carries no citation lists gathers none |
| Chat.SetStreamed | components/ChatInterface.tsx:120-126 | same length; exactly the messages with the placeholder's id take the new text and citations |
| Chat.SetDone | components/ChatInterface.tsx:132-137 | same length; exactly the messages with the placeholder's id stop streaming |
| Chat.SetStreamedTwice | components/ChatInterface.tsx:120-126 | each streamed update overwrites the previous one |
| Chat.Dictated | components/ChatInterface.tsx:39-46 | the input after the final speech results, in order; `DictatedExtends`, `InterimResultsIgnored` |
| Chat.AppendTranscript | components/ChatInterface.tsx:43 | a space is inserted before the transcript exactly when the input is non-empty and does not already end in one |
| Chat.DictatedExtends | components/ChatInterface.tsx:39-46 | dictation only appends: the old input is a prefix of the new one |
| Chat.InterimResultsIgnored | components/ChatInterface.tsx:41 | results that are not final leave the input alone |
| Chat.ChatInterface.constructor | components/ChatInterface.tsx:8-18 | the conversation opens with the welcome memo, an empty input, idle and not listening |
| Chat.ChatInterface.OnResult | components/ChatInterface.tsx:39-46 | the input becomes the old input with the final results from `resultIndex` on appended; nothing else changes |
| Chat.ChatInterface.OnChange | components/ChatInterface.tsx:401 | typing sets the input and changes nothing else, at any time, the stream included |
| Chat.ChatInterface.BeginSend | components/ChatInterface.tsx:78-104 | with a blank input or while loading nothing starts and nothing changes; otherwise the query and the placeholder are appended, the input is cleared, loading starts and dictation stops |
| Chat.ChatInterface.Receive | components/ChatInterface.tsx:113-126 | one chunk extends the text and the gathered citations of the stream so far, and the placeholder shows them; input, loading and dictation are untouched |
| Chat.ChatInterface.FinishSend | components/ChatInterface.tsx:130-138 | loading ends and the placeholder stops streaming; the input and dictation are left as they are |
| Chat.ChatInterface.Send | components/ChatInterface.tsx:78-140 | with a blank input or while loading nothing changes; otherwise the query and the placeholder are appended, the stream is folded into the placeholder, which then stops streaming, and the input is cleared, loading over and dictation stopped |
| Chat.ChatInterface.ReadStream | components/ChatInterface.tsx:110-127 | the message list becomes the whole stream folded into the placeholder; the other fields are kept |
| Chat.QueryOf | components/ChatInterface.tsx:86-91 | the query is a user message holding the input exactly as typed, untrimmed |
| Chat.Placeholder | components/ChatInterface.tsx:97-104 | the placeholder is an empty streaming model message |
| Chat.SendResult | components/ChatInterface.tsx:93-138 | after sending, the list is the old list plus the query and the completed answer, whose text is all chunk texts and whose citations are the gathered ones; no older message with another id changes |
| Chat.Key | components/ChatInterface.tsx:324 | the map key of a citation, `c.web?.uri`, absent without a web reference; used by `DedupEntries` and `ShownDistinct` |
| Chat.Dedup | components/ChatInterface.tsx:324 | `new Map(chunks.map(c => [c.web?.uri, c]))` as insertion-ordered entries; `DedupEntries` |
| Chat.FirstKeys | components/ChatInterface.tsx:324 | the keys in order of first occurrence, a reference that does not mention the map; `FirstKeysDistinct`, `DedupEntries` |
| Chat.LastWith | components/ChatInterface.tsx:324 | the last citation with a given key, or no citation has that key |
| Chat.DedupEntries | components/ChatInterface.tsx:324 | the de-duplicated keys are the keys in order of first appearance, each holding its last citation, with no key twice |
| Chat.FirstKeysDistinct | components/ChatInterface.tsx:324 | first-appearance keys are distinct and are exactly the keys that occur |
| Chat.Shown | components/ChatInterface.tsx:325 | no badge is shown for an empty or missing address |
| Chat.Sources | components/ChatInterface.tsx:324-325 | the badges under an answer: the de-duplicated citations that have an address; `SourcesDedup` |
| Chat.Addresses | components/ChatInterface.tsx:325 | the addresses the badges link to, one per source and in the same order |
| Chat.ShownAddresses | components/ChatInterface.tsx:324-325 | for entries keyed by their addresses, the badges' addresses are the non-empty keys in key order |
| Chat.SourcesDedup | components/ChatInterface.tsx:324-325 | no address is badged twice, each badge is the last citation with its address, every citation with an address is badged, and the badges' addresses are the non-empty keys in order of first occurrence |
| Chat.ShownDistinct | components/ChatInterface.tsx:325 | the filter keeps distinct keys distinct, shows only stored references, and shows every stored reference with an address |
| Chat.DisplayTitle | components/ChatInterface.tsx:354 | a title is shown as it is; without one, the host name is shown, and nothing can be shown when the address does not parse |
| Chat.TitleFallbackDropsWww | components/ChatInterface.tsx:354 | the fallback drops the first `www.` of the host name |
| Chat.IsGov | components/ChatInterface.tsx:328 | the official badge: `.gov.in` or `.nic.in` anywhere in the address; `BadgesMatchAnywhere` |
| Chat.IsKanoon | components/ChatInterface.tsx:329 | the Indian Kanoon badge: `indiankanoon.org` anywhere in the address; `BadgesMatchAnywhere` |
| Chat.BadgesMatchAnywhere | components/ChatInterface.tsx:328-329 | `.gov.in`, `.nic.in` or `indiankanoon.org` anywhere in an address earns the badge |
| ChatExport.OptSpace | components/ChatInterface.tsx:209 | `\s?` consumes one character exactly when it is white space |
| ChatExport.BoldLen | components/ChatInterface.tsx:207 | `**` at the position and a later `**`, the first reachable on the line, end the match; no match exactly when there is no such pair |
| ChatExport.ItalicLen | components/ChatInterface.tsx:208 | `*` at the position and the first later `*` on the line end the match; no match exactly when there is no such asterisk |
| ChatExport.MarkerLen | components/ChatInterface.tsx:209-210 | the marker matches exactly where it occurs, with the next character when that is white space |
| ChatExport.QuoteLen | components/ChatInterface.tsx:211 | `>` matches exactly at a line start, with the next character when that is white space |
| ChatExport.BulletLen | components/ChatInterface.tsx:216 | a match stands at a line start and is white space, then `-` or `*`, then one white-space character |
| ChatExport.BulletMatchAt | components/ChatInterface.tsx:216 | every such shape at a line start is matched, with exactly its length |
| ChatExport.MatchLen | components/ChatInterface.tsx:206-216 | a match lies inside the text; bold matches open and close with `**`, italic ones with `*`; a backtick matches exactly a backtick; a heading marker matches exactly where it occurs and takes one white-space character after it when there is one; a quote marker matches exactly a `>` at a line start, with one optional white-space character; a list marker stands at a line start and is white space, `-` or `*` and one white-space character |
| ChatExport.Scan | components/ChatInterface.tsx:206-216 | each step moves forward by at least one character and stays within the text |
| ChatExport.Replacement | components/ChatInterface.tsx:206-216 | what replaces a match: the captured group for bold and italic, three spaces for a quote, the bullet for a list marker, nothing otherwise; `BoldScanShrinks`, `ItalicScanShrinks`, `DropScanShrinks`, `Provenance` |
| ChatExport.ReplaceFrom | components/ChatInterface.tsx:206-216 | a global `replace` from an index on: matches left to right, without overlap; `NoMatchUnchanged`, `ScanProvenance`, `ReplaceSteps.ReplaceFromAlong`, `ReplaceSteps.ReplaceFromPrefix` |
| ChatExport.ReplaceAll | components/ChatInterface.tsx:206-216 | a global `replace` over the whole text; `Provenance`, `DeletionShrinks`, `CleanLines.ReplaceAllLines`, `CleanLines.ReplaceAllJoin` |
| ChatExport.Scrub | components/ChatInterface.tsx:206-212 | the six replacements before the trim, in source order; `CleanLines.ScrubJoin`, `CleanLines.ScrubKeepsEnd` |
| ChatExport.Clean | components/ChatInterface.tsx:206-216 | the six replacements, the trim, then the list-marker rule; `CleanHasNoBackticks`, `CleanLeavesPlainText`, `CleanLines.CleanJoin`, `CleanShapes.CleanStarBullet` |
| ChatExport.NoMatchUnchanged | components/ChatInterface.tsx:206-216 | where a pattern never matches, the replacement leaves the text as it is |
| ChatExport.Provenance | components/ChatInterface.tsx:206-216 | every character of the result comes from the text or from the fixed replacement |
| ChatExport.DeletionShrinks | components/ChatInterface.tsx:207-212 | the rules that insert nothing (bold, italic, headings, backtick) only delete characters: the result's multiset is contained in the text's |
| ChatExport.BoldScanShrinks | components/ChatInterface.tsx:207 | a bold pair is replaced by characters it contained |
| ChatExport.ItalicScanShrinks | components/ChatInterface.tsx:208 | an italic pair is replaced by characters it contained |
| ChatExport.DropScanShrinks | components/ChatInterface.tsx:209-212 | a heading marker or backtick is deleted |
| ChatExport.BackticksGone | components/ChatInterface.tsx:212 | no backtick is left after the code rule |
| ChatExport.CleanHasNoBackticks | components/ChatInterface.tsx:206-216 | a cleaned message holds no backtick |
| ChatExport.CleanLeavesPlainText | components/ChatInterface.tsx:206-216 | a one-line text with no markup characters and no surrounding space is exported as it is |
| ChatExport.EmphasisUntouched | components/ChatInterface.tsx:207-208 | text without asterisks passes the emphasis rules unchanged |
| ChatExport.HeadingsUntouched | components/ChatInterface.tsx:209-210 | text without `#` passes the heading rules unchanged |
| ChatExport.QuoteAndCodeUntouched | components/ChatInterface.tsx:211-212 | text without `>` or backticks passes the quote and code rules unchanged |
| ChatExport.BulletUntouched | components/ChatInterface.tsx:216 | a line not starting with a list marker passes the bullet rule unchanged |
| ChatExport.TrimUntouched | components/ChatInterface.tsx:213 | trimming leaves a string without surrounding space as it is |
| ReplaceSteps.ReplaceFromAlong | components/ChatInterface.tsx:206-216 | a text scanned in step with one of its tails is replaced there as the tail alone |
| ReplaceSteps.ReplaceFromPrefix | components/ChatInterface.tsx:206-216 | where the scan of a prefix stays inside it, the replacement is the prefix's replacement followed by the rest's |
| CleanLines.ReplaceFromShift | components/ChatInterface.tsx:206-216 | after a line break, or for a pattern without `^`, the replacement goes on as on the rest alone |
| CleanLines.MatchLenLocal | components/ChatInterface.tsx:206-216 | inside a line that does not end in a character the pattern could join across the break, every pattern matches as on the line alone |
| CleanLines.ReplaceAllLines | components/ChatInterface.tsx:206-216 | such a line followed by a break and more text is replaced as the line, the break, and the rest, each alone |
| CleanLines.ReplaceAllJoin | components/ChatInterface.tsx:206-216 | a message of such lines is replaced line by line |
| CleanLines.ScrubKeepsEnd | components/ChatInterface.tsx:207-212 | a line ending in a character no pattern touches keeps that last character through the replacements |
| CleanLines.ScrubJoin | components/ChatInterface.tsx:207-212 | the replacements before trimming work line by line on lines ending in such characters |
| CleanLines.BulletJoin | components/ChatInterface.tsx:216 | the list-marker rule then works line by line as well |
| CleanLines.CleanJoin | components/ChatInterface.tsx:206-216 | with nothing to trim, a message is cleaned line by line |
| CleanShapes.KeepsLead | components/ChatInterface.tsx:206-212 | text in which a pattern without `^` cannot start a match is copied, and the rest is replaced as on its own |
| CleanShapes.BoldAtStart | components/ChatInterface.tsx:207 | `**t**` at the start becomes `t` |
| CleanShapes.ItalicAtStart | components/ChatInterface.tsx:208 | `*t*` at the start becomes `t` |
| CleanShapes.MarkerAtStart | components/ChatInterface.tsx:209-210 | `###` or `##` and a white-space character at the start are deleted |
| CleanShapes.BoldInLine | components/ChatInterface.tsx:207 | a bold pair after text without asterisks becomes its inner text, wherever on the line it stands |
| CleanShapes.ItalicInLine | components/ChatInterface.tsx:208 | an italic pair after text without asterisks becomes its inner text, wherever on the line it stands |
| CleanShapes.MarkerInLine | components/ChatInterface.tsx:209-210 | a `###` or `##` marker and its white-space character are deleted after text without `#` |
| CleanShapes.ListMarkerInLine | components/ChatInterface.tsx:216 | an indented `-` or `*` and a white-space character at a line start become the bullet |
| CleanShapes.CleanStarBullet | components/ChatInterface.tsx:206-216 | `* t` of plain text is cleaned to the bullet and `t`: the italic rule finds no closing asterisk, so the list-marker rule takes it |
| ChatExport.BoldPairKeepsInner | components/ChatInterface.tsx:207 | `**t**` on one line becomes `t` |
| ChatExport.ItalicPairKeepsInner | components/ChatInterface.tsx:208 | `*t*` on one line becomes `t` |
| ChatExport.CloseDoubleFirst | components/ChatInterface.tsx:207 | the bold rule closes at the first `**` when no line ends before it |
| ChatExport.CloseSingleFirst | components/ChatInterface.tsx:208 | the italic rule closes at the first `*` when no line ends before it |
| ChatExport.HeadingMarkerDeleted | components/ChatInterface.tsx:209 | `### ` and the text after it becomes the text |
| ChatExport.QuoteMarkIndents | components/ChatInterface.tsx:211 | `> t` becomes `t` indented by three spaces |
| ChatExport.Label | components/ChatInterface.tsx:236 | `QUERY:` for the advocate and `OPINION:` for the model; `BlockItemsBlocks` |
| ChatExport.BodyOf | components/ChatInterface.tsx:206-218 | a message's body: its cleaned text wrapped into lines; `ExportWritesBlocks` |
| ChatExport.BreakIfNeeded | components/ChatInterface.tsx:219-230 | the page break before a block whose estimated height does not fit above `pageHeight - 20`, with a furnished new page and the cursor at 30; `PlaceStep`, `BreakIfNeededOn` |
| ChatExport.Block | components/ChatInterface.tsx:232-253 | the label, the body five below, the cursor moved by five per line plus 15, and a rule after a model block; `PlaceStep`, `FlattenBlock`, `BlockItemsBlocks`, `WriteBlock` |
| ChatExport.Place | components/ChatInterface.tsx:199-253 | one turn of the `forEach`: the welcome message is skipped, any other gets a block after a break if needed; `PlaceStep`, `PlaceKeepsPages`, `PlaceWritesBlock` |
| ChatExport.Exported | components/ChatInterface.tsx:199-200 | the messages written: all but the welcome message, in order; `ExportWritesBlocks`, `ExportLastStep` |
| ChatExport.Furniture | components/ChatInterface.tsx:163-180 | the header, rule, stamp and page number are appended to the current page, leaving the weight normal and other pages alone |
| ChatExport.Start | components/ChatInterface.tsx:182-197 | the first page holds its furniture, the title and its rule; the cursor is on page 1 at 50 |
| ChatExport.Export | components/ChatInterface.tsx:199-254 | after any conversation the cursor is on the last page and every page opens with furniture carrying its own number |
| ChatExport.PlaceKeepsPages | components/ChatInterface.tsx:224-253 | a message only draws on the last page, or opens a new last page with its furniture |
| ChatExport.BlockKeepsPages | components/ChatInterface.tsx:232-253 | writing a block keeps the cursor on the last page and every page furnished |
| ChatExport.FurnishedPut | components/ChatInterface.tsx:237 | drawing keeps every page's furniture at its head |
| ChatExport.FurnishedNewPage | components/ChatInterface.tsx:226-228 | a page break adds one page, made current, with furniture numbered by the new count |
| ChatExport.PlaceStep | components/ChatInterface.tsx:218-253 | the block height is five per line plus 17; the page breaks when it would pass `pageHeight - 20`, moving to 30 on a new page; then the label, body and separator are added and the cursor moves down by five per line plus 15 |
| ChatExport.FlattenFurniture | components/ChatInterface.tsx:183 | furniture on the last page extends the document by the furniture items |
| ChatExport.FlattenBlock | components/ChatInterface.tsx:232-253 | a block on the last page extends the document by its items |
| ChatExport.LabelsAppend | components/ChatInterface.tsx:236-237 | the labels of a document are read in order across its parts |
| ChatExport.BodiesAppend | components/ChatInterface.tsx:244 | the bodies of a document are read in order across its parts |
| ChatExport.DecorationsOnly | components/ChatInterface.tsx:249-253 | rules and stamps are neither labels nor bodies |
| ChatExport.FurnitureHasNoBlocks | components/ChatInterface.tsx:163-197 | the header, footer and title add no label and no body |
| ChatExport.BlockItemsBlocks | components/ChatInterface.tsx:232-253 | a block writes exactly one label, `QUERY:` for the advocate and `OPINION:` for the model, and exactly its wrapped lines |
| ChatExport.OfAppend | components/ChatInterface.tsx:199 | labels and bodies of a conversation are read message by message |
| ChatExport.ExportWritesBlocks | components/ChatInterface.tsx:199-254 | the memorandum's labels and bodies, in order, are those of every message except the welcome message, each body its cleaned, wrapped text |
| ChatExport.StartWritesNoBlocks | components/ChatInterface.tsx:182-197 | the first page before the messages holds no label and no body |
| ChatExport.ExportLastStep | components/ChatInterface.tsx:199-254 | one more message adds its label and body at the end, and the welcome message adds none |
| ChatExport.PlaceWritesBlock | components/ChatInterface.tsx:204-253 | a message writes its label and its body after what was there |
| ChatExport.StepBlocks | components/ChatInterface.tsx:226-253 | new-page furniture before a block contributes no label or body |
| ChatExport.AddHeaderFooter | components/ChatInterface.tsx:163-180 | the document ends as `Furniture` of its old state |
| ChatExport.Prefix | components/ChatInterface.tsx:256 | `slice(0, n)`: the first `n` characters, or the whole string when shorter |
| ChatExport.ExportMemorandum | components/ChatInterface.tsx:150-258 | the loop draws exactly the memorandum `Export` describes, and the file is named `NyayaAI_Memorandum_` plus the first ten characters of the timestamp plus `.pdf` |
| ChatExport.BreakIfNeededOn | components/ChatInterface.tsx:224-230 | the page-break check, on the mutable document, ends as the break step of the fold |
| ChatExport.WriteBlock | components/ChatInterface.tsx:232-253 | writing a block on the mutable document ends as the block step of the fold |
| ExamRepository.CurrentList | components/ExamRepository.tsx:88 | the AIBE tab shows the AIBE list; every other tab, the syllabus one included, shows the qualifying list |
| ExamRepository.Matches | components/ExamRepository.tsx:90-93 | the case-insensitive test on the name or the year; `FilterMembers`, `EmptyTermKeepsAll` |
| ExamRepository.Filter | components/ExamRepository.tsx:90-93 | the exams of a list that match, in list order; `FilterMembers`, `FilterAppend` |
| ExamRepository.FilterAppend | components/ExamRepository.tsx:90-93 | filtering keeps the order of the list |
| ExamRepository.FilterMembers | components/ExamRepository.tsx:90-93 | an exam is listed exactly when it is in the list and its lower-cased name or year contains the lower-cased term |
| ExamRepository.EmptyTermKeepsAll | components/ExamRepository.tsx:90-93 | an empty search term lists every exam |
| ExamRepository.Progress | components/ExamRepository.tsx:105 | the estimate is the length over 600 rounded half up, capped at 95 |
| ExamRepository.ProgressMonotone | components/ExamRepository.tsx:104-106 | more generated text never lowers the progress shown |
| ExamRepository.Sanitise | components/ExamRepository.tsx:164-171 | ASCII is kept; curly quotes and dashes become their ASCII forms; any other code unit becomes a space; the output has as many code units as the input and is ASCII |
| ExamRepository.CleanContent | components/ExamRepository.tsx:164-171 | every code unit of the paper replaced by its sanitised form; `CleanContentAscii`, `CleanContentKeepsAscii`, `CleanContentAppend` |
| ExamRepository.CleanContentAscii | components/ExamRepository.tsx:164-171 | the sanitised paper is pure ASCII and has exactly as many code units as the paper |
| ExamRepository.CleanContentKeepsAscii | components/ExamRepository.tsx:164-171 | an ASCII paper is left as it is |
| ExamRepository.CleanContentAppend | components/ExamRepository.tsx:164-171 | sanitising works character by character |
| ExamRepository.Header | components/ExamRepository.tsx:145-157 | the first page holds the upper-cased name, the year line and the rule; the cursor is at 45 |
| ExamRepository.FooterOn | components/ExamRepository.tsx:200-205 | page `i` becomes current and gets the repository line and `Page i of n`; other pages are untouched |
| ExamRepository.Footers | components/ExamRepository.tsx:199-206 | the loop keeps the page count and ends on the last page it visited |
| ExamRepository.IsBoldLine | components/ExamRepository.tsx:183-192 | a line is bold when its trimmed form starts with `**`, `Question` or `PART -`, or contains `Marks)`; `LineStep` |
| ExamRepository.BreakIfFull | components/ExamRepository.tsx:176-179 | a new page with the cursor at 20 once the cursor is past `pageHeight - 20`; `LineStep` |
| ExamRepository.DrawLine | components/ExamRepository.tsx:181-195 | one line in the weight `IsBoldLine` chooses, drawn without its `**` pairs, the cursor moved down 6; `LineStep` |
| ExamRepository.LayoutStep | components/ExamRepository.tsx:175-195 | one turn of the line loop: the page check, then the line; `LineStep`, `DrawLineOn` |
| ExamRepository.Layout | components/ExamRepository.tsx:173-196 | the line loop over all wrapped lines; `LayoutDrawsEveryLine`, `LastLineDrawn`, `DrawBody` |
| ExamRepository.Paper | components/ExamRepository.tsx:139-209 | the whole paper: heading, sanitised wrapped lines and every page footed; `GeneratePdf`, `Repository.FinishDownload` |
| ExamRepository.LineStep | components/ExamRepository.tsx:175-196 | a line past `pageHeight - 20` starts a new page at 20; the line is written without `**`, bold when it is a header line; the cursor moves down 6 |
| ExamRepository.LayoutDrawsEveryLine | components/ExamRepository.tsx:157-196 | after the heading the paper holds one text per wrapped line, in order, each drawn from its line |
| ExamRepository.LastLineDrawn | components/ExamRepository.tsx:175-196 | one more line adds exactly one item, after everything drawn before |
| ExamRepository.DrawnExtend | components/ExamRepository.tsx:175-196 | the lines drawn so far plus the next one are the lines drawn |
| ExamRepository.FootersOnEveryPage | components/ExamRepository.tsx:199-206 | every page visited gets its own footer appended, and the others are unchanged |
| ExamRepository.SafeChar | components/ExamRepository.tsx:208 | ASCII letters and digits are kept; every other code unit becomes `_` |
| ExamRepository.SafeName | components/ExamRepository.tsx:208 | `replace(/[^a-z0-9]/gi, '_')` per code unit; `FileNameSafe` |
| ExamRepository.FileName | components/ExamRepository.tsx:208 | the safe name followed by `.pdf`; `FileNameSafe` |
| ExamRepository.FileNameSafe | components/ExamRepository.tsx:208 | the file name is the safe name plus `.pdf`, as many code units as the exam name, only letters, digits and `_`, and an alphanumeric name is kept |
| ExamRepository.GeneratePdf | components/ExamRepository.tsx:139-209 | the document drawn is the paper laid out with its footers, and the file is named from the exam |
| ExamRepository.DrawBody | components/ExamRepository.tsx:175-196 | the line loop ends as the layout of the lines |
| ExamRepository.DrawFooters | components/ExamRepository.tsx:199-206 | the footer loop ends as every page footed |
| ExamRepository.DrawHeader | components/ExamRepository.tsx:145-155 | the blank document ends as the heading |
| ExamRepository.DrawLineOn | components/ExamRepository.tsx:176-195 | one turn of the line loop ends as one layout step |
| ExamRepository.DrawFooter | components/ExamRepository.tsx:201-205 | one turn of the footer loop ends as one footer step |
| ExamRepository.ProgressTrace | components/ExamRepository.tsx:104-106 | one progress value per reported length, each never above 95 |
| ExamRepository.Repository.constructor | components/ExamRepository.tsx:81-82 | nothing is loading and the progress is 0 |
| ExamRepository.Repository.StartDownload | components/ExamRepository.tsx:95-97 | the exam is loading at 5% |
| ExamRepository.Repository.ReportProgress | components/ExamRepository.tsx:104-106 | the progress shown is the estimate for the length reported, never above 95 |
| ExamRepository.Repository.ContentArrived | components/ExamRepository.tsx:108-113 | the paper goes on to be drawn exactly when text arrived that is neither empty nor an error, at 100%; a failure alerts that the paper could not be generated, empty or error text alerts with that text, and both end the download |
| ExamRepository.Repository.FinishDownload | components/ExamRepository.tsx:116-131 | a fresh document holds the paper drawn and the file is named from the exam; nothing is loading and the progress is 0 |
| ExamRepository.Repository.HandleDownload | components/ExamRepository.tsx:95-131 | the progress shown is 5, the estimates, then 100 after the text arrives; a failure alerts that the paper could not be generated; empty or error text alerts with that text; otherwise the paper is drawn and named; afterwards nothing is loading and the progress is 0 |
| MockTest.Score | components/MockTestModal.tsx:58-73 | `correctCount` after the loop over the questions; `ScoreCountsCorrect`, `TallySums` |
| MockTest.CountSubject | components/MockTestModal.tsx:61-66 | the questions of one subject, the reference for its total; `TallyCounts`, `CountsOfAbsentSubject` |
| MockTest.CountCorrect | components/MockTestModal.tsx:69-72 | the questions of one subject answered correctly, the reference for its correct count; `TallyCounts`, `TallyBounded` |
| MockTest.Tally | components/MockTestModal.tsx:59-73 | `subjectStats` after the loop; `TallyCounts`, `TallySums`, `TallyBounded`, `Submit` |
| MockTest.ScoreCountsCorrect | components/MockTestModal.tsx:61-75 | the score is the number of questions answered with the correct option, never more than the number of questions |
| MockTest.CountsOfAbsentSubject | components/MockTestModal.tsx:61-73 | a subject no question has counts nothing |
| MockTest.FirstSubjectsOccur | components/MockTestModal.tsx:63-64 | the subjects tallied are exactly those of the questions |
| MockTest.TallyCounts | components/MockTestModal.tsx:61-73 | the tally has each subject once, in order of first appearance, with its question count and its correct-answer count |
| MockTest.PrevStat | components/MockTestModal.tsx:63-66 | the tally so far holds for each subject its counts so far, zeros for a new one |
| MockTest.SumStatsAppend | components/MockTestModal.tsx:59 | summing statistics is additive |
| MockTest.TallySums | components/MockTestModal.tsx:61-75 | the per-subject totals add up to the number of questions, and the correct counts to the score |
| MockTest.TallyBounded | components/MockTestModal.tsx:66-71 | no subject has more correct answers than questions |
| MockTest.IsArrayIndex | components/MockTestModal.tsx:78 | the keys `Object.entries` lists first: canonical decimals below 2^32 - 1; `ObjectEntriesOrder` |
| MockTest.SortByIndex | components/MockTestModal.tsx:78 | array-index keys sorted by numeric value; `SortByIndexSorts` |
| MockTest.ObjectEntries | components/MockTestModal.tsx:78 | `Object.entries`: sorted array-index keys, then the rest in insertion order; `ObjectEntriesOrder`, `SumStatsPermutation`, `KeysPermutation` |
| MockTest.SortByIndexSorts | components/MockTestModal.tsx:78 | integer-like keys are put in ascending numeric order, a permutation of the input |
| MockTest.PartitionEntries | components/MockTestModal.tsx:78 | integer-like and other keys together are all the entries |
| MockTest.ObjectEntriesOrder | components/MockTestModal.tsx:78 | `Object.entries` lists the integer-like keys first in ascending order, then the others in insertion order; without integer-like keys it is insertion order |
| MockTest.SumStatsPermutation | components/MockTestModal.tsx:78 | sums do not depend on entry order |
| MockTest.KeysPermutation | components/MockTestModal.tsx:78 | reordering entries reorders their keys |
| MockTest.Analysis | components/MockTestModal.tsx:78-82 | one row per entry in `Object.entries` order, carrying its subject, total and correct count |
| MockTest.AnalysisSums | components/MockTestModal.tsx:78-82 | the analysis totals are the statistics' sums |
| MockTest.AnalysisCounts | components/MockTestModal.tsx:57-86 | each analysis row holds its subject's question count and correct count, correct never above total |
| MockTest.AnalysisAddsUp | components/MockTestModal.tsx:57-86 | the analysis totals add up to the number of questions and the correct counts to the score |
| MockTest.AnalysisSubjects | components/MockTestModal.tsx:57-86 | the analysis lists each subject once; in first-appearance order unless some subject is integer-like |
| MockTest.FirstSubjectsDistinct | components/MockTestModal.tsx:63-64 | no subject is listed twice |
| MockTest.MockTestModal.Valid | components/MockTestModal.tsx:13-55 | the question on screen exists whenever there are questions, and a test in progress has questions; kept by every method of the modal |
| MockTest.MockTestModal.constructor | components/MockTestModal.tsx:13-18 | a fresh modal shows the intro with no questions, answers, score or analysis |
| MockTest.MockTestModal.StartTest | components/MockTestModal.tsx:23 | starting shows the loading screen and changes nothing else |
| MockTest.MockTestModal.QuestionsArrived | components/MockTestModal.tsx:24-33 | a non-empty list starts the test at question 0 with no answers; no list or an empty one alerts and returns to the intro |
| MockTest.MockTestModal.OptionSelect | components/MockTestModal.tsx:36-41 | the answer to the question on screen is recorded, replacing any earlier one |
| MockTest.MockTestModal.Prev | components/MockTestModal.tsx:51-55 | back one question unless on the first |
| MockTest.MockTestModal.Next | components/MockTestModal.tsx:43-49 | forward one question, or on the last one submit |
| MockTest.MockTestModal.Submit | components/MockTestModal.tsx:57-86 | the result screen, the score of the answers and the per-subject analysis |
| MockTest.MockTestModal.Reset | components/MockTestModal.tsx:88-93 | back to the intro with no questions, answers or score; the question index and analysis are kept |
| MockTest.CountQuestion | components/MockTestModal.tsx:62-72 | one turn of the tally loop adds one question, and one correct answer if right, to its subject |
| MockTest.ToAnalysis | components/MockTestModal.tsx:78-82 | the conversion loop builds the analysis |
| Markdown.FirstIndex | components/MarkdownRenderer.tsx:13 | the first position of a character |
| Markdown.SplitLines | components/MarkdownRenderer.tsx:13 | one piece per newline plus one, none containing a newline |
| Markdown.JoinSplit | components/MarkdownRenderer.tsx:13 | the pieces joined with newlines are the content |
| Markdown.SplitJoin | components/MarkdownRenderer.tsx:13 | splitting lines joined with newlines gives the lines back |
| Markdown.SpanAt | components/MarkdownRenderer.tsx:71 | a match of `\*\*.*?\*\*`, `\*.*?\*` or `` `.*?` `` at the start of the text, each closed by the first closer reachable on the line (bold preferred over italic), or why none matches |
| Markdown.SpanAtPrefix | components/MarkdownRenderer.tsx:71 | a match does not depend on the text after it |
| Markdown.FirstSpan | components/MarkdownRenderer.tsx:71 | the leftmost match: nothing matches before it, or nothing matches at all |
| Markdown.FirstSpanMatches | components/MarkdownRenderer.tsx:71 | the leftmost match reported is a match of that length |
| Markdown.SplitInline | components/MarkdownRenderer.tsx:71 | an odd number of parts, which joined give the text back |
| Markdown.SplitInlineSpans | components/MarkdownRenderer.tsx:71 | every odd part is a whole match, and nothing matches at any position inside an even part, measured against the rest of the text from that part on |
| Markdown.EvenPartsFree | components/MarkdownRenderer.tsx:71 | prepending a match-free part and a match to a split whose even parts are match-free keeps its even parts match-free |
| Markdown.SliceInner | components/MarkdownRenderer.tsx:76 | `slice(n, -n)`: the text without `n` characters at each end, empty when too short |
| Markdown.ParseInline | components/MarkdownRenderer.tsx:70-88 | one element per part of the split, each classified |
| Markdown.ClassifyPart | components/MarkdownRenderer.tsx:73-86 | the classification of one part: bold, italic, code or plain, tested in that order; `DoubleStarSpan`, `SingleStarSpan`, `BacktickSpan`, `SpanClassification` |
| Markdown.DoubleStarSpan | components/MarkdownRenderer.tsx:75-76 | a bold match renders bold with its inner text |
| Markdown.SingleStarSpan | components/MarkdownRenderer.tsx:78-79 | an italic match renders italic with its inner text |
| Markdown.BacktickSpan | components/MarkdownRenderer.tsx:81-82 | a code match renders as code with its inner text |
| Markdown.SpanClassification | components/MarkdownRenderer.tsx:75-84 | a matched part is never plain, and re-marking it gives it back (except `**`, an empty bold) |
| Markdown.MatchedPartsNotPlain | components/MarkdownRenderer.tsx:71-84 | every matched part of a line renders as bold, italic or code |
| Markdown.DigitRun | components/MarkdownRenderer.tsx:33 | the longest run of leading digits |
| Markdown.UntilTerminator | components/MarkdownRenderer.tsx:34 | `(.*)`: the longest prefix without a line terminator |
| Markdown.FirstTest | components/MarkdownRenderer.tsx:19-63 | which test of the chain a trimmed line passes first; a paragraph passes none |
| Markdown.NumberedOf | components/MarkdownRenderer.tsx:33-42 | the marker is digits and a dot followed by white space, and the text is the rest of the line, cut at the first line terminator, possibly empty |
| Markdown.KindOf | components/MarkdownRenderer.tsx:17-63 | a line is blank exactly when it is all white space, a bullet exactly when its trimmed form starts with `* ` or `- `, with the text after the marker |
| Markdown.H3Kind | components/MarkdownRenderer.tsx:46-47 | a level-3 heading passed the `### ` test, and its text is the untrimmed line from index 4 |
| Markdown.H2Kind | components/MarkdownRenderer.tsx:49-50 | a level-2 heading passed the `## ` test, and its text is the untrimmed line from index 3 |
| Markdown.QuoteKind | components/MarkdownRenderer.tsx:54-57 | a quote passed the `> ` test, and its text is the untrimmed line from index 2 |
| Markdown.UnindentedMarkers | components/MarkdownRenderer.tsx:46-57 | without indentation, heading and quote lines are their marker followed by the text |
| Markdown.ParagraphKind | components/MarkdownRenderer.tsx:62-63 | a line is a paragraph exactly when it fails every earlier test |
| Markdown.IndentedHeadingKeepsMarker | components/MarkdownRenderer.tsx:46-47 | `"  ### T"` is a level-3 heading whose text is `# T` |
| Markdown.TrimAfterIndent | components/MarkdownRenderer.tsx:19-22 | an indented line with no trailing space trims to what follows the indent |
| Markdown.BlockOf | components/MarkdownRenderer.tsx:17-64 | the block one line renders as, from its kind and its inline parts; `Render` |
| Markdown.Render | components/MarkdownRenderer.tsx:9-66 | empty content renders nothing; otherwise there is one block per line, each rendered from its line |

## Left out

- Rendering, styling and scrolling: JSX, class names, colours, icons and `scrollIntoView`
  are not behaviour of the core.
- jsPDF internals are kept to what is drawn where vertically. Left out are x coordinates,
  alignment, font family and size, colours and line widths. `doc.save` becomes the
  returned document and file name.
- `splitTextToSize` is the `wrap` parameter, since it depends on font metrics. The page
  height is the `pageHeight` parameter.
- Clock readings (`Date.now()`, the locale date and time, the ISO timestamp) are
  parameters. The locale formatting is not modelled.
- The Gemini service (`services/geminiService.ts`) is not part of this model.
  - The chat stream is the sequence of chunks it delivered. A stream that throws is the
    prefix delivered before the error, after which the same final steps run.
  - The exam generator is the list of lengths it reported and its result.
  - The question generator is its optional question list.
- `new URL(uri).hostname` is the `hostname` parameter of `Chat.DisplayTitle`. An address
  that does not parse yields no title, where the browser would throw while rendering.
- The speech-recognition lifecycle (creation, `onerror`, `onend`, `toggleVoiceInput`) is
  browser API. Only the `onresult` handler and the stop in `handleSend` are modelled.
- `Chat.ChatInterface.OnResult` requires `resultIndex` to be at most the number of results.
  The browser always delivers such an index.
- Case mapping (`toLowerCase`, `toUpperCase`) and `\d` are modelled for ASCII only. The
  exam data is ASCII.
- Only whole scalar values are modelled, so a lone surrogate half cannot arise. A character
  outside the Basic Multilingual Plane is counted as two code units where the source
  regexes treat it so.
- The 500 ms delay before generating the paper is left out, because it is timing only.
- The alert path for an exception thrown inside `generatePDF` is left out. The model's
  drawing cannot fail.
- `handleOriginalDownload` is left out: it opens a search URL in a new window.
- `SUBJECT_WEIGHTAGE` is left out: it is display data with no logic.
- `LegalDisclaimer.tsx` and `App.tsx` are left out: they are view wiring without logic.
- `MockTest.Tally` treats every subject as an own key. A subject named after an
  `Object.prototype` property (such as `constructor`) would read the inherited value in
  the source, and that case is not modelled.
- The modal's `isOpen`/`onClose` props and the repository's search box and tab switching are
  left out. They only set state and are inputs here.
- ExamRepository.Progress: computed in exact arithmetic. The source's floating-point
  division and product may differ from the exact value by a rounding error, which can move
  a value lying exactly at a half by one.
- Chat.ChatInterface.Send: states the outcome of a send with no other event during the
  stream. Input and microphone stay enabled while the answer streams, and the final step
  resets neither. So a keystroke or transcript during the stream leaves a non-empty input
  after the answer is complete. Those interleavings are the event methods (`BeginSend`, `Receive`,
  `FinishSend`, `OnChange`, `OnResult`) called in any order.
- ExamRepository.Repository.HandleDownload: states the outcome of one download with no
  other download running. Only the clicked exam's button is disabled, so two downloads can
  interleave. They share `loadingId` and `downloadProgress`: the first to finish clears
  both while the other is still running. The event methods (`StartDownload`,
  `ReportProgress`, `ContentArrived`, `FinishDownload`) model such an interleaving step by step.
- CleanLines.CleanJoin: the line-by-line form of the cleaning is proved only for messages
  whose lines, except the last, end in a character no pattern touches (not white space and
  not one of `*#>` `` ` `` `-`), and whose scrubbed text has nothing to trim. In other
  cases `\s` in `###\s?`, `^>\s?` and `^\s*[-*]\s` can take the line break, and the trim
  acts on the whole message.
- CleanShapes.BoldInLine, CleanShapes.ItalicInLine, CleanShapes.MarkerInLine: the text
  before the shape is required to hold no asterisk (no `#` for the markers), so that no
  earlier match can absorb the shape. A line with several shapes is handled by applying
  the lemma again to the rest.
