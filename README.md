# A verified model of the MadeWithNestle chatbot core

This project models, in Dafny, the logic of the MadeWithNestle assistant
that decides what happens to a user's question and how answers are shaped.
It also covers the data preparation behind those answers.

- **Routing.** The chat endpoint sends a question to the store locator, to the
  graph pipeline or to vector retrieval (`RagViews`). The model's route tag is
  normalised to one of three labels (`ResponseSelector`).
- **Graph pipeline** (`GraphAnswer`). Intent classification, entity
  extraction, template Cypher generation, candidate clean-up, the deny-list
  safety screen, dry-run `LIMIT` capping, best-candidate selection with a
  fixed fallback, the widen-once final execution and the parsing of the
  model's coreference answer.
- **LangChain retrieval post-processing** (`LangchainRag`, `MarkdownLinks`,
  `NameMatch`). The `ProductLinkManager` link and image tables, Markdown link
  rewriting, image insertion, the chat-history text, reference
  de-duplication and the check of the model's product-name answer.
- **Plain vector retrieval** (`RagAnswer`). Hit filtering, citation
  numbering and title linking.
- **Store locator** (`LocationFinder`). Keyword tables, store filtering,
  the context text and the Amazon search link, with `quote_plus` written out
  byte by byte.
- **Data preparation.** Chunk construction from the scraped catalogue
  (`SplitChunks`), the graph loader's amount splitting and `chunk_type`
  dispatch (`Connector`), and the site crawler's URL rules and breadth-first
  crawl (`Scraper`).
- **Speech.** The Markdown-to-speech text cleaner (`SpeechText`).

`Text` gives Python's `str` methods their Python meaning (`strip`, `lower`,
`split`, `join`, `replace`, `find`). `Records` holds the parsed JSON records,
and `Wrappers` holds `Option`.

Everything outside the program is an oracle passed in as a parameter:

- the language model's replies;
- Neo4j's `EXPLAIN` and query execution;
- the links of a fetched page;
- a store's distance, its rounding and printing.

Objects whose fields the source updates in place are classes:
`LangchainRag.ProductLinkManager`, and `Connector.GraphConnector`, whose
database writes are an append-only log. Loops of the source are methods
proved against specification functions (`ScrapeSite` against `Crawl`,
`SearchContext` against `SearchOf`, `InsertProductImages` against `Chain`).

The source's regular expressions are hand-written scanners with the meaning
Python's `re` gives those particular patterns, and each scanner states that
meaning.

Several properties proved here describe behaviour that the code has as
written, which a reader may not expect:

- The deny-list screen matches plain substrings of the upper-cased query, so
  a read-only query using `OFFSET` is refused as a `SET` operation
  (`GraphAnswer.OffsetIsRefused`).
- The nutrition vocabulary lists "sodium" twice, so it is reported twice.
- The crawler follows any host that merely contains the base URL's text
  (`Scraper.LookAlikeHostFollowed`).
- The emoji filter's last range, U+24C2 to U+1F251, also deletes CJK
  ideographs (`SpeechText.CjkRemoved`).
- The chunks written by the chunk builder carry no `url` key. So when the
  plain retrieval path's metadata file (rag/faiss_metadata.json) holds the
  chunk builder's output, its citations show `None` in place of a link
  (`RagAnswer.StoredChunksHaveNoUrl`). No file of the repository writes that
  metadata file: the chunk builder writes rag/chunks.json.
- None of those chunks is typed "Brand metadata", so loading them never
  creates a brand node (`Connector.StoredChunksLoad`).
- A search hit with a negative index is read Python's way, counting from the
  end. An index below `-len(metadata)` raises `IndexError`, which is modelled
  as a result.
- The chat history is joined with the two characters backslash and `n`, not
  with a line break.
- `insert_product_images` computes every insertion position on the original
  answer while it edits the text. Positions are therefore stale when a link
  of the second shape comes before a link of the first shape and both get
  images. The model keeps this behaviour, and its contract says where each
  insertion lands relative to the original text.
- Three calls between modules do not match their callees:
  - `product_match` returns a one-element list, but the store locator uses
    its result as a string;
  - the router calls `grag_view` without the `chat_history` argument it
    requires;
  - the router calls `query_with_langchain_rag` without the `chat_history`
    argument it requires.

  The router is modelled as written: its graph and vector routes always
  answer with status 500 (`RagViews.RagAsk`). A corrected router that passes
  the history on is modelled beside it (`RagViews.RagAskWithHistory`), and
  the graph and retrieval pipelines are modelled with their own contracts.
  `LocationFinder` takes the matched product as a string.

## Model

| member | source | states |
|---|---|---|
| GraphAnswer.ClassifyQueryIntent | rag/langchain/graph_answer.py:130-144 | the intent is the first family, in the order nutrition, brand, category, ingredient, with a word in the lower-cased question, and "general" exactly when no family has one |
| GraphAnswer.NutritionBeatsBrand | rag/langchain/graph_answer.py:134-136 | a nutrition word decides the intent whatever other words the question holds |
| GraphAnswer.ProteinFromNestle | rag/langchain/graph_answer.py:130-138 | "protein from nestle" is a nutrition query, not a brand query |
| GraphAnswer.Mentioned | rag/langchain/graph_answer.py:156-165 | the mentioned words are vocabulary words occurring in the text, and every vocabulary word occurring in the text is among them |
| GraphAnswer.MentionedInOrder | rag/langchain/graph_answer.py:156-165 | the mentioned words are the vocabulary filtered in vocabulary order: the k-th word reported is the vocabulary word at the k-th position (in increasing order) whose word occurs in the text |
| GraphAnswer.MentionedCount | rag/langchain/graph_answer.py:157-159 | a word is reported as often as the vocabulary lists it when it occurs in the text, else never |
| GraphAnswer.SodiumListedTwice | rag/langchain/graph_answer.py:156 | the nutrition vocabulary lists "sodium" twice |
| GraphAnswer.SodiumReportedTwice | rag/langchain/graph_answer.py:156-159 | a question mentioning sodium reports it twice |
| GraphAnswer.DigitRunsNone | rag/langchain/graph_answer.py:168-169 | a text without digits yields no numbers |
| GraphAnswer.DigitRunsSeparated | rag/langchain/graph_answer.py:168-169 | a non-digit separates the numbers before it from those after it |
| GraphAnswer.NumeralReadsBack | rag/langchain/graph_answer.py:168-169 | the decimal numeral of n reads back as exactly [n] |
| GraphAnswer.ExtractEntities | rag/langchain/graph_answer.py:146-171 | the entities are the nutrition and brand words of the lower-cased question, no product names, and the numbers of its digit runs |
| GraphAnswer.MentionedWords | rag/langchain/graph_answer.py:157-165 | the keyword loop returns the mentioned words |
| GraphAnswer.FirstListed | rag/langchain/graph_answer.py:181-184 | the first keyword, in list order, occurring in the text, and None exactly when none occurs |
| GraphAnswer.ValidateCypherSyntax | rag/langchain/graph_answer.py:173-193 | a blank query is refused as "Empty query"; a query holding a dangerous keyword is refused naming the first one; otherwise the query is valid exactly when EXPLAIN succeeds, with the message "Valid" |
| GraphAnswer.OffsetIsRefused | rag/langchain/graph_answer.py:181-184 | a read-only query using OFFSET is refused as a SET operation, since "OFFSET" contains "SET" |
| GraphAnswer.SetRejected | rag/langchain/graph_answer.py:181-184 | a query whose first dangerous keyword is SET is refused naming SET |
| GraphAnswer.OffsetScreened | rag/langchain/graph_answer.py:181-184 | with no CREATE, DELETE or MERGE, OFFSET makes SET the first dangerous keyword found |
| GraphAnswer.DryRunText | rag/langchain/graph_answer.py:199-202 | the dry-run statement always contains LIMIT: it is the query itself when the upper-cased query already says LIMIT, and the query followed by " LIMIT 5" otherwise |
| GraphAnswer.DryRunIdempotent | rag/langchain/graph_answer.py:199-202 | capping a capped statement changes nothing |
| GraphAnswer.TemplateBasedGeneration | rag/langchain/graph_answer.py:290-303 | a template is produced exactly for a nutrition intent with a nutrition word or a brand intent with a brand word, filled with the first such word |
| GraphAnswer.StripFences | rag/langchain/graph_answer.py:308 | no "```" is left in the result and the text never grows; the result opens with one or two backticks only where the input does |
| GraphAnswer.NoFenceCons | rag/langchain/graph_answer.py:308 | a character put in front of fence-free text makes a fence only when it and the next two characters are backticks |
| GraphAnswer.StripFencesNoBacktick | rag/langchain/graph_answer.py:308 | text without backticks is left as it is |
| GraphAnswer.FencedQuery | rag/langchain/graph_answer.py:308 | a query wrapped in a tagged code block comes out bare |
| GraphAnswer.FenceAfterPlain | rag/langchain/graph_answer.py:308 | a closing fence after a query is removed |
| GraphAnswer.NameComparisonLowered | rag/langchain/graph_answer.py:312-313 | `name = "x"` becomes `toLower(name) = "x"` |
| GraphAnswer.NameComparisonThen | rag/langchain/graph_answer.py:312-313 | a `name = "x"` with a non-empty unquoted `x` is lowered and the substitution goes on after its closing quote |
| GraphAnswer.RewriteNameEqualsSkip | rag/langchain/graph_answer.py:312-313 | text without `"` in front of a `name = "` is copied unchanged |
| GraphAnswer.RewriteOneComparison | rag/langchain/graph_answer.py:312-313 | in text whose only `"` are those of one `name = "x"`, that comparison is the only change |
| GraphAnswer.NamedReplyUnfenced | rag/langchain/graph_answer.py:307-311 | a reply without backticks loses nothing to the fence removal, and one holding `name = "` passes the `name =` test |
| GraphAnswer.FixLowersNameComparison | rag/langchain/graph_answer.py:305-315 | a fence-free reply holding one `name = "x"` (x non-empty, no other `"`) and no `toLower(` comes back as the reply with `toLower(name) = "x"` in its place, trimmed, and the result contains `toLower(name) = "x"` |
| GraphAnswer.RewriteNameEqualsAbsent | rag/langchain/graph_answer.py:312-313 | text without `name = "` is not rewritten |
| GraphAnswer.NoFenceConcat | rag/langchain/graph_answer.py:305-315 | two fence-free texts joined make a fence only when the first ends and the second starts with a backtick |
| GraphAnswer.RewriteNameEqualsNoFence | rag/langchain/graph_answer.py:312-313 | lowering the name comparisons of a fence-free text leaves it fence-free |
| GraphAnswer.FixCommonCypherErrors | rag/langchain/graph_answer.py:305-315 | the result has no white space at either end and holds no "```"; when the unfenced text holds `name =` and no `toLower(` it is that text with every `name = "x"` lowered, then trimmed, and otherwise the unfenced text trimmed |
| GraphAnswer.PlainReplyOnlyTrimmed | rag/langchain/graph_answer.py:305-315 | a reply without fences or name comparisons is only trimmed |
| GraphAnswer.ParseCoreferenceAnswer | rag/langchain/graph_answer.py:433-436 | None exactly when the trimmed reply reads "none" in any case; otherwise at least one name, none holding the separator, joined back by ", " into the trimmed reply |
| GraphAnswer.RewriteQuestion | rag/langchain/graph_answer.py:322-326 | the question is kept exactly when there is no history or the model names no product; otherwise the product hint is prefixed, and the question always ends the result |
| GraphAnswer.Candidates | rag/langchain/graph_answer.py:253-288 | two or three candidates: the trimmed enhanced reply first, the trimmed simple reply last, and in between, exactly when the question's entities and intent have a template, that template as generated (not trimmed) |
| GraphAnswer.CandidateDiagnostic | rag/langchain/graph_answer.py:343-360 | the report records the fixed query, and an execution result exactly when the syntax check passed |
| GraphAnswer.ReportScore | rag/langchain/graph_answer.py:362-364 | a candidate scores at least 0 only when it is non-empty and executed; otherwise it scores -1 |
| GraphAnswer.BestIndex | rag/langchain/graph_answer.py:332-369 | the chosen candidate has a score of at least 0 |
| GraphAnswer.BestIndexIsWinner | rag/langchain/graph_answer.py:367-369 | the chosen candidate has the highest score and no earlier candidate ties it; there is no choice exactly when no candidate scored |
| GraphAnswer.WinnerIsBestIndex | rag/langchain/graph_answer.py:367-369 | the earliest candidate with the highest score is the one chosen |
| GraphAnswer.BestIndexStep | rag/langchain/graph_answer.py:367-369 | a candidate replaces the best so far only with a strictly higher score |
| GraphAnswer.SelectionNotBlank | rag/langchain/graph_answer.py:336-373 | a selected query is never empty, so the fallback is used only when no candidate scored |
| GraphAnswer.TryCandidate | rag/langchain/graph_answer.py:343-369 | one candidate's fix, check and dry run return its report and score |
| GraphAnswer.SelectCandidate | rag/langchain/graph_answer.py:332-371 | the candidate loop returns the selection and records a report for each non-empty candidate under its number, without a fallback entry |
| GraphAnswer.GenerateRobustCypher | rag/langchain/graph_answer.py:317-379 | fails exactly when a model call fails, with the message of the first call that raised (coreference when there is history, then the enhanced prompt, then the simple prompt); otherwise returns the chosen query and the candidate reports, with a fallback entry exactly when no candidate was selected |
| GraphAnswer.WidenedRunFaithful | rag/langchain/graph_answer.py:381-415 | a success reports rows the query used really returned and their count; the broad query is used only after the chosen query returned no rows; a failure names the chosen query and happens exactly when a run raised |
| GraphAnswer.RunWithWidening | rag/langchain/graph_answer.py:389-398 | the chosen query is run, and the broad query is run as well exactly when the first returned no rows |
| GraphAnswer.QueryWithFallback | rag/langchain/graph_answer.py:381-415 | a generation failure is reported with the message of the first model call that raised, no query and no diagnostics; otherwise the chosen query is run with widening: a failure names the chosen query, a success names the chosen or the wide query, holds exactly the rows that query returns and counts them, and the validation info returned reports every candidate, holds the fallback entry exactly when no candidate was kept, and that entry names the fallback query with "All candidates failed" |
| LangchainRag.EntryOf | rag/langchain/rag_answer.py:192-202 | a product entry holds the chunk's product URL, and its brand or the empty string |
| LangchainRag.ProductLinksLatest | rag/langchain/rag_answer.py:181-209 | a key stored by a chunk that no later chunk stores again maps to that chunk's entry: later chunks overwrite earlier ones |
| LangchainRag.ProductLinksUntouched | rag/langchain/rag_answer.py:181-209 | a key no chunk produces keeps whatever entry it had, or stays absent |
| LangchainRag.BrandLinksLatest | rag/langchain/rag_answer.py:184-188 | a brand's lower-cased name maps to the brand URL of the last chunk naming that brand with a URL |
| LangchainRag.FirstHit | rag/langchain/rag_answer.py:223-227 | the entry of the first key present, and None exactly when no key is present |
| LangchainRag.LookupProduct | rag/langchain/rag_answer.py:216-227 | the product-brand key is tried first, then the product name alone, then the brand-product key; None when all three miss |
| LangchainRag.LookupBrand | rag/langchain/rag_answer.py:229-230 | the URL stored under the lower-cased brand, else the empty string |
| LangchainRag.LookupAfterLoad | rag/langchain/rag_answer.py:181-227 | looking up the product and brand of a loaded chunk finds that chunk's entry, unless a later chunk stored another entry under the same key |
| LangchainRag.Lookup | rag/langchain/rag_answer.py:116-118 | a dictionary read: None exactly when no item has the key, else that item's value |
| LangchainRag.Put | rag/langchain/rag_answer.py:57-66 | a dictionary assignment: a new key is appended at the end, an existing key keeps its place, and no other item changes |
| LangchainRag.PutDistinct | rag/langchain/rag_answer.py:57-66 | assignment keeps the keys distinct |
| LangchainRag.PutLookup | rag/langchain/rag_answer.py:57-66 | reading after an assignment gives the new value for that key and the old answer for every other key |
| LangchainRag.ProductImageRegistered | rag/langchain/rag_answer.py:50-66 | a product with a non-blank name and image is found under its lower-cased name and, with a brand, also under "name (brand)" and "brand name"; a product missing either adds nothing |
| LangchainRag.ImagesDistinct | rag/langchain/rag_answer.py:46-66 | loading a catalogue keeps the image keys distinct |
| LangchainRag.ProductImagesDistinct | rag/langchain/rag_answer.py:50-66 | loading one brand's products keeps the image keys distinct |
| LangchainRag.LinkPartsOfDisplayName | rag/langchain/rag_answer.py:246-248 | the display name "product (brand)" the loader writes splits back into exactly that product and brand |
| LangchainRag.RewriteMisses | rag/langchain/rag_answer.py:240-266 | a substitution where every link misses the table leaves the text unchanged |
| LangchainRag.RewriteIsSubstitution | rag/langchain/rag_answer.py:266-267 | one pass is a substitution: every match the scan reports, left to right and without overlap, is replaced by what `replace_link` returns for it, and the text between matches is copied |
| LangchainRag.RewriteHit | rag/langchain/rag_answer.py:253-259 | a link whose product the table knows is replaced by `[**display name**](url)` from the table entry, and the scan resumes after the link |
| LangchainRag.RewriteWithoutMatches | rag/langchain/rag_answer.py:266-267 | with no opening marker of the pattern anywhere from a position on, the rest of the text is copied unchanged |
| LangchainRag.RenderedStays | rag/langchain/rag_answer.py:267 | a rendered `[**name**](url)` with no `[` in the name or the URL is left alone by the second pass |
| LangchainRag.ValidateBoldInsideHit | rag/langchain/rag_answer.py:232-269 | a response that is one `[**text**](url)` link whose product the table knows comes back as the table's `[**display name**](url)` |
| LangchainRag.ValidateBoldOutsideHit | rag/langchain/rag_answer.py:232-269 | a response that is one `**[text](url)**` link whose product the table knows comes back as the table's `[**display name**](url)` |
| LangchainRag.ValidateMisses | rag/langchain/rag_answer.py:232-269 | when no link of either shape is found in the table, the response is returned as it is |
| LangchainRag.ValidateWithoutLinks | rag/langchain/rag_answer.py:232-269 | with an empty link table validation changes nothing |
| LangchainRag.FirstSameKey | rag/langchain/rag_answer.py:115-121 | the first key, in table order, equal to the text ignoring case, and None when there is none |
| LangchainRag.FirstMostlyKey | rag/langchain/rag_answer.py:133-142 | the first key of more than three characters inside the text that makes up more than half of it, and None when there is none |
| LangchainRag.MatchImage | rag/langchain/rag_answer.py:111-142 | the matched item satisfies one of the three strategies; the first exact key wins; failing that, when the text has a `(`, the first key equal to the product part wins; failing both, the first key that is most of the text; and there is no match exactly when no item satisfies any strategy |
| LangchainRag.AfterPunctuation | rag/langchain/rag_answer.py:150-155 | the insertion point is the link's end, moved past at most one following character |
| LangchainRag.ChainAppend | rag/langchain/rag_answer.py:157-161 | one more insertion extends the sequence of edits from the answer to the current text |
| LangchainRag.ProgressStep | rag/langchain/rag_answer.py:144-163 | a justified insertion of an unprocessed image keeps the original answer embedded, the edit sequence intact and every image used once |
| LangchainRag.EmbedsSubsequence | rag/langchain/rag_answer.py:157-161 | an answer embedded in a text at increasing positions is a subsequence of it |
| LangchainRag.EmbedsInsert | rag/langchain/rag_answer.py:157-161 | inserting a segment keeps an embedded answer embedded |
| LangchainRag.ProductLinkManager.constructor | rag/langchain/rag_answer.py:27-34 | a new manager holds the link tables of the chunks and the image table of the catalogue, with distinct image keys |
| LangchainRag.ProductLinkManager.LoadLinks | rag/langchain/rag_answer.py:175-209 | the chunk loop adds every chunk's brand link and product entries to the tables and leaves the image table alone |
| LangchainRag.ProductLinkManager.LoadImages | rag/langchain/rag_answer.py:36-66 | the brand loop adds the images of the whole catalogue and leaves the link tables alone |
| LangchainRag.ProductLinkManager.LoadBrandImages | rag/langchain/rag_answer.py:50-66 | the product loop adds one brand's images and leaves the link tables alone |
| LangchainRag.ProductLinkManager.InsertProductImages | rag/langchain/rag_answer.py:78-173 | the answer stays a subsequence of the result; every insertion follows a link found in the answer, carries the image its text matches, sits after the link or one punctuation character, and adds an image URL not yet in the text; no image is inserted twice |
| LangchainRag.RecentTurns | rag/langchain/rag_answer.py:286 | the last six turns, or all of them when there are fewer |
| LangchainRag.HistoryIgnoresOlder | rag/langchain/rag_answer.py:285-290 | turns older than the last six do not change the history text |
| LangchainRag.BuildHistory | rag/langchain/rag_answer.py:285-290 | the loop builds the history text |
| LangchainRag.Urls | rag/langchain/rag_answer.py:386-402 | the seen URLs are exactly the URLs of the references so far |
| LangchainRag.ReferencesExtend | rag/langchain/rag_answer.py:387-402 | a document adds its reference exactly when it offers one whose URL is new |
| LangchainRag.ReferencesDistinct | rag/langchain/rag_answer.py:385-402 | no URL appears twice among the references |
| LangchainRag.ReferencesCover | rag/langchain/rag_answer.py:385-402 | every URL a document offers is among the references |
| LangchainRag.ReferencesFirstWins | rag/langchain/rag_answer.py:385-402 | each reference is the one offered by the first document offering its URL |
| LangchainRag.BuildReferences | rag/langchain/rag_answer.py:385-402 | the loop builds the references of the documents |
| LangchainRag.RelatedLinks | rag/langchain/rag_answer.py:404-408 | the footer is empty exactly when there are no references |
| LangchainRag.FinishAnswer | rag/langchain/rag_answer.py:380-408 | the answer is the validated text with images inserted, keeping the validated text as a subsequence, followed by the footer of the documents' references; the returned log chains the validated text to the text with images, every insertion in it follows a link of the validated text whose text matches the inserted image, and no image is inserted twice |
| MarkdownLinks.MatchPrefix | rag/langchain/rag_answer.py:233-238 | a link recognised at the start of the text spans at least one character and no more than the text |
| MarkdownLinks.LazyRun | rag/langchain/rag_answer.py:235 | a lazy group ends at the first occurrence of its closing marker, with no newline before it |
| MarkdownLinks.GreedyRun | rag/langchain/rag_answer.py:238 | a negated-class group is a non-empty run without the excluded character, followed by the expected closer |
| MarkdownLinks.MatchAt | rag/langchain/rag_answer.py:266-267 | a match found at a position starts there and ends within the text |
| MarkdownLinks.ScanFrom | rag/langchain/rag_answer.py:266-267 | `finditer` and `re.sub` see matches inside the text, left to right and never overlapping |
| MarkdownLinks.RenderedLinkFound | rag/langchain/rag_answer.py:259 | a rewritten link `[**name**](url)` is recognised again with the same name and URL when the name has no `*` or newline and the URL no `)` or newline |
| LocationFinder.KeysOf | geolocation/location_finder.py:43-47 | a catalogue brand's key is its trimmed, lower-cased name and each product's key is its trimmed, lower-cased name, in catalogue order |
| LocationFinder.NonEmptyMembership | geolocation/location_finder.py:44-49 | only non-empty keys enter the keyword set, and every non-empty one does |
| LocationFinder.KeywordsMembership | geolocation/location_finder.py:39-52 | a string is a keyword exactly when it is a non-empty brand key, or a non-empty product key listed under a non-empty brand |
| LocationFinder.MapProductsEffect | geolocation/location_finder.py:46-50 | one brand's product loop adds exactly its non-empty product keys, each mapped to that brand, and leaves every other entry of the product-to-brand map alone |
| LocationFinder.BrandProductsEffect | geolocation/location_finder.py:42-50 | one brand's iteration maps exactly the products listed under it (when the brand key is non-empty) and keeps every other entry |
| LocationFinder.ProductMapDomain | geolocation/location_finder.py:40-50 | a product has a brand in the map exactly when some non-empty brand lists it under a non-empty name |
| LocationFinder.ProductMapLatest | geolocation/location_finder.py:50 | a product listed by several brands maps to the last brand that lists it |
| LocationFinder.ProductMapKeywords | geolocation/location_finder.py:45-50 | every product with a brand is also a keyword |
| LocationFinder.CatalogueSnoc | geolocation/location_finder.py:42-50 | one more brand adds its own keywords to the set and its products to the map |
| LocationFinder.LoadBrandKeywords | geolocation/location_finder.py:34-52 | the loop over the catalogue returns the keyword set and the product-to-brand map of the whole catalogue |
| LocationFinder.LoadBrand | geolocation/location_finder.py:43-50 | one iteration adds the brand's keywords and maps its products to it |
| LocationFinder.BrandFor | geolocation/location_finder.py:82 | the brand of a known product is its mapped brand; an unknown product stands for its own brand |
| LocationFinder.Utf8 | geolocation/location_finder.py:66 | a character encodes to one to four UTF-8 bytes, and to its own code alone exactly when it is ASCII |
| LocationFinder.Utf8StringAppend | geolocation/location_finder.py:66 | UTF-8 encoding of a concatenation is the concatenation of the encodings |
| LocationFinder.QuoteByte | geolocation/location_finder.py:66 | quoting one byte yields only unreserved characters, `+` and `%XX` escapes |
| LocationFinder.QuotePlus | geolocation/location_finder.py:66 | `quote_plus` output consists of quoted characters only |
| LocationFinder.UnquoteQuoted | geolocation/location_finder.py:66 | percent-decoding undoes byte quoting, whatever ASCII text follows |
| LocationFinder.QuotePlusRoundTrip | geolocation/location_finder.py:66 | decoding `quote_plus(s)` gives back the UTF-8 bytes of `s` |
| LocationFinder.AmazonLinkQuery | geolocation/location_finder.py:63-66 | the Amazon link is the search address followed by a query value of quoted characters that decodes to product, space, brand |
| LocationFinder.QueryValueDecodes | geolocation/location_finder.py:66 | the `+` between the two quoted parts decodes to the space that joins product and brand |
| LocationFinder.SellsMembership | geolocation/location_finder.py:88 | a store sells the product exactly when some listed product, lower-cased, contains the matched product |
| LocationFinder.SellsProduct | geolocation/location_finder.py:88 | the `any(...)` scan returns whether the store sells the product |
| LocationFinder.NearbyStoresKeepsExactly | geolocation/location_finder.py:86-96 | the store filter keeps exactly the stores that sell the product and lie within 90 km, in catalogue order, each with its name and rounded distance |
| LocationFinder.KeptIndices | geolocation/location_finder.py:86-96 | the positions of the kept stores are increasing, each names a kept store, and every kept store is among them |
| LocationFinder.FilterStores | geolocation/location_finder.py:86-96 | the loop returns the filtered store list |
| LocationFinder.StoreLines | geolocation/location_finder.py:71 | one line per store hit, in order |
| LocationFinder.StoresToContextLines | geolocation/location_finder.py:68-71 | no hits give the "No stores found nearby" sentence; otherwise the context splits at newlines back into exactly one line per store |
| LocationFinder.LocationQuery | geolocation/location_finder.py:73-132 | an unmatched product gives the fixed apology; otherwise the answer comes from the store context and the Amazon link of the matched product and its brand |
| NameMatch.Normalize | rag/langchain/name_match.py:45-46 | the comparison form has neither curly single quote left |
| NameMatch.IndexOf | rag/langchain/name_match.py:49 | `list.index`: the first position holding the value, and None exactly when the value is absent |
| NameMatch.NormalizeAll | rag/langchain/name_match.py:46 | the comparison forms of the keywords, one per keyword, in order |
| NameMatch.ProductMatch | rag/langchain/name_match.py:40-51 | None exactly when the trimmed reply reads "none" in any case or equals no keyword's comparison form; otherwise the one-element list of the first keyword whose comparison form it equals |
| ResponseSelector.QuestionClassifier | rag/langchain/response_selector.py:34-37 | the label is always one of "store", "graphrag", "rag": the trimmed, lower-cased reply when it is a label, "rag" otherwise |
| ResponseSelector.ClassifierIdempotent | rag/langchain/response_selector.py:34-37 | classifying a label again gives the same label |
| ResponseSelector.LabelIsNormal | rag/langchain/response_selector.py:34-35 | every label is already trimmed and lower case |
| RagViews.ChooseRoute | rag/rag_views.py:11-31 | empty question exactly when refused; store locator exactly when the lower-cased question holds "where" and "buy" and both coordinates are truthy; the graph route only for "how many", "how much" or a nutrient word; the vector route only without them |
| RagViews.RouteIgnoresCase | rag/rag_views.py:11 | questions equal up to letter case take the same route |
| RagViews.ZeroCoordinateNeverStore | rag/rag_views.py:22 | a coordinate of 0 is falsy, so it never reaches the store locator |
| RagViews.Respond | rag/rag_views.py:23-35 | a handler's answer is returned as is; an exception becomes status 500 with its message |
| RagViews.ToFloat | rag/rag_views.py:23 | `float()` keeps a number, raises on null, and reads text through the parser, whose failure message is kept |
| RagViews.View | rag/rag_views.py:9-35 | a null question escapes the view as an `AttributeError`; an empty one is refused with 400 "Missing question"; on the store route `float(lon)` is converted before `float(lat)` and the first failure's message becomes a 500, else the locator gets the lower-cased question, the longitude and the latitude; the graph and vector routes answer with their handler's outcome on the lower-cased question; every other error is a 500 |
| RagViews.RagAsk | rag/rag_views.py:9-35 | as written: a null question escapes, an empty one is refused with 400, the graph and vector routes always answer 500 with the `TypeError` of the missing `chat_history` argument, and only the store route can answer successfully |
| RagViews.ProductQuestionFails | rag/rag_views.py:31 | "kit kat" takes the vector route and is answered with status 500 and the missing `chat_history` message of `query_with_langchain_rag` |
| RagViews.QuantityQuestionFails | rag/rag_views.py:27 | "how many calories" takes the graph route and is answered with status 500 and the missing `chat_history` message of `grag_view` |
| RagViews.RagAskWithHistory | rag/rag_views.py:9-35 | with the chat history passed to both handlers, the graph and vector routes answer with their handler's outcome on the lower-cased question |
| RagViews.ProductQuestionAnswered | rag/rag_views.py:31 | with the history passed on, "kit kat" is answered with whatever the retrieval pipeline answers |
| RagAnswer.Slot | rag/rag_answer.py:41-42 | Python indexing of a row already below `len(metadata)`: a position within the table, and an `IndexError` exactly for rows below `-len(metadata)` |
| RagAnswer.KeptHitsMembership | rag/rag_answer.py:40-41 | a hit is used exactly when its row is below `len(metadata)` and its distance is below the threshold |
| RagAnswer.Collect | rag/rag_answer.py:37-54 | one content per reference, and the references are numbered 1, 2, ... in order |
| RagAnswer.CollectFails | rag/rag_answer.py:41-42 | the search raises exactly when some kept row lies below `-len(metadata)` |
| RagAnswer.CollectKept | rag/rag_answer.py:40-54 | entry k holds the content and the reference (product name, brand, category, chunk type, url, number k + 1) of the k-th kept row |
| RagAnswer.CollectStaysFailed | rag/rag_answer.py:40-42 | once the loop has raised, later hits cannot undo it |
| RagAnswer.SearchContext | rag/rag_answer.py:33-56 | the loop computes the search result: the joined context with the references, or the `IndexError` |
| RagAnswer.ContextPieces | rag/rag_answer.py:56 | the context splits at the separator back into the kept contents, when none holds a newline |
| RagAnswer.LinkFrom | rag/rag_answer.py:98-109 | the titles linked are new, distinct and taken from the references |
| RagAnswer.LinkFromFirst | rag/rag_answer.py:99-109 | a reference whose stripped title occurs in the answer and is not yet used turns the answer into the answer with every occurrence of the title replaced by `[title](url)[number]`, records the title as linked first, and linking continues from there; any other reference leaves answer and used titles unchanged |
| RagAnswer.LinkFromFails | rag/rag_answer.py:99-100 | the linking loop raises exactly when some reference has no title |
| RagAnswer.LinkFromUnchanged | rag/rag_answer.py:104 | titles that are absent from the answer or already linked leave it unchanged |
| RagAnswer.LinkTitles | rag/rag_answer.py:97-109 | the loop returns the linked answer, or the exception of a missing title |
| RagAnswer.AskWithContext | rag/rag_answer.py:59-114 | search with threshold 1.5, trim the model's answer, link the titles, return the answer with the references; either exception propagates |
| RagAnswer.StoredChunksHaveNoUrl | rag/rag_answer.py:52 | every reference built from a chunk of the chunk builder's output has no url; so when the retrieval metadata holds that output, its citations show "None" in place of a link |
| SplitChunks.MetadataStatus | rag/preprocessing/split_chunks.py:22-37 | the metadata chunk has type "product_metadata"; it carries a status key exactly when the status is truthy, and then its text ends with " \| Status: " and that status |
| SplitChunks.DescChunks | rag/preprocessing/split_chunks.py:40-54 | one description chunk when the description is non-empty, none otherwise |
| SplitChunks.FirstSentenceHasNoStop | rag/preprocessing/split_chunks.py:42 | the short description is the first sentence: it holds no full stop |
| SplitChunks.NutritionChunks | rag/preprocessing/split_chunks.py:57-78 | never more nutrition chunks than nutrition items |
| SplitChunks.NutritionCount | rag/preprocessing/split_chunks.py:58-78 | exactly one chunk per item whose trimmed type and amount are both non-empty |
| SplitChunks.NutritionWording | rag/preprocessing/split_chunks.py:59-64 | the text ends with " and dv is " and the trimmed dv, or "not provided" when that is empty |
| SplitChunks.NutritionTypes | rag/preprocessing/split_chunks.py:66-78 | every nutrition chunk has type "nutrition" and a non-empty field and amount |
| SplitChunks.NutritionChunkFields | rag/preprocessing/split_chunks.py:59-76 | a nutrition chunk records the trimmed type and amount of its item |
| SplitChunks.FeatureFieldHasNoColon | rag/preprocessing/split_chunks.py:85 | a feature field is the text before the first colon, or "feature": it holds no colon |
| SplitChunks.FeatureChunks | rag/preprocessing/split_chunks.py:82-95 | never more feature chunks than feature lines |
| SplitChunks.FeatureCount | rag/preprocessing/split_chunks.py:83-95 | exactly one chunk per non-blank feature line |
| SplitChunks.DescTypes | rag/preprocessing/split_chunks.py:43-51 | description chunks have type "core_desc" |
| SplitChunks.FeatureTypes | rag/preprocessing/split_chunks.py:86-95 | feature chunks have type "features" |
| SplitChunks.ProductChunkOrder | rag/preprocessing/split_chunks.py:22-95 | a product's chunks are its metadata chunk, then its description, nutrition and feature chunks, in that order |
| SplitChunks.CountTypeAppend | rag/preprocessing/split_chunks.py:27-86 | chunk counts by type add up over concatenation |
| SplitChunks.ProductOneMetadata | rag/preprocessing/split_chunks.py:22-37 | each product yields exactly one metadata chunk |
| SplitChunks.BrandMetadataCount | rag/preprocessing/split_chunks.py:16-37 | a brand yields one metadata chunk per product |
| SplitChunks.MetadataPerProduct | rag/preprocessing/split_chunks.py:10-37 | the catalogue yields exactly as many metadata chunks as it has products |
| SplitChunks.EveryChunk | rag/preprocessing/split_chunks.py:10-95 | a property that holds of each kind of chunk holds of every chunk of the catalogue |
| SplitChunks.NoChunkHasUrl | rag/preprocessing/split_chunks.py:28-92 | no chunk's metadata has a "url" key |
| SplitChunks.BuildChunks | rag/preprocessing/split_chunks.py:7-95 | the nested loops build the chunk list of the whole catalogue |
| SplitChunks.AddBrandChunks | rag/preprocessing/split_chunks.py:16-95 | the product loop appends the brand's chunks |
| SplitChunks.AddProductChunks | rag/preprocessing/split_chunks.py:22-95 | one product appends its chunks |
| SplitChunks.AddNutritionChunks | rag/preprocessing/split_chunks.py:58-78 | the nutrition loop appends the nutrition chunks |
| SplitChunks.AddFeatureChunks | rag/preprocessing/split_chunks.py:83-95 | the feature loop appends the feature chunks |
| Connector.RunLength | graph/connector.py:78 | the length of the longest prefix of one character class: every character before it is in the class, the next one is not |
| Connector.SplitAmountMatched | graph/connector.py:78-80 | a value starting with a digit or a dot splits into its whole leading run of digits and dots and the whole run of letters that follows the white space after it: the value is laid out as that number, white space, that unit and a remainder, each run as long as it can be |
| Connector.SplitAmountUnmatched | graph/connector.py:79-80 | a value the pattern does not match is kept whole with an empty unit |
| Connector.SplitAmountRoundTrip | graph/connector.py:78-80 | any value laid out as a number, white space, a unit and a remainder, with each run as long as it can be, splits back into exactly that number and unit; with the converse in SplitAmountMatched, the split is the one such layout |
| Connector.SplitGrams | graph/connector.py:78-80 | "10g" splits into "10" and "g" |
| Connector.SplitWithRemainder | graph/connector.py:78-80 | "5g 10" splits into "5" and "g": the match ignores what follows the unit |
| Connector.KeepLessThan | graph/connector.py:78-80 | "<1g" does not match and is kept whole |
| Connector.ChunkWrites | graph/connector.py:20-121 | a chunk issues at most one write |
| Connector.WriteMatchesType | graph/connector.py:30-121 | the write a chunk issues is the one its chunk type selects |
| Connector.UnknownTypeWritesNothing | graph/connector.py:30-121 | an unknown or null chunk type issues nothing and raises nothing |
| Connector.EmptyFieldWritesNothing | graph/connector.py:96-121 | a feature or ingredient chunk writes exactly when its field is truthy |
| Connector.NutritionWrite | graph/connector.py:72-93 | when the trimmed amount is laid out as a number, white space, a unit of letters and a remainder, each run as long as it can be, the nutrition node carries exactly that number and that unit, with the product, the field and the trimmed dv |
| Connector.NutritionWriteWhole | graph/connector.py:72-93 | when the trimmed amount does not start with a digit or a dot, the nutrition node carries the whole trimmed amount with an empty unit |
| Connector.ChunkFailsIff | graph/connector.py:22-75 | a chunk raises in Python (before any statement reaches the database) exactly when its metadata is missing, or when it is a nutrition chunk whose amount or dv is null |
| Connector.GraphConnector.constructor | graph/connector.py:14-15 | a new connection has written nothing |
| Connector.GraphConnector.CreateBrandProductGraph | graph/connector.py:20-121 | succeeds exactly when the chunk does not raise, and appends the chunk's writes to what the connection has written |
| Connector.RecordsOf | graph/connector.py:127 | a single object is wrapped as a one-element list; a list is taken as it is |
| Connector.FlatMapAppend | graph/connector.py:130-134 | the writes of two record lists in a row are the writes of the first then of the second |
| Connector.LoadAndIngest | graph/connector.py:123-136 | the loop issues the writes of every record in order, records the positions of the records that raised, and reports the number of records |
| Connector.LoadStep | graph/connector.py:130-134 | one more record adds its writes, and its position when it raised |
| Connector.IngestedAppend | graph/connector.py:130-134 | ingestion of a concatenation is the concatenation of ingestions |
| Connector.FailuresIff | graph/connector.py:131-134 | a position is reported as failed exactly when the record there raises in Python |
| Connector.FailuresBelow | graph/connector.py:131-134 | every failed position is a position of the input |
| Connector.StoredChunksLoad | graph/connector.py:30-40 | the chunks chunk construction writes all load without raising, and none creates a brand node |
| Scraper.FirstIn | rag/preprocessing/scraper.py:22 | the first position of a character from the set, or the length when there is none |
| Scraper.LastIndex | rag/preprocessing/scraper.py:22 | the last position of the character |
| Scraper.RemoveUnsafe | rag/preprocessing/scraper.py:22 | no tab, carriage return or line feed is left |
| Scraper.SkippedLinksRejected | rag/preprocessing/scraper.py:12-21 | empty links, links starting with a skipped scheme and links ending, in any case, with a skipped extension are refused |
| Scraper.HostRule | rag/preprocessing/scraper.py:22-26 | a link with a network location is followed exactly when it contains the base URL |
| Scraper.RelativeLinksFollowed | rag/preprocessing/scraper.py:22-25 | a relative link (no colon, no leading `//`, no skipped extension) is followed |
| Scraper.TrimControlsKeeps | rag/preprocessing/scraper.py:22 | a URL that starts with a printable character keeps its start |
| Scraper.RemoveUnsafeKeeps | rag/preprocessing/scraper.py:22 | a URL without control characters is left as it is |
| Scraper.LookAlikeHostFollowed | rag/preprocessing/scraper.py:26 | a host that merely starts with the base host, such as `www.madewithnestle.ca.example.com`, passes |
| Scraper.NormalizeParts | rag/preprocessing/scraper.py:28-31 | query and fragment are dropped, trailing slashes are stripped from the path, and scheme, host and parameters are kept |
| Scraper.NormalizePartsIdempotent | rag/preprocessing/scraper.py:28-31 | normalising twice changes nothing more than normalising once |
| Scraper.QueryAndFragmentIgnored | rag/preprocessing/scraper.py:28-31 | URLs that differ only in query and fragment normalise to the same URL |
| Scraper.NormalizedHasNoQuery | rag/preprocessing/scraper.py:28-31 | a normalised URL holds neither `?` nor `#` |
| Scraper.PartsFree | rag/preprocessing/scraper.py:22-31 | once query and fragment are split off, no part of a parsed URL holds `?` or `#` |
| Scraper.UnparseFree | rag/preprocessing/scraper.py:31 | joining parts without `?` and `#` and with empty query and fragment adds neither |
| Scraper.Enqueued | rag/preprocessing/scraper.py:94-98 | no more links are queued than the page has |
| Scraper.EnqueuedValid | rag/preprocessing/scraper.py:97 | every queued link is valid and, as written, not among the visited URLs |
| Scraper.EnqueuedSnoc | rag/preprocessing/scraper.py:94-98 | one more link is queued exactly when it is valid and unvisited |
| Scraper.EnqueueLinks | rag/preprocessing/scraper.py:94-98 | the link loop appends the queued links to the queue |
| Scraper.ScrapeSite | rag/preprocessing/scraper.py:69-106 | the crawl loop, started from the start URL with nothing visited, ends in the state the crawl definition gives |
| Scraper.VisitNext | rag/preprocessing/scraper.py:80-98 | one iteration keeps the crawl's outcome, and either visits a new URL or skips one from the queue |
| Scraper.Visit | rag/preprocessing/scraper.py:86-98 | visiting a new URL adds it to the visited set and keeps the crawl's outcome |
| Scraper.CrawlSkips | rag/preprocessing/scraper.py:82-85 | a URL whose normalised form was visited is dropped from the queue |
| Scraper.CrawlFailed | rag/preprocessing/scraper.py:86-89 | a page that cannot be read is still counted as visited, and nothing is stored |
| Scraper.CrawlFetched | rag/preprocessing/scraper.py:86-98 | a page that is read is stored and its links are queued |
| Scraper.CrawlBounds | rag/preprocessing/scraper.py:80-98 | the visited set only grows, stays within ten, every stored page takes one visit, and the crawl ends with an empty queue or ten visits |
| Scraper.ScrapeBounds | rag/preprocessing/scraper.py:69-98 | at most as many pages are stored as visited, at most ten, and the crawl stops early only when it runs out of links |
| Scraper.KeysAt | rag/preprocessing/scraper.py:83 | the key list holds each stored page's normalised URL |
| Scraper.CrawlStoresOnce | rag/preprocessing/scraper.py:83-90 | stored pages keep distinct, visited normalised URLs |
| Scraper.StoredOnceSnoc | rag/preprocessing/scraper.py:86-90 | storing a page with a fresh key keeps the keys distinct and visited |
| Scraper.ScrapeStoresOnce | rag/preprocessing/scraper.py:69-98 | no page is stored twice under the same normalised URL, and each stored page's normalised URL was visited |
| Scraper.CrawlFollowsValid | rag/preprocessing/scraper.py:80-98 | when every queued link has a property, so do all stored pages and the queue left over |
| Scraper.ScrapeFollowsValid | rag/preprocessing/scraper.py:69-98 | apart from the start URL, which is stored first if at all, every stored page and every URL left in the queue passed `is_valid_url` |
| Scraper.StartFollows | rag/preprocessing/scraper.py:79-98 | a crawl from one start URL stores it first, if at all, and then only queued links |
| Scraper.CrawlShift | rag/preprocessing/scraper.py:80-98 | the pages already stored do not change the rest of the crawl |
| SpeechText.RemoveEmojis | tts/tts_generate.py:17-23 | the result is no longer than the input and holds no character of the listed ranges |
| SpeechText.RemoveEmojisAppend | tts/tts_generate.py:17-23 | removal works character by character: it distributes over concatenation |
| SpeechText.RemoveEmojisKeeps | tts/tts_generate.py:17-23 | text without characters of the ranges is kept as it is |
| SpeechText.RemoveEmojisDrops | tts/tts_generate.py:17-23 | text made only of such characters disappears |
| SpeechText.CjkRemoved | tts/tts_generate.py:23 | the last range, U+24C2 to U+1F251, also deletes CJK ideographs |
| SpeechText.RunOf | tts/tts_generate.py:35-37 | the longest prefix of one character class |
| SpeechText.MatchAt | tts/tts_generate.py:28-37 | a match of a substitution rule starts with that rule's opening character and takes at least one character |
| SpeechText.SubAllAppend | tts/tts_generate.py:26-37 | running two rule lists in a row is running their concatenation |
| SpeechText.SubUntouched | tts/tts_generate.py:28-37 | text where no match can begin is copied unchanged before the rest is substituted |
| SpeechText.SubMatch | tts/tts_generate.py:28-37 | a match at the front is replaced and the scan resumes after it |
| SpeechText.NewlinesGone | tts/tts_generate.py:35 | no carriage return or line feed survives the newline rule |
| SpeechText.NewlineRunBecomesStop | tts/tts_generate.py:35 | a whole run of line breaks becomes one ". " |
| SpeechText.QuotesGone | tts/tts_generate.py:36 | no curly quote survives the quote rule |
| SpeechText.SpacesCollapse | tts/tts_generate.py:37 | no two white-space characters in a row survive the space rule, and it starts with white space only where its input did |
| SpeechText.SubKeepsNoEmoji | tts/tts_generate.py:28-37 | no substitution brings back a character of the emoji ranges |
| SpeechText.CleanTextShape | tts/tts_generate.py:26-38 | the cleaned text has no white space at either end, no line break, no curly quote, no two white-space characters in a row and no character of the emoji ranges |
| SpeechText.AllUntouched | tts/tts_generate.py:28-37 | text no rule can act on passes every rule unchanged |
| SpeechText.PlainKept | tts/tts_generate.py:26-38 | plain text is its own cleaned form |
| SpeechText.LinkReplaced | tts/tts_generate.py:31 | a Markdown link `[t](u)` is replaced by its text |
| SpeechText.BoldReplaced | tts/tts_generate.py:28 | bold `**t**` is replaced by its text |
| SpeechText.BoldInLinkReplaced | tts/tts_generate.py:28 | the bold inside a product link `[**t**](u)` is removed, leaving an ordinary link |
| SpeechText.ImageReplaced | tts/tts_generate.py:30 | an image `![a](u)` is removed entirely |
| SpeechText.HeaderReplaced | tts/tts_generate.py:32 | a header marker followed by white space is removed |
| SpeechText.LinkSpokenAsText | tts/tts_generate.py:26-38 | a Markdown link with plain text and URL is spoken as its text alone |
| SpeechText.RulesSplit | tts/tts_generate.py:27-37 | the substitutions run in the listed order: bold, italic, images, then links, then the rest |
| Text.LowerNoUpper | rag/langchain/response_selector.py:34 | text with no upper-case ASCII letter is its own lower case |
| Text.LowerIdempotent | rag/langchain/response_selector.py:34 | lower-casing twice is lower-casing once |
| Text.Strip | rag/langchain/name_match.py:40 | `str.strip()`: the result is no longer than the input and has no white space at either end |
| Text.TrimStartRemovesSpace | rag/langchain/name_match.py:40 | the left strip is a suffix of the input and everything it removed is white space |
| Text.TrimEndRemovesSpace | rag/langchain/name_match.py:40 | the right strip is a prefix of the input and everything it removed is white space |
| Text.StripOffset | rag/langchain/name_match.py:40 | the stripped text is a contiguous slice of the input |
| Text.StripAllSpace | rag/langchain/graph_answer.py:177 | a string made only of white space strips to the empty string |
| Text.FindSpec | rag/langchain/graph_answer.py:436 | `str.find`: a found index is the first place the pattern occurs, and no index is returned only when it does not occur |
| Text.SplitPiecesFree | rag/langchain/graph_answer.py:436 | no piece of `str.split(sep)` contains the separator |
| Text.JoinSplit | rag/langchain/graph_answer.py:436 | joining the pieces of a split with the same separator gives back the original string |
| Text.SplitJoin | rag/rag_answer.py:56 | splitting a join gives back the pieces when none of them holds the separator's first character |
| Text.ReplaceAbsent | rag/rag_answer.py:105-108 | `str.replace` with a pattern that does not occur returns the string unchanged |
| Text.ReplaceIsJoinSplit | rag/rag_answer.py:105-108 | `str.replace` with a non-empty pattern is the string split at every occurrence of the pattern and joined with the replacement |
| Text.ReplaceCharGone | rag/langchain/name_match.py:45 | after replacing a character by text that lacks it, that character no longer occurs |
| Text.NatToString | rag/rag_answer.py:107 | the decimal text of a reference number is a non-empty run of digits whose value is that number |

## Left out

- Language-model calls and their prompt texts, in every file. Each reply is an input string, or a function from the question to a string.
- Neo4j I/O: schema discovery (rag/langchain/graph_answer.py:45-98), the `_build_enhanced_prompt` text, connection handling, and the real `EXPLAIN` and execution. `EXPLAIN` and execution are function parameters. The `MERGE`/`SET` statements of graph/connector.py are kept as a log of typed writes, not as Cypher text.
- FAISS, embeddings and the index search (rag/preprocessing/query_with_rag.py, vector_search.py, embedder.py, embedder_test.py, checker.py). Search hits, with the distance test as a predicate, are inputs.
- Floating point: `haversine`, `round(distance, 2)`, the printing of a distance and the float coercion of coordinates. These are function parameters of `LocationFinder`.
- rag/langchain/combine_answer.py, graph/graphrag_answer.py and graph/langchain_mvp.py: thin chain wrappers without logic of their own.
- HTTP, Django and file plumbing: rag/views.py, chatbot/views.py, the URL configurations, the SSML request in tts/tts_generate.py, and reading or writing JSON files. The tables are built from already-parsed records.
- Page fetching and parsing with Playwright and BeautifulSoup, `extract_page_content`, and `urljoin`. The absolute links of a page are an oracle.
- Scraper.ScrapeSite: stores the URL of each page read in place of the content dictionary `extract_page_content` returns. The page content is not modelled, so only which pages were stored and in what order is captured.
- The frontend (frontend/src), which is UI state only.
- `functools.lru_cache` on the keyword loader, because caching does not change the result.
- The order of `list(set(...))` in `load_brand_keywords`, which depends on string hashing. The keywords are a set.
- Case mapping beyond ASCII: `lower()` and `upper()` map ASCII letters only.
- `UnquoteBytes` is a reference decoder for the ASCII text `quote_plus` produces. It is used to state the round trip, not as a model of `unquote_plus` on arbitrary input.
- The `ValueError`s `urlparse` raises: for an unbalanced IPv6 bracket in the network location, for a non-ASCII network location whose NFKC form holds one of `/?#@:`, and (from Python 3.11.4) for an invalid bracketed host. The model accepts all such URLs.
- The call from the store locator into `product_match` is not modelled as a call, because its list result is used as a string. `LocationFinder` takes the matched product as a string, and the router's store handler is a function parameter.
- JSON null in fields the source reads as strings cannot be represented: the tables are built from string values. `brand` and `product_name` in chunk metadata are such fields, and so are `brand`, `name` and `image_url` in the product catalogues. In the source, such a null raises an `AttributeError` in three places:
  - while loading the link tables, uncaught, because rag/langchain/rag_answer.py:211-214 catch only a missing file and bad JSON;
  - in `_load_images`, caught at rag/langchain/rag_answer.py:72-75, which keeps the images loaded so far;
  - in `load_brand_keywords`, uncaught (geolocation/location_finder.py:43-47);
  - in `search_context` (rag/rag_answer.py:44-56): a null `metadata` makes `meta.get` raise an `AttributeError`, and a null `content` makes the join raise a `TypeError`. `RagAnswer.StoredChunk` models only an absent key, through `Option`.
- Digits are ASCII only. Python's `\d`, `str.isdigit()` and `int()` also accept other Unicode decimal digits, such as Arabic-Indic digits. The number extraction of `GraphAnswer` and `Connector.SplitAmount` treat those as non-digits.
- RagViews.View: a question that is neither a string nor null (a JSON number, list or object) is not modelled. The source raises an `AttributeError` there too, with a different message. JSON booleans, lists and objects as coordinates are not modelled either (`float(True)` is 1.0).
- Connector.ChunkFailsIff: database-side errors are not modelled. Neo4j refuses a `MERGE` on a null property, so a product_metadata chunk with a null `product_name` (graph/connector.py:45-47, once the brand is found) and a nutrition chunk with a null or missing `field` (graph/connector.py:82-84) raise from `session.run`. The model logs those writes as issued, so `Connector.FailuresIff` does not count them as failures.
- LangchainRag.ProductLinkManager.InsertProductImages: states that the answer is a subsequence of the result and describes each insertion through a log (where it lands, which image, no repeats). It does not give the result text as a closed formula.

## Findings

| source | as written | input that shows it | evidently intended | confidence | as-written member | corrected member |
|---|---|---|---|---|---|---|
| rag/rag_views.py:31 | `query_with_langchain_rag(question, chatbot_name=name)` leaves out the `chat_history` argument that rag/langchain/rag_answer.py:271 requires. The `TypeError` is caught and answered with status 500. | the question "kit kat" | the retrieval pipeline's answer is returned | high; not executed | RagViews.ProductQuestionFails | RagViews.ProductQuestionAnswered |
| rag/rag_views.py:27 | `grag_view(question)` leaves out the `chat_history` argument that rag/langchain/graph_answer.py:438 requires. The `TypeError` is caught and answered with status 500. | the question "how many calories" | the graph pipeline's answer is returned | high; not executed | RagViews.QuantityQuestionFails | RagViews.RagAskWithHistory |
