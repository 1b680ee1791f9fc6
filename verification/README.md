# A verified model of lib-compose

lib-compose turns several HTML pages into one. Pages are fetched concurrently together with the pages they depend on, behind
a cache; each page's token stream is parsed into template fragments; the fragments are merged, and the merged page is
rendered by executing fragments recursively. This project models that pipeline in Dafny and proves what each stage
guarantees, for every input and every interleaving.

`dafny verify dfyconfig.toml` checks everything.

| files | content |
|---|---|
| `Templating`, `TemplatingSyntax`, `TemplateMeaning`, `TemplatePanics` | the placeholder language of fragments: trees, printer, parser, meaning, the scanning loop that never builds a tree; what variables, blocks and plain text come to; when executing a template can panic |
| `Includes`, `PlacedIncludes`, `IncludeRuns` | the text emitted for a `uic-include` tag and what the template engine makes of it, anywhere in a text; include tags from the page's body to the nested executor, one by one and a whole body at once |
| `FragmentIndex`, `Rendering`, `RenderingLaws` | looking fragments up by name; recursive execution and the pure unfolding it refines; failure and order of execution |
| `ContentMerge`, `ContentMergeLaws`, `PageText`, `Fragments`, `CompositionHandler` | the merger as an object, the whole page, where its parts stand, when it fails, and the order in which fetched results reach it |
| `HeadDeduplication`, `HeadProperties`, `HeadDeduplicationLaws`, `HeadFixpoints`, `SharedHeads` | the backward pass over the heads that drops repeated titles, meta tags and canonical links; which tags are the same; which heads it leaves alone and what a second pass does; heads that several merges share |
| `StylesheetDeduplication` | the strategies against repeated stylesheet links |
| `Html`, `HtmlContentParser`, `Markup`, `TreePruning`, `BodyParts`, `MisplacedElements` | the token-stream parser, the names it goes by, what it does on well-nested documents, what a page holds afterwards, fragments inside fragments, and missing end tags |
| `FetchProtocol`, `FetchLaws`, `FetchOutcomes`, `FetchNames`, `FetchSchedule`, `ContentFetcher` | concurrent fetching as a step system, its laws over all runs, and the fetcher object whose critical sections are those steps |
| `LruCache`, `Cache`, `CacheRuns`, `CacheInclusion`, `CacheRemovals`, `CachePurges` | the cache as a value, as an object, and over whole runs of interleaved critical sections |
| `CacheLoader`, `CacheService` | the cache in front of the content loaders, and its whole runs together with the merges that rewrite cached heads |
| `Strings`, `Wrappers` | the string functions relied on, and `Option` |

Code that changes things step by step is modelled by methods with the same loops and branches, proved against functions; the
properties are lemmas about those functions. The functions are the link: `ExecuteTemplate` is proved equal to `Denote`, the
fetcher's `Step` to `JobStep`, the cache's `Set` to `SetStep`, `ParseBody` to `BodyScan`, and so on.

What the model takes as given enters as a parameter: the tokenizer (a token sequence, or a function from text to tokens), JSON
decoding, `fmt` formatting, HTML escaping, number parsing, the sorting function, the clock, the outcome of a load, the cache
key and the cacheability decision. Where Go iterates over a map, the model allows every order.

Where the code surprises, or its comments and documentation say something else, the model follows the code:

- The comment on `executeTemplate` says that on an error the alternative text of a block is executed; it is copied verbatim,
  behind whatever the failing include had already written (`composition/templating.go`, lines 24 and 45).
- The guard on the closing marker of a block compares with the position of the end marker, not with what follows it (line
  41). It only ever rejects a missing closing marker; one that shares the section sign of the opening passes, and then a
  failing include makes the slice at line 45 go out of range. The model calls such a block `Fused`.
- `composition/README.md`, lines 80-82, says that elements marked `uic-remove` and the `uic-meta` script are not cleaned out
  of the head; both are. A head of white space does not count as missing if it holds a tab, since only blanks and newlines
  are trimmed, or if it has stylesheet links (`composition/html_content_parser.go`, lines 94-100).
- Inside a fragment a removed `uic-include` is an include all the same (lines 229-241). The end tag of an include with separate
  start and end tags stays in the text, inside a fragment as well as in the body (lines 189-194 and 250-256).
- Inside a fragment the markers of an include are the format of `Fprintf` (lines 234-237): a source with a formatting verb, such
  as the escaped blank in `a%20b`, calls something else than the page depends on.
- A fragment inside a fragment is text, and its end tag closes the outer one; a fragment that closes itself goes on up to the next
  end tag of a fragment (lines 209-262).
- A `uic-fetch` inside a fragment is text; only those in the body itself count (lines 164-171 and 229-256).
- A meta script that holds JSON `null` drops the meta data gathered so far (lines 477-496).
- `composition/README.md`, line 235, says that a dependency is loaded only if there was no content of that name before. The
  look-up of the name and the later scheduling are two critical sections, and only hashes are unique
  (`composition/content_fetcher.go`, lines 150-163).
- Removing repeated head tags does not always leave one of a kind: a head of which nothing would be left stays as it is
  (`composition/html_content_parser.go`, lines 390-392). And removing a tag may make a new tag of the text around it, so that the
  page served has two of a kind though the tags kept do not, and a second pass would change it once more.
- The simple strategy against repeated stylesheets also drops every link without target
  (`composition/stylesheet_deduplication.go`, lines 26-29).
- That pass rewrites head fragments in place, and a cached page shares its head with every merge it takes part in. A page that
  was merged once with a later page of positive priority may be served from the cache without its title from then on
  (`composition/content_merge.go`, lines 265-276; `composition/cache_loader.go`, lines 29-31).
- A page's default fragment is preferred over a local fragment of the same name, whichever was added later. For page names
  that start with `#` the result depends on map iteration order (`composition/content_merge.go`, lines 187-241).
- A purge of old entries removes whatever the key holds when the write lock is taken, which may be newer than what was looked
  at (`cache/cache.go`, lines 148-157); and a removal can save another key from eviction, so that purges cost hits and may add
  some.

## Model

| member | source | states |
|---|---|---|
| Templating.ExecuteTemplate | composition/templating.go:25-60 | for every text, meta data, writer and nested executor, the scanning loop terminates and does to the writer's state what the tree of the text means: same output, same nested calls in the same order, same success, error or panic |
| Templating.ExecuteBlock | composition/templating.go:37-47 | the block branch: the nested call, the alternative text after a failure behind the output already written, the missing closing marker, and the out-of-range slice |
| Templating.WritePlaceholder | composition/templating.go:68-81 | a placeholder calls the named fragment or writes the value of its key, and an unknown key writes nothing |
| Templating.ExpandTemplateVars | composition/templating.go:62-66 | a URL template is executed without nested executor; an include in it panics, and text written before an error is returned with the error |
| Templating.GetDataFromMap | composition/templating.go:86-112 | the value of a key is the top-level entry if there is one, else what the dotted path leads to through maps and URL parameters |
| Templating.LookupDotted | composition/templating.go:83-111 | a dotted key denotes what is reached by following its parts, unless it is a key itself |
| TemplateMeaning.LookupExactly | composition/templating.go:86-112 | the value of a key is this one if and only if the entry of that name has it or, without such an entry, the parts of the key lead to it one below the other, through entries of maps and first values of URL parameters |
| TemplateMeaning.VariableServed | composition/templating.go:68-81 | anywhere in a text, a placeholder with the name of a variable writes its formatted value, or nothing if it has none, and execution goes on behind it |
| TemplateMeaning.EntryServed | composition/templating.go:86-93 | a template with the name of an entry between the markers and nothing else writes exactly that entry |
| TemplateMeaning.BlockServed | composition/templating.go:37-47 | a block calls its name, and only after a failure its alternative text is written, behind what the call has written |
| TemplateMeaning.TextServed | composition/templating.go:27-29 | text without a start marker is written as it is |
| TemplateMeaning.UnclosedPlaceholder | composition/templating.go:30-33 | a start marker without an end marker behind it is an error that quotes the template, and nothing is written |
| TemplateMeaning.UnclosedBlock | composition/templating.go:40-43 | a block without closing marker is an error that names the marker |
| Templating.MarkersApart | composition/templating.go:28-35 | the first end marker never overlaps the first start marker, so the slice between them is well formed |
| TemplatingSyntax.ParsePrint | composition/templating.go:25-60 | scanning the text of a well-formed tree finds that tree |
| TemplatingSyntax.PrintParse | composition/templating.go:25-60 | every text is the text of the tree found in it, and that tree is well formed; no text is lost or read twice |
| TemplatingSyntax.RoundTrip | composition/templating.go:25-60 | a tree survives printing and scanning if and only if it is well formed: markers closed, separated and not shared across boundaries |
| TemplatingSyntax.ClosingFoundBehindOpening | composition/templating.go:40-43 | the position guard rejects a block exactly when its closing marker is missing altogether |
| TemplatePanics.PanicsExactly | composition/templating.go:37-46 | a template never panics, whatever its nested executor does short of panicking, if and only if no block shares a section sign between its markers |
| TemplatePanics.SharedSectionSign | composition/templating.go:44-45 | the shortest such template is read as that block and panics as soon as the call fails |
| Includes.IncludeNodeCalls | composition/html_content_parser.go:293-297 | the text emitted for an expressible source is the text of one well-formed node that calls exactly that source |
| Includes.IncludeExecuted | composition/templating.go:37-53 | executing it calls the nested executor once with exactly the source; a failure is passed on if required, and otherwise adds nothing |
| Includes.IncludeServed | composition/templating.go:25-60 | executing such a text executes what is before the include, calls the executor with exactly the source, and goes on behind it or passes the failure on |
| Includes.IncludeBehindBracket | composition/templating.go:30-33 | right behind a closing bracket the emitted text makes the whole fragment an error |
| Includes.ReadBackExactly | composition/html_content_parser.go:264-298 | anywhere in a text an emitted include is read back in its place, as one node that calls exactly its source, if and only if the text before it leaves nothing open and the source has no surrounding white space and no end marker inside |
| FragmentIndex.AddPage | composition/content_merge.go:230-241 | adding a page shadows the index with exactly what the page offers, whatever the order of map iteration |
| FragmentIndex.OrderMatters | composition/content_merge.go:230-241 | for page names that start with the separator the order of map iteration does decide which fragment is found |
| FragmentIndex.ResolveQualified | composition/content_merge.go:187-201 | page#local finds that fragment of the latest page of this name that has one |
| FragmentIndex.ResolveLocal | composition/content_merge.go:187-201 | #local finds the fragment of the latest page that has one |
| FragmentIndex.ResolveTrailing | composition/content_merge.go:190-193 | page# finds the default fragment of that page |
| FragmentIndex.ResolveBare | composition/content_merge.go:195-198 | a bare name finds the page's default fragment, and only without one the latest local fragment of this name |
| FragmentIndex.ResolveIsSearch | composition/content_merge.go:187-201 | for every name, with any number of separators, the look-up finds what a plain search through the added pages finds, latest first |
| ContentMerge.ContentMerge.GetBodyFragmentByName | composition/content_merge.go:187-201 | after any sequence of AddContent with proper page names, the look-up finds what a plain search through the added pages finds |
| ContentMerge.ContentMerge.BodyIndexIsSearch | composition/content_merge.go:89-98 | so does the renderer, on the values of the fragments |
| Rendering.DenoteIsUnfolding | composition/content_merge.go:89-100 | executing a tree on any page appends its unfolding and returns its reply, if the nested executions do |
| Rendering.ExecuteFragmentUnfolds | composition/content_merge.go:89-100 | on every ranked include graph the mutual recursion of fragment and template execution terminates and appends the fragment's unfolding to any page |
| Rendering.FragmentUnfolds | composition/content_merge.go:141-147 | the same for a head or tail, which is executed without being looked up |
| RenderingLaws.UnfoldVerdict | composition/content_merge.go:89-100 | on every ranked include graph, whether rendering succeeds, fails or panics is decided by the first placeholder in order of execution that does not succeed; meta data, formatting and stylesheets have no say |
| RenderingLaws.UnfoldFails | composition/content_merge.go:89-100 | in particular, if no block is fused, rendering never panics and fails if and only if the fragment is missing, malformed, or needs a required one that fails |
| RenderingLaws.SheetsInExecutionOrder | composition/content_merge.go:96-97 | the collected stylesheets are those of the executed fragments in pre-order of execution |
| ContentMerge.ContentMerge.constructor | composition/content_merge.go:51-61 | a fresh merge is empty |
| ContentMerge.ContentMerge.AddContent | composition/content_merge.go:203-216 | the whole new state, for every page: head, tail and body attributes appended if present, body entered in some order, priority noted if positive |
| ContentMerge.ContentMerge.AddBody | composition/content_merge.go:230-241 | the loop enters every fragment once, under its local and its full name |
| ContentMerge.MergedAttributes | composition/content_merge.go:102-121 | all values of class are joined by blanks in order; of every other attribute the last value stays |
| ContentMerge.CollectBodyAttrs | composition/content_merge.go:102-129 | the text lists every merged attribute exactly once |
| HeadDeduplication.RewriteHeads | composition/content_merge.go:265-276 | the loop rewrites the head objects as AfterPass says, also if one occurs several times |
| HeadDeduplication.DistinctPass | composition/content_merge.go:265-276 | if none does, the effect on the texts is that of the pass on texts |
| ContentMerge.ContentMerge.ProcessMetaPriorityParsing | composition/content_merge.go:265-276 | the backward pass rewrites the head objects in place, wherever they are held, and nothing else |
| ContentMerge.ContentMerge.DeduplicateHeads | composition/content_merge.go:133-135 | the pass takes place if and only if a page was added with a positive priority, and changes body fragments only where a head object is one |
| ContentMerge.ContentMerge.GetHtml | composition/content_merge.go:131-181 | the page, laid out as `PageText.RenderedText` says, is prefix, unfolded heads, stylesheet links, body attributes, unfolded body, unfolded tails and suffix, or the first error, all with the texts the pass leaves, also where a head object is a body fragment or a tail; the collected stylesheets are left de-duplicated |
| ContentMerge.Render | composition/content_merge.go:137-180 | the same on the values of the fragments: the page as RenderedPage describes it |
| ContentMerge.ExecuteBody | composition/content_merge.go:155-172 | the layout fragment, or else the default fragment, and the tails unfold behind each other, up to the first error |
| ContentMerge.ExecuteAll | composition/content_merge.go:141-147 | heads or tails unfold behind each other, up to the first error |
| ContentMerge.WriteStylesheets | composition/content_merge.go:77-87 | the de-duplicated stylesheets replace the collected ones and are linked in order |
| ContentMergeLaws.RenderedPageVerdict | composition/content_merge.go:131-181 | whether a page succeeds, fails or panics is decided by its heads, start fragment and tails in this order, by the first that does not succeed |
| ContentMergeLaws.PageFailure | composition/content_merge.go:131-181 | in particular, if no block is fused, a page is an error if and only if a head, a tail or the start fragment is malformed, missing or needs a required fragment that fails |
| ContentMergeLaws.LinkedStylesheets | composition/content_merge.go:141-177 | a page that succeeds links the stylesheets collected before, then those of heads, body in order of execution, and tails, without repetitions if the strategy says so |
| ContentMergeLaws.FailureKeepsStylesheets | composition/content_merge.go:141-166 | a page that fails leaves what was collected before in front of the stylesheets it has collected |
| PageText.RenderedText | composition/content_merge.go:137-180 | the text of every page that succeeds, from the first to the last character and by positions: document type, what each head writes, the links, the body tag with its attributes, what the layout or default fragment writes, what each tail writes, end tags |
| PageText.AttributesListed | composition/content_merge.go:123-126 | the text in the body tag is each merged attribute with its value in quotes |
| PageText.ValuesOfPages | composition/content_merge.go:102-121 | the values of an attribute come page by page |
| PageText.ClassInAnyCase | composition/content_merge.go:108-109 | class is recognised in upper and lower case |
| PageText.PlainOutput | composition/content_merge.go:141-147 | a head or tail without a start marker is copied, and its stylesheets are collected |
| PageText.PlainCall | composition/content_merge.go:89-100 | so is a fragment that is called |
| PageText.MissingIsNamed | composition/content_merge.go:89-100 | a required include of a missing fragment is the error that names it, an optional one is nothing |
| PageText.NothingToStartWith | composition/content_merge.go:155-163 | without layout and default fragment the page is the error about the missing default fragment |
| StylesheetDeduplication.Deduplicate | composition/stylesheet_deduplication.go:23-38 | the result is the subsequence of first occurrences |
| StylesheetDeduplication.DeduplicatedTargets | composition/stylesheet_deduplication.go:16-18 | every stylesheet kept has a target, no two share one, and no target is lost |
| StylesheetDeduplication.KeptExactly | composition/stylesheet_deduplication.go:12-38 | what stays, stays in its order: with the simple strategy the links whose first attribute named href has a value that no earlier link has there, with none or the identity strategy all |
| StylesheetDeduplication.NothingToDrop | composition/stylesheet_deduplication.go:23-38 | a list without repetitions is left as it is |
| StylesheetDeduplication.DeduplicateIdempotent | composition/stylesheet_deduplication.go:12-38 | with any strategy, de-duplicating again changes nothing |
| HeadDeduplication.ProcessMetaTag | composition/html_content_parser.go:417-442 | whether a meta tag stays, and the properties afterwards |
| HeadDeduplication.ProcessLinkTag | composition/html_content_parser.go:448-475 | whether a link tag stays, and the properties afterwards; only canonical links can go |
| HeadProperties.SameMetaExactly | composition/html_content_parser.go:417-442 | two meta tags stand for the same property if and only if their labels agree: the name of a single attribute, and name and value of the first of several |
| HeadProperties.SameNamedMeta | composition/html_content_parser.go:432-435 | tags with several attributes that begin with the same name are the same if and only if the first values agree |
| HeadProperties.MetaClaims | composition/html_content_parser.go:425-435 | the value of a meta tag is that of its single attribute, or the second of several; it claims its property unless it has a single attribute without value |
| HeadProperties.SameElsewhere | composition/html_content_parser.go:448-475 | all titles are the same, all canonical links are, and tags of different names never |
| HeadProperties.CanonicalClaims | composition/html_content_parser.go:456-473 | a canonical link claims to be it if and only if its last target is not empty |
| HeadProperties.TwoTags | composition/html_content_parser.go:339-394 | of two tags the second goes if and only if both are the same and the first has a value |
| HeadProperties.DifferentTagsStay | composition/html_content_parser.go:339-394 | tags no two of which are the same all stay |
| HeadProperties.DescriptionAndKeywords | composition/html_content_parser.go:432-442 | a description and keywords both stay, a second description goes |
| HeadDeduplication.SkipCompleteTag | composition/html_content_parser.go:396-415 | stops behind the next end tag of a title |
| HeadDeduplication.ParseHeadFragment | composition/html_content_parser.go:339-394 | a head's text becomes the text of the tokens kept by one scan, unless nothing is kept |
| HeadDeduplicationLaws.ScanClaims | composition/html_content_parser.go:339-394 | one scan keeps exactly the first claim of every property not set before, and records it as set |
| HeadDeduplicationLaws.ScanUnique | composition/html_content_parser.go:339-394 | what one scan keeps claims no property twice, and none that was set before |
| HeadDeduplicationLaws.LastHeadWins | composition/content_merge.go:265-276 | after the pass a property is claimed only by the first claim of the last head that claimed it |
| HeadDeduplicationLaws.AtMostOne | composition/content_merge.go:264-276 | if every head that claims something is rewritten, at most one title, one canonical link with a target and one meta tag with a value per key remain |
| HeadDeduplicationLaws.UniqueExactly | composition/html_content_parser.go:388-392 | that uniqueness holds if and only if no head that claims something consists only of removable tags whose properties later heads claim, with the content of titles |
| HeadDeduplicationLaws.TwoTitlesStay | composition/html_content_parser.go:390-392 | two heads with the same title and nothing else keep both |
| CompositionHandler.AddResults | composition/composition_handler.go:84-92 | the loop over the results adds heads, tails, bodies and body attributes of the loaded contents in their order, and the backward pass will take place if and only if some priority is positive |
| CompositionHandler.NewMerge | composition/composition_handler.go:27-57 | the factory gives an empty merge with the strategy it was set to |
| CompositionHandler.MergeContents | composition/composition_handler.go:84-92 | a new merge of these contents holds what they bring, in their order, and rendering it begins with the backward pass if and only if one of them has a positive priority |
| CompositionHandler.PrioritizedIsSorted | composition/content_fetcher.go:88-93 | in every run of the fetcher the results come sorted as soon as one of them has a positive priority |
| CompositionHandler.OtherwiseAsScheduled | composition/content_fetcher.go:88-93 | and otherwise in the order in which they were scheduled |
| CompositionHandler.SurvivorHasTopPriority | composition/content_merge.go:264-276 | from the fetcher to the head objects that are rendered: if a loaded content has a positive priority, adding the results arms the pass, the pass leaves every head object with the text of the tags kept of it, and of all claims of a property exactly one is kept, the first of a head of maximal priority among those that make it |
| HeadDeduplicationLaws.ScanIdempotent | composition/html_content_parser.go:339-394 | scanning what a scan kept, with the same properties, changes nothing |
| HeadFixpoints.DedupHeadsIdempotent | composition/content_merge.go:265-276 | on the tags of any heads, running the whole pass again from scratch changes nothing |
| HeadDeduplicationLaws.DedupTextsIdempotent | composition/content_merge.go:265-276 | the same on texts, if every rewritten text is read back as the tags it was written from |
| HeadFixpoints.FixedExactly | composition/content_merge.go:265-276 | in general a pass leaves a page of heads as it is, its own result for instance, if and only if every head, as it is read now, either repeats nothing or holds nothing but repetitions of later heads |
| HeadFixpoints.TagAppears | composition/html_content_parser.go:388-392 | two heads after whose first pass the page has two charset tags, and which a second pass changes again |
| HeadFixpoints.LeftAloneExactly | composition/html_content_parser.go:339-394 | the pass leaves a head alone if and only if none of its removable tags is claimed by a later head or an earlier tag of it, or it has nothing but tags that later heads claim |
| HeadDeduplicationLaws.TextsAreHeads | composition/html_content_parser.go:388-392 | the pass on texts writes out the result of the pass on tokens |
| HeadDeduplicationLaws.OthersStay | composition/html_content_parser.go:378-384 | outside titles, everything but meta, link and title tags stays in its order |
| SharedHeads.PassIsReplay | composition/content_merge.go:265-276 | the pass does to every head, shared or not, what its history of rewrites says |
| SharedHeads.IntactExactly | composition/html_content_parser.go:388-392 | over any history of merges a head has the text it was loaded with if and only if, in every merge it took part in, none of its removable tags was claimed by a later head of that merge or an earlier tag of its own, or it has nothing but tags claimed by later heads; what is removed never comes back |
| SharedHeads.TitleLost | composition/content_merge.go:265-276 | a page with a title, merged once with a later page that has one, is left without title |
| HtmlContentParser.SkipSubtreeIfUicRemove | composition/html_content_parser.go:498-525 | a tag marked for removal is passed over with everything up to the end tag that balances it |
| HtmlContentParser.ParseHead | composition/html_content_parser.go:54-102 | the loop over the head gathers text, stylesheets and meta data as HeadScan says, and sets the head only if there is something |
| HtmlContentParser.ParseMetaJson | composition/html_content_parser.go:477-496 | one text and its end tag; the three errors; an object adds its entries, null drops what was gathered, also when the end tag is wrong |
| HtmlContentParser.ParseFragment | composition/html_content_parser.go:209-262 | the loop over a fragment gathers text, stylesheets and dependencies as FragmentScan says |
| HtmlContentParser.ParseFragmentInto | composition/html_content_parser.go:142-163 | a fragment goes to the body under its name, a tail to the tail, its dependencies to the page, and on an error nothing changes |
| HtmlContentParser.ProcessBodyToken | composition/html_content_parser.go:164-194 | fetch definitions, includes, stylesheets and copied text |
| HtmlContentParser.ParseBodyToken | composition/html_content_parser.go:126-195 | one round of the loop over the body is one step of BodyScan, or ends it |
| HtmlContentParser.FinishBody | composition/html_content_parser.go:197-204 | what is left of the body becomes the default fragment unless there is an explicit one |
| HtmlContentParser.ParseBody | composition/html_content_parser.go:113-207 | the whole loop, the body attributes and the default fragment |
| HtmlContentParser.Parse | composition/html_content_parser.go:28-52 | a document is parsed as DocScan says: heads and bodies where they start, up to the first error |
| TreePruning.SkipForest | composition/html_content_parser.go:508-524 | skipping a well-nested forest leaves the depth as it was |
| TreePruning.SkipStopsAtEnd | composition/html_content_parser.go:498-525 | the skipper stops exactly behind the end tag of the removed element |
| TreePruning.HeadForest | composition/html_content_parser.go:60-92 | scanning the tokens of a forest adds its contribution up to the first meta script in error |
| TreePruning.HeadRunPrunes | composition/html_content_parser.go:72-91 | without error that contribution is the text of the pruned forest, its stylesheets and its meta data |
| TreePruning.HeadPruned | composition/html_content_parser.go:54-102 | a well-nested head yields the flattening of the forest without removed subtrees, meta scripts and stylesheet links, with the stylesheets in document order, or the first error of a meta script |
| TreePruning.AnyFragment | composition/html_content_parser.go:216-257 | scanning any well-nested content of a fragment ends as walking its tree does: behind it, with the first error, or at the first end tag of a fragment or tail inside, with the rest left over |
| TreePruning.FragmentForest | composition/html_content_parser.go:216-257 | without a fragment inside, the content of a fragment contributes its pruned text, stylesheets and dependencies, up to the first error in document order |
| MisplacedElements.ClosedInsideExactly | composition/html_content_parser.go:250-253 | if no include is refused, content is closed inside if and only if a fragment or a tail is in it |
| MisplacedElements.ClosedInBody | composition/html_content_parser.go:142-163 | then the fragment holds what comes before that end tag, and everything behind, its own end tag included, belongs to the body |
| MisplacedElements.SelfClosingFragment | composition/html_content_parser.go:137-163 | a fragment that closes itself takes what follows it and goes on behind the end tag of the element it stands in |
| MisplacedElements.SelfClosingMetaScript | composition/html_content_parser.go:477-496 | a meta script that closes itself is an error, and which one |
| MisplacedElements.HeadInHead | composition/html_content_parser.go:86-90 | the end tag of a head inside the head ends the head |
| MisplacedElements.HeadBreaksOff | composition/html_content_parser.go:60-67 | a head without end tag ends with the document, and is an error if the tokenizer has failed |
| MisplacedElements.FragmentBreaksOff | composition/html_content_parser.go:216-223 | so does a fragment |
| MisplacedElements.DocumentBreaksOff | composition/html_content_parser.go:28-52 | a document that stops in its body is parsed as if the body ended there, unless the tokenizer has failed |
| MisplacedElements.NothingBreaksOff | composition/html_content_parser.go:28-52 | a document without head and body leaves the page as it is, and is an error if the tokenizer has failed |
| TreePruning.BodyForest | composition/html_content_parser.go:126-195 | the same for the body, with its fragments and tails |
| TreePruning.BodyParsed | composition/html_content_parser.go:113-207 | a well-nested body is parsed to its effect, and parsing stops behind its own end tag |
| TreePruning.BodyDependencies | composition/html_content_parser.go:146-177 | the page depends on the base name of every include in the body, in fragments or outside, and on nothing else |
| TreePruning.BodyFragments | composition/html_content_parser.go:142-152 | the page has exactly the fragments named in its body |
| BodyParts.BodyHolds | composition/html_content_parser.go:142-163 | after a well-nested body every fragment name holds the text and the stylesheets of the last fragment of that name, and the tail those of the last tail |
| BodyParts.DefaultHolds | composition/html_content_parser.go:197-204 | the default fragment holds what is left of the body, trimmed, with its stylesheets, unless a fragment without name is in the body or nothing is left |
| BodyParts.BodyHands | composition/html_content_parser.go:145-148 | with every base name it depends on, the page hands on the parameters of the last include of that name |
| BodyParts.ParamsExactly | composition/html_content_parser.go:276-282 | a parameter has the value of the last attribute with its name behind the prefix |
| BodyParts.BodyRequires | composition/html_content_parser.go:164-171 | for every URL of a fetch tag outside fragments the page requires what the last of these tags defines: name, timeout, requirement and discovery |
| BodyParts.BodyRefused | composition/html_content_parser.go:142-181 | a well-nested body is an error if and only if one of its include or fetch tags, in fragments or outside, is refused, and then it is the error of the first one |
| BodyParts.ParsedBodyHolds | composition/html_content_parser.go:113-207 | all of this for the body as it is scanned |
| Markup.IncludeTag | composition/html_content_parser.go:264-298 | an include tag is refused without source or with a requirement that is no truth value; otherwise its markers spell its source as written out here |
| Markup.FetchTagRefused | composition/html_content_parser.go:300-337 | which fetch tags are refused, and why |
| Markup.UrlNameHasNoMarker | composition/fetch_definition.go:164-168 | the name made of a URL holds no marker of the template language |
| Markup.PlaceholderMasked | composition/fetch_definition.go:164-168 | of a placeholder in a URL the name shows the key between masked markers, and the rest of the URL as it is |
| Markup.PlainUrl | composition/fetch_definition.go:164-168 | a URL without markers is its own name |
| Markup.VoidElements | composition/html_content_parser.go:583-585 | inside a removed element the sixteen void elements need no end tag, and every other start tag does |
| Markup.MetaScriptRead | composition/html_content_parser.go:477-496 | a meta script overrides the entries of its object and leaves the others |
| Markup.NullScriptRead | composition/html_content_parser.go:477-496 | a meta script with null leaves no meta data |
| PlacedIncludes.IncludeInBody | composition/html_content_parser.go:172-204 | every include tag of a well-nested body outside its fragments: its text stands in the default fragment in the place of the tag, its base name is a dependency, and it is read back there as one node calling exactly its source if and only if the text before it is open and the source is expressible |
| PlacedIncludes.IncludeInFragment | composition/html_content_parser.go:229-261 | every include tag of a well-nested fragment: Fprintf leaves its markers alone if and only if the source holds no formatting verb; then the same holds as in the body, and with a verb it is never read back behind an open text |
| PlacedIncludes.CalledInstead | composition/html_content_parser.go:234-237 | behind an open text, what is called is what Fprintf makes of the source |
| PlacedIncludes.EscapedBlank | composition/html_content_parser.go:234-237 | an include of `a%20b` makes the page depend on that name and calls another |
| IncludeRuns.ReadInOrderExactly | composition/templating.go:25-60 | a text with any number of includes is read back as its runs of text with one node per include between them, in order, each calling exactly its source, if and only if every run in front of an include leaves nothing open and every source is expressible |
| IncludeRuns.PlainIsRead | composition/templating.go:25-60 | without markers in the runs the tree is these literals and include nodes in order, and the set of fragments called is exactly the set of sources |
| IncludeRuns.BodyRead | composition/html_content_parser.go:172-204 | both for the whole default fragment of a well-nested body, with the runs it is copied together from, trimmed at both ends |
| IncludeRuns.FragmentRead | composition/html_content_parser.go:229-261 | both for a whole well-nested fragment whose sources hold no formatting verb |
| TreePruning.DocumentParsed | composition/html_content_parser.go:28-52 | a document with one head and one body fails with its first error, or is exactly its pruned head, its parsed body and its meta data |
| FetchProtocol.AddJobKeeps | composition/content_fetcher.go:99-144 | scheduling keeps the invariant, gives the hash a result, and disturbs no other result |
| FetchProtocol.JobStepKeeps | composition/content_fetcher.go:113-169 | every step of a goroutine keeps the invariant |
| FetchProtocol.NextKeeps | composition/content_fetcher.go:80-169 | so does every step of the system |
| FetchProtocol.RunKeeps | composition/content_fetcher.go:99-169 | in every interleaving the WaitGroup counter is the number of unfinished goroutines, no two results share a hash, and every loaded content is covered but for what its goroutine has still to do |
| FetchLaws.ZeroIsFinal | composition/content_fetcher.go:81 | once the caller waits and the counter is zero it never rises again |
| FetchLaws.Completeness | composition/content_fetcher.go:80-169 | when results are returned, every top-level and every required definition of a loaded content has a result with its hash, every dependency name was scheduled or offered to the factory, and the order is the original one or sorted by priority |
| FetchOutcomes.SuppliedIsScheduled | composition/content_fetcher.go:155-164 | in every run that has returned, whatever the factory supplied has a result |
| FetchOutcomes.DependenciesAnswered | composition/content_fetcher.go:150-165 | every dependency name of a loaded content is borne by a result, or the factory was asked for it and what it had has a result |
| FetchOutcomes.OutcomesAreShown | composition/content_fetcher.go:113-144 | a result shows how its load ended: not tried, failed, or this content |
| FetchOutcomes.OnlyNamedIsFetched | composition/content_fetcher.go:99-165 | nothing is fetched but what the caller, a loaded content or the factory has named |
| FetchNames.ScheduledMeanwhile | composition/content_fetcher.go:150-164 | in every run, a goroutine about to add what it obtained for a name had looked the name up in vain, and the name is scheduled by then if and only if somebody else scheduled it in between |
| FetchNames.NamesAreNotUnique | composition/content_fetcher.go:150-164 | a run from the start that schedules two definitions of one name |
| FetchLaws.NextDecreases | composition/content_fetcher.go:99-169 | every step decreases the lexicographic measure of unseen hashes, goroutines not loaded, and remaining work |
| FetchLaws.RunsAreFinite | composition/content_fetcher.go:99-169 | if only finitely many hashes can be named, every run is finite, whatever the schedule and the outcomes |
| FetchLaws.Progress | composition/content_fetcher.go:80-144 | until the results are returned some step is possible |
| FetchSchedule.LeastClosed | composition/content_fetcher.go:99-149 | without lazy dependencies the fetched hashes are the least set with the top-level jobs and closed under required content, gone through in any order |
| FetchSchedule.SameHashes | composition/content_fetcher.go:99-149 | every interleaving that ends fetches the same hashes |
| FetchSchedule.SameMeta | composition/content_fetcher.go:200-206 | if no two of the fetched hashes give the same key, every interleaving that ends gathers the same meta data |
| ContentFetcher.ContentFetcher.constructor | composition/content_fetcher.go:55-68 | a new fetcher is the initial state of the protocol |
| ContentFetcher.ContentFetcher.IsAlreadyScheduled | composition/content_fetcher.go:179-186 | whether some result has the hash |
| ContentFetcher.ContentFetcher.AddFetchJob | composition/content_fetcher.go:99-144 | the critical section is the protocol's AddJob |
| ContentFetcher.ContentFetcher.AddAllAndWait | composition/content_fetcher.go:80-144 | a caller that no goroutine interferes with schedules every hash of its jobs exactly once, each with one counted goroutine |
| ContentFetcher.ContentFetcher.AddMeta | composition/content_fetcher.go:200-206 | in any order of iteration the data overrides the meta data |
| ContentFetcher.ContentFetcher.Step | composition/content_fetcher.go:113-169 | what a goroutine does next is the protocol's step |
| ContentFetcher.ContentFetcher.HasPriority | composition/composition_handler.go:255-262 | whether some result has a positive priority |
| ContentFetcher.ContentFetcher.WaitForResults | composition/content_fetcher.go:80-94 | the results are sorted in place if and only if some priority is positive, and the step is the protocol's |
| Cache.Cache.NewCache | cache/cache.go:37-50 | fails exactly without room for an entry; else the cache is empty and its byte limit is in mebibytes, also a negative one |
| Cache.Cache.Get | cache/cache.go:94-108 | the entry moves to the front even if it is too old; a hit is younger than the maximal age |
| Cache.Cache.Set | cache/cache.go:110-130 | the old entry of the key goes, the new one comes to the front, and the longest prefix within both limits stays |
| Cache.Cache.EvictToFit | cache/cache.go:125-129 | the backend's eviction and the loop over the bytes terminate and leave the longest prefix that fits, with the count exact |
| Cache.Cache.BackendRemove | cache/cache.go:122-139 | removing a key through the backend and its callback is the atomic removal, with the count exact |
| Cache.Cache.PurgeOldEntries | cache/cache.go:142-165 | without interference exactly the entries go that are older than allowed when they are looked at |
| Cache.Cache.PurgeEntries | cache/cache.go:168-187 | without interference exactly the entries with these keys go |
| Cache.YoungExactly | cache/cache.go:147-157 | what stays is not older than allowed, and everything of that kind stays |
| Cache.WithoutAllExactly | cache/cache.go:168-187 | what stays has none of these keys, and everything of that kind stays |
| Cache.Cache.Invalidate | cache/cache.go:203-209 | emptying the backend brings the count to zero before it is reset |
| LruCache.LongestFit | cache/cache.go:125-129 | the prefix kept meets both limits and no longer one does |
| LruCache.SetConsistent | cache/cache.go:110-130 | Set keeps the accounts and leaves the byte limit respected, whatever the sizes |
| CacheRuns.InterleavingIsRun | cache/cache.go:94-209 | every interleaving of clients and two-phase purges leaves the cache as the run of its atomic events does |
| CacheRuns.RunConsistent | cache/cache.go:110-209 | whenever the lock is free, the byte count is the sum of the stored sizes, keys are distinct and the entry limit holds |
| CacheRuns.RunWithinBytes | cache/cache.go:127-129 | with non-negative sizes the byte limit holds whenever the lock is free |
| CacheRuns.StoredIsLatest | cache/cache.go:94-209 | whatever is stored is what the latest Set of its key stored, with no purge of the key or invalidation since |
| CacheRuns.HitsAreExact | cache/cache.go:94-108 | a hit returns the object of the latest Set of the key, younger than the maximal age, with no purge or invalidation in between |
| CacheRuns.LookupsAreCounted | cache/cache.go:94-108 | in every history the hits are the lookups that found an object, and hits and misses together are all lookups |
| CachePurges.LookExactly | cache/cache.go:147-157 | a purge of old entries decides to remove a key if and only if an entry stored under it is older than allowed when it is looked at |
| CachePurges.PurgeHolds | cache/cache.go:147-160 | by then the key holds what its latest Set since has stored, or without one the entry found, or nothing |
| CachePurges.PurgeTakes | cache/cache.go:147-160 | in every interleaving a purge that is about to remove a key found an entry under it at an earlier step, and takes that entry or nothing if and only if no Set of the key came since, or the latest one stored the same, or what it stored is gone again |
| CachePurges.FreshEntryPurged | cache/cache.go:148-157 | an interleaving in which a purge of old entries removes one that is not old at all |
| CacheInclusion.LargerIncludes | cache/cache.go:94-130 | on the same events the smaller recency list stays a subsequence of the larger one, which holds at most the difference of the limits more |
| CacheInclusion.LargerKeepsHits | cache/cache.go:94-108 | every hit of the smaller cache is a hit of the larger one with the same object |
| CacheRemovals.BytesMayCostHits | cache/cache.go:127-129 | once bytes force evictions the larger cache can miss what the smaller one hits, after one and the same history |
| CacheRemovals.RemovalAddsHitsExactly | cache/cache.go:142-183 | from any state within the limits, some continuation hits after a removal where it misses without it, if and only if the key was stored and there is room for a second entry |
| CacheLoader.Content.Reader | composition/cache_loader.go:64-71 | a wrapped content hands out a new reader over all its bytes every time |
| CacheLoader.CachingContentLoader.LoadOrigin | composition/cache_loader.go:57-62 | the file loader for file URLs, else the HTTP loader, with the content that may come with an error |
| CacheLoader.CachingContentLoader.Load | composition/cache_loader.go:25-55 | whether from the cache or not, a load shows what the origin answers: same error, or same page and same bytes to read; its head has the origin's text if and only if, by their tags, the heads it was merged with left that text alone; after a miss the content goes to the front of the cache if and only if there is no error, the strategy allows it and the body can be read, and otherwise the cache is as the look-up left it |
| CacheLoader.CachingContentLoader.KeptIsFound | composition/cache_loader.go:35-52 | what the strategy allows is found at its hash by a later look-up, the very object handed out; what it refuses is not stored |
| CacheLoader.CachingContentLoader.HitIsHandedOut | composition/cache_loader.go:26-32 | a GET request that may be read from the cache gets the very object stored at its hash, if that is young enough |
| CacheLoader.CachingContentLoader.OthersAreNotAsked | composition/cache_loader.go:26-32 | the cache counts a lookup for these requests and for no other |
| CacheLoader.CachingContentLoader.FilesByScheme | composition/cache_loader.go:57-62 | URLs that begin with the file scheme go to the file loader, all others to the HTTP loader |
| CacheLoader.CachingContentLoader.Merge | composition/content_merge.go:265-276 | a merge of loaded contents rewrites their heads wherever they are held, with what the backward pass makes of them, if and only if some priority is positive, and adds exactly these rewrites to the history |
| CacheLoader.HeadsInOrder | composition/content_merge.go:204-206 | these are the heads of the contents that have one, in the order of the contents |
| CacheService.Serve | composition/cache_loader.go:25-55 | over every sequence of loads, merges, purges and invalidations, every load shows the origin's answer, and its head the origin's text if and only if, by their tags, the heads it was merged with before left it alone; the history holds exactly what the merges rewrote, and every command leaves in the cache what the one before left, changed by this command alone |
| CacheService.ServeOne | composition/cache_loader.go:25-55 | every single command, and what it leaves in the cache |

## Left out

- Strings are sequences of Unicode characters, not of UTF-8 bytes; no byte limit or position depends on the difference except the sizes handed to the cache, which are parameters.
- Integers are unbounded: overflow of the byte count, of sizes and of durations is not modelled.
- HTTP and file loading, service discovery, redirects, request and response headers, gzip, cookies: a load is an arbitrary answer.
- `html.Tokenizer`, JSON decoding, MD5 and `cachecontrol`, `fmt`, `html.EscapeString`, `sort.Sort`, the `simplelru` package: parameters, or (the last one) a recency list written out in `Cache`.
- Include cycles: the code recurses without bound; rendering assumes a rank on the include graph.
- The list of existing fragments inside the error text for a missing one; all other error texts are told apart by kind.
- Statistics, logging, per-entry hit counters, labels beyond being stored, and the periodic purging thread.
- The composition handler except the order in which results reach `AddContent`; contents that do not implement `ContentV2`.
- Agreement of the fetcher's hash (before URL expansion) with the cache key (after it): they differ for URLs with placeholders.
- A factory that returns an error counts as one that has no definition; the parameters of a lazy dependency are not passed on.
- URL expansion in the fetcher is a choice that succeeds or fails, independent of the meta data gathered so far; `FetchSchedule` lets it depend on the hash.
- Cache.Cache.Set: needs a non-negative byte limit, because with a negative one the eviction loop of the original does not end.
- Cache.Cache.PurgeOldEntries: without interference; how other threads interleave with a purge is the subject of `CacheRuns` and `CachePurges`.
- Cache.Cache.PurgeEntries: the same.
- CacheLoader.CachingContentLoader.Load: that the answer depends only on the key is assumed; of a stream whose reading fails only the page, its size and its head are stated. A page is its head object and a value for everything else, which no merge changes.
- ContentMerge.ContentMerge.GetHtml: recursion runs on the values of the fragments, which execution does not change; the include graph with the texts left by the pass has to be ranked.
- TreePruning.HeadForest: for well-nested heads whose meta scripts have an end tag and that hold no element named head. `MisplacedElements` says what these two do; a meta script that closes itself inside another script is covered by `HeadScan` alone, to which the loop is proved equal, as is every token stream that is not well nested.
- PlacedIncludes.IncludeInFragment: of Fprintf without arguments it is assumed that a format comes out as it is if and only if it holds no percent sign, and that what is in front of the first one is copied. For a source with a verb behind text that leaves something open nothing is said about reading back.
- CacheInclusion.LargerIncludes: as long as the byte limit never binds; `CacheRemovals.BytesMayCostHits` shows why.
- SharedHeads.IntactExactly: assumes of the tokens of a text that they cover it, that none is empty and that titles hold text only, as the tokenizer has it.
- CompositionHandler.SurvivorHasTopPriority: for distinct head objects, none of which only repeats later ones; `UniqueExactly` and `DistinctPass` show why. The tags are those written out, not those a browser reads in the result (`HeadFixpoints.TagAppears`).
- Cache.Cache.NewCache: the panic of the original is a missing result.
- HeadDeduplicationLaws.DedupTextsIdempotent: assumes that reading a rewritten head back gives the tokens it was written from, up to joining neighbouring texts; without that it is false (`HeadFixpoints.TagAppears`), and `HeadFixpoints.FixedExactly` says when a pass changes nothing.
- HeadDeduplicationLaws.LastHeadWins: assumes that titles hold no tags, as the tokenizer reads their content as text.
- TreePruning.BodyForest: for well-nested bodies whose fragments have an end tag and no fragment inside, and that hold no element named body. `MisplacedElements` says where such a fragment ends; what is behind it is no forest any more and is covered by `BodyScan`, as is every token stream that is not well nested.
- Templating.ExecuteTemplate: the writer never fails, and writing the empty string changes nothing.
