# genai-playground core, modelled in Dafny

This project models the core of genai-playground. In that system a Spring
Boot backend summarises catalogue items (books, people, movies and other
typed entities) with a language model, and a React frontend browses the
results. The model covers the following parts.

- **Batch summarisation.** One summarisation job per item or per book
  (`AsyncItemProcessor`, `AsyncBookProcessor`), and the batch services that
  resolve the item set and the model configuration and fold the job
  outcomes into a batch response (`AsyncItemSummaryService`,
  `AsyncBookSummaryService`).
- **Collection operations** (`OperationsService`): summarise each member,
  summarise the collection as a whole, and the pairwise relationship pass
  over every pair `i < j` of members.
- **Entities and stores**: the `Item` attribute map and display strings,
  `Prompt` soft-delete versioning, and the summary, item and prompt
  services. Stores are repositories over id-ordered rows.
- **Model plumbing**: model-name normalisation and chat options
  (`AIService`), configuration guards (`ModelService`), chat input
  validation (`ChatService`), the call-logging advisor and the derived
  views of a logged call (`ModelCallRecord`).
- **Graphs**: the Cytoscape node and edge lists and graph statistics
  (`CytoscapeService`).
- **Frontend logic**: the model-call explorer's two-call selection, the
  grouped summaries table, bench prompt assembly, prompt-form validation,
  collection membership mapping, the operation registry, and the list
  updates of the `usePrompts` and `useItems` hooks.

Code that works step by step is modelled as methods with loops. This
covers the relationship pass, the builders and the hooks. Objects the
source updates in place are classes: `Item`, `Prompt`, the repositories,
the explorer, the table and the forms. Expression-level code is modelled
as functions with lemmas about them. The language-model provider, the
clock, batch ids and every network call are parameters or opaque
functions.

Where the project's own description and the code disagree, the code is
followed:

- The relationship pass counts only pairs that finished without an
  exception (`entityPairsProcessed`). The count is n(n-1)/2 only when no
  pair fails.
- An empty item set returns "No items to process" before the configuration
  is looked up. `summarizeEachInCollection`, by contrast, resolves the
  configuration even for an empty collection.
- The rationale summary of an affirmed pair holds the raw model response.
- The book payload template ends with `}I` as written.
- Prompt-form validation accepts a name of exactly 250 characters, as
  written, although its message says "less than 250".
- Bench placeholder substitution replaces in the system text as well as in
  the user text, as written.

## Model

| member | source | states |
|---|---|---|
| Records.PointingAt | backend/src/main/java/net/sampsoftware/genai/repository/RelationshipRepository.java:66-80 | findCollectionMembers and findCollectionDefinition yield exactly the stored relationships of their type ("collection", "collection_definition") whose target is the collection |
| ItemEntity.AttributeValue | backend/src/main/java/net/sampsoftware/genai/model/Item.java:81-108 | getAttribute gives the caller's default when there is no attribute object, no such key, a JSON null or an unsupported class, and otherwise a value of exactly the requested class |
| ItemEntity.WithAttribute | backend/src/main/java/net/sampsoftware/genai/model/Item.java:113-138 | setAttribute creates an empty object when the attributes are null, stores the value's node under the key when the attributes are an object, and leaves a non-object untouched |
| ItemEntity.AttributeRoundTrip | backend/src/main/java/net/sampsoftware/genai/model/Item.java:81-133 | a String, Integer, Long, Double or Boolean set under a key reads back unchanged with its own class |
| ItemEntity.OtherAttributesUnchanged | backend/src/main/java/net/sampsoftware/genai/model/Item.java:118-137 | setting one key leaves what every other key reads as, for every class and default |
| ItemEntity.NullAttributeReadsDefault | backend/src/main/java/net/sampsoftware/genai/model/Item.java:87-123 | setting null stores JSON null, so every typed read of that key gives the default |
| ItemEntity.OtherValueStoredAsText | backend/src/main/java/net/sampsoftware/genai/model/Item.java:134-136 | any other object is stored as its toString() text and reads back as that String |
| ItemEntity.IntegerTextRoundTrip | backend/src/main/java/net/sampsoftware/genai/model/Item.java:92-127 | an Integer read as a String is its decimal text, and that text read as an Integer is the number again |
| ItemEntity.LongReadAsIntegerWraps | backend/src/main/java/net/sampsoftware/genai/model/Item.java:94-129 | a Long read back as an Integer keeps only its low 32 bits (two's complement narrowing) |
| ItemEntity.Item.GetAttribute | backend/src/main/java/net/sampsoftware/genai/model/Item.java:81-108 | the entity's getAttribute gives the default for a missing object or key and for an unsupported class |
| ItemEntity.Item.SetAttribute | backend/src/main/java/net/sampsoftware/genai/model/Item.java:113-138 | only the attribute object changes, and a supported value then reads back with its own class |
| ItemEntity.Item.GetRank | backend/src/main/java/net/sampsoftware/genai/model/Item.java:145-147 | getRank is present only when a non-null "rank" attribute exists, and is that node read as an Integer |
| ItemEntity.Item.SetRank | backend/src/main/java/net/sampsoftware/genai/model/Item.java:149-151 | setRank(r) stores r under "rank" and getRank() then returns r (null included) |
| ItemEntity.Item.GetTextAttribute | backend/src/main/java/net/sampsoftware/genai/model/Item.java:156-228 | getIsbn/getEmail/getOccupation/getImdbId/getDoi/getJournal read their fixed key as text, null when absent |
| ItemEntity.Item.SetTextAttribute | backend/src/main/java/net/sampsoftware/genai/model/Item.java:160-227 | the matching setters store under the same fixed key, and the getter then returns the value set |
| ItemEntity.Item.GetDirector | backend/src/main/java/net/sampsoftware/genai/model/Item.java:200-202 | getDirector is the creator column, not an attribute |
| ItemEntity.Item.SetDirector | backend/src/main/java/net/sampsoftware/genai/model/Item.java:204-206 | setDirector changes the creator column and nothing else |
| ItemEntity.Item.GetDisplayName | backend/src/main/java/net/sampsoftware/genai/model/Item.java:235-240 | a non-blank name is returned as is; a null or blank name gives exactly the capitalised type, " #" and the id in decimal, failing exactly when capitalising fails |
| ItemEntity.FallbackNameInjective | backend/src/main/java/net/sampsoftware/genai/model/Item.java:235-237 | two items of one type without a usable name get the same fallback display name only when their ids are equal |
| ItemEntity.CaptionedPiece | backend/src/main/java/net/sampsoftware/genai/model/Item.java:248-255 | the caption ("By: ", "Year: ") followed by the value, present exactly when the value is non-blank |
| ItemEntity.TypePiece | backend/src/main/java/net/sampsoftware/genai/model/Item.java:257-283 | the rank, occupation or IMDB piece for the lower-cased type, never empty when present |
| ItemEntity.Item.GetDisplayDetails | backend/src/main/java/net/sampsoftware/genai/model/Item.java:245-286 | the details are the present pieces (by, year, type-specific) joined by ", " in that order, or null when none applies |
| ItemEntity.BuildDisplayDetails | backend/src/main/java/net/sampsoftware/genai/model/Item.java:246-285 | the builder loop over the three conditional appends yields exactly that joined text or null |
| ItemEntity.AppendIfPresent | backend/src/main/java/net/sampsoftware/genai/model/Item.java:253-264 | one conditional append adds a present piece after ", " and keeps the builder equal to the pieces joined |
| ItemEntity.AppendAllIsJoin | backend/src/main/java/net/sampsoftware/genai/model/Item.java:253-285 | appending non-empty pieces one by one with ", " between them equals joining them, and is empty iff there is no piece |
| ItemEntity.DetailsTextContainsParts | backend/src/main/java/net/sampsoftware/genai/model/Item.java:285 | the details are null exactly when there is no piece, and otherwise contain every piece |
| ItemEntity.SplitTypeEmptyPart | backend/src/main/java/net/sampsoftware/genai/model/Item.java:291 | split on [_\s]+ yields an empty part exactly when the text starts with a separator and is not all separators |
| ItemEntity.CapitalizeItemType | backend/src/main/java/net/sampsoftware/genai/model/Item.java:288-301 | the part-by-part loop gives "Item" for an empty type, else the capitalised parts joined by spaces, or the exception an empty part raises |
| ItemEntity.CapitalizedTypeFailsIff | backend/src/main/java/net/sampsoftware/genai/model/Item.java:288-298 | capitalizeItemType throws exactly when the type starts with a separator and is not all separators |
| ItemEntity.CapitalizedTypeRoundTrip | backend/src/main/java/net/sampsoftware/genai/model/Item.java:288-300 | a snake_case type such as "ranked_book" capitalises without error ("Ranked Book") and lower-casing with spaces back to '_' gives the type again |
| ItemService.ItemsByTypeListing | backend/src/main/java/net/sampsoftware/genai/service/ItemService.java:30-33 | getItemsByType lists exactly the items of that type, each as often as stored, ordered by name |
| ItemService.KindListings | backend/src/main/java/net/sampsoftware/genai/service/ItemService.java:107-126 | getAllBooks/RankedBooks/People/Movies/Papers list exactly the items whose type is "book", "ranked_book", "person", "movie" or "academic_paper", by name; two different kinds share no item |
| ItemService.UpdatedItem | backend/src/main/java/net/sampsoftware/genai/service/ItemService.java:50-57 | the saved row takes the incoming name, description, creator, year, external id, source and attributes and keeps the stored id and type |
| ItemService.UpdateItem | backend/src/main/java/net/sampsoftware/genai/service/ItemService.java:46-62 | an unknown id raises "Item not found" and saves nothing; otherwise the stored row is replaced in place by the updated row (or the store's refusal is reported with nothing changed) |
| ItemService.UpdatedRowInPlace | backend/src/main/java/net/sampsoftware/genai/service/ItemService.java:48-59 | after a successful update the table has the same size, the id finds the new row and every other row is still there |
| ItemService.DeleteItem | backend/src/main/java/net/sampsoftware/genai/service/ItemService.java:64-70 | an unknown id raises and deletes nothing; otherwise exactly the row with that id is removed |
| SummaryService.SimpleDtoKeeps | backend/src/main/java/net/sampsoftware/genai/service/SummaryService.java:93-101 | toSimpleDto copies id, entityId, entityType, content and createdAt and depends on nothing else |
| SummaryService.UpdatedSummary | backend/src/main/java/net/sampsoftware/genai/service/SummaryService.java:70-79 | the saved row takes the incoming name, subject, content and configuration, keeps the stored attributes when the incoming ones are null, and keeps id, batch and creation time |
| SummaryService.Update | backend/src/main/java/net/sampsoftware/genai/service/SummaryService.java:64-82 | an unknown id raises ResourceNotFoundException and saves nothing; otherwise the stored row is replaced in place and the short record of the saved row is returned |
| SummaryService.UpdateReportsIncoming | backend/src/main/java/net/sampsoftware/genai/service/SummaryService.java:70-81 | a successful update reports the stored id and creation time with the incoming subject and content |
| SummaryService.Delete | backend/src/main/java/net/sampsoftware/genai/service/SummaryService.java:84-90 | an unknown id raises and deletes nothing; otherwise exactly that summary's row is removed |
| SummaryService.DetailedSummariesListing | backend/src/main/java/net/sampsoftware/genai/service/SummaryService.java:56-61 | the detailed listing holds one record per summary that has a model configuration, newest first, and no other record |
| PromptEntity.Prompt.Build | backend/src/main/java/net/sampsoftware/genai/service/PromptService.java:84-88 | a built prompt carries the given name, text and type, no id, no timestamps and is not deleted |
| PromptEntity.Prompt.MarkDeleted | backend/src/main/java/net/sampsoftware/genai/model/Prompt.java:50-56 | markDeleted sets only the deletion date, after which isDeleted() holds |
| PromptEntity.Prompt.OnCreate | backend/src/main/java/net/sampsoftware/genai/model/Prompt.java:38-43 | onCreate sets createdAt and updatedAt to the same instant and nothing else |
| PromptEntity.Prompt.OnUpdate | backend/src/main/java/net/sampsoftware/genai/model/Prompt.java:45-48 | onUpdate changes only updatedAt |
| PromptEntity.MarkedDeletedIsInactive | backend/src/main/java/net/sampsoftware/genai/model/Prompt.java:50-56 | a prompt with a deletion date is no longer active, and its name, text and type are kept |
| PromptService.ListingRows | backend/src/main/java/net/sampsoftware/genai/repository/PromptRepository.java:18-31 | each active listing is ordered newest first and holds each selected row once per occurrence and no other |
| PromptService.NameSearchLiteral | backend/src/main/java/net/sampsoftware/genai/repository/PromptRepository.java:30 | a search term without '%', '_' or a backslash selects exactly the active prompts whose lower-cased name contains the lower-cased term |
| PromptService.UnderscoreMatchesAnyChar | backend/src/main/java/net/sampsoftware/genai/repository/PromptRepository.java:30 | '_' in the term is a LIKE wildcard: the term "a_b" selects an active prompt named "axb", although "axb" does not contain "a_b" |
| PromptService.NullTermFindsNothing | backend/src/main/java/net/sampsoftware/genai/repository/PromptRepository.java:30 | a null term makes the pattern null, so the search returns nothing |
| PromptService.PercentEndedParses | backend/src/main/java/net/sampsoftware/genai/repository/PromptRepository.java:30 | the pattern CONCAT('%', term, '%') is never rejected for ending in a lone escape character |
| PromptService.RunThen | backend/src/main/java/net/sampsoftware/genai/repository/PromptRepository.java:30 | a leading '%' lets the rest of the pattern match at any position of the name |
| PromptService.LiteralsPrefix | backend/src/main/java/net/sampsoftware/genai/repository/PromptRepository.java:30 | literal characters followed by '%' match exactly the names they begin |
| PromptService.LiteralsThen | backend/src/main/java/net/sampsoftware/genai/repository/PromptRepository.java:30 | a text without special characters reads as one literal token per character |
| PromptService.DtosOf | backend/src/main/java/net/sampsoftware/genai/service/PromptService.java:172-183 | convertToDto maps a list row by row, and rows that are active give records flagged not deleted |
| PromptService.ListingContents | backend/src/main/java/net/sampsoftware/genai/service/PromptService.java:30-72 | getAllActivePrompts, getActivePromptsByType and searchActivePrompts return the record of every selected active prompt and of no other, newest first |
| PromptService.DeletedHiddenButReadable | backend/src/main/java/net/sampsoftware/genai/service/PromptService.java:38-72 | a soft-deleted prompt is in none of the active, by-type or name-search listings, yet getPromptById still returns it |
| PromptService.UnknownIdNotFound | backend/src/main/java/net/sampsoftware/genai/service/PromptService.java:42-46 | getPromptById of an unknown id fails with not-found |
| PromptService.CreatePrompt | backend/src/main/java/net/sampsoftware/genai/service/PromptService.java:77-94 | an unknown type id raises and saves nothing; otherwise exactly one new active prompt with the requested name, text and type is appended and returned |
| PromptService.CreatedIsListed | backend/src/main/java/net/sampsoftware/genai/service/PromptService.java:84-93 | a created prompt is in the active listing, which grows by exactly one |
| PromptService.UpdatePrompt | backend/src/main/java/net/sampsoftware/genai/service/PromptService.java:103-136 | an unknown id, an already-deleted prompt or an unknown type id raises with the store unchanged; otherwise the old row is retired in place and one new version is appended and returned |
| PromptService.Supersede | backend/src/main/java/net/sampsoftware/genai/service/PromptService.java:120-135 | the writes of a permitted update: retire and save the old prompt, then insert the new version, undoing the retirement when the insert fails |
| PromptService.UpdateKeepsActiveCount | backend/src/main/java/net/sampsoftware/genai/service/PromptService.java:120-135 | after a successful update the new version is listed and the number of active prompts is unchanged |
| PromptService.UpdateRetiresOld | backend/src/main/java/net/sampsoftware/genai/service/PromptService.java:120-135 | after a successful update the old id names only the retired prompt, which getPromptById still returns |
| PromptService.DeletePrompt | backend/src/main/java/net/sampsoftware/genai/service/PromptService.java:141-156 | an unknown id raises; an already-deleted prompt is left as it is; otherwise only that prompt is marked deleted |
| PromptService.DeleteRetiresOne | backend/src/main/java/net/sampsoftware/genai/service/PromptService.java:153-154 | deleting an active prompt removes it from the active listing, which shrinks by exactly one |
| AiService.ConvertToApiModelName | backend/src/main/java/net/sampsoftware/genai/service/AIService.java:101-127 | convertToApiModelName never returns an upper-case letter |
| AiService.KnownNameAnyCase | backend/src/main/java/net/sampsoftware/genai/service/AIService.java:106-116 | the five known display names match case-insensitively: spellings that upper-case alike give the same id, the name's lower-cased form |
| AiService.OtherNameHyphenated | backend/src/main/java/net/sampsoftware/genai/service/AIService.java:117-125 | a name neither known nor matching ^gpt-<digit> keeps its length and has every space and underscore replaced |
| AiService.ConvertGivesApiModelName | backend/src/main/java/net/sampsoftware/genai/service/AIService.java:101-126 | every converted name is lower-case and is a known id, an API-shaped id or free of spaces and underscores |
| AiService.ConvertIdempotent | backend/src/main/java/net/sampsoftware/genai/service/AIService.java:101-126 | converting a converted name again gives it back unchanged (the fallback "gpt-3.5-turbo" included) |
| AiService.ParamOption | backend/src/main/java/net/sampsoftware/genai/service/AIService.java:75-93 | a sampling parameter is taken exactly when the parameter object has its key |
| AiService.BuildChatOptions | backend/src/main/java/net/sampsoftware/genai/service/AIService.java:57-96 | a null configuration or parameter object gives empty options; otherwise the model id is the converted model name when one is named, and each of temperature, top_p, max_tokens, frequency_penalty, presence_penalty is set iff its key is present; the result is the value ChatOptionsOf gives for the configuration |
| AiService.GenerateResponse | backend/src/main/java/net/sampsoftware/genai/service/AIService.java:23-55 | exactly one request goes to the chat model, carrying the system and user prompts and exactly the options buildChatOptions gives for the configuration (ChatOptionsOf; none for a null configuration); its text, possibly null, is returned and a provider failure comes back wrapped |
| AiService.ReplyResult | backend/src/main/java/net/sampsoftware/genai/service/AIService.java:49-54 | a provider exception becomes a wrapped RuntimeException; a reply's text, null included, is passed through |
| ModelService.FindConfigurationById | backend/src/main/java/net/sampsoftware/genai/service/ModelService.java:33-49 | a null or non-positive id raises ValidationException; a positive absent id raises ModelNotFoundException; a found id returns exactly its configuration |
| ModelService.InvalidIdIgnoresStore | backend/src/main/java/net/sampsoftware/genai/service/ModelService.java:36-38 | an invalid id fails identically whatever the store holds: the store is not consulted |
| ModelService.TryOpenAiModel | backend/src/main/java/net/sampsoftware/genai/service/ModelService.java:106-133 | a null or blank id is unusable without probing; otherwise usable exactly when the probe succeeds (a failing probe gives false, never an exception) |
| ModelService.NonNullIds | backend/src/main/java/net/sampsoftware/genai/service/ModelService.java:78-81 | the listed ids that are not null, in listing order |
| ModelService.UsableIds | backend/src/main/java/net/sampsoftware/genai/service/ModelService.java:85-93 | the ids whose probe succeeds, in listing order |
| ModelService.ProbeEach | backend/src/main/java/net/sampsoftware/genai/service/ModelService.java:85-93 | the loop keeps exactly the ids the probe accepts, in listing order |
| ModelService.GetUsableOpenAiModels | backend/src/main/java/net/sampsoftware/genai/service/ModelService.java:52-104 | a failed, empty or data-less listing raises ModelApiException with its message; otherwise the loop returns, in order, exactly the non-null ids whose probe succeeds |
| ChatService.ChatRefusal | backend/src/main/java/net/sampsoftware/genai/service/ChatService.java:15-26 | null content fails at the length read (so the null branch of the guard never fires); blank content gives "Chat content cannot be empty"; more than 10000 characters is too long; everything else passes |
| ChatService.LengthLimitInclusive | backend/src/main/java/net/sampsoftware/genai/service/ChatService.java:23-26 | content of exactly 10000 characters is accepted and one more character is refused |
| ChatService.ChatReply | backend/src/main/java/net/sampsoftware/genai/service/ChatService.java:32-40 | the model's text is returned unchanged; a null text fails at the length read; a model failure propagates unchanged |
| ChatService.Chat | backend/src/main/java/net/sampsoftware/genai/service/ChatService.java:15-41 | refused content raises before any model call; otherwise exactly one request with the content as user message, no system message and no configuration, and its reply is returned |
| ModelCallRecord.ErrorOnlyWhenUnsuccessful | backend/src/main/java/net/sampsoftware/genai/dto/ModelCallRecord.java:41-82 | wasSuccessful holds iff success is set and true; a successful call never has an error; otherwise hasError holds iff an error message or error class is recorded |
| ModelCallRecord.ModelDisplayName | backend/src/main/java/net/sampsoftware/genai/dto/ModelCallRecord.java:68-75 | "name (provider)" when both are set, else the model name, else the provider, else "Unknown Model" |
| ModelCallRecord.MillisecondsReadBack | backend/src/main/java/net/sampsoftware/genai/dto/ModelCallRecord.java:48-50 | under a second the text is the duration's decimal digits followed by "ms", and those digits read back as the duration |
| ModelCallRecord.SecondsRounded | backend/src/main/java/net/sampsoftware/genai/dto/ModelCallRecord.java:51 | from a second on, the text is seconds with two decimals, the shown hundredths being the duration rounded half up |
| ModelCallRecord.BreakdownShowsTimes | backend/src/main/java/net/sampsoftware/genai/dto/ModelCallRecord.java:57-63 | the breakdown opens with "Total: " exactly when both the API and the processing time are known; otherwise it is the formatted duration alone |
| ModelCallRecord.DurationNotTotal | backend/src/main/java/net/sampsoftware/genai/dto/ModelCallRecord.java:48-52 | a formatted duration (milliseconds, seconds or "Unknown") never opens with "Total: " |
| ModelCallRecord.BreakdownReadsBack | backend/src/main/java/net/sampsoftware/genai/dto/ModelCallRecord.java:57-63 | when both times are present the breakdown reads back: equal breakdowns mean equal total text, equal API time and equal processing time |
| ModelCallRecord.UsageParts | backend/src/main/java/net/sampsoftware/genai/dto/ModelCallRecord.java:87-101 | no usage gives no part, and there are never more than three parts |
| ModelCallRecord.AppendPart | backend/src/main/java/net/sampsoftware/genai/dto/ModelCallRecord.java:94-101 | one guarded append adds a part only when its key is present, after ", " unless the summary is still empty |
| ModelCallRecord.TokenUsageSummary | backend/src/main/java/net/sampsoftware/genai/dto/ModelCallRecord.java:87-104 | the builder yields null when no part applies, and otherwise the present Prompt, Completion and Total parts joined by ", " in that order |
| ModelCallRecord.UsageSummaryAbsent | backend/src/main/java/net/sampsoftware/genai/dto/ModelCallRecord.java:87-103 | the summary is null exactly when there is no usage or none of the three keys, and a present prompt count comes first |
| CallLoggingAdvisor.BuildPromptText | backend/src/main/java/net/sampsoftware/genai/advisor/ModelCallLoggingAdvisor.java:141-153 | null exactly when the prompt or its instructions are null |
| CallLoggingAdvisor.MessageTypeUpper | backend/src/main/java/net/sampsoftware/genai/advisor/ModelCallLoggingAdvisor.java:148-149 | a message's type label has no lower-case letter |
| CallLoggingAdvisor.PromptTextAppend | backend/src/main/java/net/sampsoftware/genai/advisor/ModelCallLoggingAdvisor.java:146-152 | the prompt text has one "TYPE: text" line per message, joined by line breaks |
| CallLoggingAdvisor.DetermineProviderIsFirst | backend/src/main/java/net/sampsoftware/genai/advisor/ModelCallLoggingAdvisor.java:340-347 | determineProvider equals the reference "first contained provider of openai, ollama, anthropic, azure, else unknown" |
| CallLoggingAdvisor.FirstProviderHit | backend/src/main/java/net/sampsoftware/genai/advisor/ModelCallLoggingAdvisor.java:340-347 | the reference definition picks a provider exactly when the name contains it and no earlier one, and "unknown" exactly when it contains none |
| CallLoggingAdvisor.ProviderIsFirstHit | backend/src/main/java/net/sampsoftware/genai/advisor/ModelCallLoggingAdvisor.java:340-347 | the provider is the first of "openai", "ollama", "anthropic", "azure" the lower-cased class name contains, and "unknown" iff it contains none |
| CallLoggingAdvisor.StackTraceLines | backend/src/main/java/net/sampsoftware/genai/advisor/ModelCallLoggingAdvisor.java:373-378 | the stack-trace text has one line per frame for the first ten frames, so at most ten lines |
| CallLoggingAdvisor.ExtractPrompt | backend/src/main/java/net/sampsoftware/genai/advisor/ModelCallLoggingAdvisor.java:359-365 | the first Prompt-typed argument, or null exactly when there is none |
| CallLoggingAdvisor.ResponseText | backend/src/main/java/net/sampsoftware/genai/advisor/ModelCallLoggingAdvisor.java:329-338 | the first generation's text, null when there are no generations |
| CallLoggingAdvisor.RequestContext | backend/src/main/java/net/sampsoftware/genai/advisor/ModelCallLoggingAdvisor.java:349-357 | "unknown" when no stack frame belongs to the service package, otherwise a simple class name without dots |
| CallLoggingAdvisor.RequestContextFirstService | backend/src/main/java/net/sampsoftware/genai/advisor/ModelCallLoggingAdvisor.java:351-354 | the context is the simple name of the first service-package frame on the stack |
| CallLoggingAdvisor.LogModelCall | backend/src/main/java/net/sampsoftware/genai/advisor/ModelCallLoggingAdvisor.java:37-136 | the intercepted call's result is returned, or its throwable rethrown, unchanged; a returned call saves one success record with processing = total - API time; an Exception saves one failure record with API time 0; no configuration is ever extracted |
| CallLoggingAdvisor.LoggedCallsRead | backend/src/main/java/net/sampsoftware/genai/advisor/ModelCallLoggingAdvisor.java:89-127 | the saved success record reads as successful with no error and API + processing = total; the failure record reads as an error with all time counted as processing |
| ItemProcessor.ItemInfoNodeFields | backend/src/main/java/net/sampsoftware/genai/service/AsyncItemProcessor.java:90-99 | the node holds exactly id, name and type, plus the attributes key exactly when the item has an attributes object, each with the item's own value |
| ItemProcessor.ItemInfoCases | backend/src/main/java/net/sampsoftware/genai/service/AsyncItemProcessor.java:87-123 | the info is the pretty-printed node when printing succeeds; otherwise it is the plain-text block, which opens with the item's id line and closes with its attributes line |
| ItemProcessor.BuildItemInfo | backend/src/main/java/net/sampsoftware/genai/service/AsyncItemProcessor.java:87-123 | filling the node field by field and writing it gives exactly ItemInfo |
| ItemProcessor.FallbackLines | backend/src/main/java/net/sampsoftware/genai/service/AsyncItemProcessor.java:105-121 | the fallback block opens with the "Item Details" and id lines and closes with the attributes line, which reads "none" for an item without attributes |
| ItemProcessor.ProcessItemAsync | backend/src/main/java/net/sampsoftware/genai/service/AsyncItemProcessor.java:33-82 | one chat request with the system prompt and the item info; the outcome succeeds exactly when the reply to that request has text and the store accepts the summary holding that text, stamped with the next id, which then ends the table and is reported as (true, item id, new id, null); a thrown reply is reported wrapped, a null text as NullPointerException, a refused save with the store's error, and nothing is saved; the item id is always reported and the next id moves on only on success |
| ItemProcessor.ItemRow | backend/src/main/java/net/sampsoftware/genai/service/AsyncItemProcessor.java:57-65 | the saved summary carries the new id, the item's id and the reply text as its content |
| BookProcessor.BookInfoShape | backend/src/main/java/net/sampsoftware/genai/service/AsyncBookProcessor.java:31-43 | the payload opens with the title line carrying the title unescaped and closes with the empty blurb and the stray 'I' after the brace |
| BookProcessor.ProcessBookAsync | backend/src/main/java/net/sampsoftware/genai/service/AsyncBookProcessor.java:23-72 | one chat request with the system prompt and the book payload; the answer is true exactly when the reply to that request has text and the table accepts the "ranked_book" summary holding that text, stamped with the next id, which then ends the table; otherwise false and nothing saved; the next id moves on only on success |
| BookProcessor.BookRow | backend/src/main/java/net/sampsoftware/genai/service/AsyncBookProcessor.java:57-65 | the saved summary carries the new id, the book's id and the reply text as its summary |
| ItemBatch.BuildSystemPrompt | backend/src/main/java/net/sampsoftware/genai/service/AsyncItemSummaryService.java:146-161 | a prompt with a non-blank character is used verbatim, a null or blank one gives the default prompt; the result is never blank |
| ItemBatch.SelectAllItems | backend/src/main/java/net/sampsoftware/genai/service/AsyncItemSummaryService.java:40-43 | a null or empty type list selects every stored item; otherwise exactly the stored items whose type is listed |
| ItemBatch.FindAllById | backend/src/main/java/net/sampsoftware/genai/service/AsyncItemSummaryService.java:60 | exactly the stored items whose id is requested; a requested id not stored yields nothing |
| ItemBatch.MemberItemIds | backend/src/main/java/net/sampsoftware/genai/service/AsyncItemSummaryService.java:82-86 | one id per collection-member relationship, its source item id, in relationship order |
| ItemBatch.SelectCollectionItemsMembers | backend/src/main/java/net/sampsoftware/genai/service/AsyncItemSummaryService.java:81-88 | an item is selected exactly when it is stored and a collection relationship from it targets the collection |
| ItemBatch.Successful | backend/src/main/java/net/sampsoftware/genai/service/AsyncItemSummaryService.java:127-129 | the successful outcomes, as many as the success count, and exactly the outcomes that succeeded |
| ItemBatch.SummaryIdsOf | backend/src/main/java/net/sampsoftware/genai/service/AsyncItemSummaryService.java:127-130 | one summary id per success, taken from the successful outcomes in order |
| ItemBatch.AggregateCounts | backend/src/main/java/net/sampsoftware/genai/service/AsyncItemSummaryService.java:127-140 | successes plus failures equal the number of tasks, one summary id per success, the message reports those counts; no null id when each success carries its id |
| ItemBatch.SuccessfulSnoc | backend/src/main/java/net/sampsoftware/genai/service/AsyncItemSummaryService.java:127-132 | one more outcome adds itself and one to the count exactly when it succeeded |
| ItemBatch.TwoSuccesses | backend/src/main/java/net/sampsoftware/genai/service/AsyncItemSummaryService.java:112-140 | two items whose replies both carry text and whose summaries the store both accepts give 2 succeeded, 0 failed and the two new ids in order, and the table gains exactly the two summaries holding the reply texts, in item order |
| ItemBatch.FailureThenSuccess | backend/src/main/java/net/sampsoftware/genai/service/AsyncItemSummaryService.java:112-140 | a first item without an accepted text reply and a second with one give 1 succeeded, 1 failed and the one new id, and the table gains only the second item's summary holding its reply text |
| ItemBatch.TwoSuccessesAggregate | backend/src/main/java/net/sampsoftware/genai/service/AsyncItemSummaryService.java:127-140 | two successful outcomes fold to 2 succeeded, 0 failed, both ids and the matching message |
| ItemBatch.FailureThenSuccessAggregate | backend/src/main/java/net/sampsoftware/genai/service/AsyncItemSummaryService.java:127-140 | a failed then a successful outcome fold to 1 succeeded, 1 failed, the one id and the matching message |
| ItemBatch.ItemSucceedsIff | backend/src/main/java/net/sampsoftware/genai/service/AsyncItemSummaryService.java:112-130 | in a completed batch, item k's request carries the built prompt and its info, its outcome succeeds exactly when reply k has text and the store accepts its summary at the next id after the earlier successes, and then that id is the response's j-th summary id and the summary the table's j-th new row, j counting the earlier successes |
| ItemBatch.TaskAt | backend/src/main/java/net/sampsoftware/genai/service/AsyncItemSummaryService.java:112-124 | task k fits reply k and the id the table gives after the earlier successes |
| ItemBatch.AttemptAt | backend/src/main/java/net/sampsoftware/genai/service/AsyncItemSummaryService.java:112-124 | the id item k's summary was to get is the one the table gives after the earlier tasks |
| ItemBatch.NextAfterCounts | backend/src/main/java/net/sampsoftware/genai/service/AsyncItemSummaryService.java:112-124 | the table's next id has moved on by exactly the number of successes |
| ItemBatch.OutcomesStep | backend/src/main/java/net/sampsoftware/genai/service/AsyncItemSummaryService.java:112-124 | one more outcome for the next item keeps every outcome matched to its item |
| ItemBatch.RequestsStep | backend/src/main/java/net/sampsoftware/genai/service/AsyncItemSummaryService.java:112-119 | one more request for the next item keeps one request per item, in item order |
| ItemBatch.TaskStep | backend/src/main/java/net/sampsoftware/genai/service/AsyncItemSummaryService.java:112-124 | one more task keeps requests, outcomes and saved rows in step with the items processed so far |
| ItemBatch.SavedStep | backend/src/main/java/net/sampsoftware/genai/service/AsyncItemSummaryService.java:112-130 | one more outcome keeps one new summary row per success, carrying its id, the batch id and the configuration |
| ItemBatch.BatchAccounting | backend/src/main/java/net/sampsoftware/genai/service/AsyncItemSummaryService.java:96-141 | a completed batch sends one request per item, its counts add up to the items, it adds one summary per success, and the reported ids are the new rows' ids in order, each with the batch id and the resolved configuration |
| ItemBatch.ProcessItems | backend/src/main/java/net/sampsoftware/genai/service/AsyncItemSummaryService.java:96-141 | no items: zero counts, no ids, "No items to process" and no request; otherwise an unresolvable configuration is an error, else every item is processed with the built system prompt, the outcomes aggregated, and each outcome tied to its own reply and to whether the store accepted its summary |
| ItemBatch.RunTasks | backend/src/main/java/net/sampsoftware/genai/service/AsyncItemSummaryService.java:112-124 | every item gets its task in order with the same prompt, configuration and batch id; requests, outcomes and rows stay in step, and outcome k succeeds exactly when reply k has text and the store accepts its summary at the next id, which it then holds |
| ItemBatch.RunTask | backend/src/main/java/net/sampsoftware/genai/service/AsyncItemSummaryService.java:112-124 | task k extends what the earlier tasks did by one request, one outcome fitting its reply and at most one row |
| ItemBatch.LongIdsOfSelection | backend/src/main/java/net/sampsoftware/genai/service/AsyncItemSummaryService.java:40-43 | a selection from stored items keeps their long ids |
| ItemBatch.GenerateSummariesForAllItems | backend/src/main/java/net/sampsoftware/genai/service/AsyncItemSummaryService.java:31-46 | processes exactly the all-items or by-type selection; each outcome is tied to its own reply and to the store's acceptance of its summary, as ProcessItems states |
| ItemBatch.GenerateSummariesForItems | backend/src/main/java/net/sampsoftware/genai/service/AsyncItemSummaryService.java:51-67 | processes exactly the stored items with the requested ids, a shortfall being only logged; each outcome is tied to its own reply and to the store's acceptance of its summary, as ProcessItems states |
| ItemBatch.GenerateSummariesForCollection | backend/src/main/java/net/sampsoftware/genai/service/AsyncItemSummaryService.java:72-91 | processes exactly the stored members of the collection; each outcome is tied to its own reply and to the store's acceptance of its summary, as ProcessItems states |
| BookBatch.SucceededBooks | backend/src/main/java/net/sampsoftware/genai/service/AsyncBookSummaryService.java:58-61 | as many books as true outcomes, each one of the batch's books |
| BookBatch.BookRequestStep | backend/src/main/java/net/sampsoftware/genai/service/AsyncBookSummaryService.java:48-56 | one more request for the next book keeps one request per book, in book order |
| BookBatch.SucceededBooksSnoc | backend/src/main/java/net/sampsoftware/genai/service/AsyncBookSummaryService.java:58-61 | one more outcome adds its book to the successes exactly when it is true |
| BookBatch.BookRowStep | backend/src/main/java/net/sampsoftware/genai/service/AsyncBookSummaryService.java:48-61 | one more outcome keeps one saved "ranked_book" row per successful book |
| BookBatch.BookTaskStep | backend/src/main/java/net/sampsoftware/genai/service/AsyncBookSummaryService.java:48-61 | one more book task keeps requests, outcomes and rows in step with the books processed so far |
| BookBatch.RunBookTasks | backend/src/main/java/net/sampsoftware/genai/service/AsyncBookSummaryService.java:48-61 | every book gets its task in order with the fixed system prompt, the configuration and the batch id; book k's outcome is true exactly when reply k has text and the table accepts its summary at the next id, which it then holds |
| BookBatch.RunBookTask | backend/src/main/java/net/sampsoftware/genai/service/AsyncBookSummaryService.java:48-56 | task k extends what the earlier tasks did by one request, one outcome fitting its reply and at most one row |
| BookBatch.BookSucceedsIff | backend/src/main/java/net/sampsoftware/genai/service/AsyncBookSummaryService.java:48-61 | in a batch that ran, book k's request carries the fixed prompt and its payload, and its outcome is true exactly when reply k has text and the table accepts the summary holding it at the next id after the earlier successes, that summary then being the table's j-th new row |
| BookBatch.BookTaskAt | backend/src/main/java/net/sampsoftware/genai/service/AsyncBookSummaryService.java:48-56 | task k fits reply k and the id the table gives after the earlier successes |
| BookBatch.NextAfterCounts | backend/src/main/java/net/sampsoftware/genai/service/AsyncBookSummaryService.java:48-56 | the table's next id has moved on by exactly the number of successes |
| BookBatch.GenerateResponse | backend/src/main/java/net/sampsoftware/genai/service/AsyncBookSummaryService.java:27-67 | resolves the configuration (an error when it cannot), runs every book's task with each outcome tied to its own reply and the table's acceptance, and reports "Successfully processed S of N in batch B"; the prompt text is ignored |
| BookBatch.BookBatchCounts | backend/src/main/java/net/sampsoftware/genai/service/AsyncBookSummaryService.java:58-66 | the count lies between 0 and the number of books, one request per book and one new row per success, all of them "ranked_book" rows of this batch for one of its books |
| Operations.EntityInfoDeterminesId | backend/src/main/java/net/sampsoftware/genai/service/OperationsService.java:255-259 | two entities of the same type get the same info line exactly when their ids are equal |
| Operations.FirstQuotedType | backend/src/main/java/net/sampsoftware/genai/service/OperationsService.java:278-282 | the index found is the first type whose quoted form occurs in the reply, or the list length when none occurs |
| Operations.RelationshipTypeIn | backend/src/main/java/net/sampsoftware/genai/service/OperationsService.java:276-284 | an empty type list fails with IndexOutOfBoundsException; otherwise the result is a listed type, quoted in the reply whenever some listed type is, and the first listed type otherwise |
| Operations.ExtractRelationshipType | backend/src/main/java/net/sampsoftware/genai/service/OperationsService.java:276-284 | the loop that stops at the first quoted type returns exactly RelationshipTypeIn |
| Operations.MemberLinesSnoc | backend/src/main/java/net/sampsoftware/genai/service/OperationsService.java:269-271 | one more member appends exactly its "- type id" line |
| Operations.BuildCollectionContext | backend/src/main/java/net/sampsoftware/genai/service/OperationsService.java:261-274 | the context is the name, description and count header followed by the member lines |
| Operations.AppendMemberLines | backend/src/main/java/net/sampsoftware/genai/service/OperationsService.java:269-271 | the loop appends one line per member, in member order |
| Operations.MemberLinesHaveEveryMember | backend/src/main/java/net/sampsoftware/genai/service/OperationsService.java:269-271 | every member's line occurs in the member lines |
| Operations.CollectionContextShape | backend/src/main/java/net/sampsoftware/genai/service/OperationsService.java:261-274 | the context starts with the header counting the members and contains every member's line |
| Operations.Row | backend/src/main/java/net/sampsoftware/genai/service/OperationsService.java:192 | one inner-loop pass yields hi - lo pairs, none when hi <= lo |
| Operations.RowMembers | backend/src/main/java/net/sampsoftware/genai/service/OperationsService.java:192-194 | one inner-loop pass visits exactly (i, j) for lo <= j < hi, in increasing order |
| Operations.PairsBeforeMembers | backend/src/main/java/net/sampsoftware/genai/service/OperationsService.java:191-194 | after i outer passes exactly the pairs with first index below i and a larger second index have been visited |
| Operations.PairsBeforeOrdered | backend/src/main/java/net/sampsoftware/genai/service/OperationsService.java:191-194 | the pairs are visited in lexicographic order |
| Operations.PairsBeforeLength | backend/src/main/java/net/sampsoftware/genai/service/OperationsService.java:191-194 | after i outer passes i·(2n − i − 1)/2 pairs have been visited |
| Operations.PairsEnumeration | backend/src/main/java/net/sampsoftware/genai/service/OperationsService.java:191-194 | the nested loop visits exactly the pairs i < j < n, each once: n·(n − 1)/2 of them, no member paired with itself |
| Operations.MemberRequests | backend/src/main/java/net/sampsoftware/genai/service/OperationsService.java:63-98 | one request per member task |
| Operations.MembersOf | backend/src/main/java/net/sampsoftware/genai/service/OperationsService.java:63-98 | one member per member task |
| Operations.Answers | backend/src/main/java/net/sampsoftware/genai/service/OperationsService.java:68-91 | one answer per member task |
| Operations.SummarizeMember | backend/src/main/java/net/sampsoftware/genai/service/OperationsService.java:68-91 | one chat request with the entity info; once the provider answers, with a text or with null, the summary "Summary of type id" about the member, holding that content, the batch id and the configuration, is saved under the store's next id exactly when the store accepts it, and the member then counts as a success with that id; a provider exception or a refused save counts as a failure and saves nothing |
| Operations.MemberStep | backend/src/main/java/net/sampsoftware/genai/service/OperationsService.java:63-98 | one more member task keeps requests, answers, ids and rows in step with the members processed |
| Operations.RunMemberTasks | backend/src/main/java/net/sampsoftware/genai/service/OperationsService.java:63-103 | every member gets its task in order, each evaluated as SummarizeMember states against the store's acceptance of its row; the answers and saved ids are those of the tasks |
| Operations.SummarizeEachInCollection | backend/src/main/java/net/sampsoftware/genai/service/OperationsService.java:44-110 | an unresolvable configuration fails before any request; otherwise every collection member is summarised as SummarizeMember states, a member's summary being saved exactly when the provider answered and the store accepted the row, and the counts and ids are reported |
| Operations.MemberRowsMatchIds | backend/src/main/java/net/sampsoftware/genai/service/OperationsService.java:81-84 | the new rows are one per true answer, with exactly the reported ids, each with the batch id and configuration and about a member |
| Operations.SourceIds | backend/src/main/java/net/sampsoftware/genai/service/OperationsService.java:66 | one entity id per member |
| Operations.MembersSummarizedRows | backend/src/main/java/net/sampsoftware/genai/service/OperationsService.java:63-109 | one request per member, one new row per success, earlier rows untouched, each new row with its reported id, the batch id and configuration; a success is a task whose reply arrived and whose row the store accepted |
| Operations.EachAccounting | backend/src/main/java/net/sampsoftware/genai/service/OperationsService.java:101-109 | successes plus failures equal the members, one summary id and one new summary per success |
| Operations.MemberSucceedsIff | backend/src/main/java/net/sampsoftware/genai/service/OperationsService.java:68-91 | member k was sent its own entity info, and counts as a success exactly when the provider did not throw on that request and the store accepts its summary, which holds the reply text, or null when there was none |
| OperationsGroup.SummarizeCollection | backend/src/main/java/net/sampsoftware/genai/service/OperationsService.java:112-160 | a missing collection definition fails before any model call; otherwise an unresolvable configuration fails, else one request with the collection context; after a reply the summary and the "summarizes" link are both saved, under the stores' next ids, exactly when both stores accept their rows, and otherwise neither table changes |
| OperationsGroup.SaveGroupSummary | backend/src/main/java/net/sampsoftware/genai/service/OperationsService.java:139-159 | a refused summary, or a refused link after it, raises with both tables as they were; when both stores accept, the summary and the link from it to the collection are appended under the next ids and the result carries the new summary id, the collection id and the member count |
| OperationsGroup.GroupSummaryEffects | backend/src/main/java/net/sampsoftware/genai/service/OperationsService.java:112-160 | no definition means no model call; at most one call; a failure changes neither table; a success adds one summary about the collection with the reported id and one "summarizes" link from it to the collection, and reports the member count |
| OperationsGroup.GroupSavedIffAccepted | backend/src/main/java/net/sampsoftware/genai/service/OperationsService.java:112-160 | summarizeCollection succeeds exactly when the definition exists, the configuration resolves, the model replies and both stores accept their rows, and then reports the summary's id |
| OperationsPairs.Tally | backend/src/main/java/net/sampsoftware/genai/service/OperationsService.java:190-245 | one pair and one request recorded per evaluated pair |
| OperationsPairs.AnsweredAt | backend/src/main/java/net/sampsoftware/genai/service/OperationsService.java:191-207 | each evaluated pair's outcome fits the reply its own request got |
| OperationsPairs.EvaluatePair | backend/src/main/java/net/sampsoftware/genai/service/OperationsService.java:196-243 | one request per pair, evaluated as HandleResponse states with the ids the tables give next; the ids returned are those of the rows saved for it, and the tables grow by exactly those rows |
| OperationsPairs.HandleResponse | backend/src/main/java/net/sampsoftware/genai/service/OperationsService.java:207-238 | a reply containing the affirmative marker with a type found saves the relationship from the earlier to the later entity exactly when the relationship store accepts it, then its analysis summary exactly when the summary store accepts that; a reply without the marker finishes the pair with nothing saved; an exception or a null text leaves the pair unprocessed with nothing saved; the pair finishes when nothing was to be saved or both rows were |
| OperationsPairs.SavePair | backend/src/main/java/net/sampsoftware/genai/service/OperationsService.java:211-236 | the relationship from the first entity to the second is saved under the next id exactly when its store accepts it; then a "relationship" summary about that id, holding the reply, exactly when its store accepts it; a refused save keeps what was saved before it |
| OperationsPairs.PairStep | backend/src/main/java/net/sampsoftware/genai/service/OperationsService.java:191-245 | one more evaluated pair keeps requests, tables and tally in step |
| OperationsPairs.TallyStep | backend/src/main/java/net/sampsoftware/genai/service/OperationsService.java:192-245 | the loop's id lists and counter after one more pair are the tally's |
| OperationsPairs.NextPair | backend/src/main/java/net/sampsoftware/genai/service/OperationsService.java:192-244 | one inner-loop turn evaluates pair (i, j) and advances the tally by it |
| OperationsPairs.RunRow | backend/src/main/java/net/sampsoftware/genai/service/OperationsService.java:192-244 | the inner loop evaluates exactly the pairs (i, j) for i < j < n, in order |
| OperationsPairs.RunPairs | backend/src/main/java/net/sampsoftware/genai/service/OperationsService.java:191-245 | the nested loops evaluate exactly the pairs i < j < n in order, and the lists and counter returned are the tally of their outcomes |
| OperationsPairs.GenerateRelationships | backend/src/main/java/net/sampsoftware/genai/service/OperationsService.java:162-253 | the members are read, the configuration resolved and the prompt built, then every pair evaluated and the tally reported |
| OperationsPairs.TallyIsConsistent | backend/src/main/java/net/sampsoftware/genai/service/OperationsService.java:222-238 | reported ids are the written rows' ids in order, at most one summary per relationship, each relationship from an earlier member to a later one, each summary about a listed relationship, and no more pairs processed than evaluated |
| OperationsPairs.FitsShapesSaves | backend/src/main/java/net/sampsoftware/genai/service/OperationsService.java:211-236 | an outcome as the pair loop produces it saves rows of the right shape |
| OperationsPairs.AnsweredShapesSaves | backend/src/main/java/net/sampsoftware/genai/service/OperationsService.java:191-245 | every evaluated pair saves rows of the right shape |
| OperationsPairs.GeneratedRelationshipsAccounting | backend/src/main/java/net/sampsoftware/genai/service/OperationsService.java:162-253 | an unresolved configuration changes and sends nothing; otherwise n·(n − 1)/2 requests, the relationship count equals the ids reported, no more summaries than relationships, the tables grow by exactly the reported rows, each relationship links an earlier member to a later one and each summary is about a new relationship |
| OperationsPairs.PairReplyAccounting | backend/src/main/java/net/sampsoftware/genai/service/OperationsService.java:207-243 | against its reply, a pair without the marker finishes with nothing saved; no text or an exception leaves it unfinished with nothing saved; the relationship is saved exactly when the reply affirms, a type is found and the store accepts the row; the summary exactly when the relationship was saved and its store accepts it, which finishes the pair |
| OperationsPairs.PairAnswered | backend/src/main/java/net/sampsoftware/genai/service/OperationsService.java:191-243 | pair k of the call is the k-th pair of the nested loop, sent as request k and evaluated against the reply to it |
| OperationsPairs.PairSavesReported | backend/src/main/java/net/sampsoftware/genai/service/OperationsService.java:222-235 | whatever pair k saved is in the tables and its ids are in the result |
| OperationsPairs.PairSavedIffAccepted | backend/src/main/java/net/sampsoftware/genai/service/OperationsService.java:191-245 | pair k is saved, processed and reported exactly when its reply affirms, a type is found and both stores accept the rows; a reply without the marker counts the pair with nothing saved |
| CytoscapeGraph.Hyphenate | backend/src/main/java/net/sampsoftware/genai/service/CytoscapeService.java:271 | no whitespace is left, and only the empty name hyphenates to the empty string |
| CytoscapeGraph.ModelNodeIdPlain | backend/src/main/java/net/sampsoftware/genai/service/CytoscapeService.java:271 | a model node id has no whitespace and no upper-case letter |
| CytoscapeGraph.ModelNames | backend/src/main/java/net/sampsoftware/genai/service/CytoscapeService.java:266-268 | the groups' model names: each once, exactly the names some summary carries |
| CytoscapeGraph.AppendEach | backend/src/main/java/net/sampsoftware/genai/service/CytoscapeService.java:226-236 | the node and edge loops append one element per input, in input order |
| CytoscapeGraph.AppendEachPair | backend/src/main/java/net/sampsoftware/genai/service/CytoscapeService.java:239-263 | the summary loop appends one node and one edge per summary, in order |
| CytoscapeGraph.ModelStep | backend/src/main/java/net/sampsoftware/genai/service/CytoscapeService.java:266-296 | one more group adds its model node and edges only when it holds more than one summary |
| CytoscapeGraph.AddModelElements | backend/src/main/java/net/sampsoftware/genai/service/CytoscapeService.java:266-296 | the forEach over groups appends exactly the model nodes and generated-by edges of the shared groups |
| CytoscapeGraph.BuildItemsSummariesGraph | backend/src/main/java/net/sampsoftware/genai/service/CytoscapeService.java:221-300 | the builder yields exactly the items-summaries graph, failing with NullPointerException when a summary has no model name |
| CytoscapeGraph.BuildItemsRelationshipsGraph | backend/src/main/java/net/sampsoftware/genai/service/CytoscapeService.java:305-340 | the builder yields exactly the items-relationships graph |
| CytoscapeGraph.BuildComprehensiveGraph | backend/src/main/java/net/sampsoftware/genai/service/CytoscapeService.java:345-405 | the builder yields exactly the comprehensive graph |
| CytoscapeGraph.ItemNodeIdsDistinct | backend/src/main/java/net/sampsoftware/genai/service/CytoscapeService.java:229 | items with distinct ids get nodes with distinct ids |
| CytoscapeGraph.ModelNodesOfGroups | backend/src/main/java/net/sampsoftware/genai/service/CytoscapeService.java:266-296 | a model node exists exactly for each group of more than one summary |
| CytoscapeGraph.ModelNodeIffShared | backend/src/main/java/net/sampsoftware/genai/service/CytoscapeService.java:266-281 | a model gets a node exactly when more than one summary names it |
| CytoscapeGraph.SharedGroupCounted | backend/src/main/java/net/sampsoftware/genai/service/CytoscapeService.java:267-269 | a group of more than one stands for a name more than one summary carries |
| CytoscapeGraph.CountedGroupShared | backend/src/main/java/net/sampsoftware/genai/service/CytoscapeService.java:267-269 | a name carried by more than one summary has a group of more than one |
| CytoscapeGraph.EdgeOfGroup | backend/src/main/java/net/sampsoftware/genai/service/CytoscapeService.java:283-294 | each summary of a shared group has its generated-by edge |
| CytoscapeGraph.EarlierEdgesKept | backend/src/main/java/net/sampsoftware/genai/service/CytoscapeService.java:266-296 | later groups keep the edges of earlier ones |
| CytoscapeGraph.LastGroupEdge | backend/src/main/java/net/sampsoftware/genai/service/CytoscapeService.java:283-294 | each member of the last group, when shared, has its edge |
| CytoscapeGraph.EdgeOfMember | backend/src/main/java/net/sampsoftware/genai/service/CytoscapeService.java:283-294 | each member of a group has its generated-by edge among the group's edges |
| CytoscapeGraph.ModelEdgesGeneratedBy | backend/src/main/java/net/sampsoftware/genai/service/CytoscapeService.java:286-292 | every model edge is labelled generated-by and runs from the node of a summary to the node of the model of a group of more than one that the summary belongs to |
| CytoscapeGraph.SharedSummaryLinked | backend/src/main/java/net/sampsoftware/genai/service/CytoscapeService.java:266-296 | a summary whose model name another summary shares has a generated-by edge to that model's node |
| CytoscapeGraph.ComprehensiveShape | backend/src/main/java/net/sampsoftware/genai/service/CytoscapeService.java:345-405 | one node per item and per summary, one edge per summary and per relationship, no model node |
| CytoscapeGraph.RelationshipGraphShape | backend/src/main/java/net/sampsoftware/genai/service/CytoscapeService.java:305-340 | the nodes are the items in order and the edges the relationships in order |
| CytoscapeService.ItemNodeOf | backend/src/main/java/net/sampsoftware/genai/service/CytoscapeService.java:226-236 | a selected item has its node in the graph |
| CytoscapeService.SummarizesEdgeFromItem | backend/src/main/java/net/sampsoftware/genai/service/CytoscapeService.java:239-262 | a summary of a selected item has its "summarizes" edge start at that item's node |
| CytoscapeService.SummariesGraphAnchored | backend/src/main/java/net/sampsoftware/genai/service/CytoscapeService.java:33-53 | every "summarizes" edge of the summaries graph starts at an emitted item node |
| CytoscapeService.SummariesOfSelected | backend/src/main/java/net/sampsoftware/genai/service/CytoscapeService.java:45-48 | a detailed summary is kept exactly when its item id is one of the selected ids: every kept summary is of a selected item, and every summary of a selected item is kept |
| CytoscapeService.SummaryViewsAnchored | backend/src/main/java/net/sampsoftware/genai/service/CytoscapeService.java:33-53 | in the items-summaries view (lines 33-53) and in the summaries variant of the item-types view (lines 100-124) every "summarizes" edge starts at an item node of the same graph |
| CytoscapeService.CollectionViewContents | backend/src/main/java/net/sampsoftware/genai/service/CytoscapeService.java:73-95 | the collection view's nodes are the stored members' items, and its edges exactly the non-membership relationships between members |
| CytoscapeService.MapMembers | backend/src/main/java/net/sampsoftware/genai/service/CytoscapeService.java:38-40 | an element is in the mapped list exactly when it is the image of an element of the list |
| CytoscapeService.ItemNodeInjective | backend/src/main/java/net/sampsoftware/genai/service/CytoscapeService.java:226-236 | different items give different nodes |
| CytoscapeService.ItemTypesViewContents | backend/src/main/java/net/sampsoftware/genai/service/CytoscapeService.java:100-124 | with relationships, the item-types view has a node for exactly the stored items of the listed types, its id list is exactly their ids, every relationship whose two ends are among them gives an edge, and every edge comes from such a relationship |
| CytoscapeService.ModelViewContents | backend/src/main/java/net/sampsoftware/genai/service/CytoscapeService.java:129-147 | the model view fails exactly when one of the model's summaries has no model name; otherwise its summary nodes are exactly the model's detailed summaries and its item nodes exactly the stored items one of those summaries is about |
| CytoscapeService.ViewSummaryNodes | backend/src/main/java/net/sampsoftware/genai/service/CytoscapeService.java:139-146 | the summary nodes of a summaries graph are exactly the nodes of its summaries |
| CytoscapeService.ViewItemNodes | backend/src/main/java/net/sampsoftware/genai/service/CytoscapeService.java:139-146 | the item nodes of a summaries graph are exactly the nodes of its items |
| CytoscapeService.SelectedIds | backend/src/main/java/net/sampsoftware/genai/service/CytoscapeService.java:103-105 | the id list of the item-types view is exactly the ids of the stored items of the listed types |
| CytoscapeService.ModelViewItemNode | backend/src/main/java/net/sampsoftware/genai/service/CytoscapeService.java:139-146 | an item node of the model view belongs to a selected item |
| CytoscapeService.ModelNodesDetailFree | backend/src/main/java/net/sampsoftware/genai/service/CytoscapeService.java:273-280 | model nodes carry no details |
| CytoscapeService.ComprehensiveItemsBound | backend/src/main/java/net/sampsoftware/genai/service/CytoscapeService.java:152-168 | a negative page size (or zero when untyped) fails; otherwise at most maxItems items, all of the listed types when typed, else a prefix of the table |
| CytoscapeService.ComprehensiveItemNodesBound | backend/src/main/java/net/sampsoftware/genai/service/CytoscapeService.java:152-183 | the comprehensive graph never has more than maxItems item nodes |
| CytoscapeService.BumpKeys | backend/src/main/java/net/sampsoftware/genai/service/CytoscapeService.java:206-207 | counting one more item adds its type as a key only when new |
| CytoscapeService.BumpDistinct | backend/src/main/java/net/sampsoftware/genai/service/CytoscapeService.java:206-207 | counting keeps the type keys distinct |
| CytoscapeService.BumpTotal | backend/src/main/java/net/sampsoftware/genai/service/CytoscapeService.java:206-207 | counting one more item adds one to the total |
| CytoscapeService.BumpCountFor | backend/src/main/java/net/sampsoftware/genai/service/CytoscapeService.java:206-207 | counting an item adds one to its type's count and leaves the others |
| CytoscapeService.TypeCountsCorrect | backend/src/main/java/net/sampsoftware/genai/service/CytoscapeService.java:206-211 | one entry per occurring type, each type once, each count the items of that type, summing to the number of items |
| CytoscapeService.EntryCount | backend/src/main/java/net/sampsoftware/genai/service/CytoscapeService.java:209-211 | with distinct keys an entry's count is the count of its type |
| CytoscapeService.TypeCountEntries | backend/src/main/java/net/sampsoftware/genai/service/CytoscapeService.java:209-211 | each entry counts the items of its type, at least one |
| CytoscapeService.StatsConsistent | backend/src/main/java/net/sampsoftware/genai/service/CytoscapeService.java:195-214 | type counts sum to the item total, each entry counts its type, the summary total counts detailed summaries and the collection total the definitions |
| CallExplorer.Without | frontend/app/components/models/ModelCallExplorer.tsx:567 | deleting an id keeps every other id, keeps the ids distinct, and changes nothing when the id is absent |
| CallExplorer.With | frontend/app/components/models/ModelCallExplorer.tsx:565 | adding an id keeps every id held and adds only that one, still distinct |
| CallExplorer.SelectionBounded | frontend/app/components/models/ModelCallExplorer.tsx:555-571 | a selection change keeps at most two distinct ids; checking holds the call and no new other id, evicting the older of two unless it is the call; unchecking removes exactly that call |
| CallExplorer.ReselectHeld | frontend/app/components/models/ModelCallExplorer.tsx:558-565 | with a then b held, checking b again keeps just b, checking a again gives b then a |
| CallExplorer.FirstTwoIds | frontend/app/components/models/ModelCallExplorer.tsx:713-714 | the header checkbox selects exactly the ids of the first two listed calls, a valid selection |
| CallExplorer.PagesClamped | frontend/app/components/models/ModelCallExplorer.tsx:792-800 | Previous and Next keep the page within [0, totalPages − 1], each moving by one unless at that end, and Next then Previous returns to the page |
| CallExplorer.Explorer.constructor | frontend/app/components/models/ModelCallExplorer.tsx:490-500 | no calls, no selection, comparison hidden, page 0 of 0, loading and no error |
| CallExplorer.Explorer.Loaded | frontend/app/components/models/ModelCallExplorer.tsx:506-543 | a plain list is one page, a page brings its own count; loading ends with no error; selection, comparison and page are kept |
| CallExplorer.Explorer.LoadFailed | frontend/app/components/models/ModelCallExplorer.tsx:506-543 | a failed load keeps the calls, page count, selection, comparison and page, shows the caught error's text and ends loading |
| CallExplorer.Explorer.HandleCallSelection | frontend/app/components/models/ModelCallExplorer.tsx:555-571 | the selection becomes Selecting of the old one; nothing else changes |
| CallExplorer.Explorer.SelectedCallsData | frontend/app/components/models/ModelCallExplorer.tsx:573-575 | exactly the loaded calls whose id is selected, in table order |
| CallExplorer.Explorer.ComparisonShowsSelection | frontend/app/components/models/ModelCallExplorer.tsx:676-680 | a comparison opened on two differently numbered loaded calls shows exactly the two selected calls |
| CallExplorer.Explorer.OpenComparison | frontend/app/components/models/ModelCallExplorer.tsx:676-680 | the comparison is shown; nothing else changes |
| CallExplorer.Explorer.ClearSelection | frontend/app/components/models/ModelCallExplorer.tsx:577-580 | nothing selected, comparison hidden, Compare unavailable; calls and page kept |
| CallExplorer.Explorer.ToggleAll | frontend/app/components/models/ModelCallExplorer.tsx:710-718 | checking selects the first two listed calls, unchecking clears the selection |
| CallExplorer.Explorer.PreviousPage | frontend/app/components/models/ModelCallExplorer.tsx:792-793 | the page becomes PageBefore of the old page; nothing else changes |
| CallExplorer.Explorer.NextPage | frontend/app/components/models/ModelCallExplorer.tsx:799-800 | the page becomes PageAfter of the old page; nothing else changes |
| CallExplorer.FormatDuration | frontend/app/components/models/ModelCallExplorer.tsx:549-553 | "N/A" exactly for a missing or zero duration, seconds with two decimals exactly from 1000 ms on |
| CallExplorer.MillisecondsShown | frontend/app/components/models/ModelCallExplorer.tsx:549-553 | between 1 and 999 ms the text is the number followed by "ms" and reads back as the duration |
| GroupedSummaries.IndexOfItem | frontend/app/components/summaries/GroupedSummariesTable.tsx:43 | the index found holds a group of the item; none found means no group has that item |
| GroupedSummaries.GroupedData | frontend/app/components/summaries/GroupedSummariesTable.tsx:39-62 | the groups are built summary by summary and then sorted by item name |
| GroupedSummaries.KeepGroup | frontend/app/components/summaries/GroupedSummariesTable.tsx:42-56 | a summary of another item leaves a group as it is |
| GroupedSummaries.GrowGroup | frontend/app/components/summaries/GroupedSummariesTable.tsx:53-55 | a summary of the group's item joins the end of its list and the count follows |
| GroupedSummaries.OpenGroup | frontend/app/components/summaries/GroupedSummariesTable.tsx:43-51 | an item's first summary opens a group holding just it, with its name and details |
| GroupedSummaries.AddNewItem | frontend/app/components/summaries/GroupedSummariesTable.tsx:43-55 | a summary of an item without a group adds a group of its own |
| GroupedSummaries.AddNewCovers | frontend/app/components/summaries/GroupedSummariesTable.tsx:43-55 | after a new group every summary seen has its item's group |
| GroupedSummaries.AddKnownItem | frontend/app/components/summaries/GroupedSummariesTable.tsx:53-55 | a summary of an item with a group joins the end of that group |
| GroupedSummaries.AddKnownCovers | frontend/app/components/summaries/GroupedSummariesTable.tsx:53-55 | after joining a group every summary seen still has its item's group |
| GroupedSummaries.GroupsAreGroupsOf | frontend/app/components/summaries/GroupedSummariesTable.tsx:42-56 | the forEach builds exactly the groups of the summaries it has seen |
| GroupedSummaries.TotalCountSnoc | frontend/app/components/summaries/GroupedSummariesTable.tsx:55 | appending a group adds its count to the total |
| GroupedSummaries.TotalCountUpdate | frontend/app/components/summaries/GroupedSummariesTable.tsx:55 | replacing a group changes the total by the difference of counts |
| GroupedSummaries.GroupsTotal | frontend/app/components/summaries/GroupedSummariesTable.tsx:42-56 | every summary is counted once: the counts sum to the number of summaries |
| GroupedSummaries.TotalCountInsert | frontend/app/components/summaries/GroupedSummariesTable.tsx:59-61 | inserting a group in order adds its count to the total |
| GroupedSummaries.TotalCountSorted | frontend/app/components/summaries/GroupedSummariesTable.tsx:59-61 | sorting keeps the total |
| GroupedSummaries.ByItemNameTotal | frontend/app/components/summaries/GroupedSummariesTable.tsx:59-61 | the item-name comparison orders any two groups one way or the other |
| GroupedSummaries.GroupedDataCorrect | frontend/app/components/summaries/GroupedSummariesTable.tsx:39-62 | one group per distinct item, ordered by name, each listing its item's summaries in input order with the matching count and the first summary's name and details; counts sum to the summaries |
| GroupedSummaries.InsertKeepsIdsDistinct | frontend/app/components/summaries/GroupedSummariesTable.tsx:59-61 | inserting a group for a new item keeps item ids distinct |
| GroupedSummaries.SortKeepsIdsDistinct | frontend/app/components/summaries/GroupedSummariesTable.tsx:59-61 | sorting keeps item ids distinct |
| GroupedSummaries.ToggleFlipsOne | frontend/app/components/summaries/GroupedSummariesTable.tsx:64-72 | toggling flips exactly that id, and toggling twice restores the set |
| GroupedSummaries.GroupedSummariesTable.constructor | frontend/app/components/summaries/GroupedSummariesTable.tsx:36 | nothing is expanded at first |
| GroupedSummaries.GroupedSummariesTable.ToggleExpanded | frontend/app/components/summaries/GroupedSummariesTable.tsx:64-72 | the expanded set becomes the toggled set |
| GroupedSummaries.GroupedSummariesTable.ExpandAll | frontend/app/components/summaries/GroupedSummariesTable.tsx:74-76 | exactly the shown groups' items are expanded |
| GroupedSummaries.GroupedSummariesTable.CollapseAll | frontend/app/components/summaries/GroupedSummariesTable.tsx:78-80 | nothing is expanded |
| GroupedSummaries.GroupIdsAreSummaryItems | frontend/app/components/summaries/GroupedSummariesTable.tsx:42-56 | the group ids are exactly the summaries' item ids |
| GroupedSummaries.SortedGroupIds | frontend/app/components/summaries/GroupedSummariesTable.tsx:59-61 | sorting keeps the set of group ids |
| GroupedSummaries.ExpandAllIsSummaryItems | frontend/app/components/summaries/GroupedSummariesTable.tsx:74-76 | expanding all opens exactly the items that have summaries |
| GroupedSummaries.TruncateText | frontend/app/components/summaries/GroupedSummariesTable.tsx:103-106 | texts within the limit are unchanged, longer ones are cut to the limit and "..." appended |
| GroupedSummaries.TruncateBounded | frontend/app/components/summaries/GroupedSummariesTable.tsx:103-106 | a truncated text is at most the limit plus three long, and a cut text keeps the first limit characters and ends in "..." |
| GroupedSummaries.FormatConfigInfo | frontend/app/components/summaries/GroupedSummariesTable.tsx:86-101 | the text is empty exactly when no part is present |
| GroupedSummaries.ConfigInfoEmpty | frontend/app/components/summaries/GroupedSummariesTable.tsx:86-101 | the text is empty exactly when there is no config or none of temperature, max_tokens and top_p is defined |
| GroupedSummaries.ConfigInfoTemperatureFirst | frontend/app/components/summaries/GroupedSummariesTable.tsx:90-92 | a defined temperature comes first, right after the opening parenthesis |
| GroupedSummaries.ConfigInfoAllThree | frontend/app/components/summaries/GroupedSummariesTable.tsx:86-101 | with all three keys the text is "(temp=…, tokens=…, top_p=…)" |
| GroupedSummaries.WholeDoubleShownAsInteger | frontend/app/components/summaries/GroupedSummariesTable.tsx:90-98 | a whole-valued double the backend writes as "5.0" or "1.0E7" shows in the template literal like the integer itself, up to 2^53 |
| JsNumber.WholeNumberText | frontend/app/components/summaries/GroupedSummariesTable.tsx:91 | Java's Double.toString text of a whole number below 10^21 in magnitude, read and printed by Number::toString, is the number's plain digits |
| JsNumber.NonZeroWholeText | frontend/app/components/summaries/GroupedSummariesTable.tsx:91 | the same for a non-zero whole number |
| JsNumber.ZeroText | frontend/app/components/summaries/GroupedSummariesTable.tsx:91 | Java's "0.0" prints as 0 |
| JsNumber.SmallNumberText | frontend/app/components/summaries/GroupedSummariesTable.tsx:91 | Java's "c.0E-n" prints as "0.", n - 1 zeros and c for n up to 6 ("1.0E-5" as 0.00001) |
| JsNumber.SmallNumberRead | frontend/app/components/summaries/GroupedSummariesTable.tsx:91 | "c.0E-n" reads as the digit c with the point n - 1 places before it |
| JsNumber.SignRead | frontend/app/components/summaries/GroupedSummariesTable.tsx:91 | a leading '-' makes the number negative and leaves the rest to be read unsigned |
| JsNumber.ShortWholeDigits | frontend/app/components/summaries/GroupedSummariesTable.tsx:91 | below ten million, "123.0" reads as the number's digits with the point after them |
| JsNumber.LongWholeDigits | frontend/app/components/summaries/GroupedSummariesTable.tsx:91 | from ten million on, "1.2345678E7" reads as the number's digits with the point after them |
| JsNumber.LongParts | frontend/app/components/summaries/GroupedSummariesTable.tsx:91 | "d.fffE(n)" splits into the first digit, the fraction and the exponent n |
| JsNumber.WholeLayout | frontend/app/components/summaries/GroupedSummariesTable.tsx:91 | digits read with the point after all of them are printed as those digits, with a '-' for a negative number |
| GroupedSummaries.JoinThree | frontend/app/components/summaries/GroupedSummariesTable.tsx:100 | joining three parts puts the separator between them |
| GroupedSummaries.JoinStartsWithFirst | frontend/app/components/summaries/GroupedSummariesTable.tsx:100 | a join starts with its first part |
| BenchPanel.CloseFound | frontend/app/components/bench/BenchPanel.tsx:163 | what is found is the first '}' from the index on, and when nothing is found there is no '}' there |
| BenchPanel.CloseUnique | frontend/app/components/bench/BenchPanel.tsx:163 | the first '}' from the index on is what is found |
| BenchPanel.PlainSubstitution | frontend/app/components/bench/BenchPanel.tsx:163 | a replacement without '$' is inserted as it is (String.prototype.replace's GetSubstitution) |
| BenchPanel.MatchLengthMeans | frontend/app/components/bench/BenchPanel.tsx:163 | a match of /\{[^}]*\}/ starts exactly at a '{' with a '}' after it, and runs to the first such '}' with none inside |
| BenchPanel.MatchStep | frontend/app/components/bench/BenchPanel.tsx:163 | at a match, the replacement is the GetSubstitution expansion of the content, with the matched text, the text before and the text after, followed by the replacement of the rest |
| BenchPanel.PlainStep | frontend/app/components/bench/BenchPanel.tsx:163 | a character that starts no match is kept, followed by the replacement of the rest |
| BenchPanel.PlainKept | frontend/app/components/bench/BenchPanel.tsx:163 | text without '{' is kept as it is |
| BenchPanel.NoPlaceholderUnchanged | frontend/app/components/bench/BenchPanel.tsx:163 | a text without '{' is left as it is |
| BenchPanel.PlainPrefixKept | frontend/app/components/bench/BenchPanel.tsx:163 | text before the first '{' is kept as it is |
| BenchPanel.BeforeIrrelevant | frontend/app/components/bench/BenchPanel.tsx:163 | for content without '$' the text before a match does not change the replacement |
| BenchPanel.ClosingBrace | frontend/app/components/bench/BenchPanel.tsx:163 | "{name}", with no '}' in the name, is itself the match at its start |
| BenchPanel.PlaceholderExpanded | frontend/app/components/bench/BenchPanel.tsx:163 | a placeholder "{name}" after text without '{' is replaced by the content with "$$", "$&", "$`" and "$'" expanded against the placeholder, the text before and the text after it |
| BenchPanel.PlaceholderReplaced | frontend/app/components/bench/BenchPanel.tsx:163 | for content without '$', a placeholder "{name}" is replaced by the content itself, whatever the name holds other than '}', and the rest is replaced on its own |
| BenchPanel.DollarAmpersandKeepsPlaceholder | frontend/app/components/bench/BenchPanel.tsx:163 | the content "$&" puts the placeholder itself back |
| BenchPanel.DoubleDollarCollapses | frontend/app/components/bench/BenchPanel.tsx:163 | "$$" in the content stands for one '$' |
| BenchPanel.ReplaceOneBrace | frontend/app/components/bench/BenchPanel.tsx:163 | a text that is one placeholder becomes one expansion of the content |
| BenchPanel.DollarAmpersandAppended | frontend/app/components/bench/BenchPanel.tsx:160-168 | with content "$&" the template "{x}" stays "{x}", does not contain the content, and so gets the content appended after a blank line |
| BenchPanel.BuildFinalPrompt | frontend/app/components/bench/BenchPanel.tsx:148-176 | the prompt built step by step is exactly FinalPrompt |
| BenchPanel.AssemblePrompt | frontend/app/components/bench/BenchPanel.tsx:149-173 | the steps before the final trim give exactly Assembled |
| BenchPanel.AssembledHoldsContent | frontend/app/components/bench/BenchPanel.tsx:157-173 | non-empty content occurs in the assembled prompt |
| BenchPanel.ContentAlwaysSent | frontend/app/components/bench/BenchPanel.tsx:148-176 | non-blank content always reaches the model: its trimmed form occurs in the final prompt, with a template or without |
| BenchPanel.SystemHeadShape | frontend/app/components/bench/BenchPanel.tsx:152-154 | the tagged system text opens with '<', closes with '>' and has a '{' only if the text has |
| BenchPanel.TrimKeepsHead | frontend/app/components/bench/BenchPanel.tsx:175 | trimming keeps a head that begins and ends with a visible character |
| BenchPanel.AssembledOpensWithSystem | frontend/app/components/bench/BenchPanel.tsx:152-173 | a system text without '{' opens the assembled prompt with its tagged block |
| BenchPanel.SystemBlockFirst | frontend/app/components/bench/BenchPanel.tsx:148-176 | a selected system prompt without braces opens the final prompt with "<system>\n" + text + "\n</system>" |
| BenchPanel.NothingToSend | frontend/app/components/bench/BenchPanel.tsx:170-175 | with no prompt selected and blank content the final prompt is empty |
| BenchPanel.ContentOnlyPrompt | frontend/app/components/bench/BenchPanel.tsx:170-175 | with no prompt selected the final prompt is the trimmed content alone |
| BenchPanel.Bench.constructor | frontend/app/components/bench/BenchPanel.tsx:21-32 | nothing selected, empty content, not loading, no response, no error, nothing sent |
| BenchPanel.Bench.CallModel | frontend/app/components/bench/BenchPanel.tsx:178-263 | without a configuration (none or 0) or with an empty prompt it records the error and sends nothing; otherwise it sends the final prompt once and shows the answer, its error, or the failure's message, and stops loading; the selections are kept |
| BenchPanel.Bench.Send | frontend/app/components/bench/BenchPanel.tsx:190-261 | the last result is cleared, the prompt sent once with the configuration, and the outcome shown with loading stopped |
| BenchPanel.Bench.Receive | frontend/app/components/bench/BenchPanel.tsx:198-262 | the outcome is shown and loading stops; answered metadata is kept unless it is absent or falsy, which shows as none; the selections and the sent log are kept |
| BenchPanel.MetadataOrNull | frontend/app/components/bench/BenchPanel.tsx:202 | metadata is kept exactly when present and not falsy (null, false, 0, NaN, ""), and is then unchanged |
| BenchPanel.Bench.ResetForm | frontend/app/components/bench/BenchPanel.tsx:265-273 | prompts, content, response, details, metadata and error are cleared; the configuration stays |
| PromptForm.KeysDistinct | frontend/app/components/prompts/PromptForm.tsx:67-80 | each input's name, which is also its error key, belongs to that input alone |
| PromptForm.FirstTypeId | frontend/app/components/prompts/PromptForm.tsx:25 | the first type's id when there is a type with a non-zero id, otherwise 1; never 0 |
| PromptForm.Errors | frontend/app/components/prompts/PromptForm.tsx:46-62 | a name error exactly for a blank name (required) or one over 250 characters (too long), a text error exactly for a blank text, a type error exactly for a zero or NaN type id, and no other key |
| PromptForm.ValidIff | frontend/app/components/prompts/PromptForm.tsx:46-65 | the form validates exactly for a non-blank name of at most 250 characters, a non-blank text and a truthy type id |
| PromptForm.NameOf250Passes | frontend/app/components/prompts/PromptForm.tsx:51-52 | a name of exactly 250 characters passes although the message says "less than 250"; one more character fails with that message |
| PromptForm.DigitValue | frontend/app/components/prompts/PromptForm.tsx:71 | a decimal digit's value is below 10, any digit's below 16 |
| PromptForm.LeadingDigits | frontend/app/components/prompts/PromptForm.tsx:71 | parseInt reads exactly the leading run of digits |
| PromptForm.RunValueOfNatToString | frontend/app/components/prompts/PromptForm.tsx:71 | the digits of a number's decimal rendering read back as the number |
| PromptForm.AllDigitsLead | frontend/app/components/prompts/PromptForm.tsx:71 | a decimal rendering is one whole run of digits |
| PromptForm.UnsignedRoundTrip | frontend/app/components/prompts/PromptForm.tsx:71 | an unsigned decimal rendering parses back to the number |
| PromptForm.ParseIntRoundTrip | frontend/app/components/prompts/PromptForm.tsx:71 | parseInt reads an integer's decimal rendering back as that integer |
| PromptForm.ParseIntNoDigits | frontend/app/components/prompts/PromptForm.tsx:71 | text with no digit where the number should start is NaN |
| PromptForm.TrimsToNothing | frontend/app/components/prompts/PromptForm.tsx:49 | the check `!text.trim()` answers true exactly when every character of the text is JavaScript white space |
| PromptForm.Form.constructor | frontend/app/components/prompts/PromptForm.tsx:22-27 | the form starts empty with the first type's id and no errors |
| PromptForm.Form.Load | frontend/app/components/prompts/PromptForm.tsx:29-44 | an edited prompt is loaded, otherwise the form is reset with the first type's id; errors are cleared |
| PromptForm.Form.ValidateForm | frontend/app/components/prompts/PromptForm.tsx:46-65 | the errors become exactly Errors of the data, and the answer is whether it is valid |
| PromptForm.Form.HandleInputChange | frontend/app/components/prompts/PromptForm.tsx:67-81 | the value goes into its field (parsed for the type id); that field's error is blanked if set and every other error stays |
| PromptForm.Form.HandleSubmit | frontend/app/components/prompts/PromptForm.tsx:83-95 | the data is submitted exactly when it validates; the errors are those of the data |
| PromptForm.EditClearsOnlyThatError | frontend/app/components/prompts/PromptForm.tsx:74-80 | after an edit the edited field shows no error and other fields' errors are kept |
| PromptForm.SelectingTypeStoresId | frontend/app/components/prompts/PromptForm.tsx:71 | choosing a type in the select stores exactly that type's id |
| CollectionsApi.ToDefinition | frontend/app/lib/api/collections.ts:44-49 | the collection id is the relationship's target, with its name, description and curator |
| CollectionsApi.DefinitionsFollowRelationships | frontend/app/lib/api/collections.ts:39-50 | one definition per relationship, in order, each naming the relationship's target |
| CollectionsApi.ToEntity | frontend/app/lib/api/collections.ts:65-71 | the entity carries the relationship id, its source as the item and its name, and no details yet |
| CollectionsApi.MembersAreMemberRelationships | frontend/app/lib/api/collections.ts:52-71 | one member per "collection" relationship targeting the collection, each from such a relationship with its source as the item |
| CollectionsApi.FailedLookupKeepsMember | frontend/app/lib/api/collections.ts:74-90 | a failed fetch keeps the member unchanged; a fetch changes at most its name and details |
| CollectionsApi.MemberOrderTotal | frontend/app/lib/api/collections.ts:93-98 | the sort comparison orders any two members one way or the other |
| CollectionsApi.EntitiesSorted | frontend/app/lib/api/collections.ts:52-99 | every fetched member appears exactly once and neighbours are ordered by position when both have one, by name otherwise |
| CollectionsApi.AllPositionedAscending | frontend/app/lib/api/collections.ts:93-96 | when every member has a position the listing ascends by position throughout |
| CollectionsApi.FindDefinition | frontend/app/lib/api/collections.ts:103 | none exactly when no definition has the id; otherwise the first definition with that id |
| CollectionsApi.WithEntitiesFailsIffUnknown | frontend/app/lib/api/collections.ts:101-115 | fails exactly when no definition targets the collection, else returns its definition and sorted members |
| CollectionsApi.CreatedDefinitionReadsBack | frontend/app/lib/api/collections.ts:117-153 | the definition relationship starts and ends at the new collection item and reads back as the returned definition |
| CollectionsApi.AddedItemBecomesMember | frontend/app/lib/api/collections.ts:155-172 | once stored the posted relationship adds exactly one member, the item, last, with the given position |
| CollectionsApi.MemberAppended | frontend/app/lib/api/collections.ts:59-71 | a member relationship appended at the end adds its member last |
| CollectionsApi.PositionStored | frontend/app/lib/api/collections.ts:165-168 | the posted position reads back as the member's position |
| CollectionsApi.RelationshipToDelete | frontend/app/lib/api/collections.ts:183-187 | none exactly when no relationship makes the item a member, else the first such relationship's id |
| CollectionsApi.DeleteAt | frontend/app/lib/api/collections.ts:189-191 | deleting one id removes just that relationship |
| CollectionsApi.RemoveDeletesFirstOnly | frontend/app/lib/api/collections.ts:174-192 | only the first membership relationship is deleted, the others kept in order; nothing changes for a non-member |
| OperationRegistry.AvailableOperations | frontend/app/lib/operations/registry.ts:25-29 | exactly the registered operations that need no collection, or all when there is one |
| OperationRegistry.NothingWithoutCollection | frontend/app/lib/operations/registry.ts:4-29 | every operation needs a collection, so none is offered without one |
| OperationRegistry.AllWithCollection | frontend/app/lib/operations/registry.ts:4-29 | with a collection all three operations are offered in declaration order |
| OperationRegistry.FindById | frontend/app/lib/operations/registry.ts:32 | none exactly when no operation has the id, else an operation with that id |
| OperationRegistry.IdsDistinct | frontend/app/lib/operations/registry.ts:4-23 | the registered ids are distinct |
| OperationRegistry.OperationByIdUnique | frontend/app/lib/operations/registry.ts:31-33 | the lookup answers the one operation with the id, and none exactly for an unknown id |
| OperationRegistry.EachFoundById | frontend/app/lib/operations/registry.ts:4-33 | each registered operation is found by its own id |
| Wrappers.OrElse | frontend/app/hooks/useApiError.ts:15 | JavaScript's "a \|\| b" on a string that may be missing, as useApiError and BenchPanel use it: a non-empty first string is kept, a missing or empty one gives the second |
| ApiErrors.ErrorStateOf | frontend/app/hooks/useApiError.ts:11-57 | a response error shows the body's message, else the error's message, else "An API error occurred", never empty, with its code and status; another Error shows its message with status 500; anything else a fixed message with status 500 |
| UseItems.ReplacedKeepsPositions | frontend/app/hooks/useItems.ts:44-46 | an update keeps the length; items with the id become the returned item, the others stay in place |
| UseItems.ReplacingAbsentId | frontend/app/hooks/useItems.ts:44-46 | an answer for an id the list does not hold changes nothing |
| UseItems.ReplacedKeepsUnique | frontend/app/hooks/useItems.ts:44-46 | an answer keeping the id keeps the ids unique |
| UseItems.WithoutId | frontend/app/hooks/useItems.ts:57 | exactly the items with another id, never more items |
| Seqs.WithoutKeyAt | frontend/app/hooks/useItems.ts:57 | with unique ids, deleting the id at k removes just that element, the others kept in order (also the prompts' removal, usePrompts.ts:56 and :73) |
| Seqs.WithoutAbsentKey | frontend/app/hooks/usePrompts.ts:73 | deleting an id no element has keeps the list (also the items' deletion, useItems.ts:57) |
| Seqs.WithoutKey | frontend/app/hooks/useItems.ts:57 | exactly the elements with another key, never more elements |
| UseItems.AppendKeepsUnique | frontend/app/hooks/useItems.ts:33 | a created item with a new id keeps ids unique |
| UseItems.ItemsState.constructor | frontend/app/hooks/useItems.ts:9-11 | nothing loaded, loading, no error |
| UseItems.ItemsState.FetchItems | frontend/app/hooks/useItems.ts:13-24 | the list becomes the answer with no error, or stays with the error recorded; loading ends |
| UseItems.ItemsState.CreateItem | frontend/app/hooks/useItems.ts:30-39 | the new item goes last, or the failure is recorded and rethrown with the list kept |
| UseItems.ItemsState.UpdateItem | frontend/app/hooks/useItems.ts:41-52 | items with the id become the answer, or the failure is recorded and rethrown with the list kept |
| UseItems.ItemsState.DeleteItem | frontend/app/hooks/useItems.ts:54-62 | items with the id leave the list, or the failure is recorded and rethrown with the list kept |
| UsePrompts.WithoutId | frontend/app/hooks/usePrompts.ts:56 | exactly the prompts with another id, never more prompts |
| UsePrompts.WithoutIdKeepsUnique | frontend/app/hooks/usePrompts.ts:56 | removing prompts keeps ids unique |
| UsePrompts.PrependKeepsUnique | frontend/app/hooks/usePrompts.ts:57 | a prompt put first keeps ids unique when no other has its id |
| UsePrompts.UpdatePutsAnswerFirst | frontend/app/hooks/usePrompts.ts:54-57 | after an update exactly one prompt has the id, the answer, at the front; ids stay unique and no other prompt is lost |
| UsePrompts.CreateKeepsUnique | frontend/app/hooks/usePrompts.ts:40 | a created prompt with a new id keeps ids unique |
| UsePrompts.PromptsState.constructor | frontend/app/hooks/usePrompts.ts:10-16 | nothing loaded, loading, no pending action, no error |
| UsePrompts.PromptsState.FetchPrompts | frontend/app/hooks/usePrompts.ts:18-33 | both lists replaced when both calls answer, otherwise kept with the error recorded; loading ends |
| UsePrompts.PromptsState.BeginCreate | frontend/app/hooks/usePrompts.ts:36-37 | the error is cleared and creating set |
| UsePrompts.PromptsState.FinishCreate | frontend/app/hooks/usePrompts.ts:38-47 | the new prompt goes first, or the failure is recorded and rethrown; creating ends |
| UsePrompts.PromptsState.CreatePrompt | frontend/app/hooks/usePrompts.ts:35-48 | the new prompt goes first with no error, or the list is kept and the failure recorded and rethrown; creating ends |
| UsePrompts.PromptsState.BeginUpdate | frontend/app/hooks/usePrompts.ts:51-52 | the error is cleared and updating set |
| UsePrompts.PromptsState.FinishUpdate | frontend/app/hooks/usePrompts.ts:53-64 | prompts with the id are removed and the answer put first, or the failure is recorded and rethrown; updating ends |
| UsePrompts.PromptsState.UpdatePrompt | frontend/app/hooks/usePrompts.ts:50-65 | the whole update: the answer replaces the prompt at the front, or the failure is recorded and rethrown; updating ends |
| UsePrompts.PromptsState.BeginDelete | frontend/app/hooks/usePrompts.ts:68-69 | the error is cleared and deleting holds the id |
| UsePrompts.PromptsState.FinishDelete | frontend/app/hooks/usePrompts.ts:70-79 | prompts with the id leave the list, or the failure is recorded and rethrown; deleting is reset |
| UsePrompts.PromptsState.DeletePrompt | frontend/app/hooks/usePrompts.ts:67-80 | the whole delete: prompts with the id leave the list, or the failure is recorded and rethrown; deleting is reset |
| UsePrompts.PromptsState.Query | frontend/app/hooks/usePrompts.ts:82-102 | the answer is handed back unchanged; the error is cleared, or recorded on failure |
| SummaryService.DetailedRows | backend/src/main/java/net/sampsoftware/genai/repository/SummaryRepository.java:42-46 | every row the detailed listing is built from is a summary that has a configuration of a model |
| SummaryService.DetailedRowsSorted | backend/src/main/java/net/sampsoftware/genai/repository/SummaryRepository.java:42-46 | the rows are ordered newest first and are a permutation of exactly the summaries with details, so the listing has one record per such summary |
| SummaryService.DetailedCoversAll | backend/src/main/java/net/sampsoftware/genai/service/SummaryService.java:56-61 | every stored summary with a configuration of a model has its detailed record in the listing |
| SummaryService.DetailedOnlyDetails | backend/src/main/java/net/sampsoftware/genai/service/SummaryService.java:56-61 | every record in the listing is the detailed record of some stored summary with details |
| SummaryService.NewerFirstTotal | backend/src/main/java/net/sampsoftware/genai/repository/SummaryRepository.java:45 | ordering by creation time descending, with a missing time first, compares any two summaries |
| CallLoggingAdvisor.RemoveAll | backend/src/main/java/net/sampsoftware/genai/advisor/ModelCallLoggingAdvisor.java:149 | removing every occurrence of the target never lengthens the text and adds no character |
| CallLoggingAdvisor.FirstProvider | backend/src/main/java/net/sampsoftware/genai/advisor/ModelCallLoggingAdvisor.java:340-347 | the reference provider choice is either "unknown" or one of the recognised providers |
| CallLoggingAdvisor.ProvidersDistinct | backend/src/main/java/net/sampsoftware/genai/advisor/ModelCallLoggingAdvisor.java:340-347 | the four providers checked are distinct and none of them is "unknown" |
| CallLoggingAdvisor.SimpleName | backend/src/main/java/net/sampsoftware/genai/advisor/ModelCallLoggingAdvisor.java:353 | the simple class name is a suffix of the qualified name and holds no '.' |
| CallLoggingAdvisor.Split | backend/src/main/java/net/sampsoftware/genai/advisor/ModelCallLoggingAdvisor.java:373-378 | splitting a text at a separator gives at least one piece |
| CallLoggingAdvisor.SplitAfterPiece | backend/src/main/java/net/sampsoftware/genai/advisor/ModelCallLoggingAdvisor.java:373-378 | a piece without the separator followed by the separator splits off as the first piece |
| CallLoggingAdvisor.SplitWhole | backend/src/main/java/net/sampsoftware/genai/advisor/ModelCallLoggingAdvisor.java:373-378 | a text without the separator is a single piece |
| CallLoggingAdvisor.SplitJoin | backend/src/main/java/net/sampsoftware/genai/advisor/ModelCallLoggingAdvisor.java:373-378 | lines joined with a line break split back into the same lines when none holds a line break |
| ItemEntity.Wrap32 | backend/src/main/java/net/sampsoftware/genai/model/Item.java:95 | the narrowing to int leaves a value already in int range unchanged |
| ItemEntity.ParseAsInteger | backend/src/main/java/net/sampsoftware/genai/model/Item.java:95-97 | reading a text node as int or long gives a value inside that type's range |
| ItemEntity.Convert | backend/src/main/java/net/sampsoftware/genai/model/Item.java:92-104 | the value read from a node has the requested Java class |
| ItemEntity.ParseIntToString | backend/src/main/java/net/sampsoftware/genai/model/Item.java:95-97 | the decimal text of an integer parses back to that integer |
| ItemEntity.ReadStored | backend/src/main/java/net/sampsoftware/genai/model/Item.java:81-137 | reading back a key just set converts the stored node to the requested class |
| ItemEntity.AsIntOfIntText | backend/src/main/java/net/sampsoftware/genai/model/Item.java:95 | an int stored as its decimal text reads back as the same int |
| ItemEntity.Words | backend/src/main/java/net/sampsoftware/genai/model/Item.java:291 | a non-empty type string splits into parts whose first is its leading run of non-separators |
| ItemEntity.WordsAreWords | backend/src/main/java/net/sampsoftware/genai/model/Item.java:291 | every part of the split is a non-empty run of non-separator characters |
| ItemEntity.CapitalizeAll | backend/src/main/java/net/sampsoftware/genai/model/Item.java:294-298 | each part is replaced by its capitalised form, one for one |
| ItemEntity.WordsOfSnakeCase | backend/src/main/java/net/sampsoftware/genai/model/Item.java:291 | a snake_case type splits into its lower-case words, and joining them with '_' gives the type back |
| ItemEntity.LowerJoinedWords | backend/src/main/java/net/sampsoftware/genai/model/Item.java:294-298 | lower-casing the space-joined capitalised words with spaces turned to '_' gives the words joined by '_' |
| ItemEntity.Item.Load | backend/src/main/java/net/sampsoftware/genai/model/Item.java:25-62 | an entity loaded from a stored row holds exactly that row |
| ItemEntity.BuiltDetails | backend/src/main/java/net/sampsoftware/genai/model/Item.java:285 | the builder's text, or null when it is empty, is the details text of the appended pieces |
| ModelCallRecord.TwoDigits | backend/src/main/java/net/sampsoftware/genai/dto/ModelCallRecord.java:51 | the hundredths of a duration are printed as exactly two decimal digits |
| AiService.KnownIdIsLowered | backend/src/main/java/net/sampsoftware/genai/service/AIService.java:106-116 | each known display name maps to its own lower-cased form |
| AiService.ApiModelNameIsFixed | backend/src/main/java/net/sampsoftware/genai/service/AIService.java:101-126 | a name already in API-id form converts to itself |

## Left out

- Concurrency: `@Async` methods and `CompletableFuture` fan-out and joins are modelled as jobs run one after another in member order. Every future is joined before the outcomes are folded, so the counts are the same. Java collects `summaryIds` in completion order, and the model lists them in member order.
- The language-model provider is an opaque function of the request and of how many requests came before it. This covers Spring AI `ChatModel.call` and the OpenAI list and probe calls in `ModelService`.
- The Spring Data repositories and their JPQL queries are not part of this model. Each store is a repository over id-ordered rows with a `rejects` function, so any save can fail. A query's ordering and filter are stated as functions over the rows.
- Transactions: the rollback of `summarizeCollection` and of `updatePrompt` is modelled. Spring's marking of the surrounding transaction as rollback-only after a caught exception inside `generateRelationships` is not modelled.
- Nondeterministic inputs are parameters: `System.nanoTime` batch ids, the `LocalDateTime.now` and `Instant.now` timestamps of prompts and call records, UUID correlation ids, and the calling stack read by `determineRequestContext`. BenchPanel's random mock-data generators are left out.
- Summary timestamps: the `@PrePersist` hook of `Summary` (Summary.java:48-51) stamps `createdAt` and `updatedAt` with the current time; the model does not. Summaries saved by the batch processors and the collection operations keep `createdAt` None. `SummaryService.NewerFirst` puts a None time first, so these rows still sort ahead of older stored rows, as the newest rows do in the source. Among themselves they keep their save order, where the source orders them newest first by save time.
- OperationsPairs.GenerateRelationships: the type list is never null in the model. In the source a null `relationshipTypes` throws a NullPointerException at `String.join`, before any pair and outside the per-pair try block, so the whole call fails.
- ItemProcessor.ProcessItemAsync: a failed result carries the caught exception. The source stores `e.getMessage()`, a string that may be null; the model keeps the exception the message is read from.
- ModelCallRecord.SecondsText: `String.format("%.2fs", …)` formats in the JVM's default locale, so the source may write a decimal comma; the model always writes a point.
- CallExplorer.Explorer.Loaded: the statistics and provider-performance answers that `loadData` also stores are not modelled; the page only displays them.
- Jackson: the pretty-printed JSON of `buildItemInfo` is an abstract writer that may fail. The advisor's `capture*` methods and `JsonAttributeUtil` are left out.
- ItemEntity.Convert: conversions that need floating-point arithmetic are not modelled. `asDouble` of a text node gives 0.0, where Jackson parses the text. Int and long nodes give the `Double.toString` text of the whole number, which is exact below 2^53. Booleans give 1.0 or 0.0, and other nodes give 0.0. A double node read as int or long gives 0, not its truncation. A text that is not a signed run of digits reads as int or long 0, where Jackson would parse it as a double first.
- Floating point: the success rates and averages of `ModelCallService` are left out. Temperature and top_p values are opaque JSON nodes. The frontend's `(ms / 1000).toFixed(2)` seconds text is kept as the millisecond value it is computed from.
- GroupedSummaries.TemplateText: a JSON integer beyond 2^53 in magnitude is printed with all its digits, where the browser first rounds it to the nearest double. A double keeps the digits of Java's `Double.toString` and only their layout follows Number::toString. Since JDK 19 those digits are the shortest that read back, as JavaScript's are; older JDKs can print more digits.
- SummaryService.ToDetailedDto: the DTO's `entityDetails` component is not modelled. The source fills it from `Summary.getEntityDetails()`, which the `Summary` entity in this version of the source does not define, so what it returns is unknown. The model's `DetailedSummary` has no such field.
- CytoscapeGraph.ModelGroups: the groups come in order of first appearance in the summary list. Java iterates a `Collectors.groupingBy` HashMap, whose order is unspecified. The model fixes that one order for the model nodes and the generated-by edges.
- CytoscapeGraph.ModelNames: listed in order of first appearance, where the source's HashMap order is unspecified; the set of names is the same.
- CytoscapeService.TypeCounts: the entries come in order of first appearance of each type. Java's `groupingBy` map gives them in an unspecified order; the entries and counts are the same.
- CytoscapeService.Stats: the type-count map is listed in order of first appearance, for the same reason as TypeCounts.
- CollectionsApi.ToEntity: a position is kept only when the stored attribute is an integer node. The source's `as number` is only a type assertion, so a numeric text such as "3" or a fraction such as 1.5 would also reach the comparator.
- CollectionsApi.MemberOrder: when some members have a position and others do not, the comparator orders mixed pairs by name and positioned pairs by position, which is not a consistent order. `Array.prototype.sort` may then give any order, and the model fixes the one its insertion sort gives.
- Strings are sequences of Unicode scalar values. Upper- and lower-casing is ASCII-only, and `localeCompare` is modelled as code-point order. Length limits count code points, where Java's `String.length` and JavaScript's `.length` count UTF-16 units: a text with characters outside the Basic Multilingual Plane passes the model's limit with more characters than the source allows. This affects the 10000-character message limit of `ChatService` and the 250-character name limit of `PromptForm`.
- CallLoggingAdvisor.LogModelCall: exceptions thrown by the advisor's own bookkeeping are not modelled. Neither is the asynchronous save of the record, which is modelled as an immediate append to the call log.
- React rendering, effects and asynchronous state scheduling are not modelled. A hook's API call is given as its answer, a value or a thrown error, and each state update is applied in program order.
- HTTP controllers, the servlet filter, CORS configuration, DTO mappers, `CrudDtoController`, the axios wrappers, the logger and `fetcher` carry no logic of the core and are left out.
