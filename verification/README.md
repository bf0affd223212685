# Knowledge-base customer-service bot — a Dafny model of its bookkeeping

The system is a retrieval-augmented customer-service assistant. It loads the
documents of a knowledge folder (`.txt`, `.pdf`, `.docx`) into a persisted
vector index. For each question it retrieves the closest records, builds a
prompt from a persona, the retrieved context and the session's recent
conversation, and asks a chat model. It remembers the last exchanges of each
session. A file watcher rebuilds the index when the folder changes, behind a
one-second debounce.

This project models the four pieces of sequential bookkeeping in
`chatbot.py`, with each kept in the form the source gives it:

- `memory.dfy` (module `SessionMemory`) covers the process-wide session store.
  - The class `SessionMemories` holds a `map` from session id to history.
  - `Truncate` and `Fetched` describe the cut that happens on every fetch.
  - `AfterAsk` gives a session's history after one question, and
    `HistoryAfter` gives it after any sequence of questions.
  - The lemmas show that a stored history is always the most recent window
    of the answered exchanges, and that every stored history stays within
    `2 × MAX_TURNS + 2` messages.
- `ingestion.dfy` (module `Ingestion`) covers loading the folder and choosing
  the index action.
  - The `splitext`-style extension and the case-insensitive routing of a file
    to a loader are pure functions.
  - `LoadDocs` is the loop over the listing. It is proved against the
    specification function `Collected`, and lemmas about `Collected` state
    what the loop keeps and skips.
  - `BuildOrUpdateVectorstore` chooses between opening the persisted index,
    adding to it, and building it afresh.
- `assistant.dfy` (module `Assistant`) covers answering.
  - The pure prompt assembly is `Context`, `SystemMessage` and `Messages`,
    with a `Join` that is characterised part by part.
  - The class `Bot` holds the index handle, the retriever, the persona and
    the shared session store. Its methods are the constructor,
    `RebuildVectorstore`, `GetMemory`, and `Ask` with its answering step `Answer`.
- `watcher.dfy` (module `Watcher`) covers hot reload.
  - The class `KnowledgeHandler` holds the bot and the debounce field `last`.
    `OnAnyEvent` implements the gate.
  - The function `Triggers` gives the rebuild times for a sequence of event
    times. The lemmas prove leading-edge debouncing: a burst rebuilds once,
    at its first event, and two separated bursts rebuild twice.
- `wrappers.dfy` defines `Option`.

The outside world enters as parameters:

| Outside dependency | Parameter in the model |
|---|---|
| Folder listing | `seq<Entry>` of names, each with a regular-file flag |
| Loaders | `load: (Loader, string) -> LoadOutcome`, where `LoadFailed` stands for a raised exception |
| Text splitter | `split` |
| Persist directory | `persisted: Option<seq<Document>>` (`None` when the directory is empty) |
| Similarity search | `search`, where `None` stands for an exception |
| Chat-completion call | `generate`, which returns `GenFailed` for an exception |
| Event times | integer milliseconds |

Two behaviours of the code are easy to misread:

- **When the history is cut.** The cut happens when a history is fetched
  (chatbot.py:163-164), not after the new exchange is appended
  (chatbot.py:195-196). A stored history can therefore hold
  `2 × MAX_TURNS + 2` messages between questions, and the model proves
  exactly that bound.
- **No documents.** The comment at chatbot.py:97 speaks of initialising an
  empty index, but the code opens whatever the persist directory already
  holds (chatbot.py:98). The result is an empty index only when that
  directory is empty (`Ingestion.IndexAfter`,
  `Ingestion.EmptyFirstRunGivesEmptyIndex`).
- **A failing rebuild.** `on_any_event` records the event time before it
  rebuilds (chatbot.py:129-131). A rebuild whose index library raises
  therefore keeps the old index and still closes the gate for the next
  second.

## Model

| member | source | states |
|---|---|---|
| SessionMemory.SessionMemories.constructor | chatbot.py:26-27 | the session store starts with no sessions |
| SessionMemory.Truncate | chatbot.py:163-164 | the fetched history has at most `2 × MAX_TURNS` messages, is unchanged when it already fits, and otherwise is exactly the most recent `2 × MAX_TURNS` messages, in order (a suffix of the stored one) |
| SessionMemory.TruncateIdempotent | chatbot.py:163-165 | cutting an already cut history changes nothing |
| SessionMemory.TruncateFixedPoint | chatbot.py:163-165 | the cut leaves a history unchanged if and only if it fits the window |
| SessionMemory.FetchSpec | chatbot.py:160-165 | a fetch (`Fetched`) adds the session if it is new (with an empty history), bounds its history by the window, and leaves every other session as it was |
| SessionMemory.FetchIdempotent | chatbot.py:161-165 | fetching the same session twice leaves the store as one fetch does |
| SessionMemory.FetchUnchanged | chatbot.py:161-165 | a fetch changes the store if and only if the session is new or its history exceeds the window |
| SessionMemory.AfterAsk | chatbot.py:168-202 | a retrieval failure leaves the history untouched; a generation failure leaves exactly the cut history (`Truncate`), at most the window; success leaves exactly the cut history followed by `{user, query}` then `{assistant, answer}`, at most `2 × MAX_TURNS + 2` messages |
| SessionMemory.AfterAskKeepsSuffix | chatbot.py:163-165 | what a question keeps of the old history is a suffix of it: the whole result after a generation failure, everything but the new exchange after an answer |
| SessionMemory.StepKeepsWindow | chatbot.py:182-196 | one question turns a recent window of the answered exchanges into a recent window of those exchanges plus what it appends |
| SessionMemory.HistoryIsRecentWindow | chatbot.py:160-196 | after any sequence of answered and failed questions the stored history is the last `2 × MAX_TURNS` or `2 × MAX_TURNS + 2` messages of all answered exchanges, and the next fetch hands the model exactly the last `2 × MAX_TURNS` of them |
| SessionMemory.AfterAskKeepsBound | chatbot.py:163-196 | if every stored history has at most `2 × MAX_TURNS + 2` messages, that still holds after a fetch or a question for any session |
| Ingestion.LastDot | chatbot.py:46 | the result is -1 or the index of a dot with no dot after it |
| Ingestion.ExtensionSpec | chatbot.py:46 | a non-empty extension is a dot-led suffix of the name with no other dot, preceded by a non-dot character; the extension is empty exactly when every dot of the name has only dots before it |
| Ingestion.AllDotsSpec | chatbot.py:46 | the all-dots test used by the extension holds exactly when every character is a dot |
| Ingestion.LoaderForSound | chatbot.py:46-56 | a name is routed to a loader only when it ends, case-insensitively, in that loader's extension after some non-dot character |
| Ingestion.LoaderForComplete | chatbot.py:46-56 | every such name is routed to that loader |
| Ingestion.SelectedSpec | chatbot.py:42-56 | the entries handed to a loader are exactly the regular files of the listing with a supported extension |
| Ingestion.CollectedAppend | chatbot.py:42-60 | the documents collected from a concatenated listing are those of the first part followed by those of the second |
| Ingestion.SkippedEntryIsolated | chatbot.py:44-60 | a directory, an unsupported file or a file whose load raises removes nothing else: the documents before and after it are still collected, in order |
| Ingestion.CollectedFromSelected | chatbot.py:42-58 | every collected document was produced by loading an entry that was handed to a loader |
| Ingestion.NothingAcceptedNothingCollected | chatbot.py:42-62 | a listing with no supported regular file yields no documents |
| Ingestion.LoadDocs | chatbot.py:39-62 | the loop returns exactly the documents collected in listing order, and the names it handed to a loader are exactly the accepted entries, in order |
| Ingestion.ChooseAction | chatbot.py:94-109 | the index is opened untouched if and only if no document loaded, extended if and only if documents loaded and the persist directory is non-empty, and built afresh if and only if documents loaded and it is empty |
| Ingestion.IndexAfter | chatbot.py:94-112 | no documents: the persisted records as they are; otherwise the persisted records followed by the new chunks, or only the new chunks on a fresh build |
| Ingestion.BuildOrUpdateVectorstore | chatbot.py:94-112 | the branch taken is `ChooseAction` and the index returned is `IndexAfter` of the documents `LoadDocs` collects from the folder |
| Ingestion.EmptyFirstRunGivesEmptyIndex | chatbot.py:95-98 | with nothing loadable and an empty persist directory the index has no records |
| Ingestion.PersistedRecordsKept | chatbot.py:102-107 | an incremental update never drops persisted records: they remain a prefix of the index |
| Ingestion.ReingestDuplicates | chatbot.py:102-107 | rebuilding twice from an unchanged folder onto a non-empty index stores every chunk twice more |
| Assistant.JoinLength | chatbot.py:171 | the joined text ends where the last part ends |
| Assistant.JoinText | chatbot.py:171 | each part stands in the joined text at its offset |
| Assistant.JoinSeparator | chatbot.py:171 | the separator stands between each part and the next |
| Assistant.PageContents | chatbot.py:171 | the list of retrieved texts has one entry per document, in retrieval order |
| Assistant.Context | chatbot.py:171 | with nothing retrieved the context is the placeholder |
| Assistant.ContextSpec | chatbot.py:171 | otherwise every retrieved text stands in the context at its offset, in retrieval order, with a blank line between neighbours |
| Assistant.SystemMessage | chatbot.py:174-178 | the system message is the persona and a line break, then the instruction line and a line break, then the `【已知资料】:` heading and a line break, then the context |
| Assistant.Messages | chatbot.py:180-185 | the request is the system message, then the history in order, then `{user, query}`; its length is the history's plus two |
| Assistant.EventOf | chatbot.py:188-202 | a reply from the model records the question and exactly that answer; a failed call records a generation failure |
| Assistant.Bot.constructor | chatbot.py:134-141 | the bot's index is the one built or opened from the folder, and its retriever searches that index for `TOP_K` records |
| Assistant.Bot.RebuildVectorstore | chatbot.py:155-157 | when the index library does not raise, the index is replaced by a fresh build or update from the folder and the retriever follows it; when it raises, index and retriever keep their old values |
| Assistant.Bot.GetMemory | chatbot.py:160-165 | the store becomes `Fetched` of the old store, and the returned history is the session's cut history |
| Assistant.Bot.Ask | chatbot.py:167-202 | a retrieval failure returns the fallback and leaves the store as it was; otherwise the outcome is that of `Answer` on the context of the retrieved documents (spelled out: the model receives `Messages` built from that context and the cut history, the reply is its answer or the fallback, the session's history becomes `AfterAsk` of the old one), and the `2 × MAX_TURNS + 2` bound on the store is kept |
| Assistant.Bot.Answer | chatbot.py:174-198 | the model receives the system message, the cut history and the question; on a reply the answer is returned and the session holds the cut history followed by the exchange; on a failure the fallback is returned and the session holds the cut history; the bound on the store is kept |
| Watcher.Triggers | chatbot.py:123-131 | the rebuild times are event times, the first is at least one second after the last accepted time, and each is at least one second after the previous one |
| Watcher.GateAfterIsLastTrigger | chatbot.py:126-129 | after a sequence of events the gate holds the time of the last rebuild, or its starting value when nothing was rebuilt |
| Watcher.TriggersAppend | chatbot.py:123-131 | processing events in two runs triggers the first run's rebuilds followed by the second's, from the gate the first run leaves |
| Watcher.QuietWithinWindow | chatbot.py:127-128 | events all within one second of the last accepted time trigger nothing and leave the gate unchanged |
| Watcher.BurstTriggersOnce | chatbot.py:124-131 | a burst whose first event passes the gate and whose other events follow within a second rebuilds exactly once, at its first event |
| Watcher.TwoBurstsTriggerTwice | chatbot.py:124-131 | two such bursts, the second starting at least a second after the first began, rebuild exactly twice, at their first events |
| Watcher.KnowledgeHandler.constructor | chatbot.py:117-121 | the handler keeps the bot and starts with `last` at 0 |
| Watcher.KnowledgeHandler.OnAnyEvent | chatbot.py:123-131 | an event at least one second after `last` sets `last` to its time and starts exactly one rebuild, which replaces the bot's index unless the index library raises; any other event changes neither `last` nor the bot |

## Left out

- Chat model: client creation, the API key check and the network call are left out. Generation is the `generate` parameter, whose failure stands for any exception.
- Embeddings and the Chroma index: similarity search is the `search` parameter, and an index is only the sequence of records it serves. Persisting to disk is not modelled.
- Text splitter: chunking is the `split` parameter. Chunk sizes and separators belong to the library and are not modelled.
- Filesystem: directory creation, listing, the regular-file test and the loaders' file reading are inputs.
- File-system observer: scheduling the observer and starting its thread are left out. Events arrive as calls to `OnAnyEvent`.
- Watcher.KnowledgeHandler.OnAnyEvent: the lock and concurrent events are not modelled. Time is integer milliseconds rather than float seconds from the clock.
- Assistant.Bot.Ask: concurrent questions on one session are not modelled. Neither is an answer whose content is absent; every answer is a string.
- Ingestion.LoaderFor: lower-casing covers ASCII letters only. This is exact for the comparison against `.txt`, `.pdf` and `.docx`, but it does not reproduce Unicode case mapping of other characters.
- Assistant.Bot.constructor: the persona is a parameter; reading it, or its default, from the environment is left out.
- Assistant.Bot.constructor: construction always succeeds. In the source an exception from the client, the embeddings or the index build (chatbot.py:137-139) means no bot is created.
- Logging output is left out.
- app.py is not part of this model; it is the HTTP layer around the bot.
