# Helpdesk AI services: duplicate detection, text cleaning and the status action

This project is a Dafny model of the small pieces of real logic in the AI side of a
helpdesk ticketing platform. It has three parts.

- **Duplicate detection in the ticket-analysis endpoint** (`TicketAnalysis`, in
  `ticket_analysis.dfy`). The AI microservice keeps a process-wide cache of recent
  tickets as two parallel lists: descriptions and embedding vectors. For each new
  ticket it does the following:
  - It takes the largest cosine similarity between the new vector and every cached
    vector.
  - It rounds that similarity to two decimals.
  - It reports a duplicate when the rounded value is strictly above 0.90. A duplicate
    carries that value as its score.
  - Only a ticket that is not a duplicate is added to the cache. The oldest entry is
    dropped once the cache holds more than 50 entries.

  The cache is the class `RecentTicketsCache<V>`. It has two sequence fields, and the
  method `AnalyzeTicket` updates them in place. Embeddings have an arbitrary type `V`.
  Cosine similarity is a function `(V, V) -> real` that is fixed when the cache is
  created.

  Python's `round(x, 2)` is modelled exactly: it is round-half-to-even applied to the
  exact value `100 * x`, and the result is an integer number of hundredths. The
  comparison `max_similarity > 0.90` becomes "hundredths > 90", because the double
  nearest to k/100 is above the double nearest to 0.90 exactly when k > 90.
- **The analytics engine's text cleaner** (`TextPreprocessing`, in
  `text_preprocessing.dfy`). A value that is not text becomes the empty string.
  Otherwise the cleaner removes every character outside `[\w\s]` and lower-cases the
  rest. Character classes and case mapping are those of Python on ASCII. They are
  shared with the chatbot through the module `Ascii` (`ascii.dfy`).
- **The chatbot's `action_check_status` action** (`StatusAction`, in
  `status_action.dfy`). With no `application` entity, or an empty one, it asks which
  application is meant. Otherwise it looks the lower-cased name up in a fixed table of
  four systems. The default is "Unknown System". The reply quotes the name as the user
  wrote it. The uttered message is the function's result, and the event list is always
  empty. The action's registered name `name()` is the constant `StatusAction.ActionName`.

Because the code rounds before it compares, a raw similarity of 0.901 becomes 0.90
and is not a duplicate (`TicketAnalysis.ThresholdIsExclusive`). The judgment is
equivalent to a raw similarity above 0.905 (`TicketAnalysis.DuplicateIffRawAbove`).
In the real-valued model the number 0.905 itself is a tie that rounds to the even
0.90. This tie exists only in the real-valued model, because no float equals 0.905.
The double nearest to 0.905 lies just above it, and Python rounds it to 0.91. The
float32 nearest to 0.905 is 0.90499997..., which rounds to 0.90.

Lower-casing in the status lookup leaves non-ASCII characters unchanged, whereas
Python's `str.lower()` maps them by Unicode rules. This does not change the result of
the lookup. The only non-ASCII character that Python lower-cases to a single ASCII
letter is the Kelvin sign, which becomes `k`, and no table key contains `k`.

## Model

| member | source | states |
|---|---|---|
| `TicketAnalysis.RoundHalfEven` | AI/ai_microservice/main.py:64 | the result is within one half of the input, and a tie goes to the even integer, as in Python's `round` |
| `TicketAnalysis.RoundHundredths` | AI/ai_microservice/main.py:64 | `round(x, 2)` in hundredths lies within half a hundredth of `100 * x` |
| `TicketAnalysis.RoundHundredthsMonotone` | AI/ai_microservice/main.py:64 | rounding never reverses the order of two similarities |
| `TicketAnalysis.RoundedAboveThresholdIff` | AI/ai_microservice/main.py:64-67 | a rounded similarity is above 0.90 exactly when the raw similarity is above 0.905 |
| `TicketAnalysis.MaxSimilarity` | AI/ai_microservice/main.py:63-64 | the maximum similarity bounds every cached vector's similarity and is attained by one of them |
| `TicketAnalysis.RoundingKeepsMaximum` | AI/ai_microservice/main.py:63-64 | the rounded maximum is at least every cached ticket's rounded similarity and equals one of them |
| `TicketAnalysis.RoundedMaxSimilarity` | AI/ai_microservice/main.py:63-64 | `round(max(similarities), 2)` in hundredths is the largest rounded similarity of any cached ticket: it bounds all of them and is attained |
| `TicketAnalysis.IsDuplicate` | AI/ai_microservice/main.py:62-67 | defined as a non-empty cache whose rounded maximum is above 0.90; its contract proves this is the same as some cached ticket's rounded similarity being above 0.90, so an empty cache is never a duplicate |
| `TicketAnalysis.DuplicateIffRawAbove` | AI/ai_microservice/main.py:62-67 | a ticket is a duplicate exactly when some cached ticket's unrounded similarity is above 0.905 |
| `TicketAnalysis.ThresholdIsExclusive` | AI/ai_microservice/main.py:64-67 | a maximum similarity of exactly 0.90, or of 0.901, is not a duplicate |
| `TicketAnalysis.Admit` | AI/ai_microservice/main.py:70-75 | after an append the new element is last; below capacity the list grows by one; at capacity its length is unchanged and only the oldest element is gone; the survivors keep their order |
| `TicketAnalysis.AdmitIntoEmpty` | AI/ai_microservice/main.py:70-72 | the first ticket admitted into an empty cache becomes its only entry |
| `TicketAnalysis.AdmitKeepsNewest` | AI/ai_microservice/main.py:71-75 | admitting into a list within capacity leaves the newest 50 elements of the list plus the new one |
| `TicketAnalysis.AdmitAllKeepsNewest` | AI/ai_microservice/main.py:70-75 | after any run of non-duplicate tickets, the cache holds exactly the newest 50 admitted tickets, oldest first |
| `TicketAnalysis.OverflowEvictsFirst` | AI/ai_microservice/main.py:73-75 | after 51 admissions into an empty cache, the first ticket is evicted and the 2nd to 51st remain in order |
| `TicketAnalysis.AdmitZip` | AI/ai_microservice/main.py:71-75 | appending to and evicting from the two parallel lists in step keeps index i of one paired with index i of the other |
| `TicketAnalysis.RecentTicketsCache.constructor` | AI/ai_microservice/main.py:24-25 | the cache starts empty, with both lists of equal length |
| `TicketAnalysis.RecentTicketsCache.CheckDuplicate` | AI/ai_microservice/main.py:57-67 | the flag is the duplicate judgment on the current cache; the similarity is 0 for an empty cache and otherwise the rounded maximum |
| `TicketAnalysis.RecentTicketsCache.Register` | AI/ai_microservice/main.py:70-75 | both lists are appended to and, past 50, lose their oldest element; they stay equal in length and at most 50, and the list of pairs is updated the same way |
| `TicketAnalysis.RecentTicketsCache.AnalyzeTicket` | AI/ai_microservice/main.py:56-82 | keeps both lists equal in length and at most 50; passes category and entities through; duplicate iff the cache is non-empty and the rounded maximum is above 0.90; a score is present iff duplicate, and it is that rounded maximum; an empty cache gives no duplicate and caches the ticket; a duplicate leaves both lists unchanged; otherwise both lists and their pairing are updated by append-then-evict-oldest |
| `TicketAnalysis.SubmitTwice` | AI/ai_microservice/main.py:56-82 | in a fresh cache, a ticket is admitted with no score; the same ticket again, with self-similarity above 0.905, is a duplicate with a score above 0.90 and is not cached a second time |
| `Ascii.ToLower` | AI/analytics_engine/generate_analytics.py:26 | the result is never an upper-case letter; upper-case letters move to their lower-case counterpart, and every other character is unchanged |
| `Ascii.Lower` | AI/analytics_engine/generate_analytics.py:26 | lower-casing keeps the length and lower-cases each character in place |
| `Ascii.IsWordChar` | AI/analytics_engine/generate_analytics.py:24 | the ASCII part of `\w`: letters, digits and underscore; it holds only of ASCII characters, and a character is a word character exactly when its lower-case form is a lower-case letter, a digit or underscore |
| `Ascii.IsSpace` | AI/analytics_engine/generate_analytics.py:24 | the ASCII part of `\s` on text: tab, line feed, vertical tab, form feed, carriage return, the information separators 0x1C-0x1F (Python's `str.isspace()` and `re` count them as whitespace) and space; these are ASCII, not word characters, and unchanged by lower-casing |
| `TextPreprocessing.Kept` | AI/analytics_engine/generate_analytics.py:24 | the class `[\w\s]` that survives the substitution; only ASCII characters are in it, and lower-casing a character never changes whether it is kept |
| `TextPreprocessing.RemovePunctuation` | AI/analytics_engine/generate_analytics.py:24 | the output is no longer than the input, and every output character is a letter, digit, underscore or whitespace |
| `TextPreprocessing.PreprocessText` | AI/analytics_engine/generate_analytics.py:20-27 | a value that is not text gives ""; text gives output no longer than the input, made only of word and whitespace characters, and with no upper-case letter |
| `TextPreprocessing.RemovePunctuationAppend` | AI/analytics_engine/generate_analytics.py:24 | removing punctuation distributes over concatenation, so order is preserved |
| `TextPreprocessing.RemovePunctuationCounts` | AI/analytics_engine/generate_analytics.py:24 | every letter, digit, underscore and whitespace character survives as often as it occurs, and no other character survives |
| `TextPreprocessing.LowerAppend` | AI/analytics_engine/generate_analytics.py:26 | lower-casing distributes over concatenation |
| `TextPreprocessing.PreprocessTextAppend` | AI/analytics_engine/generate_analytics.py:20-27 | cleaning a concatenation is the concatenation of the cleaned parts |
| `TextPreprocessing.PreprocessTextChar` | AI/analytics_engine/generate_analytics.py:20-27 | one character is kept lower-cased if it is a word or whitespace character, and dropped otherwise |
| `TextPreprocessing.RemovePunctuationOfKept` | AI/analytics_engine/generate_analytics.py:24 | text of word and whitespace characters passes the filter unchanged |
| `TextPreprocessing.LowerOfLower` | AI/analytics_engine/generate_analytics.py:26 | text without upper-case letters is unchanged by lower-casing |
| `TextPreprocessing.PreprocessTextIdempotent` | AI/analytics_engine/generate_analytics.py:20-27 | cleaning twice gives the same as cleaning once |
| `StatusAction.StatusOf` | AI/chatbot_engine/actions/actions.py:58 | `SYSTEM_STATUS.get(app_name.lower(), "Unknown System")`: the result is always one of the table's statuses or "Unknown System" |
| `StatusAction.StatusReply` | AI/chatbot_engine/actions/actions.py:61 | the reply starts "The current status of ", quotes the name exactly as given, follows it with " is: ", and ends with the status and a full stop; the length is that of these four parts |
| `StatusAction.Run` | AI/chatbot_engine/actions/actions.py:46-63 | no events are ever returned; the reply is the prompt exactly when the entity is missing or empty; otherwise the reply quotes the original name with the looked-up status |
| `StatusAction.StatusIsCaseInsensitive` | AI/chatbot_engine/actions/actions.py:58 | names that differ only in letter case get the same status |
| `StatusAction.UnknownUnlessKey` | AI/chatbot_engine/actions/actions.py:34-39 | a name gets a real status exactly when its lower-case form is sap, vpn, email or glpi; every other name gets "Unknown System" |

## Constants and types

These declarations are not functions, so they have no row above.

- `TicketAnalysis.CacheSize` (50) is `CACHE_SIZE` (AI/ai_microservice/main.py:26).
- `TicketAnalysis.DuplicateThreshold` (90 hundredths) is the 0.90 of AI/ai_microservice/main.py:66.
- `TicketAnalysis.AnalysisResult` is the response model of AI/ai_microservice/main.py:32-36. The score is `None` unless the ticket is a duplicate.
- `TextPreprocessing.Cell` is the value passed to `preprocess_text`: text, or anything else (AI/analytics_engine/generate_analytics.py:21-22).
- `StatusAction.SystemStatus` is the `SYSTEM_STATUS` table (AI/chatbot_engine/actions/actions.py:34-39).
- `StatusAction.UnknownSystem` is the lookup default (AI/chatbot_engine/actions/actions.py:58).
- `StatusAction.MissingEntityPrompt` is the question asked when no application is named (AI/chatbot_engine/actions/actions.py:54).
- `StatusAction.ActionName` is the result of `name()` (AI/chatbot_engine/actions/actions.py:43-44).

## Left out

- Model loading, the `exit()` on missing model files, and the `/` and `/health` routes: these are startup and I/O.
- Classification and named-entity recognition: the category and the entity map are inputs of `AnalyzeTicket`.
- Computing embeddings: the vector is an input of `AnalyzeTicket`.
- Cosine similarity: it is the cache's `similarity` function. Its values are exact reals, so float32 tensor arithmetic is not modelled.
- `TicketAnalysis.RecentTicketsCache.AnalyzeTicket`: reports the score in integer hundredths, not as the float nearest to that many hundredths.
- Concurrent requests on the shared cache: the source has no locking, and the model treats requests as strictly sequential.
- `TextPreprocessing.PreprocessText`: is stated only for ASCII text, because Python's Unicode `\w`, `\s` and `str.lower()` are not modelled.
- `TextPreprocessing.RemovePunctuation`: on non-ASCII text it drops characters such as 'é' that Python's `\w` keeps. The same holds for `RemovePunctuationAppend`, `RemovePunctuationCounts` and `RemovePunctuationOfKept`. Only their ASCII behaviour is Python's.
- The rest of the analytics engine: CSV loading, TF-IDF vectorisation, k-means clustering and JSON output are library numerics and file I/O.
- Model training (`AI/ai_microservice/train.py`): this is scikit-learn training and serialisation.
- The main API server (`AI/main_api_server/main.py`): this is HTTP forwarding. Its only logic is a dictionary merge.
- The chatbot framework's tracker and dispatcher: the entity is an `Option<string>`, and the uttered message is the result of `Run`.
- Agent routing, ticket persistence and department fallback: none of these is part of this model.
