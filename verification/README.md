# Chat-history exporter: turn reconstruction and row aggregation

This project models the core of a small exporter. The exporter reads chat
sessions from an agent-management API and flattens them into one table, with
one row per conversational turn.

- **Turn reconstruction** (`Turns`). Each session's ordered message list is
  cut into turns according to its agent's category:
  - `general`: (user, assistant) pairs starting at index 0;
  - `prompt`: a session-wide system message, then (user, assistant) pairs;
  - `rag`: a system message, then (user, retrieved text, assistant) triples.

  Every turn becomes five fields: timestamp, system, user, rag and assistant
  text. Fields that do not apply are `None`.
- **Aggregation** (`Parser`). The loop of `parse` dispatches on the category
  string and skips sessions of any other category. It prefixes each turn with
  seven agent and session values (agent name, type, category, description,
  source text, session name, creator name). It concatenates the rows session
  by session.
- **Session selection** (`SessionHandler`). The sessions created strictly
  after a bound are kept, in order. Separately, sessions can be sorted stably
  by one of their keys.

Messages, agents and sessions are immutable datatypes (`Records`). Python's
`None` is `Option.None`. An operation that can raise is modelled as a
`Result` (`Wrappers`). Reading past the end of the message list and reading
`content[0]` of an empty content list both raise `IndexError` in the source.
The model has a single error value, `ParseError.IndexError`, for both.

A malformed message list therefore fails; it is never silently truncated. An
incomplete last group is not dropped: the loop indexes past the end and raises
`IndexError` (src/parser.py:66, 98, 129-132). The failing cases are:
- a `general` list of odd length;
- a `prompt` list of even length of at least 2;
- a `rag` list of length at least 1 whose length minus one is not a multiple of 3.

## Model

| member | source | states |
|---|---|---|
| Turns.GeneralRowsFrom | src/parser.py:57-75 | The `general` loop from a start index succeeds exactly when the remaining length is even and every remaining message has content; it then yields half the remaining length in rows |
| Turns.GeneralRowsFromShape | src/parser.py:57-69 | Row i of the `general` loop from `start` has the timestamp and first text of message start+2i as user, that of start+2i+1 as assistant, and no system or rag text |
| Turns.ParseGeneralMessages | src/parser.py:50-77 | Succeeds iff the list has even length and every message has content; then it has length/2 rows, row i built from messages 2i (user, timestamp) and 2i+1 (assistant), with system and rag None |
| Turns.GeneralUsesEveryMessage | src/parser.py:57-69 | In a parsed `general` list every message k is carried by row k/2: as its user when k is even, as its assistant when k is odd |
| Turns.PromptRowsFrom | src/parser.py:87-107 | The `prompt` loop from a start index of at least 1 succeeds exactly when it does not start a pair it cannot finish, message 0 has content whenever a row is built, and every remaining message has content; the row count is half the remaining length |
| Turns.PromptRowsFromShape | src/parser.py:87-100 | Row i of the `prompt` loop from `start` has message 0's text as system, message start+2i as user and timestamp, message start+2i+1 as assistant, and no rag text |
| Turns.ParsePromptMessages | src/parser.py:79-109 | Succeeds iff the length is 0 or odd, message 0 has content when the length exceeds 1, and every later message has content; then it has (length-1)/2 rows, each sharing message 0's text as system, row i taking user and timestamp from 1+2i and assistant from 2+2i, rag None; message 0 is never a user or assistant |
| Turns.PromptUsesEveryMessage | src/parser.py:87-100 | In a parsed `prompt` list every message k >= 1 is the user (k odd) or assistant (k even) of row (k-1)/2 |
| Turns.RagRowsFrom | src/parser.py:119-141 | The `rag` loop from a start index of at least 1 succeeds exactly when the remaining length is a multiple of 3, message 0 has content whenever a row is built, and every remaining message has content; the row count is a third of the remaining length |
| Turns.RagRowsFromShape | src/parser.py:119-134 | Row i of the `rag` loop from `start` has message 0 as system and messages start+3i, start+3i+1, start+3i+2 as user (and timestamp), rag and assistant, all present |
| Turns.ParseRagMessages | src/parser.py:111-143 | Succeeds iff the length is 0 or one more than a multiple of 3 and every message read has content; then it has (length-1)/3 rows with all four texts present: system from message 0, user, rag and assistant from 1+3i, 2+3i, 3+3i |
| Turns.RagUsesEveryMessage | src/parser.py:119-134 | In a parsed `rag` list every message k >= 1 is the user, rag or assistant text of row (k-1)/3 according to (k-1) mod 3 |
| Parser.CategoryOf | src/parser.py:174-184 | A category string selects a layout exactly when it is that layout's name ("prompt", "general", "rag"); any other string selects none |
| Parser.ParseMessages | src/parser.py:174-179 | Every turn of a layout has user and assistant text; `general` turns have neither system nor rag, `prompt` turns have system but no rag, `rag` turns have both |
| Parser.Decorate | src/parser.py:186-199 | Prefixing keeps the number and order of turns, every row carrying the given metadata and its turn unchanged |
| Parser.SessionRows | src/parser.py:174-199 | A session of an unsupported category contributes no rows and no error; otherwise it fails exactly when its reconstruction fails, else row j is the session's seven metadata values followed by turn j |
| Parser.MergeRows | src/parser.py:158-202 | When the table is built, its length is the total number of turns of the sessions of supported categories |
| Parser.MergeRowsSucceeds | src/parser.py:158-202 | The table is built exactly when every session reconstructs; a session of an unsupported category never blocks it |
| Parser.MergeRowsProvenance | src/parser.py:186-199 | Every row of the table is a turn of some input session of a supported category and carries that session's metadata |
| Parser.MergeRowsConcat | src/parser.py:158-202 | The table of two session lists in sequence is the first table followed by the second: rows appear session by session in input order |
| Parser.UnsupportedSessionSkipped | src/parser.py:180-184 | A session whose category is unsupported adds nothing and processing continues with the following sessions |
| Parser.MergeRowsFailsAt | src/parser.py:174-179 | One session that fails to reconstruct makes the whole run fail |
| Parser.Parse | src/parser.py:151-202 | The run fails exactly when some session created strictly after the start and of a supported category fails to reconstruct; every row comes from a session created strictly after the start |
| Parser.AppendTurnRows | src/parser.py:186-202 | The inner loop appends exactly the session's prefixed turns, in order, after the existing table |
| Parser.MergeRowsLoop | src/parser.py:158-202 | The loop as written (skip with `continue`, abort on an error, append row by row) builds the same table as the fold `MergeRows` |
| SessionHandler.SortedSessions | src/session_handler.py:55-58 | The result is a permutation of the sessions, non-decreasing in the key under Python string order, and stable: for every key value the sessions carrying it keep their relative order |
| SessionHandler.SessionsCreatedAfter | src/session_handler.py:60-65 | The kept sessions are a subsequence of the input and each was created strictly after the bound |
| SessionHandler.SessionsCreatedAfterKeepsAll | src/session_handler.py:60-65 | Every session created strictly after the bound is kept as often as it occurs, and no other session is kept |

## Left out

- HTTP access is not modelled: every `requests` call, `return_json_or_raise_exception`, `get_session`, `get_messages`, `create_session` and `delete_session`. These are network I/O against a remote API.
- `get_sessions` is not modelled; its result is the `sessions` parameter.
- `src/agent_handler.py` is not modelled. `get_agent` is the `getAgent` parameter, a function from agent id to `Agent`. Its transport and JSON failures are left out.
- `dateutil.parser.parse` is not modelled; it is the `parseTime` parameter, mapping a timestamp string to an instant. Unparsable strings, and comparing timezone-naive with timezone-aware instants (both raise in Python), are left out.
- SessionHandler.SortedSessions: the `sorted_by` lookup is the `key` parameter and is assumed to yield a string, compared in Python's code-point order. A missing key (`KeyError`) and non-string keys are left out.
- Missing JSON keys are not modelled. In Python, `dict.get` then returns `None` instead of a value. Every message here has a `timestamp`, every content element a `text`, and every agent and session field is a string. A missing category would be skipped like any unsupported string.
- Only the `text` of a content element is modelled, because nothing else of it is read.
- Pandas mechanics are not modelled: DataFrame construction, the quadratic `concat`, index numbering, and how pandas stores `None` (possibly as `NaN`). The table is a `seq` of `ExportRow`, and each row's five turn fields are kept as one `Turn`.
- Writing the file is not modelled (`src/parser.py:204-219`): directory creation, the `.csv`/`.xlsx` choice, the writers, and the date-based sheet name. This is filesystem and clock I/O.
- Logging, progress bars, the constructors' default credentials, the default `start_datetime` and the `__main__` blocks are not modelled.
