# Exam-question indexing service, modelled in Dafny

The service accepts batches of exam-question records over HTTP. For each question it writes a prose
description from a fixed template, asks an embedding provider for a vector, and stores
`(description, question, vector)` in a PostgreSQL `documents` table with a `vector(3072)` column.
A second endpoint turns a free-text query into a vector and returns the contents of the five
nearest stored rows.

This project models the logic of that pipeline. The embedding provider and the database stay
outside it: each reply they could give is an explicit parameter.

- `wrappers.dfy` (`Wrappers`): `Option` and `Result`.
- `jsvalues.dfy` (`JsValues`): parsed JSON values, JavaScript truthiness, `typeof … === 'string'`,
  property reads (which throw on `null`) and the message of a caught value.
- `text.dfy` (`Text`): how a template literal renders an integer, `Array.prototype.join`, and the
  prefix, suffix and substring relations the properties use.
- `questions.dfy` (`Questions`): the `Question` record, the description template as a pure
  function `Description`, and `BuildDescription`, the `+=` sequence the loop runs. Lemmas give
  the order and presence of each sentence.
- `documents.dfy` (`Documents`): the `documents` table as a class `DocumentStore`. Its fields are
  the extension flag, the table flag and the row sequence. Its methods are the bootstrap
  (`initDB`), the `INSERT` and the nearest-neighbour `SELECT`.
- `batches.dfy` (`Batches`): the bookkeeping of a batch. Each item either stored a row or produced
  an error line. `Rows`, `Errors` and `IndexedCount` collect them in input order, and `Summary` is
  the flow's `{ indexedCount, errors }`.
- `indexing.dfy` (`Indexing`): the `indexQuestions`, `embedAndStore` and `retrieveContext` flows.
  The batch loop is proved against the pure per-item function `ItemOutcome` and the summaries
  from `Batches`.
- `server.dfy` (`Server`): the two HTTP handlers as pure functions. They normalise the body, and
  the flow they call is passed in as a function.

Facts about the code that the model follows:
- Every description comes from the fixed template in src/index.ts:214-230.
- Retrieval returns the `content` column of the nearest rows (src/index.ts:161,165).
- The image sentence needs a non-empty `imageDescription`, because `""` is falsy.
- An empty `options` array still produces the multiple-choice sentence, because `[]` is truthy.

## Model

| member | source | states |
|---|---|---|
| `Text.IntToStringRoundTrip` | src/index.ts:215-216 | the rendering of `class`, `year` and `mark` reads back as the same integer |
| `Text.IntToStringInjective` | src/index.ts:215-216 | different integers render as different texts |
| `Text.IntToString` | src/index.ts:215-216 | `${n}` of an integer is a non-empty string of decimal digits, with a leading minus sign exactly for a negative value |
| `Text.JoinShape` | src/index.ts:219 | `options.join(', ')` is empty for no options; otherwise it starts with the first option, ends with the last, and its length is the offset of the last option plus that option's length |
| `Text.JoinLayout` | src/index.ts:219 | in `items.join(sep)` every item occurs at its offset (the lengths of all earlier items plus one separator each), and `sep` occurs right after every item but the last |
| `JsValues.Truthy` | src/server.ts:15 | truthiness as `\|\|` and `if` use it: `undefined`, `null`, `false`, `0` and `""` are falsy; every other value is truthy |
| `JsValues.FalsyValues` | src/index.ts:218 | a value is falsy exactly when it is `undefined`, `null`, `false`, `0` or `""`, so an empty array or object is truthy |
| `JsValues.Message` | src/index.ts:249 | `error instanceof Error ? error.message : String(error)`: an `Error`'s message, or the string form of any other thrown value |
| `JsValues.Get` | src/server.ts:32 | reading a property throws exactly when the value is `null`; otherwise it yields the object's own field or `undefined` |
| `Questions.Description` | src/index.ts:214-230 | the description is the heading sentences, the kind sentence, the optional image sentence and the optional repeat note, in that order |
| `Questions.BuildDescription` | src/index.ts:214-230 | appending the sentences one at a time with `+=` yields exactly `Description(q)` |
| `Questions.DescriptionOpening` | src/index.ts:214-216 | the description begins with `Question: "` + question + `"\n`, then the difficulty/subject/class/board/year sentence, then the topic/mark sentence |
| `Questions.KindSentenceShape` | src/index.ts:218-222 | the kind sentence starts with the multiple-choice lead exactly for an MCQ with options and with the descriptive sentence otherwise, and the two leads differ |
| `Questions.KindFollowsHeading` | src/index.ts:218-222 | right after the heading comes `It is a Multiple Choice Question with options: ` + options joined by `", "` + `. ` when `isMcq` holds and `options` is non-null, and `It is a descriptive question. ` otherwise; exactly one of the two appears |
| `Questions.ImageAndRepeatShape` | src/index.ts:224-230 | the image sentence opens with its lead when shown and is empty otherwise; the repeat sentence is empty or the note |
| `Questions.ImageFollowsKind` | src/index.ts:224-226 | `It includes an image described as: "…". ` follows the kind sentence exactly when `containsImages` holds and `imageDescription` is non-null and non-empty |
| `Questions.RepeatedNoteIsLast` | src/index.ts:228-230 | the description ends with `This question has appeared in previous exams.` exactly when `isRepeated` holds |
| `Questions.EitherOrIgnored` | src/index.ts:178-194 | `isEitherOr` and `otherQuestion` never change the description |
| `Questions.McqOptionsExample` | src/index.ts:218-219 | an MCQ with options `["A", "B"]` contains `Multiple Choice Question with options: A, B` |
| `Questions.EmptyOptionsStillMcq` | src/index.ts:218-219 | an empty options array is truthy, so the MCQ sentence appears with an empty list |
| `Questions.EmptyImageDescriptionOmitted` | src/index.ts:224-226 | an empty image description is falsy, so no image sentence appears |
| `Documents.DimensionError` | src/index.ts:101 | a vector is refused by the `vector(3072)` column exactly when its length is not 3072 |
| `Documents.InsertError` | src/index.ts:242-245 | an insert succeeds exactly when the database reports no fault, the table exists and the vector has 3072 entries; a database fault is the error raised |
| `Documents.Limited` | src/index.ts:161 | `LIMIT 5` returns five rows, or every row when fewer than five exist |
| `Documents.DocumentStore.InitDB` | src/index.ts:94-103 | the extension is created before the table, each only if absent; the first failing statement's error is raised; no row is lost; the bootstrap count goes up by one |
| `Documents.DocumentStore.Insert` | src/index.ts:242-245 | the row is appended exactly when no error is raised, and the rows are unchanged otherwise; every stored vector keeps the column width |
| `Documents.DocumentStore.SelectNearest` | src/index.ts:160-165 | returns the contents of the first `min(5, rows)` rows in ranking order, or the database's error, or the missing-table error |
| `Indexing.FailureLine` | src/index.ts:249 | the error line starts with `Failed to index "` + question + `": ` and ends with the caught value's message |
| `Indexing.Store` | src/index.ts:122-135 | storing succeeds exactly when the provider returned a vector and the insert raised nothing; a rejected embed rethrows its error; an absent embedding raises `No embedding returned` and inserts nothing |
| `Indexing.ItemOutcome` | src/index.ts:212-250 | a successful item stores `(description, question, vector)`; a failed item's line is `Failed to index "` + question + `": ` + the message of the error thrown: the provider's rejection, `No embedding returned`, or the insert's error |
| `Indexing.Outcomes` | src/index.ts:211-251 | the loop yields exactly one outcome per question |
| `Indexing.OtherItemsUnaffected` | src/index.ts:211-251 | whatever the provider and the database answer for one question, every other question's outcome is unchanged |
| `Batches.FailedItemAddsOnlyItsLine` | src/index.ts:247-250 | a failed item adds its error line and nothing else: the rows and count are those of the items before it followed by those after it |
| `Indexing.FailureIsolated` | src/index.ts:211-251 | in a batch, a failed question's rows and count are those of the questions before it and after it, as if it were absent |
| `Batches.Partition` | src/index.ts:206-253 | `indexedCount + errors.length` equals the number of items, and exactly one row is stored per success |
| `Batches.AppendOutcomes` | src/index.ts:211-251 | the rows, error lines and count of a batch are those of its first part followed by those of the rest, so later items never remove what earlier ones produced |
| `Batches.ErrorsFollowInput` | src/index.ts:247-250 | the k-th error line is the message of the k-th failed item; the failed positions ascend and include every failed item |
| `Indexing.BatchAccountsForEveryQuestion` | src/index.ts:205-254 | the flow's `indexedCount` plus the number of `errors` equals the number of input questions |
| `Indexing.SecondOfThreeFails` | src/index.ts:211-251 | in a batch of three whose second embedding is absent, the count is 2, the only error names question 2, and the first and third rows are stored |
| `Indexing.IndexOne` | src/index.ts:212-250 | one loop pass reports success exactly when the item's outcome is a stored row, and then appends exactly that row; otherwise it yields the item's error line and leaves the rows unchanged |
| `Indexing.IndexAll` | src/index.ts:211-251 | after the loop, `indexedCount` and `errors` are the batch summary of the items' outcomes, and the rows have gained exactly the successful items' rows in input order |
| `Indexing.IndexQuestions` | src/index.ts:205-254 | `initDB` runs once, before the loop, and leaves the extension and the table created unless its statements fail; if it fails, that error is raised and no item is processed; otherwise the result is the batch summary and the rows gain exactly the successful items' rows, in order |
| `Indexing.MetadataOrEmpty` | src/index.ts:134 | absent metadata is stored as `{}` and present metadata unchanged |
| `Indexing.EmbedAndStore` | src/index.ts:114-141 | bootstraps the schema (the extension and the table exist afterwards unless their statements fail), then stores `(text, metadata or {}, vector)` and returns true; an absent embedding raises `No embedding returned` without inserting; every error is rethrown |
| `Indexing.RetrieveContext` | src/index.ts:150-170 | a rejected embed is rethrown; an absent embedding raises `No embedding returned for query`; a database error, or the missing table's error, is rethrown unchanged; otherwise the result is at most five contents, nearest first, and empty for an empty table |
| `Server.AsString` | src/server.ts:43 | `typeof data === 'string'` holds exactly for a string value |
| `Server.ExtractQuery` | src/server.ts:29-49 | extraction throws exactly when the body is `null`, with the TypeError for reading `data` |
| `Server.FirstStringFinds` | src/server.ts:32-45 | the priority search finds nothing exactly when no place holds a string, and otherwise returns the string of the earliest place holding one |
| `Server.ExtractIsFirstString` | src/server.ts:32-48 | for a non-null body the query is the first string among `body.data`, `body.query`, `body.text`, the body itself, then `query` and `text` of `body.data \|\| body`; the result is a 400 exactly when there is none |
| `Server.NestedStringUnreachable` | src/server.ts:43 | the nested `typeof data === 'string'` test never decides: for a non-null body whose `data` is not a string and which is not a string itself, `data \|\| body` is never a string |
| `Server.ExtractPriority` | src/server.ts:32-37 | a string `data` wins over `query`, which wins over `text` |
| `Server.NestedQueryBeforeText` | src/server.ts:42-45 | inside the `data` wrapper, a string `query` wins over a string `text` |
| `Server.ExtractExamples` | src/server.ts:32-48 | `{data:"x"}`, `{query:"x"}`, `{text:"x"}` and `"x"` all yield `"x"`; `{foo:1}` yields no query |
| `Server.Respond` | src/server.ts:53-63 | a flow's result is sent with status 200; a thrown error becomes status 500 with `{error: message}` |
| `Server.SummaryJson` | src/server.ts:18 | the summary is sent as an object with exactly the keys `indexedCount` and `errors`, the count as a number and the error lines as an array of strings in order |
| `Server.StringsJson` | src/server.ts:54 | the result list is sent as a JSON array of the same strings in the same order |
| `Server.RetrieveHandler` | src/server.ts:25-65 | the status is 400 exactly when no query is found, and the body is then the exact `Could not determine query string…` message; a found query goes to retrieval and its result or error is sent; a thrown TypeError becomes a 500 |
| `Server.RetrievalNotInvokedOnBadRequest` | src/server.ts:46-48 | when no query is found, the reply does not depend on the retrieval flow at all |
| `Server.QueryPassedUnchanged` | src/server.ts:53 | the reply depends on the retrieval flow only through its answer for the extracted query |
| `Server.IndexInput` | src/server.ts:15 | `req.body.data \|\| req.body` gives `data` when it is truthy and the body otherwise, and throws on a `null` body |
| `Server.IndexHandler` | src/server.ts:12-23 | the status is 200 or 500; the flow runs on the unwrapped input; its summary is sent on success and `{error: message}` with 500 on failure |
| `Server.WrappedAndBareBatchesAgree` | src/server.ts:14-15 | `{data: [...]}` and the bare `[...]` get the same reply |

## Left out

- The embedding provider (`ai.embed`, the Gemini model set-up) is an oracle. Each call's reply is a parameter: a rejection, or the first result's vector, or nothing.
- The database connection pool is modelled as the `DocumentStore` object. Each statement's connectivity or constraint failure is a parameter. Concurrent requests sharing the pool are not modelled.
- Vector entries are floats in the source and integers here. `JSON.stringify` of the vector and the `::vector` cast are not modelled.
- The distance ranking of `ORDER BY embedding <=> $1` is computed by the database. It is a parameter listing the row indices nearest first.
- Documents.DocumentStore.SelectNearest: pgvector's checks on the query vector (empty, or a different width) are folded into the fault parameter.
- The `id SERIAL` column is not modelled.
- zod validation of the flows' inputs is not modelled. `IndexHandler` takes the indexing flow as a function from the unwrapped JSON to its outcome.
- Server.Respond: the `stack` field of the 500 reply from `/retrieveContext` is not modelled.
- JavaScript numbers are integers here. `NaN` and fractional values of `class`, `year` and `mark` are not modelled.
- Text.IntToString: always renders plain decimal digits. A template literal renders an integral number of magnitude 10^21 or more in exponent form (`1e+21`), and that case is not modelled.
- The JSON body parser in strict mode rejects a bare JSON string before the `/retrieveContext` handler runs. The handler's own branch for a string body is modelled as written.
- Express set-up, CORS, the body-size limit, `app.listen` and all console logging are transport or I/O, and are left out.
- The commented-out PDF indexing code is not modelled, because it is dead.
- src/verify_retrieval.ts only calls the live retrieval flow and prints the result, so it is not part of this model.
