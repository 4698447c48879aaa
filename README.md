# Meandre Fedora components in Dafny

This project models the components of the Meandre Fedora toolkit that hold
logic of their own beyond a single remote call:

- **GetWorkObjects** and **GetCollectionObjects**, the two paginated
  collectors. Each runs a field search (`findObjects`), then follows
  list-session tokens through `resumeFindObjects`. Each page's (pid, title)
  pairs become `CorpusObject`s in a list that is pushed once.
  GetWorkObjects keeps only the pids that start with the
  `collection_pattern` property and uses a nested loop. GetCollectionObjects
  keeps every record and uses one guarded loop.
- **GetCollectionsComponent**. It parses the initial list capacity, falling
  back to 100, and turns the super-collection PID into an `info:` URI. It
  then builds the iTQL query and its parameter map, flattens the tuple rows
  returned by `getTuples`, and pushes the list and the URI.
- **DeleteObject** (two identical copies). It reads the `forced` property
  as "true" or "false" ignoring case, and fails on any other value. It then
  calls `purgeObject` and pushes the purge time to `delete_time`.
- **IngestSingleObject** (two identical copies). `pipeStream` copies an
  input stream to an output stream through a reused buffer, then closes
  both in `finally`. `execute` copies the file into memory with a
  4096-byte buffer, ingests the bytes, and pushes the new pid.
- **CorpusObject**, the mutable (pid, title) record the collectors build.

## How the model is built

- Every remote call is a function-typed parameter (an oracle) that returns
  `None` when the Java call throws. This covers `findObjects`,
  `resumeFindObjects`, `getTuples`, `purgeObject` and `ingest`.
- `PID.toURI` is a total function parameter `string -> string`: the model
  gives it no failure case.
- `resumeFindObjects` also receives the number of resume calls made before
  it. Because of that, a token that failed once can succeed when retried,
  which is how the collectors behave.
- Both collectors can loop forever when resuming keeps failing. Each
  `Execute` therefore takes a `fuel` bound on the number of resume calls,
  and its result is `StillLooping` when that bound runs out.
- The resume calls the loops make are described by the functions
  `GetCollectionObjects.Resumes` and `GetWorkObjects.Resumes`. Each returns
  the trace of (token, reply) calls and whether the loop halted. The
  imperative `Execute` methods are proved to make exactly those calls and
  to push exactly the records the trace delivers. Lemmas about the traces
  state the rest:
  - which token each call uses
  - when the loops stop
  - which records are pushed, and in what order.
- `CorpusObject`, the input stream and the ByteArrayOutputStream are classes
  whose fields the methods update in place.
- Exceptions that leave `execute` are `Meandre.Thrown` values.
  - DeleteObject, IngestSingleObject and the two collectors have a
    catch-all. It wraps every failure the model raises in a
    ComponentExecutionException (`ComponentExecution(cause)`).
  - GetCollectionsComponent has no catch-all. It catches only the
    IOException and TrippiException of `getTuples` and of the tuple
    iterator, and rethrows each as a ComponentExecutionException.
  - The IllegalArgumentException from `new ArrayList(n)` with a negative
    capacity is raised outside that `try`. It escapes unwrapped
    (`IllegalArgument`).

### Behaviour worth noting

- **Resume failures are swallowed, not fatal.** Both collectors catch the
  failure (`catch (Throwable th1)`) and keep what they have gathered.
  GetCollectionObjects retries the same token on its next iteration.
  GetWorkObjects returns to its outer loop. That loop retries the same
  token if the current page is non-empty, and otherwise pushes the list.
- **The two collectors stop on different rules.**
  - GetCollectionObjects stops at the first page that is empty or has no
    token (`GetCollectionObjects.StopRule`).
  - GetWorkObjects checks emptiness only at its outer loop head. Its inner
    loop follows any page that carries a session, even an empty one
    (`GetWorkObjects.StopRule`, `GetWorkObjects.EmptyPageWithSessionIsFollowed`).

## Model


| member | source | states |
|---|---|---|
| Support.CorpusObject.constructor | src-fedora/code/org/meandre/components/fedora/support/CorpusObject.java:6-10 | the default constructor leaves both the pid and the title null |
| Support.CorpusObject.WithPid | src-fedora/code/org/meandre/components/fedora/support/CorpusObject.java:12-15 | the pid constructor stores the pid and leaves the title null; the pid is a constant, since there is no setter for it |
| Support.CorpusObject.GetFedoraPid | src-fedora/code/org/meandre/components/fedora/support/CorpusObject.java:17-20 | `getFedoraPid` returns the pid given to the constructor, or null |
| Support.CorpusObject.GetTitle | src-fedora/code/org/meandre/components/fedora/support/CorpusObject.java:27-28 | `getTitle` returns the title last set, or null |
| Support.CorpusObject.SetTitle | src-fedora/code/org/meandre/components/fedora/support/CorpusObject.java:22-28 | afterwards `getTitle` returns the new title; the pid cannot change |
| FieldSearch.FromFields | src-fedora/code/org/meandre/components/fedora/GetWorkObjects.java:132-133 | a CorpusObject built from a result entry carries that entry's pid and title |
| FieldSearch.AppendAll | src-fedora/code/org/meandre/components/fedora/GetCollectionObjects.java:129-135 | the per-page loop appends one object per record, in page order, after those already in the list |
| FieldSearch.AppendMatching | src-fedora/code/org/meandre/components/fedora/GetWorkObjects.java:129-138 | the per-page loop appends, in page order, exactly the records whose pid starts with the pattern |
| FieldSearch.NextToken | src-fedora/code/org/meandre/components/fedora/GetWorkObjects.java:155-158 | the call after a successful resume passes the new page's token; the call after a failed one retries the same token |
| FieldSearch.GatheredMembers | src-fedora/code/org/meandre/components/fedora/GetCollectionObjects.java:154-161 | a record is gathered exactly when some resume call delivered it |
| FieldSearch.Filter | src-fedora/code/org/meandre/components/fedora/GetWorkObjects.java:134-137 | the `startsWith` filter keeps no more records than it is given, and every record it keeps has a pid starting with the pattern |
| FieldSearch.FilterAppend | src-fedora/code/org/meandre/components/fedora/GetWorkObjects.java:160-168 | filtering page after page equals filtering all the pages together, in order |
| FieldSearch.FilterMembers | src-fedora/code/org/meandre/components/fedora/GetWorkObjects.java:134-137 | a record is kept exactly when it is in the input and its pid starts with the pattern |
| FieldSearch.FilterKeepsMatching | src-fedora/code/org/meandre/components/fedora/GetWorkObjects.java:165-168 | records that all match the pattern are all kept, in their own order |
| GetCollectionObjects.CollectionQuery | src-fedora/code/org/meandre/components/fedora/GetCollectionObjects.java:121-124 | the search asks for the pid and title fields, at most 10000 results, with the pattern as the search terms and the single condition `pid eq true` |
| GetCollectionObjects.Execute | src-fedora/code/org/meandre/components/fedora/GetCollectionObjects.java:121-180 | a failed first search raises a ComponentExecutionException; otherwise the pushed list holds every record of the first page and of each delivered page, in fetch order, for the resume calls the loop makes; when the allowance of calls runs out the component is still looping |
| GetCollectionObjects.Resumes | src-fedora/code/org/meandre/components/fedora/GetCollectionObjects.java:137-168 | the loop's calls extend the calls already made by at most the allowance, and use all of it when the loop has not halted |
| GetCollectionObjects.ResumeOnce | src-fedora/code/org/meandre/components/fedora/GetCollectionObjects.java:154-166 | one resume call: its reply is recorded, a failure leaves the list as it was, and the list stays one object per collected record |
| GetCollectionObjects.ResumesFollowTokens | src-fedora/code/org/meandre/components/fedora/GetCollectionObjects.java:144-154 | from any point of the loop, every later resume call passes the token of the page held just before it |
| GetCollectionObjects.TokensFollowed | src-fedora/code/org/meandre/components/fedora/GetCollectionObjects.java:139-154 | every resume call passes the token of the most recent page, so a failed token is retried |
| GetCollectionObjects.ResumesStopRule | src-fedora/code/org/meandre/components/fedora/GetCollectionObjects.java:141-151 | from any point of the loop, a call is made exactly while the current page is non-empty and has a session |
| GetCollectionObjects.StopRule | src-fedora/code/org/meandre/components/fedora/GetCollectionObjects.java:141-154 | a call is made exactly while the current page is non-empty and has a session; the loop halts at the first page where that fails, otherwise it uses up its allowance; every reply recorded in the trace is `resumeFindObjects`' answer to that call's token |
| GetCollectionObjects.FirstPageOnly | src-fedora/code/org/meandre/components/fedora/GetCollectionObjects.java:137-168 | without a session on the first page, no resume call is made and exactly the first page is pushed |
| GetCollectionObjects.CollectedMembers | src-fedora/code/org/meandre/components/fedora/GetCollectionObjects.java:155-161 | a record is pushed exactly when the first page or a delivered page holds it: there is no filter |
| GetWorkObjects.WorkQuery | src-fedora/code/org/meandre/components/fedora/GetWorkObjects.java:117-123 | the search asks for the pid and title fields, at most 10000 results, with the terms `*` and the single condition `* eq true`; the pattern is not part of it |
| GetWorkObjects.Execute | src-fedora/code/org/meandre/components/fedora/GetWorkObjects.java:113-190 | a failed search raises a ComponentExecutionException; a first page without a session raises one too (the unguarded `getToken`); otherwise the pushed list is exactly the records of the first page and of each delivered page whose pid starts with the pattern, in fetch order |
| GetWorkObjects.ExecuteGuarded | src-fedora/code/org/meandre/components/fedora/GetWorkObjects.java:127-179 | with the first session guarded, a failed search still raises, and every other outcome pushes the filtered records of the trace, including a single-page result |
| GetWorkObjects.GuardedSinglePage | src-fedora/code/org/meandre/components/fedora/GetWorkObjects.java:140-142 | with the guard, a sessionless first page makes no resume call and pushes that page filtered by the pattern |
| GetWorkObjects.FollowPages | src-fedora/code/org/meandre/components/fedora/GetWorkObjects.java:141-179 | the outer loop, started from the first page's filtered list, pushes the filtered records of exactly the calls the trace makes |
| GetWorkObjects.FollowSession | src-fedora/code/org/meandre/components/fedora/GetWorkObjects.java:153-177 | the inner loop and its swallowed failure carry out at least one step of the trace, keep the list equal to the filtered records so far, and return to the outer loop head |
| GetWorkObjects.ResumeOnce | src-fedora/code/org/meandre/components/fedora/GetWorkObjects.java:158-169 | one resume call: its reply is recorded, a failure leaves the list as it was, and the list stays the matching records collected so far |
| GetWorkObjects.Resumes | src-fedora/code/org/meandre/components/fedora/GetWorkObjects.java:140-178 | the loops' calls extend the calls already made by at most the allowance, and use all of it when the loops have not halted |
| GetWorkObjects.EitherHead | src-fedora/code/org/meandre/components/fedora/GetWorkObjects.java:142-155 | on a non-empty or sessionless page the outer and inner loop heads decide alike |
| GetWorkObjects.ResumesFollowTokens | src-fedora/code/org/meandre/components/fedora/GetWorkObjects.java:155-158 | from any point of the loops, every later resume call passes the token of the page held just before it |
| GetWorkObjects.TokensFollowed | src-fedora/code/org/meandre/components/fedora/GetWorkObjects.java:145-158 | every resume call passes the token of the most recently fetched page, so a failed token is retried |
| GetWorkObjects.ResumesStopRule | src-fedora/code/org/meandre/components/fedora/GetWorkObjects.java:142-171 | from any point of the loops, a call is made exactly while the page has a session and, at the outer head, is non-empty |
| GetWorkObjects.StopRule | src-fedora/code/org/meandre/components/fedora/GetWorkObjects.java:142-171 | a call is made exactly while the page has a session and, at the outer loop head, is non-empty; the loops halt at the first state where that fails; every reply recorded in the trace is `resumeFindObjects`' answer to that call's token |
| GetWorkObjects.EmptyPageWithSessionIsFollowed | src-fedora/code/org/meandre/components/fedora/GetWorkObjects.java:155-171 | once resumption has started, a delivered page with a session is always followed by another call, even when it is empty |
| GetWorkObjects.EmptyFirstPage | src-fedora/code/org/meandre/components/fedora/GetWorkObjects.java:142-179 | from an empty first page the loops make no resume call and the pushed list is empty; under `Execute` this holds for an empty first page that carries a list session (without one, `Execute` raises at line 140), and under `ExecuteGuarded` for any empty first page |
| GetWorkObjects.MatchingMembers | src-fedora/code/org/meandre/components/fedora/GetWorkObjects.java:129-169 | a record is pushed exactly when its pid starts with the pattern and the first page or a delivered page holds it |
| GetCollectionsComponent.ParseInt | src-fedora/code/org/meandre/components/fedora/GetCollectionsComponent.java:105-106 | `Integer.parseInt` yields only 32-bit values |
| GetCollectionsComponent.ParseIntRoundTrip | src-fedora/code/org/meandre/components/fedora/GetCollectionsComponent.java:106 | every int written out in decimal parses back to itself |
| GetCollectionsComponent.InitialCapacity | src-fedora/code/org/meandre/components/fedora/GetCollectionsComponent.java:104-109 | the capacity is always a 32-bit int, the parsed property or 100 |
| GetCollectionsComponent.CapacityOfProperty | src-fedora/code/org/meandre/components/fedora/GetCollectionsComponent.java:103-109 | a numeric property is the capacity; an empty one, or one that does not end in a digit, gives 100 |
| GetCollectionsComponent.SuperCollectionUri | src-fedora/code/org/meandre/components/fedora/GetCollectionsComponent.java:116-118 | an object already starting with `info:` is kept; any other goes through `PID.toURI` |
| GetCollectionsComponent.SuperCollectionUriIdempotent | src-fedora/code/org/meandre/components/fedora/GetCollectionsComponent.java:116-118 | when `PID.toURI` yields `info:` URIs, the object is one afterwards and converting it again leaves it unchanged |
| GetCollectionsComponent.ItqlQuery | src-fedora/code/org/meandre/components/fedora/GetCollectionsComponent.java:120-132 | the query starts with `select $s from <#ri> where $s <` and has room for exactly the predicate, the object and the fixed text |
| GetCollectionsComponent.QueryRoundTrip | src-fedora/code/org/meandre/components/fedora/GetCollectionsComponent.java:120-132 | the query has the `select $s from <#ri> where $s <p> <o>;` shape, from which the predicate and the object are read back when the predicate has no `>` |
| GetCollectionsComponent.Params | src-fedora/code/org/meandre/components/fedora/GetCollectionsComponent.java:134-137 | the parameter map has exactly the keys lang, flush and query, bound to itql, true and the query |
| GetCollectionsComponent.FlattenMembers | src-fedora/code/org/meandre/components/fedora/GetCollectionsComponent.java:141-148 | a string is listed exactly when some tuple row holds it |
| GetCollectionsComponent.Flatten | src-fedora/code/org/meandre/components/fedora/GetCollectionsComponent.java:141-148 | the list holds as many strings as all rows together |
| GetCollectionsComponent.CollectRows | src-fedora/code/org/meandre/components/fedora/GetCollectionsComponent.java:142-149 | the iterator loop lists every value of every row, rows in iterator order, exactly as Flatten does |
| GetCollectionsComponent.Execute | src-fedora/code/org/meandre/components/fedora/GetCollectionsComponent.java:99-161 | a negative capacity throws IllegalArgumentException unwrapped; a failing `getTuples` or iterator raises a ComponentExecutionException with nothing pushed; otherwise the flattened rows are pushed, then the object URI |
| DeleteObject.ParseForced | src/org/seasr/meandre/components/fedora/DeleteObject.java:160-165 | the flag is true exactly when the property is "true" ignoring case, false exactly when it is "false" ignoring case, and invalid otherwise |
| DeleteObject.SameIgnoringCase | src-fedora/code/org/meandre/components/fedora/DeleteObject.java:173-176 | `compareToIgnoreCase(...) == 0` holds exactly when the strings have the same length and, position by position, the same case-folded character |
| DeleteObject.SameIgnoringCaseIsLower | src-fedora/code/org/meandre/components/fedora/DeleteObject.java:173-176 | `compareToIgnoreCase` finds two strings equal exactly when their case-folded forms are equal |
| DeleteObject.ParseForcedRoundTrip | src-fedora/code/org/meandre/components/fedora/DeleteObject.java:173-178 | "true" and "false" read back as the flag they spell |
| DeleteObject.ParseForcedSeesFolded | src/org/seasr/meandre/components/fedora/DeleteObject.java:160-163 | any spelling of the property parses as its case-folded form does |
| DeleteObject.Execute | src-fedora/code/org/meandre/components/fedora/DeleteObject.java:164-195 | an invalid flag raises a ComponentExecutionException before any purge; otherwise `purgeObject` gets the pid and message as read with the parsed flag, and its time is pushed once to `delete_time` |
| Streams.Reply | src/org/seasr/meandre/components/fedora/IngestSingleObject.java:207 | one `read` never returns more bytes than the buffer holds |
| Streams.ReadConsumes | src/org/seasr/meandre/components/fedora/IngestSingleObject.java:207-210 | a read that returns bytes consumes exactly them from the front of the stream's content |
| Streams.InputStream.constructor | src-fedora/code/org/meandre/components/fedora/IngestSingleObject.java:149 | a freshly opened stream is open and has all of its contents still to deliver |
| Streams.InputStream.Read | src-fedora/code/org/meandre/components/fedora/IngestSingleObject.java:182 | `read` fills the front of the buffer with what it returns and advances the stream, or returns -1 at the end, or throws |
| Streams.InputStream.Close | src-fedora/code/org/meandre/components/fedora/IngestSingleObject.java:191 | `close` closes the stream, or throws and leaves it open |
| Streams.OutputStream.constructor | src-fedora/code/org/meandre/components/fedora/IngestSingleObject.java:152 | a new ByteArrayOutputStream holds nothing |
| Streams.OutputStream.Write | src-fedora/code/org/meandre/components/fedora/IngestSingleObject.java:184 | `write(buffer, 0, n)` appends the first n bytes of the buffer |
| Streams.OutputStream.Close | src-fedora/code/org/meandre/components/fedora/IngestSingleObject.java:192 | closing keeps what was written |
| Streams.OutputStream.ToByteArray | src-fedora/code/org/meandre/components/fedora/IngestSingleObject.java:156 | `toByteArray` returns the bytes written; the bytes of every run of earlier writes form a front part of it |
| IngestSingleObject.Pipe | src-fedora/code/org/meandre/components/fedora/IngestSingleObject.java:182-185 | the copy loop fails only when the stream holds a fault |
| IngestSingleObject.PipeStep | src-fedora/code/org/meandre/components/fedora/IngestSingleObject.java:182-185 | a read that throws or returns nothing ends the copy; any other read is written and the copy goes on |
| IngestSingleObject.PipeChunkBounds | src/org/seasr/meandre/components/fedora/IngestSingleObject.java:206-209 | every write has between 1 and `bsize` bytes |
| IngestSingleObject.PipeWithEmptyBuffer | src-fedora/code/org/meandre/components/fedora/IngestSingleObject.java:181-182 | a `bsize` of 0 copies nothing and does not fail |
| IngestSingleObject.PipePrefix | src/org/seasr/meandre/components/fedora/IngestSingleObject.java:207-210 | the bytes written are always a front part of the stream's content |
| IngestSingleObject.PipeCopiesContent | src-fedora/code/org/meandre/components/fedora/IngestSingleObject.java:182-185 | with a non-empty buffer and no empty read, the writes are the stream's whole content in order, and the copy fails exactly when the stream holds a fault |
| IngestSingleObject.PipeStream | src/org/seasr/meandre/components/fedora/IngestSingleObject.java:199-224 | the output receives exactly the copy loop's writes; a negative size or a failed read is thrown; the input is closed, and the output only if closing the input did not throw |
| IngestSingleObject.Execute | src-fedora/code/org/meandre/components/fedora/IngestSingleObject.java:143-171 | a missing file or a failed read raises a ComponentExecutionException with no ingest; otherwise `ingest` gets the copied bytes and "Ingesting file " + name, and its pid is pushed |
| IngestSingleObject.IngestsWholeFile | src/org/seasr/meandre/components/fedora/IngestSingleObject.java:173-181 | a file without faults or empty reads is ingested whole |

## Findings

| source | as written | input that shows it | evidently intended | confidence | as-written member | corrected member |
|---|---|---|---|---|---|---|
| src-fedora/code/org/meandre/components/fedora/GetWorkObjects.java:140 | `result.getListSession().getToken()` dereferences the first list session without a null check | a search whose results all fit on the first page, so the server returns no list session | push the filtered first page, as GetCollectionObjects does by guarding the same call (GetCollectionObjects.java:137) | not executed | GetWorkObjects.Execute | GetWorkObjects.ExecuteGuarded |

## Left out

- Fedora SOAP stubs, the resource-index client and `PID.toURI` are foreign
  calls. They are oracles here, and `PID.toURI` is constrained only where a
  lemma says so.
- Meandre plumbing is not modelled: property and port reads,
  `getDataComponentFromInput`, logging, `initialize` and `dispose`. The
  ComponentContextException branch of each catch is left out for the same
  reason. Pushes are recorded as values in order.
- The runtime exceptions raised for null values are not modelled. This
  covers a null pid (`getFedoraPid().startsWith`), `getTitle(0)` on an
  entry without titles, and a null property.
- GetCollectionObjects.Execute, GetWorkObjects.Execute: `fuel` bounds the
  number of resume calls, because a resume that keeps failing makes the
  source loop forever. Running out is reported as `StillLooping` rather
  than as non-termination.
- GetCollectionsComponent.ParseInt: a leading `+` is accepted, as
  `Integer.parseInt` does from Java 7 on. Under Java 6 "+5" throws and the
  capacity falls back to 100; that behaviour is not modelled.
- GetCollectionsComponent.ParseInt: only ASCII digits are accepted.
  `Integer.parseInt` also accepts other Unicode decimal digits.
- GetCollectionsComponent.Execute: failures other than the IOException
  and TrippiException of `getTuples` and the tuple iterator, and the
  negative capacity, are not modelled. That covers runtime exceptions from
  `PID.toURI` or the iterator, which would escape unwrapped.
- GetCollectionsComponent.Execute: the values within a tuple row are taken
  in the order given. The source iterates a HashMap key set, whose order is
  unspecified. `Node.toString()` is part of the oracle's answer.
- DeleteObject.Fold: only characters whose Java case conversion lands on an
  ASCII letter are folded. This is exact for comparisons against "true" and
  "false", which are the only ones the component makes.
- DeleteObject.Execute: whether the APIM input was read is not tracked
  separately. An invalid flag is shown instead by the absence of a purge
  call.
- IngestSingleObject.PipeStream: the output stream is the
  ByteArrayOutputStream that `execute` passes, whose `write` and `close`
  never throw. A write failure on another OutputStream is not modelled.
  Reading from an input that is already closed is excluded by a
  precondition.
- IngestSingleObject.Execute: opening the file is a parameter, either the
  stream's contents or the failure of `new FileInputStream`. The
  filesystem is not modelled.
