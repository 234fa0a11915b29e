# Transaction tracking for a Presto DB-API driver

This project models `presto/nzpresto.py`, a thin layer over pyhive's Presto client that
tracks the engine's multi-statement transactions across stateless HTTP requests.

- A `CurrentTransaction` cell holds either no transaction or the id the server assigned.
- A `Connection` owns one cell and hands that same object (not a copy) to every `Cursor` it creates.
- `Cursor.Execute` builds the outbound headers. These are catalog, schema, source and user,
  the cell's display id (`"none"` when inactive), and, when there are session properties,
  a comma-joined `name=value` session header.
- `Cursor.Execute` then applies the response headers to the cell. A started-transaction
  header sets the id. A clear-transaction header, checked second, empties the cell.
- `Begin` always issues `start transaction`. `Commit` and `Rollback` issue `commit` and
  `rollback` only while a transaction is active. `Close` commits an active transaction.

The model has three modules:

- `NzPresto` (`nzpresto.dfy`) holds the classes. `CurrentTransaction`, `Cursor` and
  `Connection` keep the source's fields and update them in place. The cell update is
  specified by the pure function `ApplyResponse`, and the header dictionary by
  `RequestHeaderMap`. `ApplyResponses` folds a series of responses; lemmas show that the
  last response carrying a transaction header decides the cell.
- `SessionHeader` (`session_header.dfy`) holds the session header value as a join of
  `name=value` items. Beside it is a reference decoding (split on commas, then each item
  at its first `=`), and the round trip between the two is proved.
- `Wrappers` (`wrappers.dfy`) holds `Option`.

The HTTP exchange is not modelled. The response headers the server would send are
parameters instead. `Execute` takes the headers of the reply to its POST. `FetchAll`
takes the headers of each later page of the result. `Begin`, `Commit`, `Rollback` and
`Close` take both, because the source fetches all pages after each of these statements.
Every page's response passes through the same header step, so a transaction header on
any page changes the cell.

The connection's ghost field `issued` records each request the connection itself issues
(statement text and headers), so the statement-issuing rules can be stated.

The session properties are a Python mapping. They are modelled as the sequence of its
items in iteration order, since the header depends on that order.

`commit` and `rollback` do not clear the cell themselves. Only a clear-transaction header
in a response does (presto/nzpresto.py:58-72, 131-132). The model does the same.

## Model

| member | source | states |
|---|---|---|
| `NzPresto.CurrentTransaction.constructor` | presto/nzpresto.py:28-29 | a new cell holds no transaction, is inactive, and its display id is `"none"` |
| `NzPresto.CurrentTransaction.IsActive` | presto/nzpresto.py:31-32 | active exactly when an id is stored |
| `NzPresto.CurrentTransaction.SetTransactionId` | presto/nzpresto.py:34-35 | overwrites any previous value; afterwards the cell is active and its display id is the given id |
| `NzPresto.CurrentTransaction.ResetTransactionId` | presto/nzpresto.py:37-38 | whatever the prior state, the cell is inactive with display id `"none"`, so a second reset changes nothing |
| `NzPresto.CurrentTransaction.GetId` | presto/nzpresto.py:40-41 | the stored id while active, the literal `"none"` while inactive |
| `NzPresto.ApplyResponse` | presto/nzpresto.py:128-132 | a clear header empties the cell even when a started header is present; otherwise a started header sets the cell to its value; a response with neither leaves it unchanged; the cell ends active iff there is no clear header and there was a started header or an active id |
| `NzPresto.ApplyResponses` | presto/nzpresto.py:128-132 | the cell after a series of responses is the one-response transition of the cell after all but the last, so responses take effect in the order they arrive; no responses leave the cell as it was (the last signalling response decides it, by `LastSignalDecides`) |
| `NzPresto.ApplyResponsesAppend` | presto/nzpresto.py:128-132 | applying two series of responses one after the other is the same as applying their concatenation |
| `NzPresto.QuietResponses` | presto/nzpresto.py:128-132 | any number of responses without transaction headers leave the cell as it was |
| `NzPresto.LastSignalDecides` | presto/nzpresto.py:128-132 | after any series of responses, whatever the cell held before, the last response carrying a transaction header decides it: inactive if that response had a clear header, else holding its started id |
| `NzPresto.RequestHeaderMap` | presto/nzpresto.py:90-102 | the headers hold exactly catalog, schema, source, user and transaction id, plus the session header iff there are session properties; each has the given value, and the session header is the comma-joined items |
| `NzPresto.SessionRoundTrip` | presto/nzpresto.py:98-102 | reading the session properties back from the request headers gives exactly the cursor's properties in order, when names hold no `,` or `=` and values no `,`; none are read when there are none |
| `NzPresto.Cursor.constructor` | presto/nzpresto.py:81-83 | the cursor keeps the passed cell itself (the same object) together with its header settings |
| `NzPresto.Cursor.RequestHeaders` | presto/nzpresto.py:90-102 | the built dictionary is the header map for the cursor's settings and the shared cell's display id at call time |
| `NzPresto.Cursor.ProcessResponse` | presto/nzpresto.py:124-132 | the shared cell afterwards is the transition of its prior value by the response headers |
| `NzPresto.Cursor.Execute` | presto/nzpresto.py:85-122 | the statement is sent as given, with the headers built from the cell as it was before the call; the shared cell is then updated from the response |
| `NzPresto.Cursor.FetchAll` | presto/nzpresto.py:124-133 | each fetched page passes through the header step in arrival order; the shared cell ends as the series transition `ApplyResponses` of its prior value by the pages |
| `NzPresto.Connection.constructor` | presto/nzpresto.py:45-49 | a new connection owns a fresh, inactive cell and has issued nothing |
| `NzPresto.Connection.NewCursor` | presto/nzpresto.py:64-66 | a new cursor with the connection's settings whose cell is the connection's own cell, not a copy |
| `NzPresto.Connection.Begin` | presto/nzpresto.py:74-77 | in every state, exactly one `start transaction` request is issued, carrying the cell's display id; the cell follows the reply and then every fetched page, in order |
| `NzPresto.Connection.Commit` | presto/nzpresto.py:58-62 | when active, exactly one `commit` request carrying the active id is issued and the cell follows the reply and every fetched page, in order; when inactive, nothing is issued and the cell is unchanged |
| `NzPresto.Connection.Rollback` | presto/nzpresto.py:68-72 | when active, exactly one `rollback` request carrying the active id is issued and the cell follows the reply and every fetched page, in order; when inactive, nothing is issued and the cell is unchanged |
| `NzPresto.Connection.Close` | presto/nzpresto.py:51-56 | issues a `commit` (never a rollback) iff a transaction is active, with the same effect on the log and the cell as `Commit`; otherwise nothing changes |
| `SessionHeader.Item` | presto/nzpresto.py:100 | one property is written as its name, then `=`, then its value (read back by `DecodeItemOfItem` when the name holds no `=`) |
| `SessionHeader.Items` | presto/nzpresto.py:99-101 | one `name=value` item per property, in the mapping's order |
| `SessionHeader.Join` | presto/nzpresto.py:99 | joining no parts gives the empty string, and a join starts with its first part (split back into the parts by `SplitJoin`) |
| `SessionHeader.Value` | presto/nzpresto.py:98-102 | the header value is empty exactly when there are no properties (its items in order by `ValueLists`, decoded back by `RoundTrip`) |
| `SessionHeader.SplitJoin` | presto/nzpresto.py:99 | splitting a comma join at commas gives back the joined parts when none of them contains a comma |
| `SessionHeader.ValueLists` | presto/nzpresto.py:98-102 | the session header value, split at commas, is exactly the `name=value` items in the mapping's order, when no name or value contains a comma |
| `SessionHeader.RoundTrip` | presto/nzpresto.py:98-102 | decoding the session header value gives back the properties in order, when names hold no `,` or `=` and values no `,` |
| `SessionHeader.CommaInValueIsAmbiguous` | presto/nzpresto.py:99-101 | without escaping, the value `1,b=2` for `a` gives the same header as the two properties `a=1` and `b=2`, so the round trip needs its condition |

`NzPresto.Walkthrough` is a client of these contracts with no contract of its own. It models
a query sent outside a transaction, then a transaction begun through the connection. It proves
that a user cursor's next request carries the new id. It also proves that a commit whose
second page clears the transaction leaves the cell inactive.

## Left out

- The HTTP POST and the URL built from protocol, host and port (presto/nzpresto.py:113-121) are network I/O. The response headers are a parameter instead, and host, port and protocol are not modelled.
- `super()._process_response`, `_reset_state`, `_STATE_RUNNING` and the row handling of `fetchall()` (presto/nzpresto.py:62, 72, 77, 110-112, 133) belong to pyhive's base cursor (next-page links, row buffering, execution state). That class is not part of this model. `FetchAll` keeps only what its page loop does to the cell: each page's response passes through the header step of lines 128-132. The pages are its parameter.
- Errors are not modelled. Transport failures of the POST (lines 120-121) and the HTTP-status and error-body failures that the base class raises after the header step (line 133) propagate out of `execute`, `fetchall`, `commit`, `rollback`, `begin` and `close`. The model always completes, and it applies the headers of every page it is given.
- NzPresto.Cursor.Execute: parameter substitution through pyhive's escaper (presto/nzpresto.py:105-108) is a call into a library that is not part of this model. `Execute` takes the final statement text.
- Logging and `print` (presto/nzpresto.py:55, 116-119) produce output only.
- Concurrent use of one cell by several threads (`threadsafety = 2`, presto/nzpresto.py:15) is not modelled. The cell is updated without locking.
- Response header names are looked up case-insensitively by the HTTP library. The model looks them up by exact name.
- Header values are strings in the model. The source copies whatever values the base cursor holds, and its defaults (catalog, schema, source, user) come from pyhive.
- `connect` (presto/nzpresto.py:23-24) only calls the constructor. The model keeps just the five settings the headers use from the constructor's `*args`/`**kwargs`.
- The ghost log `issued` records only requests the connection issues itself (begin, commit, rollback, close). Statements run through user cursors appear only in the `Request` that `Execute` returns.
- SessionHeader.Decode is a reference reading of the header used as the inverse of the encoding. It does not model the engine's own parsing of the header (trimming, empty items).
- The dialect registration in presto/sqlalchemy_nzpresto.py only makes `do_begin` call `Begin`, on top of a toolkit that is not part of this model. scripts/presto_testing.py is a script against a live server.
