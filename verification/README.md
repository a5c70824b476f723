# readis key-scan engine in Dafny

readis is a terminal browser for Redis. This project models its key-scan engine and
the small helpers around it, and proves what they guarantee.

- **Scan session** (`internal/data/scan.go`) is modelled by module `ScanSession` and class
  `Scan`. A session holds a glob pattern, a page size, a `scanning` flag and one SCAN
  iterator per node address. `PipelinedCmds` creates an iterator for an address the
  first time it meets it and resumes it in every later round. It pulls at most
  `pageSize` names and pipelines TTL, TYPE and MEMORY USAGE for each one.
- **One scan round and the value renderer** (`internal/data/data.go`) are modelled by
  module `Data`. `ScanAsync` marks the session as scanning. `ScanRound` is the body of
  the goroutine:
  - it picks enumeration (the pattern contains `*`) or exact lookup;
  - in cluster mode it visits every primary in turn;
  - `redis.Nil` becomes "no keys", and any other error becomes one error entry;
  - it merges the replies into one `Key` per name and emits them;
  - it clears `scanning` on every path.
  `Fetch` renders a key's value as markdown, by the key's type.
- **URI normaliser and `PanicOnError`** (`internal/util/util.go`) are modelled by module
  `Util`. A URL is an abstract record, and parsing and serialising are parameters.
- **TUI guards** (`cmd/readis/model.go`) are modelled by module `Tui` and class `Model`.
  The key-name column width `keyNameWidth` is a package variable in the source
  (`cmd/readis/styles.go:7`); here it is a field of `Model`, since one model exists per program:
  - which key presses reach the text input;
  - the scan-more guard;
  - cancel-before-restart in `startScan`;
  - dropping stale fetch results;
  - the growth of the key-name column.

The Redis client is abstracted by module `Redis`:
- A node's keyspace is a finite sequence of names plus an optional failure.
- A SCAN iterator is a value (`Iter`) kept in the session's map. `Next` reports the
  end once and then stays at the end; `Failure` (the iterator's `Err()`) is visible only after the end.
- The server's replies are a function from request to reply.
- A pipeline returns its commands bound to their replies. Its error is that of the
  first command that failed: `redis.Nil` for a nil reply.
- `Scan.Scanning` is the plain accessor of the flag. Its value is what the contracts of
  `ScanAsync`, `ScanRound` and `CanScanMore` speak about.

The page loop at `internal/data/scan.go:47` tests `iter.Next` before `numFound < pageSize`.
So every round that finds more than `pageSize` names left also consumes one further
name, which is never queued. A round that finds exactly `pageSize` names left fills its
page, reports the end and loses nothing. `RoundsCount` counts the loss exactly. `ThousandKeysTenRounds` derives the
integration test's scenario from it: 1000 keys in pages of 100 over ten rounds give
991 names. This is the shortfall the test tolerates with `total-9`, although the
test's comment attributes it to the iterator. `TakePageFixed` and `RoundsFixedLoseNothing`
show that testing the count first loses nothing. `PipelinedCmds` keeps the loop as
written.

## Model

| member | source | states |
|---|---|---|
| `Redis.StartIter` | internal/data/scan.go:42 | a new iterator starts at cursor 0 over the node's names and has not reported the end |
| `Redis.FirstErr` | internal/data/scan.go:46 | a pipeline reports no error exactly when every reply is a value; a `redis.Nil` error comes from some nil reply |
| `Redis.ErrOf` | internal/data/scan.go:46 | a nil reply stands for `redis.Nil`, an error reply for its own text |
| `Redis.FirstErrIsFirst` | internal/data/scan.go:46 | the pipeline's error is that of its earliest command whose reply is not a value, so a nil before an error reports `redis.Nil` and an error before a nil reports the error |
| `Redis.FirstErrNil` | internal/data/data.go:129-131 | with no error reply in the pipeline, one nil reply anywhere makes the pipeline report `redis.Nil` |
| `Strings.ContainsChar` | internal/data/scan.go:34 | `strings.Contains(s, "*")` holds exactly when `*` occurs in `s` |
| `Strings.SortUnique` | internal/data/data.go:224-228 | the field list is strictly ascending and holds exactly the hash's fields |
| `Strings.StrictlySortedUnique` | internal/data/data.go:228 | two strictly ascending sequences with the same elements are equal |
| `Strings.SortUniqueOrderFree` | internal/data/data.go:224-228 | the sorted field list does not depend on the order the map yields the fields in |
| `Strings.Utf8Len` | cmd/readis/model.go:82 | Go's `len` of a string is its UTF-8 byte length: never below the character count, and equal to it exactly when every character is ASCII |
| `ScanSession.Scan.constructor` | internal/data/scan.go:20-27 | NewScan keeps the pattern and the page size, starts with no iterators and is not scanning |
| `ScanSession.Scan.Scanning` | internal/data/scan.go:29-31 | reports the session's `scanning` flag, which `ScanAsync` sets and the round clears |
| `ScanSession.Scan.HasMore` | internal/data/scan.go:33-35 | true exactly when the pattern contains `*`, whatever rounds have run |
| `ScanSession.Scan.PipelinedCmds` | internal/data/scan.go:37-55 | the new iterator map, commands and error are those of `PipelinedRound` on the old map; pattern, page size and flag are unchanged |
| `ScanSession.IterFor` | internal/data/scan.go:41-45 | an address seen before resumes its registered iterator; a new address gets a fresh iterator at cursor 0 |
| `ScanSession.PipelinedRound` | internal/data/scan.go:40-54 | the node's iterator is registered and advances by exactly one `TakePage` from where it stood; no other entry changes; a round without error queues exactly that page; the commands are the executed pipeline of the queued names; at most `pageSize` names and 3·`pageSize` commands |
| `ScanSession.RoundOfPage` | internal/data/scan.go:46-54 | once the page is known: an iterator failure discards the page and becomes the error; otherwise the commands and error are those `Exec` reports for the page's pipeline |
| `ScanSession.FillPipe` | internal/data/scan.go:46-54 | the closure's loop queues exactly the page `TakePage` describes, three commands per name, and leaves the iterator where `TakePage` does |
| `ScanSession.TakePage` | internal/data/scan.go:47-52 | names are taken in iterator order from where it stood; with more names left than fit, exactly `pageSize` are taken and one more is consumed; otherwise all are taken and the end is reported |
| `ScanSession.Queue` | internal/data/scan.go:47-51 | the pipeline holds three commands per queued name |
| `ScanSession.QueueAt` | internal/data/scan.go:49-51 | commands 3i, 3i+1 and 3i+2 are TTL, TYPE and MEMORY USAGE of name i |
| `ScanSession.QueueAppend` | internal/data/scan.go:47-51 | queuing two runs of names gives the two pipelines one after the other |
| `ScanSession.ExhaustedQueuesNothing` | internal/data/scan.go:47-53 | once the iterator has reported the end, a call queues nothing, keeps the iterator and returns its failure as the error |
| `ScanSession.RoundsCount` | internal/data/scan.go:47 | over k rounds of any page size n (0 included), each full round queues n names and consumes n+1; after the full rounds, all names but one per full round are queued |
| `ScanSession.ThousandKeysTenRounds` | internal/data/scan_test.go:67-83 | 1000 keys in pages of 100 give 100·k names after k ≤ 9 rounds and 991 after ten |
| `ScanSession.SessionRounds` | internal/data/scan.go:40-54 | successive `PipelinedCmds` rounds on one node resume one iterator: without failures, k rounds queue exactly the k pages `Rounds` describes |
| `ScanSession.SessionThousandKeys` | internal/data/scan_test.go:67-83 | on a fresh session over 1000 keys, rounds of 100 queue 100 names each for nine rounds, and 991 names after ten |
| `ScanSession.TakePageFixed` | internal/data/scan.go:47-52 | with the count tested first, a call takes exactly min(pageSize, remaining) names and consumes only those |
| `ScanSession.RoundsFixedLoseNothing` | internal/data/scan.go:47 | with the count tested first, k rounds queue exactly the next k·n names in order, or all that remain |
| `Data.KeyArgAsWritten` | internal/data/data.go:147-155 | the merge reads the key from `Args()[2]` whenever `Args()[1]` is "usage", whatever the command, and skips a command whose key is not a string |
| `Data.KeyArg` | internal/data/data.go:147-155 | corrected: `Args()[2]` only for MEMORY USAGE itself, `Args()[1]` for every other command; a non-string key is skipped |
| `Data.UsageKeyOutOfRange` | internal/data/data.go:147-155 | for a key named "usage", TTL and TYPE have only two arguments, so `Args()[2]` is out of range |
| `Data.KeyArgAsWrittenRecoversKey` | internal/data/data.go:147-155 | for every other key, the name read as written is the key the command was queued for |
| `Data.KeyArgRecoversKey` | internal/data/data.go:147-155 | reading `Args()[2]` only for MEMORY USAGE attributes every command to its own key |
| `Data.MergeStepOwnKey` | internal/data/data.go:146-176 | one command of the merge loop (`MergeStep`) leaves the map alone when its key is not a string; otherwise it creates or updates only its own key's entry, which keeps the key's name |
| `Data.MergeInto` | internal/data/data.go:144-176 | merging never removes a name, and every entry stays the Key of the name it is stored under |
| `Data.MergeTriple` | internal/data/data.go:158-171 | one name's TTL, TYPE and MEMORY USAGE set ttl, type and size (size only when not negative) |
| `Data.MergeQueue` | internal/data/data.go:144-176 | merging a page's pipeline gives exactly one Key per distinct queued name, built from that name's own replies |
| `Data.MergeCmds` | internal/data/data.go:144-176 | the in-place merge loop computes `Merge` of the commands |
| `Data.Emit` | internal/data/data.go:178-185 | every merged key is sent at most once and unchanged; all are sent unless the context is cancelled, and never more than the consumer took before cancelling |
| `Data.Fanout` | internal/data/data.go:104-115 | the cluster round's commands are the executed pipeline of the names it gathered, and every iterator stays valid |
| `Data.FanoutRegisters` | internal/data/data.go:104-115 | after the fan-out every primary's address has an iterator, and no other entry is added or changed |
| `Data.FanoutBound` | internal/data/data.go:104-115 | the fan-out queues at most one page per primary: N primaries give at most N × `pageSize` names |
| `Data.FirstSome` | internal/data/data.go:104-115 | no error exactly when every primary's round succeeded; otherwise the error of the earliest failing one |
| `Data.FanoutFirstError` | internal/data/data.go:104-115 | the fan-out's error is the first error among the primaries' rounds in visiting order, and none when all succeeded |
| `Data.ShardErrsAlone` | internal/data/data.go:104-115 | with distinct addresses, each primary's round reports exactly the error it would report alone |
| `Data.FanoutNames` | internal/data/data.go:104-115 | with distinct addresses, the fan-out queues the pages of the primaries whose round succeeded, in visiting order; a failing primary contributes nothing |
| `Data.FanoutIters` | internal/data/data.go:104-115 | with distinct addresses, every primary's iterator advances by exactly one `TakePage` from where it stood |
| `Data.ForEachMaster` | internal/data/data.go:104-115 | the serialised loop over primaries computes `Fanout`: commands of succeeding shards in order, the first shard error kept |
| `Data.Gather` | internal/data/data.go:103-127 | with a `*`, the round is one `PipelinedRound` on a standalone node or the `Fanout` over the primaries; otherwise exactly TTL, TYPE and MEMORY USAGE of the pattern itself, and no iterator is touched |
| `Data.Classify` | internal/data/data.go:129-142 | `redis.Nil` gives no keys; another error gives the one entry `{text, "error", 0, -1}`; no error gives the merged keys |
| `Data.RoundKeys` | internal/data/data.go:144-176 | a round without error delivers exactly the Key of each name it queued |
| `Data.ExactLookupFound` | internal/data/data.go:120-127 | the exact lookup of a key the store answers for delivers exactly that key |
| `Data.ExactLookupMissing` | internal/data/data.go:120-131 | the exact lookup of a missing key (MEMORY USAGE answers nil) delivers nothing, not an error entry |
| `Data.VanishedKeyDropsPage` | internal/data/data.go:129-131 | one key deleted between SCAN and MEMORY USAGE makes its whole page deliver nothing |
| `Data.ScanAsync` | internal/data/data.go:89-92 | the session is scanning when `ScanAsync` returns; nothing else changes |
| `Data.ScanRound` | internal/data/data.go:94-186 | the iterators advance as `Gather` says; the output is `Delivered` for the round's outcome; `scanning` is false afterwards on every path |
| `Data.Deliver` | internal/data/data.go:129-185 | `redis.Nil` sends nothing; another error sends the one entry `{text, "error", 0, -1}` unless cancelled first; otherwise the merged keys are emitted |
| `Data.BulletsAppend` | internal/data/data.go:202-213 | list and set renderings go element by element in reply order |
| `Data.BulletsOne` | internal/data/data.go:205 | one element renders as ``- `v` `` and a newline |
| `Data.ZsetRowsAppend` | internal/data/data.go:216-219 | sorted-set rows go member by member in ZRANGE order |
| `Data.HashOf` | internal/data/data.go:222 | the HGETALL map has exactly the fields of the reply |
| `Data.HashOfLastWins` | internal/data/data.go:222 | a field's value is the one its last pair carries |
| `Data.FieldsOf` | internal/data/data.go:224-227 | the collected field list holds exactly the hash's fields |
| `Data.Fetch` | internal/data/data.go:192-238 | only the string branch fails, with GET's error; a string renders fenced; zset and hash start with their table headers; an unknown type renders `Unknown data type: ` and the type |
| `Data.FetchHashSorted` | internal/data/data.go:221-235 | a hash renders its header, then one row per field in ascending field order, whatever order the map yields them in |
| `Data.FetchListLines` | internal/data/data.go:202-207 | appending an element to a list appends its bullet line to the rendering |
| `Data.FetchSetLines` | internal/data/data.go:208-213 | appending a member to a set's SMEMBERS reply appends its bullet line to the rendering |
| `Data.FetchZsetRows` | internal/data/data.go:214-220 | a sorted set renders its header, then the rows of the earlier members, then the new member's row, in ZRANGE order |
| `Data.FetchHashExample` | internal/data/data.go:221-235 | a hash answered as beta=2 then alpha=1 renders the alpha row before the beta row |
| `Util.NormalizeUser` | internal/util/util.go:63-66 | only the userinfo changes; none, or an empty username, is kept; a non-empty username becomes the password of an empty username, dropping any password |
| `Util.NormalizeUserIdempotent` | internal/util/util.go:63-66 | after the rewrite the username is empty, so a second rewrite changes nothing |
| `Util.NormalizeUserText` | internal/util/util_test.go:14-16 | `password@` is written back as `:password@`, and `:password@` is kept |
| `Util.NormalizeURI` | internal/util/util.go:58-68 | a parse failure returns the parse error; otherwise the result is the serialised rewritten URL |
| `Util.NormalizeURIIdempotent` | internal/util/util.go:58-68 | when serialising then parsing returns the same URL, normalising a normalised URI changes nothing |
| `Util.PanicOnError` | internal/util/util.go:46-51 | returns the value exactly when there is no error; with an error it panics with it |
| `Tui.OneByteText` | cmd/readis/model.go:305-308 | a text of byte length 0 is empty; one of byte length 1 is a single ASCII character |
| `Tui.IsTextInput` | cmd/readis/model.go:304-315 | empty text is input; with Alt, a single ASCII character is input exactly when it is a letter; without Alt, several characters are never input, and a single one only when it is ASCII |
| `Tui.IsTextInputRunes` | cmd/readis/model.go:300-315 | counting characters instead of bytes: without Alt, input exactly when at most one character |
| `Tui.TextInputAgreesOnAscii` | cmd/readis/model.go:304-315 | on ASCII text, counting bytes and counting characters agree |
| `Tui.NonAsciiCharRejected` | cmd/readis/model.go:311-313 | "é" typed without Alt is rejected as written and accepted when characters are counted |
| `Tui.CanScanMore` | cmd/readis/model.go:230 | another round starts exactly on the last page, with a scan that is not scanning and whose pattern contains `*` |
| `Tui.Widened` | cmd/readis/model.go:80-84 | the width never shrinks, is at least byte length + 1 of every name, and equals the old width or one of those |
| `Tui.WidenedIdempotent` | cmd/readis/model.go:80-84 | resizing again over the same keys keeps the width |
| `Tui.WidenedBounded` | cmd/readis/model.go:80-84 | a width already wide enough for every key is kept |
| `Tui.WidenLoop` | cmd/readis/model.go:80-84 | the loop over the visible keys computes `Widened` |
| `Tui.Model.constructor` | cmd/readis/styles.go:7 | the key-name column starts at 20; no scan and no scan context exist yet |
| `Tui.Model.SelectedItem` | cmd/readis/model.go:193-194 | a key is selected exactly when the cursor is on an item, and it is that item |
| `Tui.Model.StartScan` | cmd/readis/model.go:169-176 | the previous scan context is cancelled; a new context becomes current; the round is started (scanning); every older context stays cancelled |
| `Tui.Model.PressEnter` | cmd/readis/model.go:215-221 | the list is cleared and a fresh scan of the typed pattern and page size is started under a new context; the viewport and the key-name width are unchanged |
| `Tui.Model.PressRight` | cmd/readis/model.go:226-232 | a round starts exactly when the scan-more guard held, resuming the same scan with its pattern, page size and iterators unchanged; otherwise no context, cancellation or scan state changes |
| `Tui.Model.OnFetchContent` | cmd/readis/model.go:192-198 | content is shown only if it was fetched for the highlighted key; a stale result changes nothing |
| `Tui.Model.ResizeViews` | cmd/readis/model.go:78-102 | the column width becomes `Widened` of the old width over every listed key; the viewport is replaced by a new, empty one (so the next update at cmd/readis/model.go:251-254 fetches the content again); the scan, contexts, items and cursor are unchanged |

## Left out

- Strings: Go strings are byte strings, while the model's `string` is a sequence of Unicode scalar values. Key names, hash fields and texts that are not valid UTF-8 cannot be represented. `Strings.Less` and `Strings.Utf8Len` agree with Go's `<` and `len` only on valid UTF-8 text, and the `Tui.IsTextInput` line below relies on this.
- Client plumbing: `NewData`, `URI`, `Close`, `TotalKeys` and `client` (internal/data/data.go:35-86). These are thin wrappers over go-redis.
- Scan.Scanning: internal/data/scan.go:16 declares `scanning` as a plain `bool`, while internal/data/data.go:91 and :97 call `.Store(...)` on it as if it were an `atomic.Bool`, so the package as written does not compile. The model takes the flag as a plain boolean written by `ScanAsync` and `ScanRound`. It does not capture that, with a plain `bool`, the round goroutine's write and the UI's read through `Scanning()` would be a data race.
- Concurrency: the goroutine, the channel and `select` on `ctx.Done()` are replaced by a sequential body. Its output is a sequence, and `cancelAfter` is the number of sends accepted before cancellation. The parallel `ForEachMaster` is a loop in visiting order, because the mutex serialises the callbacks.
- The topology reload inside `ForEachMaster` is not modelled. Primaries are a fixed sequence.
- go-redis internals are parameters or simplifications: the SCAN cursor protocol, the conversion of TTL seconds to a `time.Duration`, and argument escaping.
- Data.Fanout: the error kept is that of the first failing primary in visiting order. In the source it is the first failing goroutine to finish.
- Data.ScanRound: `DebugDelay` and `Debug` are left out, because they only write files and sleep.
- Data.Fetch: `%f` formatting of zset scores is not modelled; a score is kept as its text. The `%v` formatting of members is the identity on strings.
- `readAndInsert`, the non-blocking drain of the scan channel (cmd/readis/model.go:276-291), is not modelled, because it is channel plumbing.
- Pure UI is not modelled: the views, the lipgloss sizing arithmetic in `resizeViews` after the width loop (the new viewport is modelled as empty content only; its width, height and style are not), styles, key formatting and key bindings. glamour rendering in `fetchContent` is not modelled either.
- Tui.Model.OnFetchContent: the list's filtering is disabled, so the visible items are all items, and the selection is the item under the cursor.
- Tui.IsTextInput: `unicode.IsLetter` is modelled only on ASCII. The guard calls it only on a one-byte text, which is always ASCII.
- Util.NormalizeURI: `url.Parse` and `url.URL.String` are parameters. On failure the source returns `""` together with the error; the model returns only the error.
- The root-level package and `cmd/readis/main.go` are older snapshots that do not build with the current code, so they are not part of this model.

## Findings

| source | as written | input that shows it | evidently intended | confidence | as-written member | corrected member |
|---|---|---|---|---|---|---|
| internal/data/data.go:151-152 | when `Args()[1]` is "usage", the merge reads `Args()[2]`, which TTL and TYPE commands lack | a scan that finds a key named `usage`: `TTL usage` has the arguments `["ttl", "usage"]`, so the index is out of range and the goroutine panics | read `Args()[2]` only for the `MEMORY USAGE` command | high (not executed) | `Data.UsageKeyOutOfRange` | `Data.KeyArgRecoversKey` |
| cmd/readis/model.go:311-313 | `len(msg.Text) > 1` counts bytes | "é" typed without Alt: two bytes, so it is rejected as a multi-character batch | reject batches of several characters | medium (not executed) | `Tui.NonAsciiCharRejected` | `Tui.IsTextInputRunes` |
