# cauli-scope dashboard, modelled in Dafny

cauli-scope is a small web dashboard for a basketball/sports detection
pipeline. A Node server (`server.js`) lists the detection images that the
pipeline writes into an images directory, lists test videos, runs the
pipeline's test client on a video and streams its output, lists past test
runs from their summary files, and pushes real-time messages over WebSocket
when a new image appears. Two browser scripts consume it: the gallery page
(`public/script.js`) keeps a live grid of image names, and the test page
(`public/testing.js`) starts runs, shows the images of the current run
grouped by detection kind, and lists the run history.

The model, one Dafny module per part of the system:

| module | file | models |
|---|---|---|
| `Base` | base.dfy | `Option`, `Min`, `Max` |
| `Text` | text.dfy | `startsWith`, `endsWith`, `includes`, `path.basename` |
| `Lists` | lists.dfy | `Array.prototype.filter`, `map`, `slice` (negative indices too), the stable `sort` with a descending numeric comparator, "no name twice" |
| `Gallery` | gallery.dfy | `GET /api/images` (filter, sort by mtime, paginate, defaults) and `GET /api/test/videos` |
| `History` | history.dfy | `GET /api/test/results`: summary discovery, parse failures skipped, newest first |
| `Hub` | hub.dfy | the real-time messages, `broadcast` to OPEN clients, the watcher's ignore rule and `add` handler |
| `Runner` | runner.dfy | `POST /api/test/run`: validation, the argument vector, stream supervision and completion |
| `Testing` | testing.dfy | public/testing.js: run ids, the run's images, grouping, filter buttons, captions, history, message handling, the page state |
| `LiveGrid` | grid.dfy | public/script.js: add/remove/clear/load on the live grid, the scroll page counter |

The file system, the child process, HTTP and WebSocket are inputs: a
directory is the sequence of entries `fs.readdir` and `fs.statSync` report
(or `Unreadable`), a summary file carries its already parsed summary (or
None when reading or `JSON.parse` throws), a child process is the finite
trace of chunks its stdout and stderr deliver followed by its exit code
(None when it is killed by a signal and `code` is null), and a handler's
outward actions are returned as a list of effects (`Spawn`, `Send` to all
open clients, `Respond`). `fs.existsSync` is a set of existing paths. The
client pages are classes whose fields are the globals and the DOM state that
the handlers change (`currentTestId`, the console text, the Run Test
button, the grid's `data-filename` list, the image count, `currentPage`).

### Behaviour the model follows from the code

- The image listing sorts by modification time only. JavaScript's sort is
  stable, so files with equal times stay in `fs.readdir` order
  (`Lists.SortIsStable`). There is no tie-break by name.
- The image listing does not exclude `initial.` files. Only the watcher
  ignores them, so an `initial.` image is listed but never announced.
- The `test_complete` message carries `success` and, on failure, `error`.
  It carries no run id. The test page re-enables its button on any
  `test_complete`, whichever run it came from.
- `loadImages(page)` and infinite scroll replace the
  grid with the new page rather than appending to it. A reply without
  `images` (the server's 500 reply) empties the grid in `grid.innerHTML = ''`
  before `data.images.forEach` throws, so the count shown keeps its old value
  (`LiveGrid.Grid.LoadImages`).
- The live grid takes any name a `new_image` message carries, including
  files that the listing would not show (a `.json`, a `.txt`).
- `saveImages` adds `--saveOutput=false` only when it is the boolean
  `false`; a missing field keeps output saving on.

## Model

| member | source | states |
|---|---|---|
| `Text.ContainsIff` | server.js:111 | `includes` holds exactly when the pattern occurs at some position of the string |
| `Text.Basename` | server.js:194 | the base name is a suffix of the path with no `/`, preceded by a `/` when it is not the whole path |
| `Lists.Slice` | server.js:157 | for `0 <= start <= end`, slice is the sub-sequence between the two indices clamped to the length |
| `Lists.Filter` | server.js:142-145 | the result keeps exactly the elements the predicate accepts, and every kept element satisfies it |
| `Lists.SortDesc` | server.js:152 | the sort is a permutation of its input, of the same length, non-increasing by key |
| `Lists.SortIsStable` | server.js:152 | elements with equal keys appear in the sorted list in their input order |
| `Lists.SliceKeepsNoDup` | server.js:157 | a page of a listing without duplicate names has none either |
| `Gallery.IsImageName` | server.js:142-145 | the listing's filter: a name ending in `.jpg`, `.jpeg`, `.png` or `.gif` and not ending in `.json`; `Gallery.JsonTestIsRedundant` proves the second half never rejects |
| `Gallery.SortedImages` | server.js:147-153 | the image names of the directory sorted newest first by mtime; `Gallery.SortedEntriesOrder` and `Gallery.SortedImagesArePermutation` prove order, stability and permutation |
| `Gallery.ListPage` | server.js:155-163 | the page of a sorted listing with `totalPages` and `currentPage`; `Gallery.PageContents`, `Gallery.PagesArePrefix` and `Gallery.PagesCoverListing` prove its bounds and that the pages rebuild the listing |
| `Gallery.QueryInt` | server.js:133-134 | `parseInt(q) or fallback`: a missing, unparseable or zero value gives the fallback, any other value is kept, and a non-zero fallback gives a non-zero result |
| `Gallery.CeilDiv` | server.js:161 | for a positive page size, `Math.ceil(n / d)` is the least page count that holds `n` names |
| `Gallery.ListImages` | server.js:132-165 | an unreadable directory gives 500 "Could not read images directory"; otherwise `currentPage` is the parsed page (default 1) and every listed name is an image name of the directory; `Gallery.DefaultPage` and `Gallery.RequestedPage` pin the page contents and the size default 50 |
| `Gallery.DefaultPage` | server.js:132-163 | with no `page` and no `pageSize` the reply is page 1 at the default size 50: the first min(50, N) gallery names and ceil(N / 50) pages |
| `Gallery.RequestedPage` | server.js:132-163 | an explicit page p >= 1 of size n >= 1 holds the gallery names from (p-1)·n up to min(p·n, N), with ceil(N / n) pages and `currentPage` p |
| `Gallery.JsonTestIsRedundant` | server.js:142-145 | the `!endsWith('.json')` half of the filter rejects nothing the extension test accepts |
| `Gallery.SortedImagesAreListedImages` | server.js:142-153 | every name in gallery order is an image file name of the directory |
| `Gallery.SortedImagesArePermutation` | server.js:147-153 | the sorted names are exactly the image names of the directory, each as often, so no name appears twice in a directory with unique names |
| `Gallery.FilterKeepsDistinctNames` | server.js:142-145 | filtering a directory with unique names keeps the names unique |
| `Gallery.SortedEntriesOrder` | server.js:147-153 | the gallery is newest first, is a permutation of the image entries, and keeps `readdir` order among equal times |
| `Gallery.PageContents` | server.js:155-163 | for page p >= 1 and size s >= 1, the page is the slice from (p-1)·s to min(p·s, N), of length min(s, max(0, N-(p-1)·s)); `totalPages` is the ceiling of N/s; `currentPage` is p |
| `Gallery.PagesArePrefix` | server.js:155-157 | pages 1..k laid end to end are the first min(k·s, N) names |
| `Gallery.PagesCoverListing` | server.js:155-161 | pages 1..totalPages laid end to end give the whole sorted listing, nothing lost or repeated |
| `Gallery.TwoFileExample` | server.js:132-165 | a.jpg (mtime 10) and b.png (mtime 20) with page size 1: page 1 is [b.png], page 2 is [a.jpg], 2 pages |
| `Gallery.ListVideos` | server.js:83-101 | no directory gives `{videos: []}`; an unreadable one gives 500 "Could not read videos directory"; otherwise the videos are exactly the `.mov`/`.mp4`/`.avi` files |
| `History.Runs` | server.js:111-125 | the parsed summaries of the `_summary.json` files, newest first; `History.RunsAreParsedSummaries` proves membership, order and multiset |
| `History.ParsedMembers` | server.js:114-122 | a summary is collected exactly when some file parses to it |
| `History.Collect` | server.js:112-122 | the loop collects the parsed summaries in file order, skipping files that throw, and never more than there are files |
| `History.ListResults` | server.js:104-129 | an unreadable directory gives 500 "Could not read images directory"; otherwise the reply is the run list |
| `History.RunsAreParsedSummaries` | server.js:111-125 | a run is listed exactly when a `_summary.json` file parses to it; the list is newest first and holds each parsed summary as often as files parse to it |
| `Hub.Broadcast` | server.js:176-182 | one send of the message per OPEN client, in registry order, and no send to a client that is not OPEN |
| `Hub.Ignored` | server.js:186 | the watcher's `ignored` pattern: the path contains `initial.` or ends in `.tmp`; `Hub.NoTemporaryAnnounced` proves no such name is announced |
| `Hub.OnAdd` | server.js:193-198 | a path is announced exactly when it is not ignored, as a `new_image` naming its base name: a suffix of the path with no `/`, preceded by a `/` unless it is the whole path |
| `Hub.NoTemporaryAnnounced` | server.js:186 | no announced file name contains `initial.` or ends in `.tmp` |
| `Runner.ArgVector` | server.js:48-54 | the test client's argument vector; `Runner.ArgVectorRules` proves its layout and flags |
| `Runner.Supervision` | server.js:58-79 | the broadcasts and the reply a run produces; `Runner.SupervisionOrder` and `Runner.CompletionOutcome` prove their order and outcome |
| `Runner.BuildArgs` | server.js:48-54 | the `push`-built vector equals the argument vector of the request |
| `Runner.ArgVectorRules` | server.js:48-54 | the three positional arguments come first; `--confidence=` is present iff confidence is truthy and then follows them; `--saveOutput=false` is present iff `saveImages === false` and then is last; there are exactly 3 arguments plus one per flag present |
| `Runner.Supervise` | server.js:58-79 | the stream callbacks and the close callback produce the progress broadcasts, then one completion, then the reply |
| `Runner.HandleRun` | server.js:32-80 | a missing or empty video or sport gives 400 "Video and sport are required" and nothing else; a missing file gives 404 "Video not found: <video>" and nothing else; otherwise `node` is spawned with the argument vector and the run is supervised |
| `Runner.ProgressIsStdoutInOrder` | server.js:61-65 | each stdout chunk becomes one `test_progress` with that chunk's text, in arrival order, and stderr chunks become none |
| `Runner.ProgressHasNoCompletion` | server.js:61-69 | every progress broadcast is a `test_progress`, never a `test_complete` |
| `Runner.SupervisionOrder` | server.js:61-79 | exactly one `test_complete` is broadcast, after all progress, and the HTTP reply comes last |
| `Runner.CompletionOutcome` | server.js:71-78 | exit code 0 gives success and a 200 reply with the stdout; anything else gives failure with the stderr as error and a 500 reply whose error is the stderr, or "Test failed" when that is empty |
| `Runner.MissingVideoExample` | server.js:40-45 | a request for clip.mp4 that does not exist is answered 404 "Video not found: clip.mp4", with no spawn and no broadcast |
| `Testing.ReplaceSeparators` | public/testing.js:86 | the result has the same length and holds no `:` or `.`; a character changes exactly where there was a separator, and it becomes `-` |
| `Testing.RunTimestamp` | public/testing.js:86 | the ISO time with separators replaced and its last five characters cut; `Testing.TimestampShape` proves its length and contents |
| `Testing.TimestampShape` | public/testing.js:86 | the timestamp is the first (length - 5) characters of the ISO time with separators replaced, and holds no `:` or `.` |
| `Testing.StripExt` | public/testing.js:87 | when the name ends in a dot followed by characters other than `/` and `.`, that extension is cut; otherwise the name is unchanged |
| `Testing.RunId` | public/testing.js:86-88 | `test_`, the video name without extension, the sport and the timestamp, joined by `_`; `Testing.RunIdShape` and `Testing.RunIdExample` prove its shape |
| `Testing.RunIdShape` | public/testing.js:86-88 | a run id starts with `test_` and ends with the timestamp, which holds no `:` or `.` |
| `Testing.TimestampExample` | public/testing.js:86 | 2024-01-02T03:04:05.678Z gives 2024-01-02T03-04-05 |
| `Testing.StripExtExample` | public/testing.js:87 | clip.mp4 gives clip |
| `Testing.RunIdExample` | public/testing.js:86-88 | clip.mp4, basketball, 2024-01-02T03:04:05.678Z gives test_clip_basketball_2024-01-02T03-04-05 |
| `Testing.RunImages` | public/testing.js:133-135 | a name is kept exactly when it contains the run id and does not end in `.json` |
| `Testing.RunImagesKeepOrder` | public/testing.js:133-135 | the run's images keep the gallery order |
| `Testing.TestResults` | public/testing.js:125-142 | nothing is displayed without a current id or without an `images` reply; otherwise exactly the run's images of the reply are |
| `Testing.KindNamed` | public/testing.js:179 | a filter name finds a group only under that group's own name |
| `Testing.KindNamedKeyOf` | public/testing.js:150-156 | each of the five groups is found under its own name |
| `Testing.Category` | public/testing.js:158-170 | the group of an image by the first marker it contains, `_SHOT_`, `_L1_`, `_L2_`, `_BALL_`, else other; `Testing.CategoryPriority` proves the priority |
| `Testing.CategoryPriority` | public/testing.js:158-170 | an image goes to a group exactly when it contains that group's marker and none of the markers before it, in the order `_SHOT_`, `_L1_`, `_L2_`, `_BALL_` |
| `Testing.GroupImages` | public/testing.js:150-170 | the forEach leaves all five groups, each holding exactly the images of that category in input order |
| `Testing.InCategoryMembers` | public/testing.js:158-170 | an image is in a group exactly when that group is its category |
| `Testing.GroupsPartition` | public/testing.js:158-170 | each image is in exactly one group, and together the groups hold every image as often as it occurs |
| `Testing.SelectImages` | public/testing.js:173-180 | `all` shows every image, a group's name shows that group, any other filter shows nothing |
| `Testing.MatchAt` | public/testing.js:208 | the pattern `frame(\d+)_([0-9.]+)s` tried at one position, with greedy groups; `Testing.MatchAtIff` proves it agrees with the pattern's meaning |
| `Testing.FrameMatch` | public/testing.js:208 | `image.match` with that pattern: the groups at the first position where it matches; `Testing.FrameMatchIsLeftmost` proves it leftmost |
| `Testing.MatchAtIff` | public/testing.js:208 | the matcher at a position returns groups (d, t) exactly when `frame` d `_` t `s` occurs there with d digits and t digits or dots, both non-empty |
| `Testing.FrameMatchIsLeftmost` | public/testing.js:208-211 | `match` returns the groups of the leftmost occurrence, and returns nothing exactly when the pattern occurs nowhere |
| `Testing.Label` | public/testing.js:195-213 | the caption starts with the category's prefix, in the grouping's priority; `Frame N (Ts)` is appended after the prefix exactly when the name matches; it is the name itself when both are empty |
| `Testing.Recent` | public/testing.js:247 | the history shows the first min(5, N) results in server order |
| `Testing.HistoryShowsNewest` | public/testing.js:247 | no run left out of the history is newer than a run shown |
| `Testing.FailureReason` | public/testing.js:31 | a non-empty `data.error` is shown as itself; a missing or empty one gives 'Unknown error'; the text is never empty |
| `Testing.React` | public/testing.js:16-39 | results reload exactly on a successful completion, or on a `new_image` whose name contains the current id while one is set; history reloads exactly on success; the button is re-enabled exactly on completion; progress is appended to the console |
| `Testing.ReplyError` | public/testing.js:101-104 | the error shown for a failed run request is the reply's error when it is non-empty, and "Test failed" otherwise |
| `Testing.TestPage.constructor` | public/testing.js:1 | no current run at load |
| `Testing.TestPage.RunTest` | public/testing.js:67-90 | no video refuses and changes nothing; otherwise the new run id becomes current, the console shows "Starting test: <id>" and the button is disabled |
| `Testing.TestPage.OnRunReply` | public/testing.js:92-114 | an ok reply changes nothing; a reply that is not ok logs the reply's error, and a request that throws logs the thrown message, and both re-enable the button; the current run id is kept |
| `Testing.TestPage.Receive` | public/testing.js:16-39 | the console grows by the text React appends, the button follows React, the reloads React asks for are returned, and the current id is kept |
| `Testing.TestPage.LoadHistoric` | public/testing.js:279-285 | the chosen run becomes current, its results are reloaded for that id, and the console says "Loaded historic test: <id>" |
| `LiveGrid.IndexOf` | public/script.js:149 | the position querySelector finds: the first item with that name |
| `LiveGrid.AddFront` | public/script.js:107-144 | the grid after `addNewImageToGrid`; `LiveGrid.AddFrontSpec` and `LiveGrid.AddFrontKeepsNoDup` prove what it keeps |
| `LiveGrid.RemoveFirst` | public/script.js:147-154 | the grid after `removeImageFromGrid`; `LiveGrid.RemoveFirstSpec` and `LiveGrid.RemoveFirstNoDup` prove what it removes |
| `LiveGrid.AddFrontSpec` | public/script.js:107-144 | adding a shown name leaves the grid unchanged; a new name goes in front of the unchanged rest, and the grid grows by one |
| `LiveGrid.AddFrontKeepsNoDup` | public/script.js:110-136 | adding never makes a name appear twice |
| `LiveGrid.RemoveFirstSpec` | public/script.js:147-154 | removing a shown name deletes its first item and keeps the others in order; removing an absent name changes nothing |
| `LiveGrid.RemoveFirstNoDup` | public/script.js:147-154 | in a grid without duplicates the removed name is gone and every other name stays |
| `LiveGrid.AddThenRemove` | public/script.js:107-154 | removing a name just added gives back the earlier grid |
| `LiveGrid.AddAllKeepsNoDup` | public/script.js:110-136 | any run of additions keeps a duplicate-free grid duplicate-free |
| `LiveGrid.LiveGridHasNoDuplicates` | public/script.js:60-144 | a page of `/api/images` loaded into the grid and followed by live additions never shows a name twice when directory names are unique |
| `LiveGrid.Grid.constructor` | public/script.js:2 | the page starts empty, at page 1 |
| `LiveGrid.Grid.AddNewImage` | public/script.js:107-144 | the grid becomes AddFront; an existing name returns before the count is touched; a new name sets the count to the grown length |
| `LiveGrid.Grid.RemoveImage` | public/script.js:147-154 | the grid becomes RemoveFirst; the count follows only when something was removed |
| `LiveGrid.Grid.Clear` | public/script.js:41-44 | the grid is empty and the count is 0 |
| `LiveGrid.Grid.LoadImages` | public/script.js:60-84 | the page becomes current; a reply with images replaces the grid with exactly those names and sets the count to their number; an error reply empties the grid and keeps the old count; a failed request changes nothing else |
| `LiveGrid.Grid.OnScrollNearBottom` | public/script.js:188-192 | `currentPage` goes up by exactly one and that page is loaded as LoadImages says |
| `LiveGrid.Grid.OnMessage` | public/script.js:31-46 | `new_image` adds, `image_deleted` removes, `directory_cleared` clears, and other messages leave the grid alone; the count is unchanged for a name already shown (add) or not shown (remove) and is the new grid length otherwise |

## Left out

- File system, HTTP, WebSocket transport and the child process are not executed; they are inputs and returned effects, as described above. Express routing, static serving and body parsing are not modelled.
- `parseInt` and `parseFloat` are not modelled as string parsers. A query value is an already parsed `Option<int>`, and the run's confidence is only truthy or falsy, with the text it prints.
- `JSON.parse` of summaries and of messages is not modelled. A summary is an already parsed record, and a message is a `Hub.Message`. Messages with missing fields (a `new_image` without `file`) are not modelled.
- Dates are integer milliseconds. `new Date(..)` of an unparseable timestamp (NaN in the comparator) and `toISOString` are not modelled. The ISO time is an input string.
- `path.join` normalisation is not modelled: `TestPath` and `VideoPath` join with `/`, and a video name with `..` is not collapsed.
- A `statSync` that throws during the listing (a file removed between `readdir` and `stat`) is an uncaught exception inside the `fs.readdir` callback, so the whole server process exits and every WebSocket client is dropped. The model takes the directory as the entries that could be stat'ed.
- Encoding of stream chunks (`data.toString()`) is not modelled; chunks are strings.
- The child has no `error` listener, so a spawn failure (no `node` on the path) makes the emitter throw; the whole server process exits and every WebSocket client is dropped. This is not modelled.
- Overlapping runs and interleaving of concurrent requests are not modelled; one run is one trace.
- The CSS attribute selector in `querySelector` is read as exact name equality. A name containing `"` or `\` would break the real selector.
- `grouped[activeFilter]` for a key inherited from `Object.prototype` (such as `constructor`) is not modelled. Only the five own keys and "none" are.
- The `/api/images/clear` endpoint and the server side of `image_deleted` and `directory_cleared` do not exist in server.js. Only the client's reaction is modelled.
- DOM rendering, the animation timeout, tabs, alerts, confirm dialogs, scroll geometry, the video `<select>` and the history item text (`toLocaleString`, shots count, frames) are not modelled.
- JavaScript numbers are doubles. The model uses unbounded integers, so page arithmetic beyond 2^53 is not modelled.
- `Text.Basename` gives "" for a path ending in `/`, where Node's `path.basename` drops trailing separators first; the watcher reports file paths, which never end in one.
- The watcher's regex is applied to the full path as given. chokidar's own path forms and `ignoreInitial` are not modelled.
- The JavaScript regex engine is not modelled. The three patterns (`/[:.]/g`, `/\.[^/.]+$/`, `/frame(\d+)_([0-9.]+)s/`) are hand-written matchers with their own correctness lemmas.
