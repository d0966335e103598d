# ImagingEdge4Linux photo download, modelled in Dafny

ImagingEdge4Linux fetches photos from a Sony camera over UPnP. It sends
ContentDirectory:1 `Browse` requests (SOAP over HTTP). It walks the
camera's directory tree depth first. For each photo it downloads the
largest variant into a local directory, and it skips files that are
already there. It first tries the push-mode root `PushRoot`. If that walk
raises anything, it walks the pull-mode root `PhotoRoot` once.

The model has these parts:

- `didl.dfy` (module `Didl`): a Browse response as the client reads it:
  an HTTP status, then the inner DIDL-Lite documents of its `Result`
  elements, holding containers `(id, title)` and items
  `(title, res*)`. Each `res` has an optional size, an optional
  resolution and an optional URL text.
- `selection.dfy` (module `Selection`): the best-variant loop as a method
  (`SelectBest`), proved equal to a reference scan (`Select`). The
  choice is characterised as "the first variant of greatest positive
  size, or nothing".
- `envelope.dfy` (module `Envelope`): the Browse request body. It is an
  encoding of the action's six arguments, with a decoder and a
  round-trip proof.
- `paths.dfy` (module `Paths`): the item path `output_dir/dirname/title`,
  the fall-back path, and Python's `os.path.dirname` and `os.makedirs`
  read as string operations.
- `browsing.dfy` (module `Browsing`): the whole run as functions of an
  environment and a state. The environment is the camera's answers, the
  output directory and URL decoding. The state is the files, the
  directories and the requests sent. It covers `downloadFile`,
  `getDirectoryContent` (its container loop, item loop and `Result`
  loop) and the fall-back in `main`, with lemmas about them.
- `client.dfy` (module `Client`): class `ImagingEdge`. Its fields are
  the filesystem and the request log. Its methods `DownloadFile`,
  `GetDirectoryContent` and `Run` run the source's loops step by step.
  Each is proved to leave exactly the state that the matching `Browsing`
  function describes.

Behaviour of the code that the model keeps:

- Sub-directories do not nest in the output. The recursive call gets
  only the container's title as `dirname`, so a photo in container
  `Sub` goes to `output_dir/Sub/title`, whatever the depth.
- `dirname` is reassigned inside the container loop. So the items of a
  listing that also has containers are stored under the last
  container's title. `Browsing.ExampleWalk` shows this on a concrete
  camera.
- Any failure of the push-root walk triggers the pull-root walk. This
  includes a failure deep inside the tree, after some files were
  already written.
- A broken photo stream leaves the bytes received so far in the file.
  The next run then skips that file as if it were complete.
- The photo GET's HTTP status is never inspected: whatever body comes
  back is written.
- The object id is spliced into the request body without escaping. The
  round trip holds for ids without `<`.

## Model

| member | source | states |
|---|---|---|
| `Selection.SelectBest` | imaging-edge.py:95-105 | the loop's result is the reference scan's; nothing is chosen iff no size is positive; a chosen variant is the first of greatest size and its URL is returned; a failure points at a running maximum with no URL text |
| `Selection.SizeOf` | imaging-edge.py:97-99 | a `res` without a size attribute has size 0, otherwise its integer size |
| `Selection.Scan` | imaging-edge.py:96-105 | the scan from position `i` keeps the choice it was given, or names a later variant larger than the running maximum, with that variant's URL when it has one and reporting it missing otherwise |
| `Selection.Select` | imaging-edge.py:95-105 | an item's choice is nothing, or a variant of positive size with its own URL, or a variant of positive size whose URL text is missing |
| `Selection.SelectSpec` | imaging-edge.py:95-105 | the reference scan, in both directions: no candidate iff no size is positive; a choice iff some size is positive and every running maximum had a URL; the choice is the first strict maximum |
| `Selection.SelectIgnoresResolution` | imaging-edge.py:100-105 | two variant lists that differ only in their `resolution` attributes give the same choice |
| `Selection.FirstMaxUnique` | imaging-edge.py:102-105 | at most one position is the first variant of greatest size, so the choice is determined |
| `Selection.SelectExamples` | imaging-edge.py:95-105 | sizes 100, 500, 500 give the second variant; a lone size 0, or a missing size, gives nothing |
| `Envelope.BrowseEnvelopeArgs` | imaging-edge.py:57-69 | `DecodeBrowse` reads back from the body sent for an id without `<`: ObjectID = that id, BrowseDirectChildren, filter `*`, start 0, count 9999, empty sort criteria |
| `Envelope.BrowseRoundTrip` | imaging-edge.py:57-69 | decoding an encoded Browse body gives back its arguments when its text arguments hold no `<` |
| `Envelope.BrowseEnvelopeVerbatim` | imaging-edge.py:61 | for any id, the body is a fixed prefix ending in `<ObjectID>`, the id unchanged, then a fixed suffix starting with `</ObjectID>` |
| `Envelope.BrowseEnvelopeInjective` | imaging-edge.py:61 | different ids give different request bodies |
| `Envelope.BrowseEnvelope` | imaging-edge.py:57-69 | the Browse body for a directory id: the SOAP preamble and then the six encoded arguments; its meaning is stated by `BrowseEnvelopeArgs`, `BrowseEnvelopeVerbatim` and `BrowseEnvelopeInjective` |
| `Paths.DirnameOfItemPath` | imaging-edge.py:93 | the parent directory of `output_dir/dirname/title` is `output_dir/dirname`, for a title without `/` and a non-empty directory name not ending in `/` |
| `Paths.ItemPath` | imaging-edge.py:93 | the download target `output_dir/dirname/filename`; its parent directory is given by `DirnameOfItemPath` |
| `Paths.FallbackPath` | imaging-edge.py:115 | the target used without a file path: `output_dir/` followed by the decoded URL path |
| `Paths.Dirname` | imaging-edge.py:121-122 | `os.path.dirname` on POSIX: a prefix of the path that ends in something other than `/` unless it is all slashes |
| `Paths.DirnameEmpty` | imaging-edge.py:121-122 | the parent directory is empty exactly when the path holds no `/` |
| `Paths.Ancestors` | imaging-edge.py:121-122 | the directories `os.makedirs(d)` ensures: `d` and each prefix of it that ends before a `/`; `AncestorsHasSelf` states that `d` is among them |
| `Paths.AncestorsHasSelf` | imaging-edge.py:121-122 | `os.makedirs(d)` leaves `d` itself among the directories |
| `Browsing.TargetPath` | imaging-edge.py:114-115 | a non-empty file path is used as given; no path or an empty one gives the fall-back path under `output_dir` |
| `Browsing.Download` | imaging-edge.py:112-128 | `downloadFile` as a function of the state: skip an existing file, create the parent when it is missing (failing on an empty name or a file in the way), send one GET, write the streamed pieces in order; its properties are the `Download…` lemmas |
| `Browsing.DownloadSkipsExisting` | imaging-edge.py:116-119 | when the target is already a file, nothing changes and no request is sent |
| `Browsing.DownloadWrites` | imaging-edge.py:120-128 | a download that is not skipped and succeeds leaves the parent directory present, the file equal to the streamed pieces written in order, exactly one GET of the URL sent, and no directory added beyond those `os.makedirs` creates for a missing parent |
| `Browsing.DownloadIntoNewDirectory` | imaging-edge.py:121-128 | a first download into a missing directory creates it and its ancestors, sends one GET and writes the streamed pieces in order |
| `Browsing.DownloadGrows` | imaging-edge.py:112-128 | a download never alters an existing file or removes a directory, only appends requests, and keeps files and directories apart |
| `Browsing.DownloadIdempotent` | imaging-edge.py:114-128 | repeating a download that succeeded changes nothing and sends no request |
| `Browsing.BrowseBadStatus` | imaging-edge.py:73-74 | a non-200 answer fails the call having sent only its own request: no sub-directory visited, nothing downloaded |
| `Browsing.BrowseSendsFirst` | imaging-edge.py:51-70 | a call's first request is the Browse body for its own id |
| `Browsing.BrowseNoAnswer` | imaging-edge.py:51-70 | a Browse POST that gets no answer fails the call having sent only its own request: no sub-directory visited, nothing downloaded |
| `Browsing.ContainersVisitsAll` | imaging-edge.py:84-87 | when the container loop runs through, every container's Browse request was sent, at increasing positions after the requests already sent, in listed order |
| `Browsing.DownloadSendsAtMostGet` | imaging-edge.py:112-128 | a download appends at most one request, a GET of its URL |
| `Browsing.DownloadOkHasFile` | imaging-edge.py:112-128 | after a successful download the target is a file |
| `Browsing.ItemsOnlyGets` | imaging-edge.py:90-110 | the item loop sends only GET requests |
| `Browsing.ItemsDownloadsAll` | imaging-edge.py:90-110 | when the item loop runs through, every item had a title and no variant that became the running maximum lacked URL text, and every item whose choice is a non-empty URL has its file `output_dir/dirname/title` present |
| `Browsing.ListingOrder` | imaging-edge.py:84-110 | in one listing the container loop runs first, then the item loop under the `dirname` it left, sending only GETs after all the container loop's requests |
| `Browsing.ContainersDirname` | imaging-edge.py:84-87 | after the container loop runs through, every container had an id and a title, and `dirname` is the last container's title (the name passed in if there were none) |
| `Browsing.ItemsSkipNoCandidate` | imaging-edge.py:106-110 | an item with no positive size is passed over with no change and no failure, and the loop goes on |
| `Browsing.ItemsTarget` | imaging-edge.py:90-108 | an item whose chosen non-empty URL streams completely into an already existing directory is written to `output_dir/dirname/title` under the `dirname` in force, with one GET, and the loop goes on from exactly that state |
| `Browsing.ItemsGrows` | imaging-edge.py:90-110 | the item loop never alters an existing file and keeps the filesystem valid |
| `Browsing.ContainersGrows` | imaging-edge.py:84-87 | the container loop never alters an existing file and keeps the filesystem valid |
| `Browsing.ResultsGrows` | imaging-edge.py:77-110 | the loop over `Result` documents never alters an existing file and keeps the filesystem valid |
| `Browsing.BrowseGrows` | imaging-edge.py:50-110 | a whole walk never alters a file that existed before it, never removes a directory, only appends requests, and keeps the filesystem valid |
| `Browsing.SessionFallback` | imaging-edge.py:145-150 | the run first browses PushRoot; if that walk succeeds it is the whole run; if it fails, the next request browses PhotoRoot, that walk runs once, and its outcome is the run's |
| `Browsing.SessionGrows` | imaging-edge.py:145-150 | a whole run, fall-back included, never overwrites a file that existed before it |
| `Browsing.ExampleWalk` | imaging-edge.py:84-93 | on a root holding container C1 "Sub" and photo A.jpg, the walk browses the root, then C1, then fetches A.jpg once, and writes it to `out/Sub/A.jpg` |
| `Browsing.ExampleRoot` | imaging-edge.py:77-93 | the root listing of that example: C1 is browsed first, then A.jpg is fetched once and written under `Sub`, the title the container loop left in `dirname` |
| `Browsing.ExampleItem` | imaging-edge.py:90-108 | the item step of that example: A.jpg's single 1000-byte variant is downloaded to `out/Sub/A.jpg` |
| `Browsing.ExampleSub` | imaging-edge.py:84-87 | the sub-directory step of that example: browsing the empty C1 sends one request and succeeds |
| `Browsing.Items` | imaging-edge.py:90-110 | the item loop: fail on a missing title or URL text, pass over an item with no candidate or an empty URL, download the rest to `output_dir/dirname/title` and stop at the first failed download; its properties are the `Items…` lemmas |
| `Browsing.Containers` | imaging-edge.py:84-87 | the container loop: `dirname` becomes each title, then the recursive call, stopping at the first failure; stated by `ContainersDirname`, `ContainersVisitsAll` and `ContainersGrows` |
| `Browsing.Results` | imaging-edge.py:77-81 | the loop over the `Result` documents, each parsed, its containers and then its items handled, `dirname` carried over; stated by `ResultsGrows` and `ListingOrder` |
| `Browsing.Browse` | imaging-edge.py:50-76 | one `getDirectoryContent` call: send the Browse body, fail on no answer or a status other than 200 or an unparsable body, then walk the documents; stated by `BrowseSendsFirst`, `BrowseNoAnswer`, `BrowseBadStatus` and `BrowseGrows` |
| `Browsing.Session` | imaging-edge.py:145-150 | the push-root walk, then the pull-root walk only if it failed; stated by `SessionFallback` and `SessionGrows` |
| `Client.ImagingEdge.constructor` | imaging-edge.py:21-25 | a client starts on the given filesystem with no request sent |
| `Client.ImagingEdge.DownloadFile` | imaging-edge.py:112-128 | skip check, directory creation and the piece-by-piece write loop leave exactly the state `Browsing.Download` gives |
| `Client.ImagingEdge.GetDirectoryContent` | imaging-edge.py:50-110 | the recursive walk with its three nested loops and the reassigned `dirname` leaves exactly the state and outcome `Browsing.Browse` gives |
| `Client.ImagingEdge.Run` | imaging-edge.py:145-150 | push-root walk, then pull-root walk only on failure, as `Browsing.Session` gives |

## Left out

- HTTP transport: the camera's answers are functions of the environment, and the request log records what was sent. A Browse POST that raises (no connection, a timeout) is the answer `Unanswered`: the call fails with `NoAnswer` and, at the push root, triggers the fall-back. Headers, retries and what goes on inside the connection are not modelled.
- A `startTransfer` POST that raises (line 33) would abort `main` before the push-root walk starts; this is not modelled, because `startTransfer` is not modelled.
- XML parsing: responses are given already parsed. A document the parser rejects is `Malformed`. A missing `dc:title` or `id` is an absent value, and the client fails where it reads it.
- `int(size)` on a non-numeric `size` attribute (a ValueError) is not modelled: sizes arrive as integers.
- A `res` whose first child is an element rather than text is not modelled. Its URL is either text or absent.
- `unquote(urlparse(url).path)` is an uninterpreted function of the environment.
- `iter_content(chunk_size=8192)`: the transport hands the client the streamed pieces, with the boundaries it and content decoding chose; the 8192-byte hint is not modelled, since it does not change the bytes written.
- `startTransfer` is not modelled. It is a fire-and-forget notification whose answer is never inspected.
- `getServiceInfo`, all printing and debug output, argument parsing and the GLib pictures-directory lookup are not modelled. They are diagnostics or configuration.
- `lastResolution` is assigned but never read, so it is not modelled.
- Python's recursion limit becomes a nesting bound `fuel`. Running out of it fails the call, so a too-deep push walk also triggers the fall-back.
- The filesystem is a map of files and a set of directories. Paths are not normalised. `os.makedirs` is modelled as creating every prefix that ends before a `/`. It fails on an empty name or when one of those prefixes is a file. Permissions, full disks and other OS errors are not modelled.
