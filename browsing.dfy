/**
 * What one run of the client does, as functions of the camera's answers
 * and of the local filesystem (imaging-edge.py, lines 50-128 and
 * 145-150): the recursive directory walk, the per-item choice and
 * download, and the fall-back from the push root to the pull root.
 *
 * The network is an environment of functions: the Browse response the
 * camera gives to a request body, the stream it gives to a GET of a URL.
 * The filesystem is a map from path to file content and a set of
 * directories. Every request put on the network is recorded, in order.
 */
module Browsing {
  import opened Wrappers
  import opened Didl
  import opened Selection
  import opened Envelope
  import opened Paths

  /** The root a camera in "choose images on camera" mode exposes. */
  const PushRoot: string := "PushRoot"
  /** The root of the whole card, exposed in "choose images on computer" mode. */
  const PhotoRoot: string := "PhotoRoot"

  /** A request put on the network: a Browse POST with its body, or a GET of a photo. */
  datatype Request = Post(body: string) | Get(url: string)

  /**
   * The world outside the client: where files go, what the camera answers,
   * and `unquote(urlparse(url).path)`, which is not modelled.
   */
  datatype Env = Env(
    outputDir: string,
    browse: string -> Response,
    fetch: string -> Fetch,
    urlPath: string -> string)

  /** Regular files and their content, directories, and the requests sent so far. */
  datatype State = State(files: map<string, seq<byte>>, dirs: set<string>, sent: seq<Request>)

  /** The exceptions that end a walk. */
  datatype Failure =
    | RecursionLimit           // Python's recursion limit
    | NoAnswer(id: string)     // line 51: `requests.post` of the Browse call raised
    | BadStatus(id: string)    // line 74: the Browse answer was not 200
    | ParseError               // minidom rejected a document, or a title or id is missing
    | NoUrlText                // line 103: `firstChild` of a chosen `res` is None
    | Makedirs(dir: string)    // `os.makedirs` raised
    | Transport(url: string)   // the photo stream could not be opened or broke off
    | IsADirectory(path: string) // `open(filepath, 'wb')` on a directory

  datatype Outcome = Ok | Failed(failure: Failure)

  datatype Step = Step(st: State, out: Outcome)

  /** The result of the container loop, with the last value assigned to `dirname`. */
  datatype Walk = Walk(st: State, dirname: string, out: Outcome)

  /** No path is both a file and a directory, and the empty path is neither. */
  predicate Valid(st: State)
  {
    st.files.Keys !! st.dirs && "" !in st.dirs
  }

  /** Nothing present before is lost: files keep their content, directories stay, requests only append. */
  predicate Grows(a: State, b: State)
  {
    (forall p :: p in a.files ==> p in b.files && b.files[p] == a.files[p]) &&
    a.dirs <= b.dirs && a.sent <= b.sent
  }

  lemma GrowsTrans(a: State, b: State, c: State)
    requires Grows(a, b) && Grows(b, c)
    ensures Grows(a, c)
  {
  }

  // ---- Streaming ----

  /** The bytes of streamed pieces written one after another. */
  function Flatten(cs: seq<seq<byte>>): seq<byte>
  {
    if cs == [] then [] else cs[0] + Flatten(cs[1..])
  }

  lemma {:induction false} FlattenSnoc(cs: seq<seq<byte>>, c: seq<byte>)
    ensures Flatten(cs + [c]) == Flatten(cs) + c
  {
    if cs != [] {
      assert (cs + [c])[1..] == cs[1..] + [c];
      FlattenSnoc(cs[1..], c);
    }
  }

  // ---- downloadFile (lines 112-128) ----

  /** `filepath`, or the fall-back target when it is None or empty. */
  function TargetPath(env: Env, url: string, filepath: Option<string>): (r: string)
    ensures filepath.Some? && filepath.value != "" ==> r == filepath.value
    ensures filepath == None || filepath == Some("") ==> r == FallbackPath(env.outputDir, env.urlPath(url))
  {
    if filepath == None || filepath == Some("") then FallbackPath(env.outputDir, env.urlPath(url))
    else filepath.value
  }

  function Download(env: Env, st: State, url: string, filepath: Option<string>): Step
  {
    var path := TargetPath(env, url, filepath);
    if path in st.files then Step(st, Ok)
    else
      var parent := Dirname(path);
      if parent !in st.dirs && (parent == "" || !(Ancestors(parent) !! st.files.Keys)) then
        Step(st, Failed(Makedirs(parent)))
      else
        var st1 := if parent in st.dirs then st else st.(dirs := st.dirs + Ancestors(parent));
        var st2 := st1.(sent := st1.sent + [Get(url)]);
        match env.fetch(url)
        case Unreachable => Step(st2, Failed(Transport(url)))
        case Streamed(pieces, complete) =>
          if path in st2.dirs then Step(st2, Failed(IsADirectory(path)))
          else Step(st2.(files := st2.files[path := Flatten(pieces)]), if complete then Ok else Failed(Transport(url)))
  }

  /** An existing file is skipped: nothing changes and no request is made. */
  lemma DownloadSkipsExisting(env: Env, st: State, url: string, filepath: Option<string>)
    requires TargetPath(env, url, filepath) in st.files
    ensures Download(env, st, url, filepath) == Step(st, Ok)
  {
  }

  /**
   * A download that is not skipped and succeeds leaves the parent
   * directory in place, the file holding every streamed piece in order,
   * and one GET of the URL sent; the only directories added are those
   * `os.makedirs` creates when the parent was missing.
   */
  lemma DownloadWrites(env: Env, st: State, url: string, filepath: Option<string>)
    requires TargetPath(env, url, filepath) !in st.files
    requires Download(env, st, url, filepath).out.Ok?
    ensures var path, s := TargetPath(env, url, filepath), Download(env, st, url, filepath).st;
      env.fetch(url).Streamed? && env.fetch(url).complete &&
      s.files == st.files[path := Flatten(env.fetch(url).pieces)] &&
      Dirname(path) in s.dirs &&
      s.dirs == (if Dirname(path) in st.dirs then st.dirs else st.dirs + Ancestors(Dirname(path))) &&
      s.sent == st.sent + [Get(url)]
  {
    var parent := Dirname(TargetPath(env, url, filepath));
    if parent !in st.dirs {
      AncestorsHasSelf(parent);
    }
  }

  /** A first download into a directory that does not exist yet creates it and writes the file. */
  lemma DownloadIntoNewDirectory(env: Env, st: State, url: string, path: string, pieces: seq<seq<byte>>)
    requires path != "" && path !in st.files && path !in st.dirs
    requires Dirname(path) != "" && Dirname(path) !in st.dirs && path !in Ancestors(Dirname(path))
    requires Ancestors(Dirname(path)) !! st.files.Keys
    requires env.fetch(url) == Streamed(pieces, true)
    ensures Download(env, st, url, Some(path)) ==
      Step(State(st.files[path := Flatten(pieces)], st.dirs + Ancestors(Dirname(path)), st.sent + [Get(url)]), Ok)
  {
  }

  /** The state a download leaves is valid when the one before it was, and loses nothing. */
  lemma DownloadGrows(env: Env, st: State, url: string, filepath: Option<string>)
    ensures Grows(st, Download(env, st, url, filepath).st)
    ensures Valid(st) ==> Valid(Download(env, st, url, filepath).st)
  {
    var path := TargetPath(env, url, filepath);
    var parent := Dirname(path);
    assert "" !in Ancestors(parent);
    if Valid(st) && path !in st.files && !(parent !in st.dirs && (parent == "" || !(Ancestors(parent) !! st.files.Keys))) {
      var st1 := if parent in st.dirs then st else st.(dirs := st.dirs + Ancestors(parent));
      assert st1.files.Keys !! st1.dirs;
      if env.fetch(url).Streamed? && path !in st1.dirs {
        var files := st1.files[path := Flatten(env.fetch(url).pieces)];
        assert files.Keys == st1.files.Keys + {path};
      }
    }
  }

  /** Repeating a completed download is a skip: nothing changes and no request is made. */
  lemma DownloadIdempotent(env: Env, st: State, url: string, filepath: Option<string>)
    requires Download(env, st, url, filepath).out.Ok?
    ensures var s := Download(env, st, url, filepath).st;
      Download(env, s, url, filepath) == Step(s, Ok)
  {
  }

  // ---- getDirectoryContent (lines 50-110) ----

  /** The item loop (lines 90-110): choose a variant for each item and download it. */
  function Items(env: Env, st: State, items: seq<Item>, dirname: string): Step
    decreases |items|
  {
    if items == [] then Step(st, Ok)
    else
      var it := items[0];
      match it.title
      case None => Step(st, Failed(ParseError))
      case Some(title) =>
        match Select(it.res)
        case UrlMissing(_) => Step(st, Failed(NoUrlText))
        case NoCandidate => Items(env, st, items[1..], dirname)
        case Chosen(_, url) =>
          if url == "" then Items(env, st, items[1..], dirname)
          else
            var s := Download(env, st, url, Some(ItemPath(env.outputDir, dirname, title)));
            if s.out.Failed? then s else Items(env, s.st, items[1..], dirname)
  }

  /** One call of `getDirectoryContent(id, dirname)`, allowed `fuel` levels of nesting. */
  function Browse(env: Env, st: State, id: string, dirname: string, fuel: nat): Step
    decreases fuel, 0, 0
  {
    if fuel == 0 then Step(st, Failed(RecursionLimit))
    else
      var body := BrowseEnvelope(id);
      var st1 := st.(sent := st.sent + [Post(body)]);
      var resp := env.browse(body);
      if resp.Unanswered? then Step(st1, Failed(NoAnswer(id)))
      else if resp.status != 200 then Step(st1, Failed(BadStatus(id)))
      else
        match resp.results
        case None => Step(st1, Failed(ParseError))
        case Some(ds) => Results(env, st1, ds, dirname, fuel - 1)
  }

  /** The loop over the `Result` elements (line 77); `dirname` carries over from one to the next. */
  function Results(env: Env, st: State, ds: seq<Didl>, dirname: string, fuel: nat): Step
    decreases fuel, 2, |ds|
  {
    if ds == [] then Step(st, Ok)
    else
      match ds[0]
      case Malformed => Step(st, Failed(ParseError))
      case Listing(cs, items) =>
        var w := Containers(env, st, cs, dirname, fuel);
        if w.out.Failed? then Step(w.st, w.out)
        else
          var s := Items(env, w.st, items, w.dirname);
          if s.out.Failed? then s else Results(env, s.st, ds[1..], w.dirname, fuel)
  }

  /** The container loop (lines 84-87): `dirname` becomes each container's title before the recursive call. */
  function Containers(env: Env, st: State, cs: seq<Container>, dirname: string, fuel: nat): Walk
    decreases fuel, 1, |cs|
  {
    if cs == [] then Walk(st, dirname, Ok)
    else
      match cs[0].title
      case None => Walk(st, dirname, Failed(ParseError))
      case Some(title) =>
        match cs[0].id
        case None => Walk(st, title, Failed(ParseError))
        case Some(id) =>
          var s := Browse(env, st, id, title, fuel);
          if s.out.Failed? then Walk(s.st, title, s.out)
          else Containers(env, s.st, cs[1..], title, fuel)
  }

  /** Lines 145-150: the push root first, the pull root once if that raised. */
  function Session(env: Env, st: State, maxDepth: nat): Step
  {
    var push := Browse(env, st, PushRoot, PushRoot, maxDepth);
    if push.out.Ok? then push else Browse(env, push.st, PhotoRoot, PhotoRoot, maxDepth)
  }

  // ---- Properties of the walk ----

  /**
   * A Browse answer other than 200 fails the call: only its own request
   * was sent, no sub-directory is visited and nothing is downloaded.
   */
  lemma BrowseBadStatus(env: Env, st: State, id: string, dirname: string, fuel: nat)
    requires fuel > 0 && env.browse(BrowseEnvelope(id)).Response? && env.browse(BrowseEnvelope(id)).status != 200
    ensures Browse(env, st, id, dirname, fuel) ==
      Step(st.(sent := st.sent + [Post(BrowseEnvelope(id))]), Failed(BadStatus(id)))
  {
  }

  /**
   * After the container loop has run through, `dirname` is the title of
   * the last container, or the name passed in when there was none. It is
   * the directory every item of that listing is downloaded into.
   */
  lemma {:induction false} ContainersDirname(env: Env, st: State, cs: seq<Container>, dirname: string, fuel: nat)
    requires Containers(env, st, cs, dirname, fuel).out.Ok?
    ensures forall i :: 0 <= i < |cs| ==> cs[i].title.Some? && cs[i].id.Some?
    ensures Containers(env, st, cs, dirname, fuel).dirname ==
      if cs == [] then dirname else cs[|cs| - 1].title.value
    decreases |cs|
  {
    if cs != [] {
      var s := Browse(env, st, cs[0].id.value, cs[0].title.value, fuel);
      ContainersDirname(env, s.st, cs[1..], cs[0].title.value, fuel);
      assert forall i :: 1 <= i < |cs| ==> cs[i] == cs[1..][i - 1];
    }
  }

  /** An item without a candidate is passed over: no state changes, no failure. */
  lemma ItemsSkipNoCandidate(env: Env, st: State, it: Item, rest: seq<Item>, dirname: string)
    requires it.title.Some?
    requires forall j :: 0 <= j < |it.res| ==> SizeOf(it.res[j]) <= 0
    ensures Items(env, st, [it] + rest, dirname) == Items(env, st, rest, dirname)
  {
    SelectSpec(it.res);
    assert ([it] + rest)[1..] == rest;
  }

  /**
   * An item whose chosen URL streams completely, into a directory that
   * already exists, is written to `output_dir/dirname/title` under the
   * `dirname` in force, with one GET; the loop goes on from there.
   */
  lemma ItemsTarget(env: Env, st: State, it: Item, rest: seq<Item>, dirname: string)
    requires it.title.Some? && Select(it.res).Chosen? && Select(it.res).url != ""
    requires var p := ItemPath(env.outputDir, dirname, it.title.value);
      p !in st.files && p !in st.dirs && Dirname(p) in st.dirs
    requires env.fetch(Select(it.res).url).Streamed? && env.fetch(Select(it.res).url).complete
    ensures var p, u := ItemPath(env.outputDir, dirname, it.title.value), Select(it.res).url;
      Items(env, st, [it] + rest, dirname) ==
        Items(env, State(st.files[p := Flatten(env.fetch(u).pieces)], st.dirs, st.sent + [Get(u)]), rest, dirname)
  {
    assert ([it] + rest)[1..] == rest;
  }

  lemma {:induction false} ItemsGrows(env: Env, st: State, items: seq<Item>, dirname: string)
    ensures Grows(st, Items(env, st, items, dirname).st)
    ensures Valid(st) ==> Valid(Items(env, st, items, dirname).st)
    decreases |items|
  {
    if items != [] && items[0].title.Some? {
      match Select(items[0].res)
      case UrlMissing(_) =>
      case NoCandidate => ItemsGrows(env, st, items[1..], dirname);
      case Chosen(_, url) =>
        if url == "" {
          ItemsGrows(env, st, items[1..], dirname);
        } else {
          var path := ItemPath(env.outputDir, dirname, items[0].title.value);
          var s := Download(env, st, url, Some(path));
          DownloadGrows(env, st, url, Some(path));
          ItemsGrows(env, s.st, items[1..], dirname);
          GrowsTrans(st, s.st, Items(env, s.st, items[1..], dirname).st);
        }
    }
  }

  /**
   * A walk never changes or removes a file that was there before it (the
   * skip-if-exists rule), never removes a directory, only appends
   * requests, and keeps the filesystem valid.
   */
  lemma {:induction false} BrowseGrows(env: Env, st: State, id: string, dirname: string, fuel: nat)
    ensures Grows(st, Browse(env, st, id, dirname, fuel).st)
    ensures Valid(st) ==> Valid(Browse(env, st, id, dirname, fuel).st)
    decreases fuel, 0, 0
  {
    if fuel > 0 {
      var body := BrowseEnvelope(id);
      var st1 := st.(sent := st.sent + [Post(body)]);
      var resp := env.browse(body);
      if resp.Response? && resp.status == 200 && resp.results.Some? {
        ResultsGrows(env, st1, resp.results.value, dirname, fuel - 1);
      }
    }
  }

  lemma {:induction false} ResultsGrows(env: Env, st: State, ds: seq<Didl>, dirname: string, fuel: nat)
    ensures Grows(st, Results(env, st, ds, dirname, fuel).st)
    ensures Valid(st) ==> Valid(Results(env, st, ds, dirname, fuel).st)
    decreases fuel, 2, |ds|
  {
    if ds != [] && ds[0].Listing? {
      var w := Containers(env, st, ds[0].containers, dirname, fuel);
      ContainersGrows(env, st, ds[0].containers, dirname, fuel);
      if w.out.Ok? {
        var s := Items(env, w.st, ds[0].items, w.dirname);
        ItemsGrows(env, w.st, ds[0].items, w.dirname);
        GrowsTrans(st, w.st, s.st);
        if s.out.Ok? {
          ResultsGrows(env, s.st, ds[1..], w.dirname, fuel);
          GrowsTrans(st, s.st, Results(env, s.st, ds[1..], w.dirname, fuel).st);
        }
      }
    }
  }

  lemma {:induction false} ContainersGrows(env: Env, st: State, cs: seq<Container>, dirname: string, fuel: nat)
    ensures Grows(st, Containers(env, st, cs, dirname, fuel).st)
    ensures Valid(st) ==> Valid(Containers(env, st, cs, dirname, fuel).st)
    decreases fuel, 1, |cs|
  {
    if cs != [] && cs[0].title.Some? && cs[0].id.Some? {
      var s := Browse(env, st, cs[0].id.value, cs[0].title.value, fuel);
      BrowseGrows(env, st, cs[0].id.value, cs[0].title.value, fuel);
      if s.out.Ok? {
        ContainersGrows(env, s.st, cs[1..], cs[0].title.value, fuel);
        GrowsTrans(st, s.st, Containers(env, s.st, cs[1..], cs[0].title.value, fuel).st);
      }
    }
  }

  /** A call with nesting left first sends its own Browse request, then everything else it does. */
  lemma BrowseSendsFirst(env: Env, st: State, id: string, dirname: string, fuel: nat)
    requires fuel > 0
    ensures st.sent + [Post(BrowseEnvelope(id))] <= Browse(env, st, id, dirname, fuel).st.sent
  {
    var st1 := st.(sent := st.sent + [Post(BrowseEnvelope(id))]);
    var resp := env.browse(BrowseEnvelope(id));
    if resp.Response? && resp.status == 200 && resp.results.Some? {
      ResultsGrows(env, st1, resp.results.value, dirname, fuel - 1);
    }
  }

  /** A Browse POST that raises fails the call having sent only its own request. */
  lemma BrowseNoAnswer(env: Env, st: State, id: string, dirname: string, fuel: nat)
    requires fuel > 0 && env.browse(BrowseEnvelope(id)).Unanswered?
    ensures Browse(env, st, id, dirname, fuel) ==
      Step(st.(sent := st.sent + [Post(BrowseEnvelope(id))]), Failed(NoAnswer(id)))
  {
  }

  /**
   * `sent[ps[i]]` is the Browse request of container `cs[i]`, at
   * increasing positions from `lo` on.
   */
  predicate BrowsedInOrder(sent: seq<Request>, lo: int, cs: seq<Container>, ps: seq<int>)
  {
    |ps| == |cs| &&
    (forall i :: 0 <= i < |cs| ==>
      cs[i].id.Some? && 0 <= lo <= ps[i] < |sent| && sent[ps[i]] == Post(BrowseEnvelope(cs[i].id.value))) &&
    (forall i, j :: 0 <= i < j < |cs| ==> ps[i] < ps[j])
  }

  lemma BrowsedInOrderCons(sent: seq<Request>, lo: int, p: int, c: Container, cs: seq<Container>, hi: int, ps: seq<int>)
    requires c.id.Some? && 0 <= lo <= p < hi && p < |sent| && sent[p] == Post(BrowseEnvelope(c.id.value))
    requires BrowsedInOrder(sent, hi, cs, ps)
    ensures BrowsedInOrder(sent, lo, [c] + cs, [p] + ps)
  {
    var cs', ps' := [c] + cs, [p] + ps;
    assert forall i :: 1 <= i < |cs'| ==> cs'[i] == cs[i - 1] && ps'[i] == ps[i - 1];
  }

  /**
   * When the container loop runs through, every container was browsed,
   * in listed order: its Browse request sits at increasing positions of
   * the requests the loop appended.
   */
  lemma {:induction false} ContainersVisitsAll(env: Env, st: State, cs: seq<Container>, dirname: string, fuel: nat)
    requires Containers(env, st, cs, dirname, fuel).out.Ok?
    ensures exists ps :: BrowsedInOrder(Containers(env, st, cs, dirname, fuel).st.sent, |st.sent|, cs, ps)
    decreases |cs|
  {
    var w := Containers(env, st, cs, dirname, fuel);
    if cs == [] {
      assert BrowsedInOrder(w.st.sent, |st.sent|, cs, []);
    } else {
      var id, title := cs[0].id.value, cs[0].title.value;
      var s := Browse(env, st, id, title, fuel);
      assert w == Containers(env, s.st, cs[1..], title, fuel);
      BrowseSendsFirst(env, st, id, title, fuel);
      ContainersGrows(env, s.st, cs[1..], title, fuel);
      ContainersVisitsAll(env, s.st, cs[1..], title, fuel);
      var ps :| BrowsedInOrder(w.st.sent, |s.st.sent|, cs[1..], ps);
      var p := |st.sent|;
      assert (st.sent + [Post(BrowseEnvelope(id))])[p] == Post(BrowseEnvelope(id));
      assert w.st.sent[p] == s.st.sent[p];
      BrowsedInOrderCons(w.st.sent, |st.sent|, p, cs[0], cs[1..], |s.st.sent|, ps);
      assert [cs[0]] + cs[1..] == cs;
    }
  }

  /** A download appends at most one request, a GET of its URL. */
  lemma DownloadSendsAtMostGet(env: Env, st: State, url: string, filepath: Option<string>)
    ensures var sent := Download(env, st, url, filepath).st.sent;
      sent == st.sent || sent == st.sent + [Get(url)]
  {
  }

  /** A successful download leaves its target a file, written now or already there. */
  lemma DownloadOkHasFile(env: Env, st: State, url: string, filepath: Option<string>)
    requires Download(env, st, url, filepath).out.Ok?
    ensures TargetPath(env, url, filepath) in Download(env, st, url, filepath).st.files
  {
  }

  /** The item loop only sends GETs of photos: no directory is browsed while items are handled. */
  lemma {:induction false} ItemsOnlyGets(env: Env, st: State, items: seq<Item>, dirname: string)
    ensures var sent := Items(env, st, items, dirname).st.sent;
      st.sent <= sent && forall k :: |st.sent| <= k < |sent| ==> sent[k].Get?
    decreases |items|
  {
    if items != [] && items[0].title.Some? {
      match Select(items[0].res)
      case UrlMissing(_) =>
      case NoCandidate => ItemsOnlyGets(env, st, items[1..], dirname);
      case Chosen(_, url) =>
        if url == "" {
          ItemsOnlyGets(env, st, items[1..], dirname);
        } else {
          var path := ItemPath(env.outputDir, dirname, items[0].title.value);
          var s := Download(env, st, url, Some(path));
          DownloadSendsAtMostGet(env, st, url, Some(path));
          if s.out.Ok? {
            ItemsOnlyGets(env, s.st, items[1..], dirname);
          }
        }
    }
  }

  /**
   * When the item loop runs through, every item had a title and no
   * failing variant, and every item whose choice is a non-empty URL has
   * its file at `output_dir/dirname/title`.
   */
  lemma {:induction false} ItemsDownloadsAll(env: Env, st: State, items: seq<Item>, dirname: string)
    requires Items(env, st, items, dirname).out.Ok?
    ensures var files := Items(env, st, items, dirname).st.files;
      forall i :: 0 <= i < |items| ==>
        items[i].title.Some? && !Select(items[i].res).UrlMissing? &&
        (Select(items[i].res).Chosen? && Select(items[i].res).url != "" ==>
          ItemPath(env.outputDir, dirname, items[i].title.value) in files)
    decreases |items|
  {
    if items != [] {
      var title := items[0].title.value;
      var path := ItemPath(env.outputDir, dirname, title);
      var choice := Select(items[0].res);
      var next := st;
      if choice.Chosen? && choice.url != "" {
        next := Download(env, st, choice.url, Some(path)).st;
        DownloadOkHasFile(env, st, choice.url, Some(path));
        ItemsGrows(env, next, items[1..], dirname);
      }
      ItemsDownloadsAll(env, next, items[1..], dirname);
      assert forall i :: 1 <= i < |items| ==> items[i] == items[1..][i - 1];
    }
  }

  /**
   * One listing (lines 84-110): the container loop runs first (every
   * container browsed, in order, by ContainersVisitsAll), then the item
   * loop runs under the `dirname` it left (the last container's title,
   * by ContainersDirname) and sends only GETs, all after the container
   * loop's requests; then the next `Result` document is handled.
   */
  lemma ListingOrder(env: Env, st: State, cs: seq<Container>, items: seq<Item>, rest: seq<Didl>, dirname: string, fuel: nat)
    requires Containers(env, st, cs, dirname, fuel).out.Ok?
    ensures var w := Containers(env, st, cs, dirname, fuel);
      var s := Items(env, w.st, items, w.dirname);
      Results(env, st, [Listing(cs, items)] + rest, dirname, fuel) ==
        (if s.out.Failed? then s else Results(env, s.st, rest, w.dirname, fuel)) &&
      st.sent <= w.st.sent <= s.st.sent &&
      (forall k :: |w.st.sent| <= k < |s.st.sent| ==> s.st.sent[k].Get?)
  {
    var w := Containers(env, st, cs, dirname, fuel);
    ContainersDirname(env, st, cs, dirname, fuel);
    ContainersGrows(env, st, cs, dirname, fuel);
    ItemsOnlyGets(env, w.st, items, w.dirname);
    assert ([Listing(cs, items)] + rest)[1..] == rest;
  }

  /**
   * The run's first request browses the push root. When that walk
   * succeeds it is the whole run. When it fails, the next request browses
   * the pull root, that walk runs once, and its outcome is the run's.
   */
  lemma SessionFallback(env: Env, st: State, maxDepth: nat)
    requires maxDepth > 0
    ensures var push, run := Browse(env, st, PushRoot, PushRoot, maxDepth), Session(env, st, maxDepth);
      |st.sent| < |run.st.sent| && run.st.sent[|st.sent|] == Post(BrowseEnvelope(PushRoot)) &&
      (push.out.Ok? ==> run == push) &&
      (push.out.Failed? ==>
        |push.st.sent| < |run.st.sent| &&
        run.st.sent[|push.st.sent|] == Post(BrowseEnvelope(PhotoRoot)) &&
        run == Browse(env, push.st, PhotoRoot, PhotoRoot, maxDepth))
  {
    var push := Browse(env, st, PushRoot, PushRoot, maxDepth);
    BrowseSendsFirst(env, st, PushRoot, PushRoot, maxDepth);
    if push.out.Failed? {
      BrowseSendsFirst(env, push.st, PhotoRoot, PhotoRoot, maxDepth);
      var pull := Browse(env, push.st, PhotoRoot, PhotoRoot, maxDepth);
      assert st.sent + [Post(BrowseEnvelope(PushRoot))] <= push.st.sent;
      assert (st.sent + [Post(BrowseEnvelope(PushRoot))])[|st.sent|] == Post(BrowseEnvelope(PushRoot));
      assert (push.st.sent + [Post(BrowseEnvelope(PhotoRoot))])[|push.st.sent|] == Post(BrowseEnvelope(PhotoRoot));
    } else {
      assert (st.sent + [Post(BrowseEnvelope(PushRoot))])[|st.sent|] == Post(BrowseEnvelope(PushRoot));
    }
  }

  /** A run keeps the filesystem valid and never overwrites a file that was there before it. */
  lemma SessionGrows(env: Env, st: State, maxDepth: nat)
    ensures Grows(st, Session(env, st, maxDepth).st)
    ensures Valid(st) ==> Valid(Session(env, st, maxDepth).st)
  {
    var push := Browse(env, st, PushRoot, PushRoot, maxDepth);
    BrowseGrows(env, st, PushRoot, PushRoot, maxDepth);
    BrowseGrows(env, push.st, PhotoRoot, PhotoRoot, maxDepth);
    GrowsTrans(st, push.st, Browse(env, push.st, PhotoRoot, PhotoRoot, maxDepth).st);
  }

  // ---- A worked example ----

  /**
   * A camera whose push root holds one sub-directory `Sub` (id C1, empty)
   * and one photo `A.jpg` with a single 1000-byte variant. Browsing that
   * root visits C1 and then downloads the photo, once. Because `dirname`
   * was reassigned by the container loop, the photo of the root listing
   * is stored under `out/Sub`, not under `out/PushRoot`.
   */
  lemma ExampleWalk(env: Env)
    requires env.outputDir == "out"
    requires env.browse(BrowseEnvelope(PushRoot)) ==
      Response(200, Some([Listing([Container(Some("C1"), Some("Sub"))],
                                  [Item(Some("A.jpg"), [Res(Some(1000), None, Some("http://cam/a.jpg"))])])]))
    requires env.browse(BrowseEnvelope("C1")) == Response(200, Some([Listing([], [])]))
    requires env.fetch("http://cam/a.jpg") == Streamed([[1, 2, 3]], true)
    ensures var run := Browse(env, State(map[], {}, []), PushRoot, PushRoot, 2);
      run.out == Ok &&
      run.st.sent == [Post(BrowseEnvelope(PushRoot)), Post(BrowseEnvelope("C1")), Get("http://cam/a.jpg")] &&
      run.st.files == map["out/Sub/A.jpg" := [1, 2, 3]] &&
      run.st.dirs == Ancestors("out/Sub")
  {
    var st1 := State(map[], {}, [Post(BrowseEnvelope(PushRoot))]);
    ExampleRoot(env, st1);
    assert st1 == State(map[], {}, []).(sent := [] + [Post(BrowseEnvelope(PushRoot))]);
  }

  /** The root listing of ExampleWalk: C1 is visited, then `A.jpg` is stored under `Sub`. */
  lemma ExampleRoot(env: Env, st: State)
    requires env.outputDir == "out" && st.files == map[] && st.dirs == {}
    requires env.browse(BrowseEnvelope("C1")) == Response(200, Some([Listing([], [])]))
    requires env.fetch("http://cam/a.jpg") == Streamed([[1, 2, 3]], true)
    ensures Results(env, st, [Listing([Container(Some("C1"), Some("Sub"))],
                                      [Item(Some("A.jpg"), [Res(Some(1000), None, Some("http://cam/a.jpg"))])])], PushRoot, 1) ==
      Step(State(map["out/Sub/A.jpg" := [1, 2, 3]], Ancestors("out/Sub"),
                 st.sent + [Post(BrowseEnvelope("C1")), Get("http://cam/a.jpg")]), Ok)
  {
    var item := Item(Some("A.jpg"), [Res(Some(1000), None, Some("http://cam/a.jpg"))]);
    var root := Listing([Container(Some("C1"), Some("Sub"))], [item]);
    var st2 := st.(sent := st.sent + [Post(BrowseEnvelope("C1"))]);
    var st3 := State(map["out/Sub/A.jpg" := [1, 2, 3]], Ancestors("out/Sub"), st2.sent + [Get("http://cam/a.jpg")]);
    ExampleSub(env, st);
    assert Containers(env, st, root.containers, PushRoot, 1) == Walk(st2, "Sub", Ok);
    ExampleItem(env, st2);
    assert Results(env, st3, [], "Sub", 1) == Step(st3, Ok);
    assert st2.sent + [Get("http://cam/a.jpg")] == st.sent + [Post(BrowseEnvelope("C1")), Get("http://cam/a.jpg")];
  }

  /** The sub-directory step of ExampleWalk: C1 is browsed and is empty. */
  lemma ExampleSub(env: Env, st: State)
    requires env.browse(BrowseEnvelope("C1")) == Response(200, Some([Listing([], [])]))
    ensures Browse(env, st, "C1", "Sub", 1) == Step(st.(sent := st.sent + [Post(BrowseEnvelope("C1"))]), Ok)
  {
    var st1 := st.(sent := st.sent + [Post(BrowseEnvelope("C1"))]);
    assert Containers(env, st1, [], "Sub", 0) == Walk(st1, "Sub", Ok);
    assert Items(env, st1, [], "Sub") == Step(st1, Ok);
    assert Results(env, st1, [Listing([], [])], "Sub", 0) == Step(st1, Ok);
  }

  /** The item step of ExampleWalk: `A.jpg` goes to `out/Sub/A.jpg`. */
  lemma ExampleItem(env: Env, st: State)
    requires env.outputDir == "out" && st.files == map[] && st.dirs == {}
    requires env.fetch("http://cam/a.jpg") == Streamed([[1, 2, 3]], true)
    ensures Items(env, st, [Item(Some("A.jpg"), [Res(Some(1000), None, Some("http://cam/a.jpg"))])], "Sub") ==
      Step(State(map["out/Sub/A.jpg" := [1, 2, 3]], Ancestors("out/Sub"), st.sent + [Get("http://cam/a.jpg")]), Ok)
  {
    var url := "http://cam/a.jpg";
    var res := [Res(Some(1000), None, Some(url))];
    var path := ItemPath("out", "Sub", "A.jpg");
    assert path == "out/Sub/A.jpg";
    DirnameOfItemPath("out", "Sub", "A.jpg");
    assert Dirname(path) == "out/Sub";
    SelectSpec(res);
    assert Select(res) == Chosen(0, url);
    assert path !in Ancestors("out/Sub");
    assert Flatten([[1, 2, 3]]) == [1, 2, 3];
    DownloadIntoNewDirectory(env, st, url, path, [[1, 2, 3]]);
  }
}
