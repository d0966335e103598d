/**
 * The `ImagingEdge` client object (imaging-edge.py, lines 14-128) and the
 * fall-back in `main` (lines 145-150), written as the step-by-step
 * program the source is. The local filesystem the client writes to and
 * the requests it puts on the network are modelled as fields of the
 * object; each method is proved to leave exactly the state that the
 * functions of module Browsing describe.
 */
module Client {
  import opened Wrappers
  import opened Didl
  import opened Selection
  import opened Envelope
  import opened Paths
  import opened Browsing

  class ImagingEdge {
    /** Output directory, camera and URL decoding, fixed at construction. */
    const env: Env
    /** The regular files on disk and their content. */
    var files: map<string, seq<byte>>
    /** The directories on disk. */
    var dirs: set<string>
    /** Every request sent to the camera so far, in order. */
    var sent: seq<Request>

    function Snapshot(): State
      reads this
    {
      State(files, dirs, sent)
    }

    constructor (env: Env, files: map<string, seq<byte>>, dirs: set<string>)
      ensures this.env == env && Snapshot() == State(files, dirs, [])
    {
      this.env := env;
      this.files := files;
      this.dirs := dirs;
      this.sent := [];
    }

    /**
     * `downloadFile(url, filepath)`: skip an existing file, create the
     * parent directories, then write the streamed chunks in order.
     */
    method DownloadFile(url: string, filepath: Option<string>) returns (r: Outcome)
      modifies this
      ensures Step(Snapshot(), r) == Download(env, old(Snapshot()), url, filepath)
    {
      var path := TargetPath(env, url, filepath);
      if path in files {
        return Ok;
      }
      var parent := Dirname(path);
      if parent !in dirs {
        if parent == "" || !(Ancestors(parent) !! files.Keys) {
          return Failed(Makedirs(parent));
        }
        dirs := dirs + Ancestors(parent);
      }
      sent := sent + [Get(url)];
      var response := env.fetch(url);
      if response.Unreachable? {
        return Failed(Transport(url));
      }
      if path in dirs {
        return Failed(IsADirectory(path));
      }
      var chunks := response.pieces;
      ghost var before := files;
      ghost var d, s := dirs, sent;
      files := files[path := []];
      var i := 0;
      while i < |chunks|
        invariant 0 <= i <= |chunks|
        invariant files == before[path := Flatten(chunks[..i])]
        invariant dirs == d && sent == s
      {
        FlattenSnoc(chunks[..i], chunks[i]);
        assert chunks[..i + 1] == chunks[..i] + [chunks[i]];
        files := files[path := files[path] + chunks[i]];
        i := i + 1;
      }
      assert chunks[..i] == chunks;
      if !response.complete {
        return Failed(Transport(url));
      }
      return Ok;
    }

    /**
     * `getDirectoryContent(dir, dirname)`: browse `id`, recurse into every
     * container (reassigning `dirname` to its title), then choose and
     * download a variant of every item. `fuel` bounds the nesting.
     */
    method GetDirectoryContent(id: string, dirname: string, fuel: nat) returns (r: Outcome)
      modifies this
      ensures Step(Snapshot(), r) == Browse(env, old(Snapshot()), id, dirname, fuel)
      decreases fuel
    {
      if fuel == 0 {
        return Failed(RecursionLimit);
      }
      var body := BrowseEnvelope(id);
      sent := sent + [Post(body)];
      var response := env.browse(body);
      if response.Unanswered? {
        return Failed(NoAnswer(id));
      }
      if response.status != 200 {
        return Failed(BadStatus(id));
      }
      if response.results.None? {
        return Failed(ParseError);
      }
      var ds := response.results.value;
      ghost var start := Snapshot();
      var dn := dirname;
      var i := 0;
      while i < |ds|
        invariant 0 <= i <= |ds|
        invariant Results(env, start, ds, dirname, fuel - 1) == Results(env, Snapshot(), ds[i..], dn, fuel - 1)
      {
        if ds[i].Malformed? {
          return Failed(ParseError);
        }
        var cs, items := ds[i].containers, ds[i].items;
        ghost var atListing, dnListing := Snapshot(), dn;
        var j := 0;
        while j < |cs|
          invariant 0 <= j <= |cs|
          invariant Containers(env, atListing, cs, dnListing, fuel - 1) == Containers(env, Snapshot(), cs[j..], dn, fuel - 1)
        {
          if cs[j].title.None? {
            return Failed(ParseError);
          }
          dn := cs[j].title.value;
          if cs[j].id.None? {
            return Failed(ParseError);
          }
          var sub := GetDirectoryContent(cs[j].id.value, dn, fuel - 1);
          if sub.Failed? {
            return sub;
          }
          assert cs[j..][1..] == cs[j + 1..];
          j := j + 1;
        }
        ghost var atItems := Snapshot();
        var k := 0;
        while k < |items|
          invariant 0 <= k <= |items|
          invariant Items(env, atItems, items, dn) == Items(env, Snapshot(), items[k..], dn)
        {
          if items[k].title.None? {
            return Failed(ParseError);
          }
          var filepath := ItemPath(env.outputDir, dn, items[k].title.value);
          var choice := SelectBest(items[k].res);
          if choice.UrlMissing? {
            return Failed(NoUrlText);
          }
          if choice.Chosen? && choice.url != "" {
            var d := DownloadFile(choice.url, Some(filepath));
            if d.Failed? {
              return d;
            }
          }
          assert items[k..][1..] == items[k + 1..];
          k := k + 1;
        }
        assert ds[i..][1..] == ds[i + 1..];
        i := i + 1;
      }
      return Ok;
    }

    /** `main`: walk the push root; if that raised, walk the pull root once. */
    method Run(maxDepth: nat) returns (r: Outcome)
      modifies this
      ensures Step(Snapshot(), r) == Session(env, old(Snapshot()), maxDepth)
    {
      r := GetDirectoryContent(PushRoot, PushRoot, maxDepth);
      if r.Failed? {
        r := GetDirectoryContent(PhotoRoot, PhotoRoot, maxDepth);
      }
    }
  }
}
