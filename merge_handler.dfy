/** The request handler `mergeVideos` (controller/videoController.js, lines
    19-96). The stages that call foreign code appear only through their
    outcomes: the multipart parse, each file move, the transcoding engine's
    terminal event and the upload. The handler returns the one response it
    sends and the list of external operations it starts, in order. */
module MergeHandler {
  import opened Paths
  import FilterGraph
  import MergedId

  /** What the multipart parser reports: failure, or the uploaded files' paths. */
  datatype ParseResult = ParseError | Parsed(videoFiles: seq<string>)

  /** The transcoding engine's terminal event: `end`, or `error` with its message. */
  datatype EngineOutcome = EngineEnd | EngineError(message: string)

  /** The remote store's answer to the upload. */
  datatype UploadOutcome = Uploaded(secureUrl: string) | UploadFailed(message: string)

  /** The JSON body of a response. */
  datatype Body = ErrorBody(error: string) | SuccessBody(message: string, url: string)

  datatype Response = Response(status: nat, body: Body)

  /** An external operation the handler starts. */
  datatype Effect =
    | Move(source: string, target: string)
    | Transcode(inputs: seq<string>, graph: FilterGraph.Graph, output: string)
    | Upload(file: string, publicId: string)

  const ParseErrorMessage := "Error parsing the files."
  const NoFilesMessage := "No video files uploaded."
  const MoveErrorMessage := "Failed to move video files."
  const MergeErrorPrefix := "Failed to merge videos. "
  const UploadErrorMessage := "Failed to upload merged video to Cloudinary."
  const SuccessMessage := "Videos merged and uploaded successfully!"

  /** The staging directory under the system's temporary root (line 14). */
  function TempDir(tmpRoot: string): string {
    PathJoin(tmpRoot, "uploads/video")
  }

  /** Where an uploaded file is moved to (line 41). */
  function StagedPath(tempDir: string, video: string): string {
    PathJoin(tempDir, Basename(video))
  }

  /** A staged file keeps its basename. */
  lemma StagedPathKeepsName(tempDir: string, video: string)
    requires Basename(video) != ""
    ensures Basename(StagedPath(tempDir, video)) == Basename(video)
  {
    BasenameOfJoin(tempDir, Basename(video));
  }

  /** Staged paths are keyed by basename alone: two uploads land on the same
      staged path exactly when their basenames agree. */
  lemma StagedPathCollision(tempDir: string, a: string, b: string)
    ensures StagedPath(tempDir, a) == StagedPath(tempDir, b) <==> Basename(a) == Basename(b)
  {
    var pa, pb := StagedPath(tempDir, a), StagedPath(tempDir, b);
    if pa == pb {
      assert pa[|tempDir| + 1..] == Basename(a);
      assert pb[|tempDir| + 1..] == Basename(b);
    }
  }

  /** The staged path of every file, in submission order. */
  function StagedPaths(tempDir: string, videoFiles: seq<string>): (r: seq<string>)
    ensures |r| == |videoFiles|
    ensures forall k :: 0 <= k < |r| ==> r[k] == StagedPath(tempDir, videoFiles[k])
  {
    if |videoFiles| == 0 then []
    else StagedPaths(tempDir, videoFiles[..|videoFiles| - 1]) + [StagedPath(tempDir, videoFiles[|videoFiles| - 1])]
  }

  /** The move operations for the given files, in order. */
  function MoveEffects(tempDir: string, videoFiles: seq<string>): (r: seq<Effect>)
    ensures |r| == |videoFiles|
    ensures forall k :: 0 <= k < |r| ==> r[k] == Move(videoFiles[k], StagedPath(tempDir, videoFiles[k]))
  {
    if |videoFiles| == 0 then []
    else
      var last := videoFiles[|videoFiles| - 1];
      MoveEffects(tempDir, videoFiles[..|videoFiles| - 1]) + [Move(last, StagedPath(tempDir, last))]
  }

  lemma StagedPathsSnoc(tempDir: string, videoFiles: seq<string>, i: nat)
    requires i < |videoFiles|
    ensures StagedPaths(tempDir, videoFiles[..i + 1])
         == StagedPaths(tempDir, videoFiles[..i]) + [StagedPath(tempDir, videoFiles[i])]
    ensures MoveEffects(tempDir, videoFiles[..i + 1])
         == MoveEffects(tempDir, videoFiles[..i]) + [Move(videoFiles[i], StagedPath(tempDir, videoFiles[i]))]
  {
    assert videoFiles[..i + 1][..i] == videoFiles[..i];
  }

  /** The index of the first of `n` moves that fails, or `n` when none does. */
  function FirstFailure(moveOk: nat -> bool, n: nat): (f: nat)
    ensures f <= n
    ensures forall k :: 0 <= k < f ==> moveOk(k)
    ensures f < n ==> !moveOk(f)
  {
    if n == 0 then 0
    else
      var f := FirstFailure(moveOk, n - 1);
      if f < n - 1 then f else if moveOk(n - 1) then n else n - 1
  }

  /** The move loop (lines 38-48): moves the files one by one, in order, into
      `tempDir` under their basenames, and stops at the first move that
      fails. `moveOk(k)` is the outcome of the `k`-th move. */
  method StageFiles(tempDir: string, videoFiles: seq<string>, moveOk: nat -> bool)
    returns (movedFiles: seq<string>, attempts: seq<Effect>, ok: bool)
    ensures |movedFiles| == FirstFailure(moveOk, |videoFiles|)
    ensures ok <==> |movedFiles| == |videoFiles|
    ensures movedFiles == StagedPaths(tempDir, videoFiles[..|movedFiles|])
    ensures ok ==> movedFiles == StagedPaths(tempDir, videoFiles)
    ensures attempts == MoveEffects(tempDir, videoFiles[..|movedFiles| + (if ok then 0 else 1)])
  {
    movedFiles, attempts, ok := [], [], true;
    var i := 0;
    while i < |videoFiles|
      invariant 0 <= i <= |videoFiles|
      invariant |movedFiles| == i
      invariant forall k :: 0 <= k < i ==> moveOk(k)
      invariant movedFiles == StagedPaths(tempDir, videoFiles[..i])
      invariant attempts == MoveEffects(tempDir, videoFiles[..i])
    {
      var video := videoFiles[i];
      var targetPath := StagedPath(tempDir, video);
      attempts := attempts + [Move(video, targetPath)];
      StagedPathsSnoc(tempDir, videoFiles, i);
      if !moveOk(i) {
        ok := false;
        return;
      }
      movedFiles := movedFiles + [targetPath];
      i := i + 1;
    }
    assert videoFiles[..i] == videoFiles;
  }

  /** The answer of one request: the response sent, and the external
      operations started on the way to it, in order. */
  datatype Reply = Reply(response: Response, effects: seq<Effect>)

  /** What lines 50-94 answer once all files are staged: the engine is run
      once over the staged files with the filter graph; its `error` event is
      answered with the engine's message, its `end` event by uploading the
      output under the merged-video identifier. */
  ghost function EngineReply(tempDir: string, movedFiles: seq<string>, engine: EngineOutcome,
                             timestamp: string, upload: UploadOutcome): Reply
  {
    var output := PathJoin(tempDir, "output.mp4");
    var transcode := [Transcode(movedFiles, FilterGraph.BuildGraph(movedFiles), output)];
    match engine
    case EngineError(m) => Reply(Response(500, ErrorBody(MergeErrorPrefix + m)), transcode)
    case EngineEnd =>
      var effects := transcode + [Upload(output, MergedId.MergedVideoId(timestamp))];
      match upload
      case UploadFailed(_) => Reply(Response(500, ErrorBody(UploadErrorMessage)), effects)
      case Uploaded(url) => Reply(Response(200, SuccessBody(SuccessMessage, url)), effects)
  }

  /** What `mergeVideos` answers, stage by stage: parse, empty check, the
      moves up to the first failure, then the engine and the upload. */
  ghost function HandlerReply(parse: ParseResult, tmpRoot: string, moveOk: nat -> bool,
                              engine: EngineOutcome, timestamp: string, upload: UploadOutcome): Reply
  {
    match parse
    case ParseError => Reply(Response(400, ErrorBody(ParseErrorMessage)), [])
    case Parsed(files) =>
      if |files| == 0 then Reply(Response(400, ErrorBody(NoFilesMessage)), [])
      else
        var dir := TempDir(tmpRoot);
        var f := FirstFailure(moveOk, |files|);
        if f < |files| then Reply(Response(500, ErrorBody(MoveErrorMessage)), MoveEffects(dir, files[..f + 1]))
        else
          var rest := EngineReply(dir, StagedPaths(dir, files), engine, timestamp, upload);
          Reply(rest.response, MoveEffects(dir, files) + rest.effects)
  }

  /** `mergeVideos`: the single response for one request, and the external
      operations started on the way to it. `tmpRoot` is `os.tmpdir()`;
      `timestamp` is `new Date().toISOString()` as read in the engine's `end`
      handler (line 72), when the engine reports `end`. */
  method MergeVideos(parse: ParseResult, tmpRoot: string, moveOk: nat -> bool,
                     engine: EngineOutcome, timestamp: string, upload: UploadOutcome)
    returns (response: Response, effects: seq<Effect>)
    ensures Reply(response, effects) == HandlerReply(parse, tmpRoot, moveOk, engine, timestamp, upload)
  {
    if parse.ParseError? {
      return Response(400, ErrorBody(ParseErrorMessage)), [];
    }
    var videoFiles := parse.videoFiles;
    if |videoFiles| == 0 {
      return Response(400, ErrorBody(NoFilesMessage)), [];
    }
    var tempDir := TempDir(tmpRoot);
    var movedFiles, attempts, ok := StageFiles(tempDir, videoFiles, moveOk);
    effects := attempts;
    ghost var f := FirstFailure(moveOk, |videoFiles|);
    if !ok {
      assert effects == MoveEffects(tempDir, videoFiles[..f + 1]);
      return Response(500, ErrorBody(MoveErrorMessage)), effects;
    }
    assert videoFiles[..|videoFiles|] == videoFiles;
    assert f == |videoFiles|;
    assert effects == MoveEffects(tempDir, videoFiles);
    var tail;
    response, tail := TranscodeAndPublish(tempDir, movedFiles, engine, timestamp, upload);
    effects := effects + tail;
  }

  /** Lines 50-94: the engine runs over the staged files with the filter
      graph; on `error` the engine's message is reported, on `end` the output
      is uploaded under the merged-video identifier. */
  method TranscodeAndPublish(tempDir: string, movedFiles: seq<string>, engine: EngineOutcome,
                             timestamp: string, upload: UploadOutcome)
    returns (response: Response, effects: seq<Effect>)
    ensures |effects| >= 1
    ensures effects[0] == Transcode(movedFiles, FilterGraph.BuildGraph(movedFiles), PathJoin(tempDir, "output.mp4"))
    ensures engine.EngineError? ==>
      |effects| == 1 && response == Response(500, ErrorBody(MergeErrorPrefix + engine.message))
    ensures engine.EngineEnd? ==>
      |effects| == 2 && effects[1] == Upload(PathJoin(tempDir, "output.mp4"), MergedId.MergedVideoId(timestamp))
    ensures response.status == 200 <==> engine.EngineEnd? && upload.Uploaded?
    ensures response.status == 200 ==> response.body == SuccessBody(SuccessMessage, upload.secureUrl)
    ensures engine.EngineEnd? && upload.UploadFailed? ==> response == Response(500, ErrorBody(UploadErrorMessage))
    ensures Reply(response, effects) == EngineReply(tempDir, movedFiles, engine, timestamp, upload)
  {
    var outputVideoPath := PathJoin(tempDir, "output.mp4");
    var graph := FilterGraph.BuildGraph(movedFiles);
    effects := [Transcode(movedFiles, graph, outputVideoPath)];
    match engine {
      case EngineError(message) =>
        response := Response(500, ErrorBody(MergeErrorPrefix + message));
      case EngineEnd =>
        var mergedVideoId := MergedId.MergedVideoId(timestamp);
        effects := effects + [Upload(outputVideoPath, mergedVideoId)];
        match upload {
          case UploadFailed(_) =>
            response := Response(500, ErrorBody(UploadErrorMessage));
          case Uploaded(secureUrl) =>
            response := Response(200, SuccessBody(SuccessMessage, secureUrl));
        }
    }
  }
}
