/** Properties of the request handler's answer (controller/videoController.js,
    lines 19-96), stated about `MergeHandler.HandlerReply`, which
    `MergeHandler.MergeVideos` computes. */
module MergeProperties {
  import opened Paths
  import FilterGraph
  import MergedId
  import opened MergeHandler

  /** Every stage succeeded: the form parsed, it held files, every move
      succeeded, the engine ended and the upload answered. */
  predicate AllStagesSucceed(parse: ParseResult, moveOk: nat -> bool,
                             engine: EngineOutcome, upload: UploadOutcome) {
    && parse.Parsed? && |parse.videoFiles| > 0
    && FirstFailure(moveOk, |parse.videoFiles|) == |parse.videoFiles|
    && engine.EngineEnd? && upload.Uploaded?
  }

  predicate HasTranscode(effects: seq<Effect>) {
    exists k :: 0 <= k < |effects| && effects[k].Transcode?
  }

  predicate HasUpload(effects: seq<Effect>) {
    exists k :: 0 <= k < |effects| && effects[k].Upload?
  }

  /** Exactly one response status per outcome: 400 for a request the handler
      rejects, 200 exactly when every stage succeeded, 500 otherwise, and a
      success body exactly with status 200, carrying the success message and
      the store's URL. Each failing stage sends its own error body. */
  lemma ResponseClassification(parse: ParseResult, tmpRoot: string, moveOk: nat -> bool,
                               engine: EngineOutcome, timestamp: string, upload: UploadOutcome)
    ensures var r := HandlerReply(parse, tmpRoot, moveOk, engine, timestamp, upload).response;
      && r.status in {200, 400, 500}
      && (r.status == 200 <==> r.body.SuccessBody?)
      && (r.status == 400 <==> parse.ParseError? || |parse.videoFiles| == 0)
      && (r.status == 200 <==> AllStagesSucceed(parse, moveOk, engine, upload))
      && (r.status == 200 ==> r.body.message == SuccessMessage && r.body.url == upload.secureUrl)
    ensures var r := HandlerReply(parse, tmpRoot, moveOk, engine, timestamp, upload).response;
      && (parse.ParseError? ==> r.body == ErrorBody(ParseErrorMessage))
      && (parse.Parsed? && |parse.videoFiles| == 0 ==> r.body == ErrorBody(NoFilesMessage))
      && (parse.Parsed? && FirstFailure(moveOk, |parse.videoFiles|) < |parse.videoFiles| ==>
            r.body == ErrorBody(MoveErrorMessage))
    ensures var r := HandlerReply(parse, tmpRoot, moveOk, engine, timestamp, upload).response;
      parse.Parsed? && |parse.videoFiles| > 0
      && FirstFailure(moveOk, |parse.videoFiles|) == |parse.videoFiles| ==>
        && (engine.EngineError? ==> r.body == ErrorBody(MergeErrorPrefix + engine.message))
        && (engine.EngineEnd? && upload.UploadFailed? ==> r.body == ErrorBody(UploadErrorMessage))
  {
  }

  /** A rejected request (status 400) starts no external operation. */
  lemma RejectionStartsNothing(parse: ParseResult, tmpRoot: string, moveOk: nat -> bool,
                               engine: EngineOutcome, timestamp: string, upload: UploadOutcome)
    ensures var reply := HandlerReply(parse, tmpRoot, moveOk, engine, timestamp, upload);
      reply.response.status == 400 <==> reply.effects == []
  {
    var reply := HandlerReply(parse, tmpRoot, moveOk, engine, timestamp, upload);
    if parse.Parsed? && |parse.videoFiles| > 0 {
      var files := parse.videoFiles;
      var f := FirstFailure(moveOk, |files|);
      if f < |files| {
        assert |reply.effects| == f + 1;
      } else {
        assert |reply.effects| > |files|;
      }
    }
  }

  /** The moves of the first `n` files followed by operations that are not
      moves: the `k`-th move is that of file `k`, for `k < n`. */
  lemma MovesThenOthers(dir: string, files: seq<string>, n: nat, tail: seq<Effect>)
    requires n <= |files|
    requires forall k :: 0 <= k < |tail| ==> !tail[k].Move?
    ensures var effects := MoveEffects(dir, files[..n]) + tail;
      forall k :: 0 <= k < |effects| && effects[k].Move? ==>
        k < n && effects[k] == Move(files[k], StagedPath(dir, files[k]))
  {
    var moves := MoveEffects(dir, files[..n]);
    forall k | 0 <= k < |moves + tail| && (moves + tail)[k].Move?
      ensures k < n && (moves + tail)[k] == Move(files[k], StagedPath(dir, files[k]))
    {
      if k >= n {
        assert false;
      }
      assert files[..n][k] == files[k];
    }
  }

  /** The engine stage starts no move. */
  lemma EngineStartsNoMove(dir: string, staged: seq<string>, engine: EngineOutcome,
                           timestamp: string, upload: UploadOutcome)
    ensures var effects := EngineReply(dir, staged, engine, timestamp, upload).effects;
      forall k :: 0 <= k < |effects| ==> !effects[k].Move?
  {
  }

  /** Moves are attempted in submission order and stop at the first failure:
      the `k`-th operation, when it is a move, moves file `k` to its staged
      path, and no move follows a failed one. */
  lemma MovesStopAtFirstFailure(parse: ParseResult, tmpRoot: string, moveOk: nat -> bool,
                                engine: EngineOutcome, timestamp: string, upload: UploadOutcome)
    requires parse.Parsed?
    ensures var effects := HandlerReply(parse, tmpRoot, moveOk, engine, timestamp, upload).effects;
      var files := parse.videoFiles;
      forall k :: 0 <= k < |effects| && effects[k].Move? ==>
        && k < |files| && k <= FirstFailure(moveOk, |files|)
        && effects[k] == Move(files[k], StagedPath(TempDir(tmpRoot), files[k]))
  {
    var files := parse.videoFiles;
    var dir := TempDir(tmpRoot);
    var f := FirstFailure(moveOk, |files|);
    if |files| > 0 && f < |files| {
      MovesThenOthers(dir, files, f + 1, []);
      assert MoveEffects(dir, files[..f + 1]) + [] == MoveEffects(dir, files[..f + 1]);
    } else if |files| > 0 {
      var staged := StagedPaths(dir, files);
      EngineStartsNoMove(dir, staged, engine, timestamp, upload);
      MovesThenOthers(dir, files, |files|, EngineReply(dir, staged, engine, timestamp, upload).effects);
      assert files[..|files|] == files;
    }
  }

  /** Operations after a run of moves: the transcode and the upload are
      found in the whole list exactly when they are found after the moves. */
  lemma AfterMoves(moves: seq<Effect>, rest: seq<Effect>)
    requires forall k :: 0 <= k < |moves| ==> moves[k].Move?
    ensures HasTranscode(moves + rest) <==> HasTranscode(rest)
    ensures HasUpload(moves + rest) <==> HasUpload(rest)
  {
    var all := moves + rest;
    if HasTranscode(all) {
      var k :| 0 <= k < |all| && all[k].Transcode?;
      assert rest[k - |moves|] == all[k];
    }
    if HasTranscode(rest) {
      var k :| 0 <= k < |rest| && rest[k].Transcode?;
      assert all[|moves| + k] == rest[k];
    }
    if HasUpload(all) {
      var k :| 0 <= k < |all| && all[k].Upload?;
      assert rest[k - |moves|] == all[k];
    }
    if HasUpload(rest) {
      var k :| 0 <= k < |rest| && rest[k].Upload?;
      assert all[|moves| + k] == rest[k];
    }
  }

  /** The engine stage starts the transcode first, and the upload, last,
      exactly when the engine ended. */
  lemma EngineStage(dir: string, staged: seq<string>, engine: EngineOutcome,
                    timestamp: string, upload: UploadOutcome)
    ensures var effects := EngineReply(dir, staged, engine, timestamp, upload).effects;
      && |effects| >= 1 && HasTranscode(effects)
      && effects[0] == Transcode(staged, FilterGraph.BuildGraph(staged), PathJoin(dir, "output.mp4"))
      && (HasUpload(effects) <==> engine.EngineEnd?)
      && (HasUpload(effects) ==>
            effects[|effects| - 1] == Upload(PathJoin(dir, "output.mp4"), MergedId.MergedVideoId(timestamp)))
  {
    var effects := EngineReply(dir, staged, engine, timestamp, upload).effects;
    assert effects[0].Transcode?;
    if engine.EngineError? {
      assert |effects| == 1;
    } else {
      assert effects[1].Upload?;
    }
  }

  /** The engine is started exactly when every file was staged. */
  lemma TranscodeAfterAllMoves(parse: ParseResult, tmpRoot: string, moveOk: nat -> bool,
                               engine: EngineOutcome, timestamp: string, upload: UploadOutcome)
    ensures var effects := HandlerReply(parse, tmpRoot, moveOk, engine, timestamp, upload).effects;
      HasTranscode(effects) <==>
        parse.Parsed? && |parse.videoFiles| > 0
        && FirstFailure(moveOk, |parse.videoFiles|) == |parse.videoFiles|
  {
    if parse.Parsed? && |parse.videoFiles| > 0 {
      var files, dir := parse.videoFiles, TempDir(tmpRoot);
      var f := FirstFailure(moveOk, |files|);
      if f < |files| {
        AfterMoves(MoveEffects(dir, files[..f + 1]), []);
        assert MoveEffects(dir, files[..f + 1]) + [] == MoveEffects(dir, files[..f + 1]);
      } else {
        var staged := StagedPaths(dir, files);
        EngineStage(dir, staged, engine, timestamp, upload);
        AfterMoves(MoveEffects(dir, files), EngineReply(dir, staged, engine, timestamp, upload).effects);
      }
    }
  }

  /** When the engine is started, it comes right after the moves of all the
      files, runs over the staged files in submission order, with the filter
      graph built from them, and writes the fixed output path. */
  lemma TranscodeInputs(parse: ParseResult, tmpRoot: string, moveOk: nat -> bool,
                        engine: EngineOutcome, timestamp: string, upload: UploadOutcome)
    requires parse.Parsed? && |parse.videoFiles| > 0
    requires FirstFailure(moveOk, |parse.videoFiles|) == |parse.videoFiles|
    ensures var effects := HandlerReply(parse, tmpRoot, moveOk, engine, timestamp, upload).effects;
      var files, dir := parse.videoFiles, TempDir(tmpRoot);
      var staged := StagedPaths(dir, files);
      && |effects| > |files|
      && effects[..|files|] == MoveEffects(dir, files)
      && effects[|files|] == Transcode(staged, FilterGraph.BuildGraph(staged), PathJoin(dir, "output.mp4"))
  {
    var files, dir := parse.videoFiles, TempDir(tmpRoot);
    var staged := StagedPaths(dir, files);
    var moves, rest := MoveEffects(dir, files), EngineReply(dir, staged, engine, timestamp, upload).effects;
    EngineStage(dir, staged, engine, timestamp, upload);
    assert (moves + rest)[|files|] == rest[0];
    assert (moves + rest)[..|files|] == moves;
  }

  /** The merged video is uploaded exactly when the engine ran and ended, as
      the last operation, under the merged-video identifier of the time the
      engine reported `end`. */
  lemma UploadAfterEngineEnd(parse: ParseResult, tmpRoot: string, moveOk: nat -> bool,
                             engine: EngineOutcome, timestamp: string, upload: UploadOutcome)
    ensures var effects := HandlerReply(parse, tmpRoot, moveOk, engine, timestamp, upload).effects;
      HasUpload(effects) <==> HasTranscode(effects) && engine.EngineEnd?
    ensures var effects := HandlerReply(parse, tmpRoot, moveOk, engine, timestamp, upload).effects;
      HasUpload(effects) ==>
        effects[|effects| - 1] == Upload(PathJoin(TempDir(tmpRoot), "output.mp4"), MergedId.MergedVideoId(timestamp))
  {
    if parse.Parsed? && |parse.videoFiles| > 0 {
      var files, dir := parse.videoFiles, TempDir(tmpRoot);
      var f := FirstFailure(moveOk, |files|);
      if f < |files| {
        AfterMoves(MoveEffects(dir, files[..f + 1]), []);
        assert MoveEffects(dir, files[..f + 1]) + [] == MoveEffects(dir, files[..f + 1]);
      } else {
        var staged := StagedPaths(dir, files);
        var moves, rest := MoveEffects(dir, files), EngineReply(dir, staged, engine, timestamp, upload).effects;
        EngineStage(dir, staged, engine, timestamp, upload);
        AfterMoves(moves, rest);
        assert (moves + rest)[|moves + rest| - 1] == rest[|rest| - 1];
      }
    }
  }
}
