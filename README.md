# Video merge pipeline — Dafny model

This project models the merge endpoint of the converter backend: the
`mergeVideos` handler in `controller/videoController.js`. The handler takes the
video files of one multipart upload and moves them into a staging directory. It
then runs the transcoding engine over them with a filter graph that scales
every input to 640x360 at 30 fps, passes the audio through, and concatenates
all inputs in order. Finally it uploads the merged output under an identifier
derived from the current time and answers with one JSON response.

Modules and files:

- `strings.dfy` (`Strings`): decimal rendering of numbers, as a template
  literal renders them. Also `Array.prototype.join`. Also two inverse readers
  used to state what rendered text contains: a splitter at a one-character
  separator, and a reader for bracketed label lists `[l0][l1]...`.
- `paths.dfy` (`Paths`): `path.basename` and `path.join` (POSIX).
- `filter_graph.dfy` (`FilterGraph`): the filter expression and mapped outputs
  given to `complexFilter` (lines 58-63), with lemmas about their layout.
- `merged_id.dfy` (`MergedId`): the upload identifier `merged_video_<timestamp>`
  (line 72).
- `merge_handler.dfy` (`MergeHandler`): the move loop as a method with loop
  invariants, and the request handler as methods over the outcomes of the
  foreign stages. These outcomes are the parse result, the result of each move,
  the engine's terminal event and the upload's answer. The handler returns the
  single response it sends and the external operations it starts, in order:
  moves, transcode, upload. Two functions state the answer declaratively:
  `EngineReply` for the engine and upload stages, `HandlerReply` for the whole
  request. The methods are proved to compute them.
- `merge_properties.dfy` (`MergeProperties`): what the handler's answer
  guarantees. This covers the status classification, that rejected requests
  start nothing, and the order of moves, transcode and upload.

The code keys staged files by basename in one shared directory. It writes
to a fixed `output.mp4`. It deletes nothing after a job. It reports upload
failures with a fixed message rather than the store's diagnostic. The lemma
`MergeHandler.StagedPathCollision` states the basename keying outright.

## Model

| member | source | states |
|---|---|---|
| `Strings.NatToString` | controller/videoController.js:60-62 | the decimal text a template literal renders for `${index}` and `${movedFiles.length}`: at least one character, all digits, and no leading `0` unless the number is 0 |
| `Strings.Join` | controller/videoController.js:60-61 | `Array.prototype.join`: the parts in order with the separator between neighbours, `""` for no parts |
| `Strings.DecimalRoundTrip` | controller/videoController.js:60-62 | the decimal text that `${index}` and `${movedFiles.length}` render reads back as the same number, so distinct indices render differently |
| `Strings.SplitJoin` | controller/videoController.js:60 | text joined with a one-character separator splits back into exactly the joined parts, when no part holds the separator |
| `Strings.ParseBracketed` | controller/videoController.js:61 | a rendered label list `[l0][l1]...` reads back as exactly its labels, in order |
| `Paths.PathJoin` | controller/videoController.js:41 | `path.join(dir, name)` for a normalised directory that does not end in `/` and a plain file name: `dir`, a `/`, then `name` |
| `Paths.Basename` | controller/videoController.js:41 | the basename never holds a `/` |
| `Paths.TrimmedIsPrefix` | controller/videoController.js:41 | dropping trailing slashes keeps a prefix, removes only `/` characters, and leaves no `/` at the end |
| `Paths.LastSegmentIsSuffix` | controller/videoController.js:41 | the last segment is a suffix of the path that is the whole path or follows a `/` |
| `Paths.BasenameIsLastComponent` | controller/videoController.js:41 | `path.basename` is the last component: once the trailing slashes are dropped, it is the slash-free suffix that is the whole remaining path or follows its last `/` |
| `Paths.BasenameOfJoin` | controller/videoController.js:41 | joining a directory and a plain name, then taking the basename, gives the name back |
| `Paths.BasenameOfPlainName` | controller/videoController.js:41 | a name without a slash is its own basename |
| `FilterGraph.Segment` | controller/videoController.js:60 | the template of line 60 for input `i`: `[i:v]scale=640:360,fps=30[vi];[i:a]anull[ai]` with `i` in decimal |
| `FilterGraph.Pair` | controller/videoController.js:61 | the template of line 61 for input `i`: `[vi][ai]` with `i` in decimal |
| `FilterGraph.ConcatClause` | controller/videoController.js:62 | the template of line 62: `concat=n=<N>:v=1:a=1[outv][outa]` with the file count N in decimal |
| `FilterGraph.FilterExpression` | controller/videoController.js:60-62 | for N staged files: the N segments joined with `;`, then `;`, then the N pairs joined with `""`, then the concat clause for N |
| `FilterGraph.BuildGraph` | controller/videoController.js:58-63 | the two arguments of `complexFilter`: the filter expression for the staged files and the mapped outputs `['outv', 'outa']` |
| `FilterGraph.FilterExpressionByLabels` | controller/videoController.js:60-62 | the filter expression is the chains of every input joined with `;`, a `;`, the concat input labels in bracketed form, and the concat clause, so the whole text is fixed by the pieces the other lemmas read back |
| `FilterGraph.SegmentIsTwoChains` | controller/videoController.js:60 | each per-input segment is the video chain `[i:v]scale=640:360,fps=30[vi]`, a `;`, and the audio chain `[i:a]anull[ai]` |
| `FilterGraph.FilterPieces` | controller/videoController.js:60-62 | split at `;`, the filter gives the chains of inputs 0..N-1 in order, then one last piece: the concat inputs followed by the concat clause |
| `FilterGraph.FilterLayout` | controller/videoController.js:60-62 | for N >= 1 files there are exactly 2N+1 pieces: piece 2i is the video chain of input i, piece 2i+1 its audio chain, piece 2N the concat part |
| `FilterGraph.FilterDeterminesCount` | controller/videoController.js:60-62 | two file lists give the same filter exactly when they have the same length |
| `FilterGraph.ConcatInputsLabels` | controller/videoController.js:61 | the concat input list reads back as exactly the labels v0, a0, v1, a1, ..., in input order |
| `FilterGraph.LabelDeterminesPosition` | controller/videoController.js:61 | a concat label `v<i>` or `a<i>` fixes its position in the concat input list: equal labels sit at equal positions |
| `FilterGraph.InputLabelsDistinct` | controller/videoController.js:61 | the concat input labels are pairwise distinct, so each stream is referenced once |
| `FilterGraph.ChainsFeedConcat` | controller/videoController.js:60-61 | the output label of input i's video chain is the concat label at position 2i, and its audio chain's is the label at 2i+1 |
| `FilterGraph.ConcatClauseCount` | controller/videoController.js:62-63 | the concat clause is `concat=n=<N in decimal>:v=1:a=1` followed by the mapped outputs; the count reads back as N; the outputs read back as `outv`, `outa` |
| `FilterGraph.GraphOutputs` | controller/videoController.js:58-63 | the graph's mapped outputs are exactly `['outv','outa']`; its filter ends in the concat clause for the file count, and so in the output labels `[outv][outa]` |
| `MergedId.Sanitize` | controller/videoController.js:72 | same length as the timestamp; every `-`, `:`, `.` becomes `_` and every other character is kept; no `-`, `:` or `.` remains |
| `MergedId.MergedVideoId` | controller/videoController.js:72 | the id starts with `merged_video_`, is 13 characters longer than the timestamp, holds no `-`, `:` or `.`, and keeps every other timestamp character in place |
| `MergedId.SanitizeIdempotent` | controller/videoController.js:72 | replacing a second time changes nothing |
| `MergedId.IsoIdInjective` | controller/videoController.js:72 | for ISO-8601 timestamps as `toISOString` writes them, two ids are equal exactly when the timestamps are |
| `MergeHandler.TempDir` | controller/videoController.js:14 | the staging directory `path.join(os.tmpdir(), 'uploads/video')` |
| `MergeHandler.StagedPath` | controller/videoController.js:41 | the target of a move: the staging directory joined with the upload's basename |
| `MergeHandler.MoveEffects` | controller/videoController.js:40-42 | one `fs.move` per file, in order: operation k moves file k to its staged path |
| `MergeHandler.StagedPathKeepsName` | controller/videoController.js:41 | a staged file keeps its basename |
| `MergeHandler.StagedPathCollision` | controller/videoController.js:41 | two uploads get the same staged path exactly when their basenames agree |
| `MergeHandler.StagedPaths` | controller/videoController.js:38-44 | one staged path per file, in submission order: entry k is the staging directory joined with the basename of file k |
| `MergeHandler.FirstFailure` | controller/videoController.js:39-47 | the index of the first failing move: every earlier move succeeded, and the move at that index failed unless it equals the file count |
| `MergeHandler.StageFiles` | controller/videoController.js:38-48 | the loop moves files in order and stops at the first failure. `movedFiles` holds the staged paths of the files before that failure. It succeeds exactly when every move did, and then has one staged path per file in order. Only the moves up to and including the failing one are attempted |
| `MergeHandler.EngineReply` | controller/videoController.js:50-94 | the specification of the engine and upload stage: the transcode of the staged files, then on `error` a 500 with the engine's message, and on `end` the upload of `output.mp4` under the merged-video id, answered with 200 and `secure_url` or with the fixed upload-failure 500 |
| `MergeHandler.HandlerReply` | controller/videoController.js:19-96 | the specification of the whole handler: 400 for a parse error or an empty list with no operation started; the moves up to the first failure, with a 500 if one fails; otherwise all moves followed by `EngineReply` over the staged paths |
| `MergeHandler.TranscodeAndPublish` | controller/videoController.js:50-94 | the first operation is the transcode of the staged files, with their filter graph, into `output.mp4` in the staging directory. On `error` it is the only operation, and the response is 500 with `Failed to merge videos. ` followed by the engine's message. On `end` the second and last operation uploads `output.mp4` under the merged-video id. The status is 200 exactly when the engine ended and the upload answered, and then the body is the success message with `url = secure_url`. A failed upload gives 500 with the fixed upload message. The result is also `EngineReply`, which `HandlerReply` uses |
| `MergeHandler.MergeVideos` | controller/videoController.js:19-96 | computes `HandlerReply`. A parse error gives 400 `Error parsing the files.` and an empty list gives 400 `No video files uploaded.`; neither moves anything. A failed move gives 500 `Failed to move video files.` after the moves attempted so far. Otherwise the engine and upload stages of `EngineReply` follow the moves |
| `MergedId.SanitizedIsoInjective` | controller/videoController.js:72 | on ISO timestamps the character replacement loses nothing: equal replaced texts come from equal timestamps |
| `MergeProperties.ResponseClassification` | controller/videoController.js:19-96 | the status is always 200, 400 or 500. It is 400 exactly on a parse error or an empty file list, and 200 exactly when every stage succeeded. A success body comes exactly with 200, and holds the success message and the store's `secure_url`. Each failure sends its own body: `Error parsing the files.`, `No video files uploaded.`, `Failed to move video files.`, `Failed to merge videos. ` followed by the engine's message, or `Failed to upload merged video to Cloudinary.` |
| `MergeProperties.RejectionStartsNothing` | controller/videoController.js:24-48 | a request answered with 400 starts no operation, and every other answer starts at least one |
| `MergeProperties.MovesThenOthers` | controller/videoController.js:38-48 | in the moves of the first n files followed by other operations, the k-th move is that of file k, for k < n |
| `MergeProperties.MovesStopAtFirstFailure` | controller/videoController.js:38-48 | every move the handler starts is the k-th file's move to its staged path. It happens in submission order, and none comes after the first failed move |
| `MergeProperties.AfterMoves` | controller/videoController.js:38-52 | moves placed in front of other operations add no transcode and no upload |
| `MergeProperties.EngineStage` | controller/videoController.js:50-94 | the engine stage starts with the transcode of the staged files. It ends with the upload of `output.mp4` under the merged-video id exactly when the engine reported `end` |
| `MergeProperties.TranscodeAfterAllMoves` | controller/videoController.js:38-52 | the engine is started exactly when the form parsed, held files and every move succeeded |
| `MergeProperties.TranscodeInputs` | controller/videoController.js:38-63 | when the engine is started, it comes right after the moves of all the files. It runs over the staged paths in submission order, with the filter graph built from them, writing `output.mp4` in the staging directory |
| `MergeProperties.UploadAfterEngineEnd` | controller/videoController.js:69-80 | the merged video is uploaded exactly when the engine ran and reported `end`. The upload is the last operation and uses the merged-video id of the timestamp read when the engine reports `end` |

## Left out

- Multipart parsing by formidable is foreign code: the model takes its outcome, failure or the list of uploaded file paths.
- `Object.values(files.video).map(file => file.filepath)` (line 31) is not reproduced: the file paths are taken as given. When the form has no `video` field, that expression throws inside the callback and no response is sent. The model does not cover this case.
- The file system is not modelled. Each `fs.move` is reduced to its success or failure (`moveOk(k)` for the k-th move), and the effect list records each move attempted. Creating the staging directory at module load (lines 16-17) is left out. `os.tmpdir()` is a parameter.
- `path.join` is modelled as `dir + "/" + name`, without normalisation. The model takes `tmpRoot` (the `os.tmpdir()` value) to be a normalised path that does not end in `/`. For a root that ends in `/`, above all `/` itself, `path.join` drops the doubled slash (`path.join("/", "uploads/video")` is `/uploads/video`) while the model keeps it. Normalisation also matters for the basenames `""`, `.` and `..`; formidable's generated file names are never one of these.
- The transcoding engine is an external process with event callbacks. Only its terminal event is modelled: `end`, or `error` with its message. The `start` event only logs. The global setting of the ffmpeg and ffprobe binary paths (lines 10-11) is configuration.
- The Cloudinary upload is a network call. Only its answer is modelled: the secure URL, or a failure. The `resource_type` and `overwrite` options are not represented.
- `new Date().toISOString()` is a parameter: the clock is read inside the engine's `end` handler (line 72), so `timestamp` is the time the engine reports `end`, not the time the request arrived. `MergedId.IsIsoTimestamp` covers years 0 to 9999. It does not cover the six-digit extended years `toISOString` writes outside that range.
- Console logging has no observable effect on the response and is left out.
- Express routing, CORS and static serving in `server.js` are HTTP plumbing and are left out.
- Concurrency between requests is left out. The model treats one request at a time, so the cross-job collisions on the shared staging directory and the fixed `output.mp4` are not modelled.
- The code has no job-scoped directories, no cleanup of staged or output files, and no retry. None of these is modelled.
