/** The Job Orchestrator of server.js: POST /api/test/run (server.js:32-80).
    The request is validated, the test client is spawned with `node`, its
    stdout chunks are pushed to clients as progress, and on `close` one
    completion message is broadcast and the HTTP request is answered.
    The child process is given as the finite trace of output chunks that its
    two streams deliver, followed by its exit code. */
module Runner {
  import opened Base
  import opened Text
  import opened Lists
  import opened Hub

  /** The JavaScript truthiness of the request's `confidence`, and when it is
      truthy the text that the template literal `${confidence}` produces. */
  datatype Confidence = Falsy | Truthy(text: string)

  /** The JSON body `{ video, sport, confidence, saveImages }`. A missing field
      is None; `saveImages` is Some(b) only when it is a boolean. */
  datatype RunRequest = RunRequest(
    video: Option<string>, sport: Option<string>, confidence: Confidence, saveImages: Option<bool>)

  /** One 'data' event of the child's stdout or stderr, as `data.toString()`. */
  datatype Chunk = Stdout(text: string) | Stderr(text: string)

  /** The JSON body of the reply: `{ success: true, output }` or `{ error }`. */
  datatype RunBody = Succeeded(output: string) | Failed(error: string)

  datatype RunReply = RunReply(status: int, body: RunBody)

  /** What the handler does, in order: spawn the child, send a message to all
      open clients, answer the HTTP request. */
  datatype Effect = Spawn(command: string, args: seq<string>) | Send(msg: Message) | Respond(reply: RunReply)

  /** `!value` is false: the field is there and is not the empty string. */
  predicate Present(v: Option<string>) { v.Some? && v.value != "" }

  /** path.join(__dirname, 'cauliflower-tests', 'video-test-client.js') */
  function TestPath(root: string): string { root + "/cauliflower-tests/video-test-client.js" }

  /** path.join(__dirname, 'cauliflower-tests', 'test_videos', video) */
  function VideoPath(root: string, video: string): string { root + "/cauliflower-tests/test_videos/" + video }

  const CONFIDENCE_FLAG := "--confidence="
  const NO_SAVE_FLAG := "--saveOutput=false"

  /** The argument vector in one expression. */
  function ArgVector(testPath: string, videoPath: string, sport: string, confidence: Confidence, saveImages: Option<bool>): seq<string>
  {
    [testPath, videoPath, sport]
    + (if confidence.Truthy? then [CONFIDENCE_FLAG + confidence.text] else [])
    + (if saveImages == Some(false) then [NO_SAVE_FLAG] else [])
  }

  /** server.js:48-54: the vector is grown by `push`. */
  method BuildArgs(testPath: string, videoPath: string, sport: string, confidence: Confidence, saveImages: Option<bool>)
    returns (args: seq<string>)
    ensures args == ArgVector(testPath, videoPath, sport, confidence, saveImages)
  {
    args := [testPath, videoPath, sport];
    if confidence.Truthy? {
      args := args + [CONFIDENCE_FLAG + confidence.text];
    }
    if saveImages == Some(false) {
      args := args + [NO_SAVE_FLAG];
    }
  }

  /** The rules of the vector: the three positional arguments come first; the
      confidence flag is there exactly when `confidence` is truthy; the
      no-save flag is there exactly when `saveImages === false`, and then it is
      last, after the confidence flag. */
  lemma ArgVectorRules(testPath: string, videoPath: string, sport: string, confidence: Confidence, saveImages: Option<bool>)
    ensures var args := ArgVector(testPath, videoPath, sport, confidence, saveImages);
      && 3 <= |args| <= 5
      && |args| == 3 + (if confidence.Truthy? then 1 else 0) + (if saveImages == Some(false) then 1 else 0)
      && args[..3] == [testPath, videoPath, sport]
      && ((exists i :: 3 <= i < |args| && StartsWith(args[i], CONFIDENCE_FLAG)) <==> confidence.Truthy?)
      && (confidence.Truthy? ==> args[3] == CONFIDENCE_FLAG + confidence.text)
      && ((exists i :: 3 <= i < |args| && args[i] == NO_SAVE_FLAG) <==> saveImages == Some(false))
      && (saveImages == Some(false) ==> args[|args| - 1] == NO_SAVE_FLAG)
  {
    var args := ArgVector(testPath, videoPath, sport, confidence, saveImages);
    var flags := args[3..];
    assert args == [testPath, videoPath, sport] + flags;
    assert !StartsWith(NO_SAVE_FLAG, CONFIDENCE_FLAG) by {
      assert NO_SAVE_FLAG[2] != CONFIDENCE_FLAG[2];
    }
    if confidence.Truthy? {
      var flag := CONFIDENCE_FLAG + confidence.text;
      assert flag[..|CONFIDENCE_FLAG|] == CONFIDENCE_FLAG;
      assert StartsWith(args[3], CONFIDENCE_FLAG);
      assert flag != NO_SAVE_FLAG by {
        assert flag[2] != NO_SAVE_FLAG[2];
      }
      if saveImages == Some(false) {
        assert flags == [flag, NO_SAVE_FLAG];
        assert args[4] == NO_SAVE_FLAG;
      } else {
        assert flags == [flag];
      }
    } else {
      if saveImages == Some(false) {
        assert flags == [NO_SAVE_FLAG];
        assert args[3] == NO_SAVE_FLAG;
      } else {
        assert flags == [];
      }
    }
  }

  predicate IsStdout(c: Chunk) { c.Stdout? }

  /** The progress message one stdout chunk becomes. */
  function ProgressOf(c: Chunk): Effect { Send(TestProgress(c.text)) }

  /** `output`: the stdout chunks concatenated in arrival order. */
  function StdoutText(trace: seq<Chunk>): string
  {
    if trace == [] then ""
    else StdoutText(trace[..|trace| - 1]) + (match trace[|trace| - 1] case Stdout(t) => t case Stderr(_) => "")
  }

  /** `error`: the stderr chunks concatenated in arrival order. */
  function StderrText(trace: seq<Chunk>): string
  {
    if trace == [] then ""
    else StderrText(trace[..|trace| - 1]) + (match trace[|trace| - 1] case Stderr(t) => t case Stdout(_) => "")
  }

  /** The progress broadcasts, in the order the chunks arrive. */
  function Progress(trace: seq<Chunk>): seq<Effect>
  {
    if trace == [] then []
    else Progress(trace[..|trace| - 1]) + (if trace[|trace| - 1].Stdout? then [ProgressOf(trace[|trace| - 1])] else [])
  }

  /** The message broadcast on 'close' (server.js:72-77). */
  function Completion(trace: seq<Chunk>, exit: Option<int>): Message
  {
    if exit == Some(0) then TestComplete(true, None) else TestComplete(false, Some(StderrText(trace)))
  }

  /** The HTTP reply sent on 'close' (server.js:72-78). */
  function CloseReply(trace: seq<Chunk>, exit: Option<int>): RunReply
  {
    if exit == Some(0) then RunReply(200, Succeeded(StdoutText(trace)))
    else RunReply(500, Failed(if StderrText(trace) == "" then "Test failed" else StderrText(trace)))
  }

  /** Everything the handler does after spawning. */
  function Supervision(trace: seq<Chunk>, exit: Option<int>): seq<Effect>
  {
    Progress(trace) + [Send(Completion(trace, exit)), Respond(CloseReply(trace, exit))]
  }

  /** The stream callbacks and the 'close' callback of server.js:58-79, run over
      the trace: `exit` is the `code` of 'close', None when the child was
      killed by a signal (code null). */
  method Supervise(trace: seq<Chunk>, exit: Option<int>) returns (effects: seq<Effect>)
    ensures effects == Supervision(trace, exit)
  {
    var output := "";
    var error := "";
    effects := [];
    for i := 0 to |trace|
      invariant output == StdoutText(trace[..i])
      invariant error == StderrText(trace[..i])
      invariant effects == Progress(trace[..i])
    {
      assert trace[..i + 1][..i] == trace[..i];
      match trace[i] {
        case Stdout(data) =>
          output := output + data;
          effects := effects + [Send(TestProgress(data))];
        case Stderr(data) =>
          error := error + data;
      }
    }
    assert trace[..|trace|] == trace;
    if exit == Some(0) {
      effects := effects + [Send(TestComplete(true, None)), Respond(RunReply(200, Succeeded(output)))];
    } else {
      effects := effects + [Send(TestComplete(false, Some(error)))];
      effects := effects + [Respond(RunReply(500, Failed(if error == "" then "Test failed" else error)))];
    }
  }

  /** POST /api/test/run (server.js:32-80). `existing` is the set of paths for
      which fs.existsSync holds. */
  method HandleRun(req: RunRequest, root: string, existing: set<string>, trace: seq<Chunk>, exit: Option<int>)
    returns (effects: seq<Effect>)
    ensures !Present(req.video) || !Present(req.sport) ==>
      effects == [Respond(RunReply(400, Failed("Video and sport are required")))]
    ensures Present(req.video) && Present(req.sport) && VideoPath(root, req.video.value) !in existing ==>
      effects == [Respond(RunReply(404, Failed("Video not found: " + req.video.value)))]
    ensures Present(req.video) && Present(req.sport) && VideoPath(root, req.video.value) in existing ==>
      effects == [Spawn("node", ArgVector(TestPath(root), VideoPath(root, req.video.value), req.sport.value,
                                          req.confidence, req.saveImages))]
                 + Supervision(trace, exit)
  {
    if !Present(req.video) || !Present(req.sport) {
      return [Respond(RunReply(400, Failed("Video and sport are required")))];
    }
    var video, sport := req.video.value, req.sport.value;
    var testPath := TestPath(root);
    var videoPath := VideoPath(root, video);
    if videoPath !in existing {
      return [Respond(RunReply(404, Failed("Video not found: " + video)))];
    }
    var args := BuildArgs(testPath, videoPath, sport, req.confidence, req.saveImages);
    var after := Supervise(trace, exit);
    effects := [Spawn("node", args)] + after;
  }

  predicate IsCompletion(e: Effect) { e.Send? && e.msg.TestComplete? }

  /** Each stdout chunk is broadcast as one `test_progress`, in arrival order,
      and nothing else is part of the progress. */
  lemma {:induction false} ProgressIsStdoutInOrder(trace: seq<Chunk>)
    ensures Progress(trace) == Map(Filter(trace, IsStdout), ProgressOf)
  {
    if trace != [] {
      var init, last := trace[..|trace| - 1], trace[|trace| - 1];
      var piece := if last.Stdout? then [ProgressOf(last)] else [];
      assert Progress(trace) == Progress(init) + piece;
      ProgressIsStdoutInOrder(init);
      assert trace == init + [last];
      FilterAppend(init, [last], IsStdout);
      MapAppend(Filter(init, IsStdout), Filter([last], IsStdout), ProgressOf);
      SingletonProgress(last);
    }
  }

  lemma SingletonProgress(c: Chunk)
    ensures Map(Filter([c], IsStdout), ProgressOf) == if c.Stdout? then [ProgressOf(c)] else []
  {
    assert [c][1..] == [];
    assert Filter([c], IsStdout) == if c.Stdout? then [c] else [];
  }

  /** No progress broadcast is a completion. */
  lemma ProgressHasNoCompletion(trace: seq<Chunk>)
    ensures Filter(Progress(trace), IsCompletion) == []
    ensures forall i | 0 <= i < |Progress(trace)| :: Progress(trace)[i].Send? && Progress(trace)[i].msg.TestProgress?
  {
    ProgressIsStdoutInOrder(trace);
    var progress := Progress(trace);
    assert forall e | e in progress :: !IsCompletion(e);
    FilterNone(progress, IsCompletion);
  }

  /** After spawning there is exactly one `test_complete`; every broadcast
      before it is progress; the HTTP reply comes last, after it. */
  lemma SupervisionOrder(trace: seq<Chunk>, exit: Option<int>)
    ensures var fx := Supervision(trace, exit);
      && |Filter(fx, IsCompletion)| == 1
      && IsCompletion(fx[|fx| - 2])
      && fx[|fx| - 1].Respond?
      && forall i | 0 <= i < |fx| - 2 :: fx[i].Send? && fx[i].msg.TestProgress?
  {
    var progress := Progress(trace);
    ProgressHasNoCompletion(trace);
    var tail := [Send(Completion(trace, exit)), Respond(CloseReply(trace, exit))];
    FilterAppend(progress, tail, IsCompletion);
    assert Filter(tail, IsCompletion) == [tail[0]] by {
      assert tail[1..] == [tail[1]] && tail[1..][1..] == [];
    }
    var fx := progress + tail;
    assert forall i | 0 <= i < |fx| - 2 :: fx[i] == progress[i];
  }

  /** Success is decided by the exit code alone: code 0 gives success in both
      the broadcast and the reply, with the stdout as output; any other
      outcome gives failure, the stderr as the broadcast error and a 500
      reply whose error is the stderr, or "Test failed" when it is empty. */
  lemma CompletionOutcome(trace: seq<Chunk>, exit: Option<int>)
    ensures Completion(trace, exit).success <==> exit == Some(0)
    ensures CloseReply(trace, exit).status == 200 <==> exit == Some(0)
    ensures exit == Some(0) ==> CloseReply(trace, exit).body == Succeeded(StdoutText(trace))
    ensures exit != Some(0) ==>
      && Completion(trace, exit).error == Some(StderrText(trace))
      && CloseReply(trace, exit).body.Failed?
      && CloseReply(trace, exit).body.error != ""
      && (StderrText(trace) != "" ==> CloseReply(trace, exit).body.error == StderrText(trace))
    ensures exit != Some(0) ==> CloseReply(trace, exit).status == 500
    ensures exit != Some(0) && StderrText(trace) == "" ==> CloseReply(trace, exit).body.error == "Test failed"
  {
  }

  /** A run of a missing video: POST { video: "clip.mp4", sport: "basketball" }
      with no such file is answered 404 and nothing is spawned or broadcast. */
  method MissingVideoExample(root: string, trace: seq<Chunk>, exit: Option<int>) returns (effects: seq<Effect>)
    ensures effects == [Respond(RunReply(404, Failed("Video not found: clip.mp4")))]
  {
    effects := HandleRun(RunRequest(Some("clip.mp4"), Some("basketball"), Falsy, None), root, {}, trace, exit);
    assert "Video not found: " + "clip.mp4" == "Video not found: clip.mp4";
  }
}
